/** Escaping text for a Turtle string literal, against sections 6.4 and 6.5 of RDF 1.1 Turtle. */
module TurtleEscape {
  import opened Domain

  /** `s.replace(c, by)` for a single character. */
  function Replace(s: string, c: char, put: string): string {
    if s == "" then "" else (if s[0] == c then put else [s[0]]) + Replace(s[1..], c, put)
  }

  /** Five replacements of the whole string, the backslash first. */
  function Escape(value: string): string {
    if value == "" then value
    else
      var a := Replace(value, '\\', "\\\\");
      var b := Replace(a, '"', "\\\"");
      var c := Replace(b, '\n', "\\n");
      var d := Replace(c, '\r', "\\r");
      Replace(d, '\t', "\\t")
  }

  /** One pass over the characters. */
  function EscapeChar(c: char): string {
    match c
    case '\\' => "\\\\"
    case '"' => "\\\""
    case '\n' => "\\n"
    case '\r' => "\\r"
    case '\t' => "\\t"
    case _ => [c]
  }

  function EscapeEach(value: string): string {
    if value == "" then "" else EscapeChar(value[0]) + EscapeEach(value[1..])
  }

  lemma {:induction false} ReplaceAppend(a: string, b: string, c: char, put: string)
    ensures Replace(a + b, c, put) == Replace(a, c, put) + Replace(b, c, put)
  {
    if a == "" {
      assert a + b == b;
    } else {
      var tail, first := a[1..], if a[0] == c then put else [a[0]];
      ReplaceAppend(tail, b, c, put);
      assert (a + b)[1..] == tail + b && (a + b)[0] == a[0];
      assert first + (Replace(tail, c, put) + Replace(b, c, put)) == (first + Replace(tail, c, put))
             + Replace(b, c, put);
    }
  }

  lemma ReplaceShort(x: char, y: char, c: char, put: string)
    ensures Replace([x], c, put) == if x == c then put else [x]
    ensures Replace([x, y], c, put) == (if x == c then put else [x]) + (if y == c then put else [y])
  {
    assert [x][1..] == "" && [x, y][1..] == [y] && [y][1..] == "";
  }

  /** The five replacements on one character, all later ones included. */
  lemma {:induction false} EscapeOfChar(x: char)
    ensures Replace(Replace(Replace(Replace(Replace([x], '\\', "\\\\"), '"', "\\\""), '\n', "\\n"), '\r', "\\r"),
                    '\t', "\\t")
            == EscapeChar(x)
  {
    ReplaceShort(x, x, '\\', "\\\\");
    ReplaceShort(x, x, '"', "\\\"");
    ReplaceShort(x, x, '\n', "\\n");
    ReplaceShort(x, x, '\r', "\\r");
    ReplaceShort(x, x, '\t', "\\t");
    forall y: char, c: char, put: string
      ensures Replace(['\\', y], c, put) == (if '\\' == c then put else ['\\']) + (if y == c then put else [y])
    {
      ReplaceShort('\\', y, c, put);
    }
  }

  /** No replacement touches what an earlier one has put in: the five passes are one pass. */
  lemma {:induction false} FivePassesAreOne(value: string)
    ensures Escape(value) == EscapeEach(value)
  {
    if value != "" {
      var head, tail := [value[0]], value[1..];
      assert value == head + tail;
      FivePassesAreOne(tail);
      EscapeOfChar(value[0]);
      ReplaceAppend(head, tail, '\\', "\\\\");
      var h1, t1 := Replace(head, '\\', "\\\\"), Replace(tail, '\\', "\\\\");
      ReplaceAppend(h1, t1, '"', "\\\"");
      var h2, t2 := Replace(h1, '"', "\\\""), Replace(t1, '"', "\\\"");
      ReplaceAppend(h2, t2, '\n', "\\n");
      var h3, t3 := Replace(h2, '\n', "\\n"), Replace(t2, '\n', "\\n");
      ReplaceAppend(h3, t3, '\r', "\\r");
      ReplaceAppend(Replace(h3, '\r', "\\r"), Replace(t3, '\r', "\\r"), '\t', "\\t");
    }
  }

  function HexDigit(c: char): Option<nat> {
    if '0' <= c <= '9' then Some(c as nat - '0' as nat)
    else if 'A' <= c <= 'F' then Some(c as nat - 'A' as nat + 10)
    else if 'a' <= c <= 'f' then Some(c as nat - 'a' as nat + 10)
    else None
  }

  function HexValue(s: string): Option<nat> {
    if s == "" then Some(0)
    else
      match (HexValue(s[..|s| - 1]), HexDigit(s[|s| - 1]))
      case (Some(high), Some(digit)) => Some(16 * high + digit)
      case _ => None
  }

  predicate IsCharacter(code: nat) {
    code < 0xD800 || 0xE000 <= code < 0x11_0000
  }

  /** The character of a numeric escape with `n` digits at the start of `s`. */
  function NumericEscape(s: string, n: nat): Option<char> {
    if |s| < n then None
    else
      match HexValue(s[..n])
      case Some(code) => if IsCharacter(code) then Some(code as char) else None
      case None => None
  }

  function EscapedChar(c: char): Option<char> {
    match c
    case 't' => Some('\t')
    case 'b' => Some('\U{8}')
    case 'n' => Some('\n')
    case 'r' => Some('\r')
    case 'f' => Some('\U{C}')
    case '"' => Some('"')
    case '\'' => Some('\'')
    case '\\' => Some('\\')
    case _ => None
  }

  /**
   * Reads the body of a STRING_LITERAL_QUOTE: any character but the quote, the backslash, line feed and
   * carriage return, or a string escape, or a numeric escape; nothing if the body is not one.
   */
  function Read(body: string): Option<string>
    decreases |body|
  {
    if body == "" then Some("")
    else if body[0] == '\\' then
      if |body| == 1 then None
      else if body[1] == 'u' then Then(NumericEscape(body[2..], 4), if |body| >= 6 then Read(body[6..]) else None)
      else if body[1] == 'U' then Then(NumericEscape(body[2..], 8), if |body| >= 10 then Read(body[10..]) else None)
      else Then(EscapedChar(body[1]), Read(body[2..]))
    else if body[0] == '"' || body[0] == '\n' || body[0] == '\r' then None
    else Then(Some(body[0]), Read(body[1..]))
  }

  function Then(c: Option<char>, rest: Option<string>): Option<string> {
    match (c, rest)
    case (Some(x), Some(s)) => Some([x] + s)
    case _ => None
  }

  lemma {:induction false} ReadEscapedChar(c: char, rest: string)
    ensures Read(EscapeChar(c) + rest) == Then(Some(c), Read(rest))
  {
    var all := EscapeChar(c) + rest;
    if |EscapeChar(c)| == 2 {
      assert all[2..] == rest;
    } else {
      assert all[1..] == rest;
    }
  }

  /** Whatever the text, its escaped form is a legal literal body, and reading that gives the text back. */
  lemma {:induction false} EscapeRoundTrip(value: string)
    ensures Read(Escape(value)) == Some(value)
  {
    FivePassesAreOne(value);
    ReadEscapedEach(value);
  }

  lemma {:induction false} ReadEscapedEach(value: string)
    ensures Read(EscapeEach(value)) == Some(value)
  {
    if value != "" {
      ReadEscapedEach(value[1..]);
      ReadEscapedChar(value[0], EscapeEach(value[1..]));
      assert [value[0]] + value[1..] == value;
    }
  }

  /** Different texts have different escaped forms. */
  lemma EscapeIsInjective(a: string, b: string)
    requires Escape(a) == Escape(b)
    ensures a == b
  {
    EscapeRoundTrip(a);
    EscapeRoundTrip(b);
  }

  /** The same five replacements with the backslash last. */
  function EscapeBackslashLast(value: string): string {
    var a := Replace(value, '"', "\\\"");
    var b := Replace(a, '\n', "\\n");
    var c := Replace(b, '\r', "\\r");
    var d := Replace(c, '\t', "\\t");
    Replace(d, '\\', "\\\\")
  }

  /** The characters escaped after the backslash. */
  predicate EscapedLater(c: char) {
    c == '"' || c == '\n' || c == '\r' || c == '\t'
  }

  lemma ReplaceAppendAll(a: string, b: string)
    ensures EscapeBackslashLast(a + b) == EscapeBackslashLast(a) + EscapeBackslashLast(b)
  {
    ReplaceAppend(a, b, '"', "\\\"");
    var a1, b1 := Replace(a, '"', "\\\""), Replace(b, '"', "\\\"");
    ReplaceAppend(a1, b1, '\n', "\\n");
    var a2, b2 := Replace(a1, '\n', "\\n"), Replace(b1, '\n', "\\n");
    ReplaceAppend(a2, b2, '\r', "\\r");
    var a3, b3 := Replace(a2, '\r', "\\r"), Replace(b2, '\r', "\\r");
    ReplaceAppend(a3, b3, '\t', "\\t");
    ReplaceAppend(Replace(a3, '\t', "\\t"), Replace(b3, '\t', "\\t"), '\\', "\\\\");
  }

  lemma BackslashLastOfChar(x: char)
    ensures |EscapeBackslashLast([x])| == |EscapeChar(x)| + (if EscapedLater(x) then 1 else 0)
    ensures !EscapedLater(x) ==> EscapeBackslashLast([x]) == EscapeChar(x)
  {
    forall y: char, c: char, put: string
      ensures Replace([y], c, put) == if y == c then put else [y]
      ensures Replace(['\\', y], c, put) == (if '\\' == c then put else ['\\']) + (if y == c then put else [y])
    {
      ReplaceShort(y, y, c, put);
      ReplaceShort('\\', y, c, put);
    }
  }

  /** Every character escaped after the backslash makes the text one longer. */
  lemma {:induction false} BackslashLastIsLonger(value: string)
    ensures |EscapeBackslashLast(value)| >= |EscapeEach(value)|
    ensures (exists i | 0 <= i < |value| :: EscapedLater(value[i])) ==>
              |EscapeBackslashLast(value)| > |EscapeEach(value)|
    ensures (forall i | 0 <= i < |value| :: !EscapedLater(value[i])) ==> EscapeBackslashLast(value) == EscapeEach(value)
  {
    hide EscapeBackslashLast, EscapeChar;
    if value == "" {
      assert EscapeBackslashLast("") == "" by { NothingToEscape(); }
    } else {
      var head, tail := [value[0]], value[1..];
      assert value == head + tail;
      BackslashLastIsLonger(tail);
      ReplaceAppendAll(head, tail);
      BackslashLastOfChar(value[0]);
    }
  }

  lemma NothingToEscape()
    ensures EscapeBackslashLast("") == ""
  {
  }

  /** Escaping the backslash last gives another text if and only if one of the other four is to be escaped. */
  lemma BackslashMustBeFirst(value: string)
    ensures EscapeBackslashLast(value) != Escape(value) <==> exists i | 0 <= i < |value| :: EscapedLater(value[i])
  {
    hide EscapeBackslashLast, Escape, EscapeEach;
    FivePassesAreOne(value);
    BackslashLastIsLonger(value);
  }
}
