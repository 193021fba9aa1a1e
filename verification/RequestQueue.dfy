/** Taking bites of waiting requests from the Redis queue while producers go on pushing. */
module RequestQueue {
  import opened Domain
  import opened Time

  newtype Byte = b: int | 0 <= b < 256

  type Payload = seq<Byte>

  function Reversed<T>(xs: seq<T>): (r: seq<T>)
    ensures |r| == |xs|
    ensures forall i | 0 <= i < |xs| :: r[i] == xs[|xs| - 1 - i]
  {
    if xs == [] then [] else Reversed(xs[1..]) + [xs[0]]
  }

  lemma ReversedTwice<T>(xs: seq<T>)
    ensures Reversed(Reversed(xs)) == xs
  {
  }

  lemma ReversedAppend<T>(xs: seq<T>, ys: seq<T>)
    ensures Reversed(xs + ys) == Reversed(ys) + Reversed(xs)
  {
  }

  predicate EndsWith<T(==)>(xs: seq<T>, last: seq<T>) {
    |last| <= |xs| && xs[|xs| - |last|..] == last
  }

  function TotalBytes(payloads: seq<Payload>): nat {
    if payloads == [] then 0 else TotalBytes(payloads[..|payloads| - 1]) + |payloads[|payloads| - 1]|
  }

  lemma TotalBytesNone()
    ensures TotalBytes([]) == 0
  {
  }

  lemma TotalBytesOne(raw: Payload)
    ensures TotalBytes([raw]) == |raw|
  {
    assert TotalBytes([raw][..0]) == 0;
  }

  lemma {:induction false} TotalBytesAppend(xs: seq<Payload>, ys: seq<Payload>)
    ensures TotalBytes(xs + ys) == TotalBytes(xs) + TotalBytes(ys)
  {
    if ys == [] {
      assert xs + ys == xs;
    } else {
      TotalBytesAppend(xs, ys[..|ys| - 1]);
      assert (xs + ys)[..|xs + ys| - 1] == xs + ys[..|ys| - 1];
    }
  }

  /** The two Redis lists. Producers push requests on the left, so the oldest one is rightmost. */
  class RedisServer {
    var requests: seq<Payload>
    var responses: seq<Payload>
    /** Every request ever pushed by a producer, in order. */
    ghost var pushed: seq<Payload>
    /** The requests consumed so far, in order: popped and not pushed back. */
    ghost var taken: seq<Payload>

    constructor ()
      ensures requests == responses == [] && pushed == taken == []
    {
      requests, responses, pushed, taken := [], [], [], [];
    }

    /** The waiting requests, oldest first. */
    function Waiting(): seq<Payload>
      reads this`requests
    {
      Reversed(requests)
    }

    /** Nothing is lost, doubled or reordered: consumed requests and waiting ones are all that was pushed. */
    ghost predicate Conserves()
      reads this
    {
      taken + Waiting() == pushed
    }

    /**
     * Between two states that conserve requests, a bite and what waits after it are what waited before it and
     * what came.
     */
    twostate lemma TakenInOrder(bite: seq<Payload>)
      requires old(Conserves()) && Conserves() && old(pushed) <= pushed && taken == old(taken) + bite
      ensures bite + Waiting() == old(Waiting()) + pushed[|old(pushed)|..]
    {
      hide Reversed;
      assert pushed == old(pushed) + pushed[|old(pushed)|..];
      assert bite + Waiting() == pushed[|old(taken)|..] by {
        assert pushed == old(taken) + (bite + Waiting());
      }
      assert pushed == old(taken) + (old(Waiting()) + pushed[|old(pushed)|..]);
    }

    /** Producers push any number of requests, which may happen before every command. */
    method Arrivals()
      modifies this`requests, this`pushed
      ensures old(Conserves()) ==> Conserves()
      ensures old(pushed) <= pushed && old(Waiting()) <= Waiting()
    {
      hide Reversed;
      var newest: seq<Payload> := *;
      ghost var before := Waiting();
      ReversedAppend(Reversed(newest), requests);
      ReversedTwice(newest);
      requests := Reversed(newest) + requests;
      pushed := pushed + newest;
      assert Waiting() == before + newest;
      assert taken + (before + newest) == (taken + before) + newest;
    }

    /** BRPOP: nothing only if nothing is waiting when the timeout ends. */
    method BlockingPop() returns (first: Option<Payload>)
      requires Conserves()
      modifies this`requests, this`pushed, this`taken
      ensures Conserves() && old(pushed) <= pushed
      ensures first == None ==> Waiting() == [] && taken == old(taken)
      ensures first.Some? ==> taken == old(taken) + [first.value]
    {
      Arrivals();
      first := None;
      if requests != [] {
        var popped := PopFromRight(1);
        first := Some(popped[0]);
      }
    }

    /** LMPOP from the right: up to `count` of the oldest requests, oldest first. */
    method PopWaiting(count: nat) returns (popped: seq<Payload>)
      requires Conserves() && count > 0
      modifies this`requests, this`pushed, this`taken
      ensures Conserves() && old(pushed) <= pushed
      ensures taken == old(taken) + popped && |popped| <= count
      ensures |popped| < count ==> Waiting() == []
    {
      Arrivals();
      popped := PopFromRight(if count < |requests| then count else |requests|);
    }

    method PopFromRight(count: nat) returns (popped: seq<Payload>)
      requires Conserves() && count <= |requests|
      modifies this`requests, this`taken
      ensures Conserves() && |popped| == count && popped <= old(Waiting())
      ensures taken == old(taken) + popped && |requests| == |old(requests)| - count
    {
      var rest, right := requests[..|requests| - count], requests[|requests| - count..];
      assert requests == rest + right;
      ReversedAppend(rest, right);
      popped := Reversed(right);
      requests := rest;
      taken := taken + popped;
    }

    /** RPUSH of the last requests taken, in reverse order: they wait again as the oldest, in their old order. */
    method PushBack(back: seq<Payload>)
      requires Conserves() && EndsWith(taken, back)
      modifies this`requests, this`pushed, this`taken
      ensures Conserves() && old(pushed) <= pushed
      ensures taken == old(taken)[..|old(taken)| - |back|] && back <= Waiting()
    {
      hide Reversed;
      Arrivals();
      ReversedAppend(requests, Reversed(back));
      ReversedTwice(back);
      requests := requests + Reversed(back);
      taken := taken[..|taken| - |back|];
    }

    /** The pushed responses, oldest first, as a consumer popping from the right reads them. */
    function ResponseStream(): seq<Payload>
      reads this`responses
    {
      Reversed(responses)
    }

    /** One pipeline of LPUSH commands. */
    method PushResponses(payloads: seq<Payload>)
      modifies this`responses, this`requests, this`pushed
      ensures ResponseStream() == old(ResponseStream()) + payloads
      ensures old(Conserves()) ==> Conserves()
      ensures old(pushed) <= pushed
    {
      Arrivals();
      for i := 0 to |payloads|
        modifies this`responses
        invariant ResponseStream() == old(ResponseStream()) + payloads[..i]
      {
        ReversedAppend([payloads[i]], responses);
        responses := [payloads[i]] + responses;
        assert payloads[..i + 1] == payloads[..i] + [payloads[i]];
      }
      assert payloads[..|payloads|] == payloads;
    }
  }

  const LINGER_POLL_SECONDS := 0.05

  /** How many polls of at least 0.05 s, or up to the deadline, still fit. */
  function PollsLeft(remaining: real): nat {
    if remaining <= 0.0 then 0 else (remaining / 0.05).Floor + 1
  }

  lemma PollsRunOut(remaining: real, slept: real)
    requires remaining > 0.0 && (slept >= 0.05 || slept >= remaining)
    ensures PollsLeft(remaining - slept) < PollsLeft(remaining)
  {
    if remaining - slept > 0.0 {
      assert (remaining - slept) / 0.05 <= remaining / 0.05 - 1.0;
    }
  }

  class RedisRequestQueue {
    const server: RedisServer
    const timer: Clock
    const maxBytes: nat
    const lingerMs: nat

    constructor (server: RedisServer, timer: Clock, maxBytes: nat, lingerMs: nat)
      ensures this.server == server && this.timer == timer && this.maxBytes == maxBytes && this.lingerMs == lingerMs
    {
      this.server, this.timer, this.maxBytes, this.lingerMs := server, timer, maxBytes, lingerMs;
    }

    /** `_within_byte_cap`: the longest prefix that fits; the rest goes back to be taken next. */
    method WithinByteCap(waiting: seq<Payload>, remainingBytes: nat) returns (fitting: seq<Payload>)
      requires server.Conserves() && EndsWith(server.taken, waiting)
      modifies server`requests, server`pushed, server`taken
      ensures server.Conserves() && old(server.pushed) <= server.pushed
      ensures fitting <= waiting && TotalBytes(fitting) <= remainingBytes
      ensures server.taken == old(server.taken)[..|old(server.taken)| - |waiting|] + fitting
      ensures |fitting| < |waiting| ==>
                && TotalBytes(fitting) + |waiting[|fitting|]| > remainingBytes
                && waiting[|fitting|..] <= server.Waiting()
    {
      hide Reversed, TotalBytes, RedisServer.Waiting, RedisServer.Conserves;
      var used := 0;
      fitting := [];
      assert TotalBytes([]) == 0 by { TotalBytesNone(); }
      for position := 0 to |waiting|
        invariant fitting == waiting[..position] && used == TotalBytes(fitting) <= remainingBytes
        invariant server.taken == old(server.taken) && server.pushed == old(server.pushed)
        invariant server.Conserves()
      {
        var raw := waiting[position];
        if used + |raw| > remainingBytes {
          var all := |server.taken|;
          assert server.taken[all - |waiting[position..]|..] == waiting[position..];
          server.PushBack(waiting[position..]);
          return;
        }
        TotalBytesOne(raw);
        TotalBytesAppend(fitting, [raw]);
        fitting := fitting + [raw];
        used := used + |raw|;
      }
    }

    /** Up to `limit` requests: waits for the first, then takes only those already waiting. */
    method Take(limit: int) returns (bite: seq<Payload>)
      requires server.Conserves()
      modifies server`requests, server`pushed, server`taken, timer
      ensures server.Conserves() && old(server.pushed) <= server.pushed
      ensures server.taken == old(server.taken) + bite
      ensures bite + server.Waiting() == old(server.Waiting()) + server.pushed[|old(server.pushed)|..]
      ensures |bite| <= (if limit > 1 then limit else 1)
      ensures |bite| > 1 ==> TotalBytes(bite) <= maxBytes
      ensures bite == [] ==> server.Waiting() == []
      ensures bite != [] && |bite| < limit && TotalBytes(bite) < maxBytes && server.Waiting() != [] ==>
                TotalBytes(bite) + |server.Waiting()[0]| > maxBytes
      ensures bite != [] && |bite| < limit && TotalBytes(bite) < maxBytes && server.Waiting() == [] ==>
                timer.now >= old(timer.now) + lingerMs as real / MS_PER_SECOND
    {
      hide Reversed, TotalBytes, PollsLeft, RedisServer.Waiting, RedisServer.Conserves;
      var first := server.BlockingPop();
      if first == None {
        server.TakenInOrder([]);
        return [];
      }
      bite := [first.value];
      TotalBytesOne(first.value);
      var biteBytes := |first.value|;
      var started := timer.Read();
      var deadline := started + lingerMs as real / MS_PER_SECOND;
      while |bite| < limit && biteBytes < maxBytes
        invariant server.Conserves() && old(server.pushed) <= server.pushed
        invariant server.taken == old(server.taken) + bite
        invariant bite != [] && biteBytes == TotalBytes(bite)
        invariant |bite| <= (if limit > 1 then limit else 1)
        invariant |bite| > 1 ==> TotalBytes(bite) <= maxBytes
        invariant deadline >= old(timer.now) + lingerMs as real / MS_PER_SECOND
        decreases limit - |bite|, PollsLeft(deadline - timer.now)
      {
        var waiting := server.PopWaiting(limit - |bite|);
        if waiting == [] {
          ghost var before := timer.now;
          var now := timer.Read();
          var remaining := deadline - now;
          if remaining <= 0.0 {
            break;
          }
          timer.Sleep(if LINGER_POLL_SECONDS < remaining then LINGER_POLL_SECONDS else remaining);
          PollsRunOut(deadline - before, timer.now - before);
          continue;
        }
        var already := bite;
        var fitting := WithinByteCap(waiting, maxBytes - biteBytes);
        bite := bite + fitting;
        TotalBytesAppend(already, fitting);
        biteBytes := biteBytes + TotalBytes(fitting);
        if |fitting| < |waiting| {
          break;
        }
      }
      server.TakenInOrder(bite);
    }
  }
}
