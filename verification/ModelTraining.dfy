/**
 * The training protocol of the linker: any number of concurrent `train()` calls and one scoring thread.
 * A section under the swap lock is one step; everything else may be interleaved at any point.
 */
module ModelTraining {
  import opened Domain

  datatype Source = ColdStart | Persisted | Trained

  /** What the scoring linker is built with. */
  datatype Parameters = Defaults | FromFile | FromRun(caller: nat)

  datatype Status = ReportTrained | ReportSkipped | ReportFailed

  /** How a call ends: with a status, or with an exception from cleaning up. */
  datatype Result = Returned(status: Status) | Raised

  datatype Caller =
    | Idle
    | Checked                      // training was needed; about to try the lock
    | Locked                       // holds the training lock; about to check again
    | Running                      // estimating parameters
    | Saved                        // the model file is written, if there is a path
    | Cleaning(status: Status)     // the run is over; dropping its tables
    | Leaving(result: Result)      // about to release the lock
    | Done(result: Result)

  datatype Scorer =
    | Scoring                      // between rebuilds
    | SawPending(settings: Parameters)
    | Rebuilt(settings: Parameters)

  datatype State = State(
    source: Source,
    loadFailed: bool,
    pending: Option<Parameters>,
    linker: Parameters,
    lock: Option<nat>,
    callers: seq<Caller>,
    scorer: Scorer,
    hasPath: bool,
    modelFile: bool,
    published: Option<nat>)        // which call has swapped in its parameters

  datatype Step =
    | Check(c: nat)
    | TryLock(c: nat)
    | CheckAgain(c: nat)
    | OpenFails(c: nat)            // opening the training cursor raises
    | Save(c: nat)
    | Swap(c: nat)
    | RunFails(c: nat)
    | CleanUp(c: nat, succeeds: bool)
    | Unlock(c: nat)
    | ReadPending
    | Rebuild(succeeds: bool)
    | ClearPending

  predicate NeedsTraining(s: State) {
    s.source == ColdStart && !s.loadFailed
  }

  /** A linker just built: with a loaded model file, with an unusable one, or without one. */
  predicate Initial(s: State) {
    && s.pending == None && s.lock == None && s.scorer == Scoring && s.published == None
    && (forall c | 0 <= c < |s.callers| :: s.callers[c] == Idle)
    && match s.source
       case Persisted => !s.loadFailed && s.linker == FromFile && s.hasPath && s.modelFile
       case ColdStart => s.linker == Defaults && (s.loadFailed ==> s.hasPath) && s.modelFile == s.loadFailed
       case Trained => false
  }

  predicate IsAt(s: State, c: nat, at: Caller) {
    c < |s.callers| && s.callers[c] == at
  }

  predicate Enabled(s: State, step: Step) {
    match step
    case Check(c) => IsAt(s, c, Idle)
    case TryLock(c) => IsAt(s, c, Checked)
    case CheckAgain(c) => IsAt(s, c, Locked)
    case OpenFails(c) => IsAt(s, c, Locked) && NeedsTraining(s)
    case Save(c) => IsAt(s, c, Running)
    case Swap(c) => IsAt(s, c, Saved)
    case RunFails(c) => IsAt(s, c, Running) || IsAt(s, c, Saved)
    case CleanUp(c, _) => c < |s.callers| && s.callers[c].Cleaning?
    case Unlock(c) => c < |s.callers| && s.callers[c].Leaving?
    case ReadPending => s.scorer == Scoring
    case Rebuild(_) => s.scorer.SawPending?
    case ClearPending => s.scorer.Rebuilt?
  }

  function Move(s: State, c: nat, to: Caller): State
    requires c < |s.callers|
  {
    s.(callers := s.callers[c := to])
  }

  function Apply(s: State, step: Step): State
    requires Enabled(s, step)
  {
    match step
    case Check(c) => Move(s, c, if NeedsTraining(s) then Checked else Done(Returned(ReportSkipped)))
    case TryLock(c) =>
      if s.lock == None then Move(s, c, Locked).(lock := Some(c)) else Move(s, c, Done(Returned(ReportSkipped)))
    case CheckAgain(c) => Move(s, c, if NeedsTraining(s) then Running else Leaving(Returned(ReportSkipped)))
    case OpenFails(c) => Move(s, c, Leaving(Raised))
    case Save(c) => Move(s, c, Saved).(modelFile := s.modelFile || s.hasPath)
    case Swap(c) =>
      Move(s, c, Cleaning(ReportTrained)).(pending := Some(FromRun(c)), source := Trained, published := Some(c))
    case RunFails(c) => Move(s, c, Cleaning(ReportFailed))
    case CleanUp(c, succeeds) => Move(s, c, Leaving(if succeeds then Returned(s.callers[c].status) else Raised))
    case Unlock(c) => Move(s, c, Done(s.callers[c].result)).(lock := None)
    case ReadPending =>
      (match s.pending
       case None => s
       case Some(settings) => s.(scorer := SawPending(settings)))
    case Rebuild(succeeds) =>
      if succeeds then s.(linker := s.scorer.settings, scorer := Rebuilt(s.scorer.settings)) else s.(scorer := Scoring)
    case ClearPending => s.(pending := None, scorer := Scoring)
  }

  /** The states of an interleaving, which skips no step it takes. */
  ghost predicate IsRun(states: seq<State>, steps: seq<Step>) {
    && |states| == |steps| + 1 && Initial(states[0])
    && forall i | 0 <= i < |steps| :: Enabled(states[i], steps[i]) && states[i + 1] == Apply(states[i], steps[i])
  }

  predicate HoldsLock(at: Caller) {
    at.Locked? || at.Running? || at.Saved? || at.Cleaning? || at.Leaving?
  }

  predicate ReportsTrained(at: Caller) {
    at == Cleaning(ReportTrained) || at == Leaving(Returned(ReportTrained)) || at == Done(Returned(ReportTrained))
  }

  function StartParameters(s: State): Parameters {
    if s.source == Persisted then FromFile else Defaults
  }

  /** What every reachable state satisfies. */
  ghost predicate Invariant(s: State) {
    // The lock is held by exactly the call that is inside.
    && (forall c: nat | c < |s.callers| :: HoldsLock(s.callers[c]) <==> s.lock == Some(c))
    && (s.lock.Some? ==> s.lock.value < |s.callers|)
    // A run goes on only while training is needed, so nothing has been swapped in before.
    && (forall c: nat | c < |s.callers| && (s.callers[c].Running? || s.callers[c].Saved?) :: NeedsTraining(s))
    && (forall c: nat | c < |s.callers| && s.callers[c].Saved? :: s.hasPath ==> s.modelFile)
    && (!NeedsTraining(s) && s.published == None ==>
          forall c: nat | c < |s.callers| :: s.callers[c] == Idle || s.callers[c] == Done(Returned(ReportSkipped)))
    // Only the call that swapped reports a trained model.
    && (forall c: nat | c < |s.callers| && ReportsTrained(s.callers[c]) :: s.published == Some(c))
    && (s.published.Some? <==> s.source == Trained)
    && (s.published.Some? ==> !s.loadFailed && (s.hasPath ==> s.modelFile))
    // The swapped parameters are pending or in force; before a swap those of the start are in force.
    && (s.published.None? ==> s.pending == None && s.linker == StartParameters(s))
    && (s.published.Some? ==>
          var trained := FromRun(s.published.value);
          && (s.pending == None || s.pending == Some(trained))
          && (s.linker == Defaults || s.linker == trained)
          && (s.pending == Some(trained) || s.linker == trained))
    // What the scoring thread has read is still pending, and in force once rebuilt.
    && (s.scorer.SawPending? ==> s.pending == Some(s.scorer.settings))
    && (s.scorer.Rebuilt? ==> s.pending == Some(s.scorer.settings) && s.linker == s.scorer.settings)
  }

  lemma InitialHolds(s: State)
    requires Initial(s)
    ensures Invariant(s)
  {
  }

  lemma {:induction false} EnteringKeepsInvariant(s: State, step: Step)
    requires Invariant(s) && Enabled(s, step) && step.Check?
    ensures Invariant(Apply(s, step))
  {
  }

  lemma {:induction false} LockingKeepsInvariant(s: State, c: nat)
    requires Invariant(s) && Enabled(s, TryLock(c))
    ensures Invariant(Apply(s, TryLock(c)))
  {
    if s.lock == None {
      assert forall d: nat | d < |s.callers| :: !HoldsLock(s.callers[d]);
    }
  }

  lemma {:induction false} CheckingAgainKeepsInvariant(s: State, step: Step)
    requires Invariant(s) && Enabled(s, step) && (step.CheckAgain? || step.OpenFails?)
    ensures Invariant(Apply(s, step))
  {
  }

  lemma {:induction false} RunningKeepsInvariant(s: State, step: Step)
    requires Invariant(s) && Enabled(s, step) && (step.Save? || step.RunFails?)
    ensures Invariant(Apply(s, step))
  {
  }

  lemma {:induction false} SwappingKeepsInvariant(s: State, c: nat)
    requires Invariant(s) && Enabled(s, Swap(c))
    ensures Invariant(Apply(s, Swap(c)))
  {
    assert forall d: nat | d < |s.callers| && HoldsLock(s.callers[d]) :: d == c;
  }

  lemma {:induction false} LeavingKeepsInvariant(s: State, step: Step)
    requires Invariant(s) && Enabled(s, step) && (step.CleanUp? || step.Unlock?)
    ensures Invariant(Apply(s, step))
  {
  }

  lemma {:induction false} ScoringKeepsInvariant(s: State, step: Step)
    requires Invariant(s) && Enabled(s, step) && (step.ReadPending? || step.Rebuild? || step.ClearPending?)
    ensures Invariant(Apply(s, step))
  {
  }

  lemma {:induction false} StepKeepsInvariant(s: State, step: Step)
    requires Invariant(s) && Enabled(s, step)
    ensures Invariant(Apply(s, step))
  {
    hide Invariant, Apply;
    match step {
      case Check(_) => EnteringKeepsInvariant(s, step);
      case TryLock(c) => LockingKeepsInvariant(s, c);
      case CheckAgain(_) => CheckingAgainKeepsInvariant(s, step);
      case OpenFails(_) => CheckingAgainKeepsInvariant(s, step);
      case Save(_) => RunningKeepsInvariant(s, step);
      case RunFails(_) => RunningKeepsInvariant(s, step);
      case Swap(c) => SwappingKeepsInvariant(s, c);
      case CleanUp(_, _) => LeavingKeepsInvariant(s, step);
      case Unlock(_) => LeavingKeepsInvariant(s, step);
      case ReadPending => ScoringKeepsInvariant(s, step);
      case Rebuild(_) => ScoringKeepsInvariant(s, step);
      case ClearPending => ScoringKeepsInvariant(s, step);
    }
  }

  lemma {:induction false} RunKeepsInvariant(states: seq<State>, steps: seq<Step>, i: nat)
    requires IsRun(states, steps) && i < |states|
    ensures Invariant(states[i])
  {
    if i == 0 {
      InitialHolds(states[0]);
    } else {
      RunKeepsInvariant(states, steps, i - 1);
      StepKeepsInvariant(states[i - 1], steps[i - 1]);
    }
  }

  /** However calls and scoring interleave, at most one call ever reports a trained model. */
  lemma {:induction false} AtMostOneReportsTrained(states: seq<State>, steps: seq<Step>, i: nat, j: nat, a: nat, b: nat)
    requires IsRun(states, steps) && i <= j < |states|
    requires IsAt(states[i], a, Done(Returned(ReportTrained))) && IsAt(states[j], b, Done(Returned(ReportTrained)))
    ensures a == b
  {
    RunKeepsInvariant(states, steps, i);
    RunKeepsInvariant(states, steps, j);
    PublishedStays(states, steps, i, j);
  }

  /** What no step takes back. */
  ghost predicate Follows(s: State, t: State) {
    && (s.published.Some? ==> t.published == s.published)
    && (t.published.None? ==> t.source == s.source)
    && t.loadFailed == s.loadFailed && |t.callers| == |s.callers|
    && (s.published.Some? && s.linker == FromRun(s.published.value) ==> t.linker == s.linker)
    && (s.source == Persisted ==> t.source == Persisted)
  }

  lemma SwapFollows(s: State, c: nat)
    requires Invariant(s) && Enabled(s, Swap(c))
    ensures Follows(s, Apply(s, Swap(c)))
  {
  }

  lemma RebuildFollows(s: State, succeeds: bool)
    requires Invariant(s) && Enabled(s, Rebuild(succeeds))
    ensures Follows(s, Apply(s, Rebuild(succeeds)))
  {
  }

  lemma {:induction false} StepFollows(s: State, step: Step)
    requires Invariant(s) && Enabled(s, step)
    ensures Follows(s, Apply(s, step))
  {
    hide Invariant;
    if step.Swap? {
      SwapFollows(s, step.c);
    } else if step.Rebuild? {
      RebuildFollows(s, step.succeeds);
    }
  }

  lemma {:induction false} PublishedStays(states: seq<State>, steps: seq<Step>, i: nat, j: nat)
    requires IsRun(states, steps) && i <= j < |states|
    ensures Follows(states[i], states[j])
    decreases j - i
  {
    hide Apply, Invariant, Initial, Enabled;
    if i < j {
      PublishedStays(states, steps, i, j - 1);
      RunKeepsInvariant(states, steps, j - 1);
      StepFollows(states[j - 1], steps[j - 1]);
    }
  }

  /** Once a model was loaded, or a model file was unusable, no call trains and scoring stays as it started. */
  lemma {:induction false} NoTrainingOnceBlocked(states: seq<State>, steps: seq<Step>, i: nat, c: nat)
    requires IsRun(states, steps) && i < |states| && !NeedsTraining(states[0])
    requires c < |states[i].callers| && states[i].callers[c].Done?
    ensures states[i].callers[c] == Done(Returned(ReportSkipped))
    ensures states[i].linker == states[0].linker && states[i].pending == None
  {
    RunKeepsInvariant(states, steps, i);
    PublishedStays(states, steps, 0, i);
  }

  /** A failing run changes nothing that scoring uses: the defaults stay in force and training stays needed. */
  lemma {:induction false} FailureKeepsDefaults(states: seq<State>, steps: seq<Step>, i: nat, c: nat)
    requires IsRun(states, steps) && i < |steps| && steps[i] == RunFails(c)
    ensures states[i + 1].linker == Defaults && states[i + 1].pending == None && NeedsTraining(states[i + 1])
    ensures states[i + 1].published == None
  {
    RunKeepsInvariant(states, steps, i);
  }

  /**
   * Clearing the pending settings never discards settings the scoring linker was not rebuilt with: what is
   * cleared is in force, whatever calls and failed rebuilds came before.
   */
  lemma {:induction false} ClearedSettingsAreInForce(states: seq<State>, steps: seq<Step>, i: nat)
    requires IsRun(states, steps) && i < |steps| && steps[i] == ClearPending
    ensures states[i].pending.Some? && states[i + 1].linker == states[i].pending.value
  {
    RunKeepsInvariant(states, steps, i);
  }

  /** Swapped-in parameters are never lost: from the swap on they are pending or in force, and stay in force. */
  lemma {:induction false} TrainedParametersAreKept(states: seq<State>, steps: seq<Step>, i: nat, j: nat)
    requires IsRun(states, steps) && i <= j < |states| && states[i].published.Some?
    ensures var trained := FromRun(states[i].published.value);
            && (states[j].pending == Some(trained) || states[j].linker == trained)
            && (states[i].linker == trained ==> states[j].linker == trained)
  {
    RunKeepsInvariant(states, steps, j);
    PublishedStays(states, steps, i, j);
  }

  /**
   * In every interleaving a rebuild uses the published parameters: one that succeeds puts them in force, one that
   * fails changes nothing, and either way they stay pending for the next - until a clear, when they are in force.
   */
  lemma {:induction false} RetriedRebuildSucceeds(states: seq<State>, steps: seq<Step>, i: nat)
    requires IsRun(states, steps) && i < |steps|
    ensures steps[i].ReadPending? && states[i].pending.Some? ==>
              states[i + 1].scorer == SawPending(states[i].pending.value)
    ensures steps[i].Rebuild? ==>
              && states[i].published.Some? && states[i].pending == Some(FromRun(states[i].published.value))
              && states[i + 1].pending == states[i].pending
              && (if steps[i].succeeds then states[i + 1].linker == FromRun(states[i].published.value)
                  else states[i + 1].linker == states[i].linker && states[i + 1].scorer == Scoring)
    ensures states[i].pending.Some? && states[i + 1].pending == None ==>
              states[i].published.Some? && states[i + 1].linker == FromRun(states[i].published.value)
  {
    RunKeepsInvariant(states, steps, i);
  }

  /** One of the first `i` steps was this one. */
  predicate Did(steps: seq<Step>, i: nat, step: Step)
    requires i <= |steps|
  {
    exists k | 0 <= k < i :: steps[k] == step
  }

  /** What happened to a call: its cursor or its cleaning up failed, it swapped parameters in, its run failed. */
  datatype Past = Past(raised: bool, swapped: bool, failed: bool) {
    function With(c: nat, step: Step): Past {
      Past(raised || step == OpenFails(c) || step == CleanUp(c, false), swapped || step == Swap(c),
           failed || step == RunFails(c))
    }

    /** How a call with this past has to end. */
    function Ending(): Result {
      if raised then Raised
      else Returned(if swapped then ReportTrained else if failed then ReportFailed else ReportSkipped)
    }

    predicate Explains(at: Caller) {
      match at
      case Leaving(result) => result == Ending() && !(swapped && failed)
      case Done(result) => result == Ending() && !(swapped && failed)
      case Cleaning(status) => Returned(status) == Ending() && swapped != failed
      case _ => !raised && !swapped && !failed
    }
  }

  function PastOf(steps: seq<Step>, i: nat, c: nat): Past
    requires i <= |steps|
  {
    Past(Did(steps, i, OpenFails(c)) || Did(steps, i, CleanUp(c, false)), Did(steps, i, Swap(c)),
         Did(steps, i, RunFails(c)))
  }

  lemma PastGrows(steps: seq<Step>, i: nat, c: nat)
    requires i < |steps|
    ensures PastOf(steps, i + 1, c) == PastOf(steps, i, c).With(c, steps[i])
  {
  }

  /** The call whose step it is, if it is not one of the scoring thread. */
  function CallerOf(step: Step): Option<nat> {
    if step.ReadPending? || step.Rebuild? || step.ClearPending? then None else Some(step.c)
  }

  lemma OwnStepIsExplained(s: State, step: Step, c: nat, past: Past)
    requires Enabled(s, step) && CallerOf(step) == Some(c) && c < |s.callers| && past.Explains(s.callers[c])
    ensures |Apply(s, step).callers| == |s.callers| && past.With(c, step).Explains(Apply(s, step).callers[c])
  {
  }

  lemma OtherStepIsElsewhere(s: State, step: Step, c: nat, past: Past)
    requires Enabled(s, step) && CallerOf(step) != Some(c) && c < |s.callers|
    ensures |Apply(s, step).callers| == |s.callers| && Apply(s, step).callers[c] == s.callers[c]
    ensures past.With(c, step) == past
  {
  }

  lemma {:induction false} StepIsExplained(s: State, step: Step, c: nat, past: Past)
    requires Enabled(s, step) && c < |s.callers| && past.Explains(s.callers[c])
    ensures |Apply(s, step).callers| == |s.callers| && past.With(c, step).Explains(Apply(s, step).callers[c])
  {
    hide Apply, Enabled, Past.Explains, Past.With, CallerOf;
    if CallerOf(step) == Some(c) {
      OwnStepIsExplained(s, step, c, past);
    } else {
      OtherStepIsElsewhere(s, step, c, past);
    }
  }

  lemma {:induction false} RunIsExplained(states: seq<State>, steps: seq<Step>, i: nat, c: nat)
    requires IsRun(states, steps) && i < |states| && c < |states[0].callers|
    ensures |states[i].callers| == |states[0].callers| && PastOf(steps, i, c).Explains(states[i].callers[c])
  {
    if i > 0 {
      hide PastOf, Past.Explains, Apply, Enabled, Initial;
      RunIsExplained(states, steps, i - 1, c);
      StepIsExplained(states[i - 1], steps[i - 1], c, PastOf(steps, i - 1, c));
      PastGrows(steps, i - 1, c);
    } else {
      assert states[0].callers[c] == Idle;
    }
  }

  /**
   * However calls and scoring interleave, a call that is over tells what happened: it raised exactly if opening its
   * cursor or cleaning up failed; otherwise it reports a trained model exactly if it swapped one in, a failure
   * exactly if its run failed, and that it was skipped exactly if it did neither.
   */
  lemma {:induction false} ReportsAreExact(states: seq<State>, steps: seq<Step>, i: nat, c: nat, result: Result)
    requires IsRun(states, steps) && i < |states| && IsAt(states[i], c, Done(result))
    ensures result == Raised <==> Did(steps, i, OpenFails(c)) || Did(steps, i, CleanUp(c, false))
    ensures result.Returned? ==>
              && (result.status == ReportTrained <==> Did(steps, i, Swap(c)))
              && (result.status == ReportFailed <==> Did(steps, i, RunFails(c)))
              && (result.status == ReportSkipped <==> !Did(steps, i, Swap(c)) && !Did(steps, i, RunFails(c)))
  {
    PublishedStays(states, steps, 0, i);
    RunIsExplained(states, steps, i, c);
  }

  /** Why a call is skipped: training was not needed, or another call was inside. */
  ghost predicate SkipsAt(s: State, step: Step, c: nat) {
    || (step == Check(c) && !NeedsTraining(s))
    || (step == TryLock(c) && exists d: nat :: d < |s.callers| && HoldsLock(s.callers[d]))
    || (step == CheckAgain(c) && !NeedsTraining(s))
  }

  lemma {:induction false} StepSkips(s: State, step: Step, c: nat)
    requires Invariant(s) && Enabled(s, step) && c < |s.callers|
    requires !ReportsSkipped(s.callers[c]) && s.callers[c] != Cleaning(ReportSkipped)
    requires |Apply(s, step).callers| == |s.callers|
    requires ReportsSkipped(Apply(s, step).callers[c])
    ensures SkipsAt(s, step, c)
  {
    if step == TryLock(c) {
      assert HoldsLock(s.callers[s.lock.value]);
    }
  }

  predicate ReportsSkipped(at: Caller) {
    at == Leaving(Returned(ReportSkipped)) || at == Done(Returned(ReportSkipped))
  }

  /** Whenever a call reports that it was skipped, there was a reason to skip it. */
  lemma {:induction false} SkipsHaveReason(states: seq<State>, steps: seq<Step>, i: nat, c: nat) returns (k: nat)
    requires IsRun(states, steps) && i < |states| && c < |states[i].callers| && ReportsSkipped(states[i].callers[c])
    ensures k < i && SkipsAt(states[k], steps[k], c)
  {
    hide Invariant, Apply, Enabled;
    assert i > 0;
    RunKeepsInvariant(states, steps, i - 1);
    PublishedStays(states, steps, 0, i);
    RunIsExplained(states, steps, i - 1, c);
    if ReportsSkipped(states[i - 1].callers[c]) {
      k := SkipsHaveReason(states, steps, i - 1, c);
    } else {
      StepSkips(states[i - 1], steps[i - 1], c);
      k := i - 1;
    }
  }

  /** Wherever a call is, it can go on until it is over. */
  lemma {:induction false} CallsGoOn(states: seq<State>, steps: seq<Step>, i: nat, c: nat) returns (step: Step)
    requires IsRun(states, steps) && i < |states| && c < |states[i].callers| && !states[i].callers[c].Done?
    ensures Enabled(states[i], step) && Apply(states[i], step).callers[c] != states[i].callers[c]
  {
    step := match states[i].callers[c]
      case Idle => Check(c)
      case Checked => TryLock(c)
      case Locked => CheckAgain(c)
      case Running => Save(c)
      case Saved => Swap(c)
      case Cleaning(_) => CleanUp(c, true)
      case _ => Unlock(c);
  }

  /** A reported training is backed: its parameters are pending or in force, and saved if there is a path. */
  lemma {:induction false} ReportIsBacked(states: seq<State>, steps: seq<Step>, i: nat, c: nat)
    requires IsRun(states, steps) && i < |states| && IsAt(states[i], c, Done(Returned(ReportTrained)))
    ensures states[i].source == Trained
    ensures states[i].pending == Some(FromRun(c)) || states[i].linker == FromRun(c)
    ensures states[i].hasPath ==> states[i].modelFile
  {
    RunKeepsInvariant(states, steps, i);
  }

  /** Only the holder of the lock can end the need for training. */
  lemma {:induction false} NeedStays(states: seq<State>, steps: seq<Step>, c: nat, i: nat, j: nat)
    requires IsRun(states, steps) && i <= j < |states|
    requires forall k | i <= k <= j :: IsAt(states[k], c, Locked)
    ensures NeedsTraining(states[j]) <==> NeedsTraining(states[i])
  {
    hide Invariant, Initial, Apply, Enabled, NeedsTraining;
    if i < j {
      NeedStays(states, steps, c, i, j - 1);
      RunKeepsInvariant(states, steps, j - 1);
      OnlyHolderSwaps(states[j - 1], steps[j - 1], c);
    }
  }

  lemma OnlyHolderSwaps(s: State, step: Step, c: nat)
    requires Invariant(s) && Enabled(s, step) && IsAt(s, c, Locked)
    ensures NeedsTraining(Apply(s, step)) <==> NeedsTraining(s)
  {
    assert HoldsLock(s.callers[c]);
  }

  /**
   * A failed run blocks no later call: a call gets the lock if and only if no other is inside, and then trains
   * if training was still needed, whatever is interleaved before it checks again.
   */
  lemma {:induction false} LaterCallMayTrain(states: seq<State>, steps: seq<Step>, c: nat, i: nat, j: nat)
    requires IsRun(states, steps) && i < j < |steps| && steps[i] == TryLock(c) && steps[j] == CheckAgain(c)
    requires forall k | i < k <= j :: IsAt(states[k], c, Locked)
    ensures forall d: nat | d < |states[i].callers| :: !HoldsLock(states[i].callers[d])
    ensures IsAt(states[j + 1], c, if NeedsTraining(states[i]) then Running else Leaving(Returned(ReportSkipped)))
  {
    RunKeepsInvariant(states, steps, i);
    NeedStays(states, steps, c, i + 1, j);
  }

  /** Conversely a call that tries while no other is inside gets the lock. */
  lemma {:induction false} FreeLockIsTaken(states: seq<State>, steps: seq<Step>, c: nat, i: nat)
    requires IsRun(states, steps) && i < |steps| && steps[i] == TryLock(c)
    ensures IsAt(states[i + 1], c, Locked) <==>
              forall d: nat | d < |states[i].callers| :: !HoldsLock(states[i].callers[d])
  {
    RunKeepsInvariant(states, steps, i);
  }

  /** There is a model file exactly if there was one at the start or a run has saved its model to the path. */
  lemma {:induction false} FileExistsExactlyIfSaved(states: seq<State>, steps: seq<Step>, i: nat)
    requires IsRun(states, steps) && i < |states|
    ensures states[i].hasPath == states[0].hasPath
    ensures states[i].modelFile <==>
              states[0].modelFile || (states[0].hasPath && exists j | 0 <= j < i :: steps[j].Save?)
  {
    if i > 0 {
      FileExistsExactlyIfSaved(states, steps, i - 1);
    }
  }

  /**
   * A failed run can leave a model file behind, as it is written before the swap: the running process keeps its
   * defaults although the next start would load that file, which was not there at the start.
   */
  lemma {:induction false} FailureAfterSavingLeavesTheFile(states: seq<State>, steps: seq<Step>, i: nat, c: nat)
    requires IsRun(states, steps) && i < |steps| && steps[i] == RunFails(c) && IsAt(states[i], c, Saved)
    ensures !states[0].modelFile && (states[i + 1].modelFile <==> states[0].hasPath)
    ensures states[i + 1].linker == Defaults && states[i + 1].source == ColdStart
  {
    RunKeepsInvariant(states, steps, i);
    PublishedStays(states, steps, 0, i);
    FileExistsExactlyIfSaved(states, steps, i);
  }

  const FRESH := State(ColdStart, false, None, Defaults, None, [Idle], Scoring, true, false, None)

  /** Such a run exists. */
  lemma SavedAndFailed() returns (states: seq<State>, steps: seq<Step>)
    ensures IsRun(states, steps) && steps == [Check(0), TryLock(0), CheckAgain(0), Save(0), RunFails(0)]
    ensures IsAt(states[4], 0, Saved) && !states[0].modelFile && states[5].modelFile && states[5].linker == Defaults
  {
    steps := [Check(0), TryLock(0), CheckAgain(0), Save(0), RunFails(0)];
    var checked := Apply(FRESH, steps[0]);
    var locked := Apply(checked, steps[1]);
    var running := Apply(locked, steps[2]);
    var saved := Apply(running, steps[3]);
    states := [FRESH, checked, locked, running, saved, Apply(saved, steps[4])];
  }

  /** A run with one more step. */
  lemma Onwards(states: seq<State>, steps: seq<Step>, step: Step) returns (more: seq<State>, stepsMore: seq<Step>)
    requires IsRun(states, steps) && Enabled(states[|states| - 1], step)
    ensures IsRun(more, stepsMore) && |more| == |states| + 1 && more[0] == states[0]
    ensures more[|more| - 1] == Apply(states[|states| - 1], step)
  {
    more, stepsMore := states + [Apply(states[|states| - 1], step)], steps + [step];
  }

  const REPORTED := State(Trained, false, Some(FromRun(0)), Defaults, None, [Done(Returned(ReportTrained))], Scoring,
                          true, true, Some(0))

  lemma StartIsRun()
    ensures IsRun([FRESH], [])
  {
  }

  /** A run that trains exists too. */
  lemma TrainedAndReported() returns (states: seq<State>, steps: seq<Step>)
    ensures IsRun(states, steps) && states[0] == FRESH && states[|states| - 1] == REPORTED
  {
    hide IsRun;
    steps := [];
    states := [FRESH];
    assert IsRun(states, steps) by { StartIsRun(); }
    states, steps := Onwards(states, steps, Check(0));
    states, steps := Onwards(states, steps, TryLock(0));
    states, steps := Onwards(states, steps, CheckAgain(0));
    states, steps := Onwards(states, steps, Save(0));
    states, steps := Onwards(states, steps, Swap(0));
    states, steps := Onwards(states, steps, CleanUp(0, true));
    states, steps := Onwards(states, steps, Unlock(0));
  }

  /** And it goes on until the trained parameters are in force. */
  lemma TrainedAndInForce() returns (states: seq<State>, steps: seq<Step>)
    ensures IsRun(states, steps) && states[0] == FRESH
    ensures states[|states| - 1] == REPORTED.(pending := None, linker := FromRun(0))
  {
    hide IsRun;
    states, steps := TrainedAndReported();
    states, steps := Onwards(states, steps, ReadPending);
    states, steps := Onwards(states, steps, Rebuild(true));
    states, steps := Onwards(states, steps, ClearPending);
  }
}
