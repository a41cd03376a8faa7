/** The authentication machine: key presses, the attempt queue, the PAM worker, the result queue, the
    backoff clock and the one action that unlocks. */
module AuthMachine {
  import opened Words
  import opened Auth

  /** Where the worker thread stands. `Leaving` has sent a success but still holds the receiver. */
  datatype Worker = Waiting | Busy(attempt: Attempt) | Judged(id: nat, outcome: Outcome) | Leaving | Gone

  /** What an accepted key does to the buffer. */
  datatype Edit = Typed(text: string) | Popped | Cleared

  datatype Submission = Submission(attempt: Attempt, edits: seq<Edit>, at: Time)

  datatype Call = Call(attempt: Attempt, reply: PamReply)

  /** `edits` (since the buffer was last reset), `submissions`, `calls` and `failures` (delivery times
      of failed verdicts) record the past; no step reads them. */
  datatype State = State(fields: Fields, attempts: seq<Attempt>, worker: Worker, results: seq<Result>,
                         exit: Option<int>, clock: Time, edits: seq<Edit>, submissions: seq<Submission>,
                         calls: seq<Call>, failures: seq<Time>)

  datatype Event =
    | Key(key: KeyEvent, now: Time, later: Time)
    | Receive
    | PamReturns(reply: PamReply)
    | SendResult
    | DropReceiver
    | Deliver(now: Time)
    | Tick(now: Time)
    | Abort

  const INITIAL := State(NO_ATTEMPT_YET, [], Waiting, [], None, 0, [], [], [], [])

  predicate Enabled(s: State, e: Event) {
    && s.exit == None
    && match e
       case Key(_, now, later) => s.clock <= now <= later
       case Receive => s.worker.Waiting? && s.attempts != []
       case PamReturns(_) => s.worker.Busy?
       case SendResult => s.worker.Judged?
       case DropReceiver => s.worker.Leaving?
       case Deliver(now) => s.results != [] && s.clock <= now
       case Tick(now) => s.clock <= now
       case Abort => true
  }

  /** What a key means to the buffer when it is accepted. */
  function Meaning(key: KeyEvent): Option<Edit> {
    match key.keysym
    case Return => None
    case KpEnter => None
    case BackSpace => Some(Popped)
    case Escape => Some(Cleared)
    case Other => if key.utf8.Some? && key.utf8.value != "" && ControlFree(key.utf8.value)
                  then Some(Typed(key.utf8.value)) else None
  }

  function EditOf(f: Fields, key: KeyEvent, now: Time): Option<Edit> {
    if f.verifying || BackoffActive(f, now) then None else Meaning(key)
  }

  function Pressed(s: State, key: KeyEvent, now: Time, later: Time): State {
    var h := PressKey(s.fields, key, now, later, !s.worker.Gone?);
    var edit := EditOf(s.fields, key, now);
    s.(fields := h.fields, clock := later,
       attempts := s.attempts + if h.sent.Some? then [h.sent.value] else [],
       submissions := s.submissions + if h.sent.Some? then [Submission(h.sent.value, s.edits, later)] else [],
       edits := if IsEnter(key) then (if h.redraws > 0 then [] else s.edits)
                else if edit.Some? then s.edits + [edit.value] else s.edits)
  }

  function Delivered(s: State, now: Time): State
    requires s.results != []
  {
    var taken := s.(results := s.results[1..], clock := now);
    if s.results[0].outcome == Unlocked then taken.(fields := s.fields.(verifying := false), exit := Some(0))
    else taken.(fields := Refuse(s.fields, now), failures := s.failures + [now], edits := [])
  }

  function Step(s: State, e: Event): State
    requires Enabled(s, e)
  {
    match e
    case Key(key, now, later) => Pressed(s, key, now, later)
    case Receive => s.(worker := Busy(s.attempts[0]), attempts := s.attempts[1..])
    case PamReturns(reply) =>
      s.(worker := Judged(s.worker.attempt.id, OutcomeOf(reply)), calls := s.calls + [Call(s.worker.attempt, reply)])
    case SendResult =>
      s.(results := s.results + [Result(s.worker.id, s.worker.outcome)],
         worker := if s.worker.outcome == Unlocked then Leaving else Waiting)
    case DropReceiver => s.(worker := Gone)
    case Deliver(now) => Delivered(s, now)
    case Tick(now) => s.(fields := Sweep(s.fields, now), clock := now)
    case Abort => s.(exit := Some(1))
  }

  predicate Run(s: State, events: seq<Event>)
    decreases |events|
  {
    events == [] || (Enabled(s, events[0]) && Run(Step(s, events[0]), events[1..]))
  }

  function Exec(s: State, events: seq<Event>): State
    requires Run(s, events)
    decreases |events|
  {
    if events == [] then s else Exec(Step(s, events[0]), events[1..])
  }

  // ---- at most one attempt in flight ----

  function InFlight(s: State): nat {
    |s.attempts| + (if s.worker.Busy? || s.worker.Judged? then 1 else 0) + |s.results|
  }

  function Last(s: State): Submission
    requires s.submissions != []
  {
    s.submissions[|s.submissions| - 1]
  }

  /** PAM's last call was for the latest submission, and this verdict is its outcome. */
  predicate VerdictOfLast(s: State, id: nat, outcome: Outcome) {
    && s.submissions != [] && s.calls != []
    && s.calls[|s.calls| - 1].attempt == Last(s).attempt
    && id == Last(s).attempt.id
    && outcome == OutcomeOf(s.calls[|s.calls| - 1].reply)
  }

  predicate FlightInv(s: State) {
    && (s.exit == None ==> InFlight(s) == if s.fields.verifying then 1 else 0)
    && (s.exit == None && s.fields.verifying ==> s.submissions != [])
    && (s.exit == None && (s.worker.Leaving? || s.worker.Gone?) ==>
          s.results != [] && s.results[0].outcome == Unlocked)
    && (s.exit == None && s.attempts != [] ==> s.submissions != [] && s.attempts[0] == Last(s).attempt)
    && (s.exit == None && s.worker.Busy? ==> s.submissions != [] && s.worker.attempt == Last(s).attempt)
    && (s.exit == None && s.worker.Judged? ==> VerdictOfLast(s, s.worker.id, s.worker.outcome))
    && (s.exit == None && s.results != [] ==> VerdictOfLast(s, s.results[0].id, s.results[0].outcome))
    && (s.exit == Some(0) ==> VerdictOfLast(s, if s.submissions == [] then 0 else Last(s).attempt.id, Unlocked))
  }

  // ---- the buffer ----

  /** Characters one on top of the other, the last one typed on top. */
  datatype Stack = Bottom | On(below: Stack, top: char)

  function Letters(stack: Stack): string {
    match stack
    case Bottom => ""
    case On(below, top) => Letters(below) + [top]
  }

  function PutOn(stack: Stack, text: string): Stack
    decreases |text|
  {
    if text == "" then stack else PutOn(On(stack, text[0]), text[1..])
  }

  function TakeOff(stack: Stack): Stack {
    match stack
    case Bottom => Bottom
    case On(below, _) => below
  }

  /** What is left of a sequence of edits, read from the first on. */
  function Pile(edits: seq<Edit>): Stack {
    if edits == [] then Bottom
    else
      var before := Pile(edits[..|edits| - 1]);
      match edits[|edits| - 1]
      case Typed(text) => PutOn(before, text)
      case Popped => TakeOff(before)
      case Cleared => Bottom
  }

  /** The buffer a sequence of edits leaves behind. */
  function Replay(edits: seq<Edit>): string {
    Letters(Pile(edits))
  }

  lemma {:induction false} LettersPutOn(stack: Stack, text: string)
    ensures Letters(PutOn(stack, text)) == Letters(stack) + text
    decreases |text|
  {
    if text != "" {
      LettersPutOn(On(stack, text[0]), text[1..]);
      assert Letters(stack) + [text[0]] + text[1..] == Letters(stack) + text;
    }
  }

  lemma LettersTakenOff(stack: Stack)
    ensures Letters(TakeOff(stack)) == WithoutLast(Letters(stack))
  {
    if stack.On? {
      assert Letters(stack)[..|Letters(stack)| - 1] == Letters(stack.below);
    }
  }

  predicate BufferInv(s: State) {
    && s.fields.password == Replay(s.edits)
    && ControlFree(s.fields.password)
    && !(s.fields.verifying && s.fields.failed)
    && (s.exit != Some(0) ==> (s.fields.failed <==> !s.fields.verifying && s.failures != [] && s.edits == []))
    && (s.fields.password != "" ==> !s.fields.verifying && !s.fields.failed && !BackoffActive(s.fields, s.clock))
  }

  predicate SubmissionsInv(s: State) {
    forall i :: 0 <= i < |s.submissions| ==>
      var sub := s.submissions[i];
      && sub.attempt.password != ""
      && sub.attempt.password == Replay(sub.edits)
      && ControlFree(sub.attempt.password)
      && sub.attempt.id == Min(i + 1, U64_MAX)
  }

  // ---- the pace of attempts ----

  function NotBefore(s: State): Time {
    if s.fields.lockedUntil.Some? && s.fields.lockedUntil.value > s.clock then s.fields.lockedUntil.value else s.clock
  }

  /** The k-th failed verdict follows the k-th submission, and the next submission follows it by at least
      its delay. */
  predicate Spaced(subs: seq<Submission>, failures: seq<Time>, clock: Time) {
    && |failures| <= |subs| <= |failures| + 1
    && (forall i :: 0 <= i < |subs| ==> subs[i].at <= clock)
    && (forall i :: 0 <= i < |failures| ==> subs[i].at <= failures[i] <= clock)
    && (forall i :: 0 < i < |subs| ==> subs[i].at >= failures[i - 1] + Delay(i))
  }

  predicate Counted(f: Fields, submitted: nat, failed: nat) {
    f.failCount == Min(failed, U32_MAX) && f.nextAttemptId == Min(submitted + 1, U64_MAX)
  }

  /** When keys are accepted again: at once, or min(k, 5) seconds after the k-th failed verdict. */
  function RetryFrom(s: State): Time {
    if s.fields.verifying || s.failures == [] then s.clock
    else
      var cooledDown := s.failures[|s.failures| - 1] + Min(|s.failures|, 5) * SECOND;
      if cooledDown > s.clock then cooledDown else s.clock
  }

  predicate PaceInv(s: State) {
    && Spaced(s.submissions, s.failures, s.clock)
    && Counted(s.fields, |s.submissions|, |s.failures|)
    && (s.exit == None ==> |s.submissions| == |s.failures| + if s.fields.verifying then 1 else 0)
    && (s.exit == None ==> NotBefore(s) == RetryFrom(s))
  }

  predicate Inv(s: State) {
    FlightInv(s) && BufferInv(s) && SubmissionsInv(s) && PaceInv(s)
  }

  lemma StepKeepsFlight(s: State, e: Event)
    requires FlightInv(s) && Enabled(s, e)
    ensures FlightInv(Step(s, e))
  {
  }

  function Applied(before: string, edit: Edit): string {
    match edit
    case Typed(text) => before + text
    case Popped => WithoutLast(before)
    case Cleared => ""
  }

  lemma ReplayStep(edits: seq<Edit>, edit: Edit)
    ensures Replay(edits + [edit]) == Applied(Replay(edits), edit)
  {
    var longer := edits + [edit];
    assert longer[..|longer| - 1] == edits;
    LettersTakenOff(Pile(edits));
    if edit.Typed? {
      LettersPutOn(Pile(edits), edit.text);
    }
  }

  /** An accepted edit changes the buffer as the edit says and dismisses a failure; any other key leaves
      the buffer, or hands all of it over. */
  lemma EditEffect(f: Fields, key: KeyEvent, now: Time, later: Time)
    ensures var h, edit := PressKey(f, key, now, later, true), EditOf(f, key, now);
            match edit
            case Some(e) =>
              && !f.verifying && !BackoffActive(f, now) && !IsEnter(key)
              && h.fields == f.(password := Applied(f.password, e), failed := false)
              && (ControlFree(f.password) ==> ControlFree(h.fields.password))
            case None =>
              || (h.fields == f && h.redraws == 0)
              || (IsEnter(key) && h.redraws > 0 && h.fields.password == "" && h.fields.verifying && !h.fields.failed)
  {
  }

  lemma KeyKeepsBuffer(s: State, key: KeyEvent, now: Time, later: Time)
    requires FlightInv(s) && BufferInv(s) && Enabled(s, Key(key, now, later))
    ensures BufferInv(Pressed(s, key, now, later))
  {
    assert s.worker.Gone? ==> s.fields.verifying;
    EditEffect(s.fields, key, now, later);
    var edit := EditOf(s.fields, key, now);
    if edit.Some? {
      ReplayStep(s.edits, edit.value);
    }
    hide Replay, FlightInv, ControlFree, EditOf, Applied;
    if !s.worker.Gone? {
      hide PressKey;
    }
  }

  lemma StepKeepsBuffer(s: State, e: Event)
    requires FlightInv(s) && BufferInv(s) && Enabled(s, e)
    ensures BufferInv(Step(s, e))
  {
    if e.Key? {
      KeyKeepsBuffer(s, e.key, e.now, e.later);
    }
    hide Pressed, FlightInv, ControlFree;
  }

  lemma KeyKeepsSubmissions(s: State, key: KeyEvent, now: Time, later: Time)
    requires FlightInv(s) && BufferInv(s) && SubmissionsInv(s) && PaceInv(s) && Enabled(s, Key(key, now, later))
    ensures SubmissionsInv(Pressed(s, key, now, later))
  {
    hide FlightInv, BufferInv, PaceInv, EditOf, BackoffActive, Replay, ControlFree;
    var h := PressKey(s.fields, key, now, later, !s.worker.Gone?);
    KeyExactly(s.fields, key, now, later, !s.worker.Gone?);
    hide PressKey;
    if h.sent.Some? {
      assert !s.fields.verifying && h.sent.value == Attempt(s.fields.nextAttemptId, s.fields.password)
             && s.fields.password != "";
      hide KeyDoes, SubmissionsInv;
      SubmissionAppended(s, Pressed(s, key, now, later), Submission(h.sent.value, s.edits, later));
    }
  }

  lemma SubmissionAppended(s: State, s': State, sub: Submission)
    requires BufferInv(s) && SubmissionsInv(s) && PaceInv(s) && s.exit == None && !s.fields.verifying
    requires sub.attempt == Attempt(s.fields.nextAttemptId, s.fields.password) && s.fields.password != ""
    requires sub.edits == s.edits && s'.submissions == s.submissions + [sub]
    ensures SubmissionsInv(s')
  {
    hide Replay, ControlFree, Spaced;
  }

  lemma StepKeepsSubmissions(s: State, e: Event)
    requires FlightInv(s) && BufferInv(s) && SubmissionsInv(s) && PaceInv(s) && Enabled(s, e)
    ensures SubmissionsInv(Step(s, e))
  {
    hide FlightInv, BufferInv, PaceInv, Pressed, Replay, ControlFree;
    if e.Key? {
      KeyKeepsSubmissions(s, e.key, e.now, e.later);
    }
  }

  lemma SpacedLater(subs: seq<Submission>, failures: seq<Time>, clock: Time, later: Time)
    requires Spaced(subs, failures, clock) && clock <= later
    ensures Spaced(subs, failures, later)
  {
    hide Delay;
  }

  lemma SpacedSubmission(subs: seq<Submission>, failures: seq<Time>, clock: Time, sub: Submission)
    requires Spaced(subs, failures, clock) && |subs| == |failures| && clock <= sub.at
    requires failures != [] ==> sub.at >= failures[|failures| - 1] + Delay(|failures|)
    ensures Spaced(subs + [sub], failures, sub.at)
  {
    hide Delay;
  }

  lemma SpacedFailure(subs: seq<Submission>, failures: seq<Time>, clock: Time, now: Time)
    requires Spaced(subs, failures, clock) && |subs| == |failures| + 1 && clock <= now
    ensures Spaced(subs, failures + [now], now)
  {
    hide Delay;
  }

  /** Time passing and edits leave the pace as it is. */
  lemma QuietStepKeepsPace(s: State, s': State)
    requires PaceInv(s) && s'.exit == s.exit && s'.clock >= s.clock
    requires s'.submissions == s.submissions && s'.failures == s.failures
    requires s'.fields.verifying == s.fields.verifying && s'.fields.failCount == s.fields.failCount
    requires s'.fields.nextAttemptId == s.fields.nextAttemptId
    requires s'.fields.lockedUntil == s.fields.lockedUntil || s'.fields == Sweep(s.fields, s'.clock)
    ensures PaceInv(s')
  {
    hide Delay, Spaced;
    SpacedLater(s.submissions, s.failures, s.clock, s'.clock);
    assert NotBefore(s') >= NotBefore(s);
  }

  lemma SubmissionKeepsPace(s: State, s': State, sub: Submission)
    requires PaceInv(s) && s.exit == None && s'.exit == None
    requires !s.fields.verifying && !BackoffActive(s.fields, sub.at)
    requires s.clock <= sub.at == s'.clock
    requires s'.submissions == s.submissions + [sub] && s'.failures == s.failures
    requires s'.fields.verifying && s'.fields.failCount == s.fields.failCount
    requires s'.fields.nextAttemptId == SaturatingInc(s.fields.nextAttemptId, U64_MAX)
    requires s'.fields.lockedUntil == s.fields.lockedUntil
    ensures PaceInv(s')
  {
    hide Spaced;
    assert sub.at >= NotBefore(s);
    SpacedSubmission(s.submissions, s.failures, s.clock, sub);
  }

  lemma KeyKeepsPace(s: State, key: KeyEvent, now: Time, later: Time)
    requires FlightInv(s) && PaceInv(s) && Enabled(s, Key(key, now, later))
    ensures PaceInv(Pressed(s, key, now, later))
  {
    assert s.worker.Gone? ==> s.fields.verifying;
    hide FlightInv, EditOf, Replay, PaceInv;
    var s' := Pressed(s, key, now, later);
    if !s.worker.Gone? {
      KeyExactly(s.fields, key, now, later, true);
      var h := PressKey(s.fields, key, now, later, true);
      hide PressKey;
      if h.sent.Some? {
        SubmissionKeepsPace(s, s', Submission(h.sent.value, s.edits, later));
      } else {
        QuietStepKeepsPace(s, s');
      }
    } else {
      QuietStepKeepsPace(s, s');
    }
  }

  lemma DeliverKeepsPace(s: State, now: Time)
    requires FlightInv(s) && PaceInv(s) && Enabled(s, Deliver(now))
    ensures PaceInv(Delivered(s, now))
  {
    assert s.fields.verifying && |s.submissions| == |s.failures| + 1;
    hide FlightInv, OutcomeOf;
    if s.results[0].outcome != Unlocked {
      RefusalKeepsPace(s, Delivered(s, now), now);
    }
  }

  /** Neither the cap nor the saturating counter changes a delay. */
  lemma CappedDelay(failures: nat, count: nat)
    requires count == Min(failures, U32_MAX)
    ensures Delay(count) == Delay(failures) == Min(failures, 5) * SECOND
  {
    assert Min(count, 5) == Min(failures, 5) <= 5;
  }

  lemma RefusalKeepsPace(s: State, s': State, now: Time)
    requires PaceInv(s) && s'.exit == None && |s.submissions| == |s.failures| + 1
    requires s.clock <= now == s'.clock
    requires s'.submissions == s.submissions && s'.failures == s.failures + [now]
    requires s'.fields == Refuse(s.fields, now)
    ensures PaceInv(s')
  {
    hide Delay, Spaced;
    var n := |s'.failures|;
    CappedDelay(n, s'.fields.failCount);
    SpacedFailure(s.submissions, s.failures, s.clock, now);
    assert NotBefore(s') == now + Delay(n);
  }

  lemma StepKeepsPace(s: State, e: Event)
    requires FlightInv(s) && PaceInv(s) && Enabled(s, e)
    ensures PaceInv(Step(s, e))
  {
    if e.Key? {
      KeyKeepsPace(s, e.key, e.now, e.later);
    } else if e.Deliver? {
      DeliverKeepsPace(s, e.now);
    } else if !e.Abort? {
      QuietStepKeepsPace(s, Step(s, e));
    }
    hide Pressed, Delivered, FlightInv;
  }

  lemma StepKeepsInv(s: State, e: Event)
    requires Inv(s) && Enabled(s, e)
    ensures Inv(Step(s, e))
  {
    StepKeepsFlight(s, e);
    StepKeepsBuffer(s, e);
    StepKeepsSubmissions(s, e);
    StepKeepsPace(s, e);
  }
}
