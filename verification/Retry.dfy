/** Always retryable, just not instantly: whatever is typed, key by key and corrected on the way, is what
    Return submits, from min(k, 5) seconds after the k-th failure on. */
module Retry {
  import opened Words
  import opened Auth
  import opened AuthMachine
  import opened AuthTheorems

  // ---- typing ----

  /** One key press: the clock is read on entry and again by `submit`. */
  datatype Stroke = Stroke(key: KeyEvent, now: Time, later: Time)

  function Press(stroke: Stroke): Event {
    Key(stroke.key, stroke.now, stroke.later)
  }

  function Presses(strokes: seq<Stroke>): (events: seq<Event>)
    ensures |events| == |strokes| && forall i :: 0 <= i < |strokes| ==> events[i] == Press(strokes[i])
  {
    if strokes == [] then [] else [Press(strokes[0])] + Presses(strokes[1..])
  }

  /** The clock readings never go back, from `start` on. */
  predicate InTime(start: Time, strokes: seq<Stroke>)
    decreases strokes
  {
    strokes == [] || (start <= strokes[0].now <= strokes[0].later && InTime(strokes[0].later, strokes[1..]))
  }

  function Finish(start: Time, strokes: seq<Stroke>): Time
    decreases strokes
  {
    if strokes == [] then start else Finish(strokes[0].later, strokes[1..])
  }

  predicate NoEnter(strokes: seq<Stroke>) {
    forall i :: 0 <= i < |strokes| ==> !IsEnter(strokes[i].key)
  }

  function EditsOf(strokes: seq<Stroke>): seq<Edit> {
    if strokes == [] then []
    else (match Meaning(strokes[0].key) case Some(edit) => [edit] case None => []) + EditsOf(strokes[1..])
  }

  // ---- what keys spell ----

  /** One key, with the characters typed so far one on top of the other. */
  function AfterKey(stack: Stack, key: KeyEvent): Stack {
    match key.keysym
    case BackSpace => TakeOff(stack)
    case Escape => Bottom
    case Other => if key.utf8.Some? && Printable(key.utf8.value) then PutOn(stack, key.utf8.value) else stack
    case _ => stack
  }

  function Stacked(stack: Stack, strokes: seq<Stroke>): Stack
    decreases strokes
  {
    if strokes == [] then stack else Stacked(AfterKey(stack, strokes[0].key), strokes[1..])
  }

  /** What the strokes spell, read from the first to the last: text puts its characters on, BackSpace takes the
      topmost off, Escape takes all of them off. */
  function Spelled(strokes: seq<Stroke>): string {
    Letters(Stacked(Bottom, strokes))
  }

  lemma MeaningStacks(before: seq<Edit>, key: KeyEvent)
    ensures AfterKey(Pile(before), key) ==
            Pile(match Meaning(key) case Some(edit) => before + [edit] case None => before)
  {
    match Meaning(key)
    case Some(edit) => assert (before + [edit])[..|before + [edit]| - 1] == before;
    case None =>
  }

  /** The edits that keys mean leave what the keys spell. */
  lemma {:induction false} EditsStack(before: seq<Edit>, strokes: seq<Stroke>)
    ensures Pile(before + EditsOf(strokes)) == Stacked(Pile(before), strokes)
    decreases strokes
  {
    if strokes == [] {
      assert before + [] == before;
    } else {
      var one := match Meaning(strokes[0].key) case Some(edit) => [edit] case None => [];
      MeaningStacks(before, strokes[0].key);
      assert before + [] == before;
      EditsStack(before + one, strokes[1..]);
      AppendAssociates(before, one, EditsOf(strokes[1..]));
      hide Meaning, AfterKey, Pile;
    }
  }

  lemma SpelledIsReplayed(strokes: seq<Stroke>)
    ensures Replay(EditsOf(strokes)) == Spelled(strokes)
  {
    EditsStack([], strokes);
    assert [] + EditsOf(strokes) == EditsOf(strokes);
  }

  /** Escape, then `strokes`, then Return. */
  function Attempting(clear: Stroke, strokes: seq<Stroke>, enter: Stroke): seq<Event> {
    [Press(clear)] + (Presses(strokes) + [Press(enter)])
  }

  /** Such an attempt, its clock readings in order from `start` on, leaving something to submit. */
  predicate Typeable(start: Time, clear: Stroke, strokes: seq<Stroke>, enter: Stroke) {
    && InTime(start, [clear]) && InTime(clear.later, strokes) && InTime(Finish(clear.later, strokes), [enter])
    && clear.key.keysym == Escape && NoEnter(strokes) && IsEnter(enter.key)
    && Spelled(strokes) != ""
  }

  predicate AcceptsKeys(s: State, at: Time) {
    s.exit == None && !s.fields.verifying && s.clock <= at && !BackoffActive(s.fields, at)
  }

  lemma StrokeEdits(s: State, stroke: Stroke)
    requires AcceptsKeys(s, stroke.now) && stroke.now <= stroke.later && !IsEnter(stroke.key)
    ensures Enabled(s, Press(stroke))
    ensures var t := Step(s, Press(stroke));
            && t == s.(fields := t.fields, clock := stroke.later, edits := s.edits + EditsOf([stroke]))
            && t.fields == s.fields.(password := t.fields.password, failed := t.fields.failed)
            && (forall at :: stroke.later <= at ==> AcceptsKeys(t, at))
  {
    assert s.attempts + [] == s.attempts && s.submissions + [] == s.submissions;
    assert EditsOf([stroke]) == match Meaning(stroke.key) case Some(edit) => [edit] case None => [];
    hide ControlFree;
  }

  lemma EditsConcat(a: Stroke, b: seq<Stroke>)
    ensures EditsOf([a] + b) == EditsOf([a]) + EditsOf(b)
  {
    assert ([a] + b)[1..] == b && [a][1..] == [];
    hide Meaning;
  }

  /** Strokes that are not Enter edit the buffer one by one and do nothing else. */
  lemma {:induction false} TypingEdits(s: State, strokes: seq<Stroke>)
    requires s.exit == None && !s.fields.verifying && InTime(s.clock, strokes) && NoEnter(strokes)
    requires strokes != [] ==> AcceptsKeys(s, strokes[0].now)
    ensures Run(s, Presses(strokes))
    ensures var t := Exec(s, Presses(strokes));
            && t == s.(fields := t.fields, clock := Finish(s.clock, strokes), edits := s.edits + EditsOf(strokes))
            && t.fields == s.fields.(password := t.fields.password, failed := t.fields.failed)
            && (strokes != [] ==> forall at :: t.clock <= at ==> AcceptsKeys(t, at))
    decreases strokes
  {
    hide Step, Enabled, AcceptsKeys, Meaning;
    if strokes == [] {
      assert s.edits + [] == s.edits;
    } else {
      var first, rest := strokes[0], strokes[1..];
      assert !IsEnter(first.key);
      StrokeEdits(s, first);
      var next := Step(s, Press(first));
      TypingEdits(next, rest);
      RunPrepend(s, Press(first), Presses(rest));
      EditsConcat(first, rest);
      assert [first] + rest == strokes;
      AppendAssociates(s.edits, EditsOf([first]), EditsOf(rest));
    }
  }

  lemma PiledAfterClear(before: seq<Edit>)
    ensures Pile(before + [Cleared]) == Bottom
  {
    assert (before + [Cleared])[|before|] == Cleared;
  }

  lemma {:induction false} RunConcat(s: State, a: seq<Event>, b: seq<Event>)
    requires Run(s, a) && Run(Exec(s, a), b)
    ensures Run(s, a + b) && Exec(s, a + b) == Exec(Exec(s, a), b)
    decreases |a|
  {
    hide Enabled, Step;
    if a == [] {
      assert a + b == b;
    } else {
      RunConcat(Step(s, a[0]), a[1..], b);
      assert (a + b)[1..] == a[1..] + b;
    }
  }

  lemma EnterSubmits(s: State, enter: Stroke)
    requires AcceptsKeys(s, enter.now) && enter.now <= enter.later && IsEnter(enter.key)
    requires s.fields.password != "" && s.attempts == [] && !s.worker.Gone?
    ensures Run(s, [Press(enter)])
    ensures var t := Exec(s, [Press(enter)]);
            var attempt := Attempt(s.fields.nextAttemptId, s.fields.password);
            && t.attempts == [attempt]
            && t.submissions == s.submissions + [Submission(attempt, s.edits, enter.later)]
  {
    assert Run(Step(s, Press(enter)), []);
  }

  // ---- the attempt ----

  /** The attempt that ends in exactly what was typed. */
  predicate SubmitsWhatWasTyped(s: State, t: State, strokes: seq<Stroke>, enter: Stroke) {
    var attempt := Attempt(s.fields.nextAttemptId, Spelled(strokes));
    && t.attempts == [attempt]
    && |t.submissions| == |s.submissions| + 1
    && Last(t).attempt == attempt && Last(t).at == enter.later
  }

  lemma AttemptSubmits(s: State, clear: Stroke, strokes: seq<Stroke>, enter: Stroke)
    requires Inv(s) && AcceptsKeys(s, clear.now) && Typeable(s.clock, clear, strokes, enter)
    ensures Run(s, Attempting(clear, strokes, enter))
    ensures SubmitsWhatWasTyped(s, Exec(s, Attempting(clear, strokes, enter)), strokes, enter)
  {
    assert s.attempts == [] && !s.worker.Gone?;
    hide Inv, Step, Enabled, ControlFree, AcceptsKeys, Run, Exec;
    StrokeEdits(s, clear);
    assert EditsOf([clear]) == [Cleared];
    var cleared := Step(s, Press(clear));
    StepKeepsInv(s, Press(clear));
    TypingEdits(cleared, strokes);
    var typed := Exec(cleared, Presses(strokes));
    InvAlways(cleared, Presses(strokes));
    PiledAfterClear(s.edits);
    EditsStack(s.edits + [Cleared], strokes);
    BufferIsReplay(typed);
    EnterSubmits(typed, enter);
    RunConcat(cleared, Presses(strokes), [Press(enter)]);
    RunPrepend(s, Press(clear), Presses(strokes) + [Press(enter)]);
  }

  lemma BufferIsReplay(s: State)
    requires Inv(s)
    ensures s.fields.password == Replay(s.edits)
  {
  }

  lemma CooledDownSuffices(s: State, clear: Stroke, strokes: seq<Stroke>, enter: Stroke)
    requires Inv(s) && s.exit == None && !s.fields.verifying && Typeable(RetryFrom(s), clear, strokes, enter)
    ensures Run(s, Attempting(clear, strokes, enter))
    ensures SubmitsWhatWasTyped(s, Exec(s, Attempting(clear, strokes, enter)), strokes, enter)
  {
    assert NotBefore(s) == RetryFrom(s);
    assert AcceptsKeys(s, clear.now);
    hide Inv;
    AttemptSubmits(s, clear, strokes, enter);
  }

  /** From every reachable state with nothing in flight: Escape, any strokes but Enter, and Return submit
      exactly what the strokes spell, corrections applied, at any pace and from min(k, 5) seconds after the k-th
      failure on, at once if there has been none; with repaint ticks anywhere in between just the same. */
  lemma AlwaysRetryable(events: seq<Event>, clear: Stroke, strokes: seq<Stroke>, enter: Stroke)
    requires Run(INITIAL, events)
    requires var s := Exec(INITIAL, events);
             s.exit == None && !s.fields.verifying && Typeable(RetryFrom(s), clear, strokes, enter)
    ensures var s := Exec(INITIAL, events);
            && Run(s, Attempting(clear, strokes, enter))
            && SubmitsWhatWasTyped(s, Exec(s, Attempting(clear, strokes, enter)), strokes, enter)
            && (forall more :: Run(s, more) && WithoutTicks(more) == Attempting(clear, strokes, enter) ==>
                  SubmitsWhatWasTyped(s, Exec(s, more), strokes, enter))
  {
    hide Inv, Attempting, Typeable, Run, Exec, WithoutTicks, Spelled, RetryFrom;
    InitiallyInv();
    InvAlways(INITIAL, events);
    var s := Exec(INITIAL, events);
    CooledDownSuffices(s, clear, strokes, enter);
    forall more | Run(s, more) && WithoutTicks(more) == Attempting(clear, strokes, enter)
      ensures SubmitsWhatWasTyped(s, Exec(s, more), strokes, enter)
    {
      TicksCanBeDropped(s, s, more);
    }
  }

  // ---- plain text ----

  predicate IsText(stroke: Stroke) {
    && stroke.key.keysym == Other && stroke.key.utf8.Some?
    && stroke.key.utf8.value != "" && ControlFree(stroke.key.utf8.value)
  }

  predicate AllText(strokes: seq<Stroke>) {
    forall i :: 0 <= i < |strokes| ==> IsText(strokes[i])
  }

  /** The texts one after the other. */
  function Joined(strokes: seq<Stroke>): string
    requires AllText(strokes)
  {
    if strokes == [] then "" else strokes[0].key.utf8.value + Joined(strokes[1..])
  }

  lemma {:induction false} TextStacks(stack: Stack, strokes: seq<Stroke>)
    requires AllText(strokes)
    ensures Letters(Stacked(stack, strokes)) == Letters(stack) + Joined(strokes)
    decreases strokes
  {
    if strokes != [] {
      assert IsText(strokes[0]);
      TextStacks(AfterKey(stack, strokes[0].key), strokes[1..]);
      LettersPutOn(stack, strokes[0].key.utf8.value);
      AppendAssociates(Letters(stack), strokes[0].key.utf8.value, Joined(strokes[1..]));
    }
  }

  /** Plain text, in one key event or in many, spells itself. */
  lemma TextSpellsItself(strokes: seq<Stroke>)
    requires AllText(strokes)
    ensures Spelled(strokes) == Joined(strokes) && NoEnter(strokes)
    ensures strokes != [] ==> Spelled(strokes) != ""
  {
    TextStacks(Bottom, strokes);
    assert forall i :: 0 <= i < |strokes| ==> IsText(strokes[i]);
    if strokes != [] {
      assert strokes[0].key.utf8.value != "";
    }
  }

  lemma {:induction false} StackedFurther(stack: Stack, strokes: seq<Stroke>, last: Stroke)
    ensures Stacked(stack, strokes + [last]) == AfterKey(Stacked(stack, strokes), last.key)
    decreases strokes
  {
    var longer := strokes + [last];
    if strokes == [] {
      assert longer[1..] == [];
    } else {
      StackedFurther(AfterKey(stack, strokes[0].key), strokes[1..], last);
      assert longer[1..] == strokes[1..] + [last];
    }
    hide AfterKey;
  }

  /** BackSpace takes back the last character, whatever the events it was typed in: after any text ending in
      `c` it leaves that text without `c`, on top of what was there before; and an empty buffer stays empty. */
  lemma BackSpaceTakesTheLast(events: seq<Event>, strokes: seq<Stroke>, back: Stroke, text: string, c: char)
    requires Run(INITIAL, events) && back.key.keysym == BackSpace
    requires var s := Exec(INITIAL, events);
             s.exit == None && !s.fields.verifying && InTime(RetryFrom(s), strokes + [back])
    requires AllText(strokes) && Joined(strokes) == text + [c]
    ensures var s := Exec(INITIAL, events);
            && Run(s, Presses(strokes + [back]))
            && Exec(s, Presses(strokes + [back])).fields.password == s.fields.password + text
    ensures var s := Exec(INITIAL, events);
            InTime(RetryFrom(s), [back]) && s.fields.password == "" ==>
              Run(s, Presses([back])) && Exec(s, Presses([back])).fields.password == ""
  {
    hide Inv, Run, Exec, RetryFrom, AfterKey, IsText, Presses, Pile;
    InitiallyInv();
    InvAlways(INITIAL, events);
    var s := Exec(INITIAL, events);
    var stack := Pile(s.edits);
    BufferIsReplay(s);
    TextSpellsItself(strokes);
    TypingFromHere(s, strokes + [back]);
    TextStacks(stack, strokes);
    StackedFurther(stack, strokes, back);
    TopTakenOff(Stacked(stack, strokes), back.key, s.fields.password + text, c);
    AppendAssociates(s.fields.password, text, [c]);
    if InTime(RetryFrom(s), [back]) && s.fields.password == "" {
      TypingFromHere(s, [back]);
      assert [] + [back] == [back] && Stacked(stack, []) == stack;
      StackedFurther(stack, [], back);
      NothingToTakeOff(stack, back.key);
    }
  }

  lemma TopTakenOff(stack: Stack, key: KeyEvent, text: string, c: char)
    requires key.keysym == BackSpace && Letters(stack) == text + [c]
    ensures Letters(AfterKey(stack, key)) == text
  {
    assert stack.On?;
    assert (Letters(stack.below) + [stack.top])[..|text|] == (text + [c])[..|text|];
  }

  lemma NothingToTakeOff(stack: Stack, key: KeyEvent)
    requires key.keysym == BackSpace && Letters(stack) == ""
    ensures Letters(AfterKey(stack, key)) == ""
  {
  }

  /** Whatever is typed from here on, the buffer holds what it spells on top of what was there. */
  lemma TypingFromHere(s: State, strokes: seq<Stroke>)
    requires Inv(s) && s.exit == None && !s.fields.verifying && InTime(RetryFrom(s), strokes) && NoEnter(strokes)
    ensures Run(s, Presses(strokes))
    ensures Exec(s, Presses(strokes)).fields.password == Letters(Stacked(Pile(s.edits), strokes))
  {
    assert NotBefore(s) == RetryFrom(s);
    assert InTime(s.clock, strokes);
    assert strokes != [] ==> AcceptsKeys(s, strokes[0].now);
    hide Inv, Step, Enabled, AcceptsKeys, Run, Exec;
    TypingEdits(s, strokes);
    InvAlways(s, Presses(strokes));
    BufferIsReplay(Exec(s, Presses(strokes)));
    EditsStack(s.edits, strokes);
  }

  // ---- an attempt in flight ----

  /** What the worker and the loop still have to do for the attempt in flight to get verdict `reply`. */
  function Resolution(s: State, reply: PamReply, at: Time): seq<Event> {
    if s.attempts != [] then [Receive, PamReturns(reply), SendResult, Deliver(at)]
    else if s.worker.Busy? then [PamReturns(reply), SendResult, Deliver(at)]
    else if s.worker.Judged? then [SendResult, Deliver(at)]
    else [Deliver(at)]
  }

  /** What the verdict for the attempt in flight is: PAM's last reply, which is `reply` if PAM had still to be
      asked. It unlocks exactly when it is a success. */
  predicate Decided(s: State, r: State, reply: PamReply)
    requires s.submissions != []
  {
    && r.calls != []
    && r.calls[|r.calls| - 1].attempt == Last(s).attempt
    && (s.attempts != [] || s.worker.Busy? ==> r.calls == s.calls + [Call(Last(s).attempt, reply)])
    && (s.attempts == [] && !s.worker.Busy? ==> r.calls == s.calls)
    && (r.exit == Some(0) <==> r.calls[|r.calls| - 1].reply == Success)
  }

  /** An attempt in flight is never stuck: its verdict comes, it unlocks if and only if PAM succeeded, and if
      this was the k-th failure, anything can be submitted from min(k, 5) seconds after it on. */
  lemma InFlightResolves(events: seq<Event>, reply: PamReply, at: Time, clear: Stroke, strokes: seq<Stroke>,
                         enter: Stroke)
    requires Run(INITIAL, events)
    requires var s := Exec(INITIAL, events); s.exit == None && s.fields.verifying && at >= s.clock
    requires Typeable(at + Min(|Exec(INITIAL, events).failures| + 1, 5) * SECOND, clear, strokes, enter)
    ensures var s := Exec(INITIAL, events);
            && s.submissions != []
            && Run(s, Resolution(s, reply, at))
            && var r := Exec(s, Resolution(s, reply, at));
               && Decided(s, r, reply)
               && (r.exit == Some(0)
                   || (r.exit == None && !r.fields.verifying && Run(r, Attempting(clear, strokes, enter))
                       && SubmitsWhatWasTyped(r, Exec(r, Attempting(clear, strokes, enter)), strokes, enter)))
  {
    hide Inv, Run, Exec, Typeable, Attempting, Resolution, SubmitsWhatWasTyped, Decided;
    InitiallyInv();
    InvAlways(INITIAL, events);
    var s := Exec(INITIAL, events);
    var steps := Resolution(s, reply, at);
    InFlightHasSubmission(s);
    ResolutionRuns(s, reply, at);
    InvAlways(s, steps);
    var r := Exec(s, steps);
    if r.exit == None {
      assert RetryFrom(r) == at + Min(|s.failures| + 1, 5) * SECOND;
      CooledDownSuffices(r, clear, strokes, enter);
    }
  }

  lemma InFlightHasSubmission(s: State)
    requires Inv(s) && s.exit == None && s.fields.verifying
    ensures s.submissions != []
  {
  }

  lemma DeliverEnds(s: State, reply: PamReply, at: Time)
    requires Inv(s) && s.exit == None && s.results != [] && s.clock <= at
    ensures Run(s, [Deliver(at)]) && s.submissions != []
    ensures var r := Exec(s, [Deliver(at)]);
            && r.clock == at
            && (r.exit == Some(0) || (r.exit == None && !r.fields.verifying && r.failures == s.failures + [at]))
            && Decided(s, r, reply)
  {
    assert Run(Step(s, Deliver(at)), []);
    assert Exec(s, [Deliver(at)]) == Step(s, Deliver(at));
  }

  /** The steps before the delivery submit nothing and ask PAM at most once. */
  lemma ResolvingStep(s: State, reply: PamReply, at: Time)
    requires Inv(s) && s.exit == None && s.fields.verifying && s.results == []
    ensures Resolution(s, reply, at) != [] && s.submissions != []
    ensures var e := Resolution(s, reply, at)[0];
            && Enabled(s, e)
            && var t := Step(s, e);
               && t.exit == None && t.fields == s.fields && t.clock == s.clock && t.submissions == s.submissions
               && t.failures == s.failures
               && Resolution(t, reply, at) == Resolution(s, reply, at)[1..]
               && (if s.worker.Busy? then t.calls == s.calls + [Call(Last(s).attempt, reply)] else t.calls == s.calls)
               && ((s.attempts != [] || s.worker.Busy?) <==> (t.attempts != [] || t.worker.Busy? || s.worker.Busy?))
  {
  }

  lemma {:induction false} ResolutionRuns(s: State, reply: PamReply, at: Time)
    requires Inv(s) && s.exit == None && s.fields.verifying && s.clock <= at
    ensures Run(s, Resolution(s, reply, at)) && s.submissions != []
    ensures var r := Exec(s, Resolution(s, reply, at));
            && r.clock == at
            && (r.exit == Some(0) || (r.exit == None && !r.fields.verifying && r.failures == s.failures + [at]))
            && Decided(s, r, reply)
    decreases |Resolution(s, reply, at)|
  {
    var steps := Resolution(s, reply, at);
    if s.results != [] {
      NothingElseInFlight(s);
      DeliverEnds(s, reply, at);
    } else {
      ResolvingStep(s, reply, at);
      StepKeepsInv(s, steps[0]);
      BusyOrQueued(s);
      BusyOrQueued(Step(s, steps[0]));
      hide Inv, Step, Enabled, Resolution;
      assert steps == [steps[0]] + steps[1..];
      ResolutionRuns(Step(s, steps[0]), reply, at);
      RunPrepend(s, steps[0], steps[1..]);
    }
  }

  lemma NothingElseInFlight(s: State)
    requires Inv(s) && s.exit == None && s.results != []
    ensures s.attempts == [] && !s.worker.Busy? && !s.worker.Judged?
  {
  }

  lemma BusyOrQueued(s: State)
    requires Inv(s) && s.exit == None
    ensures s.worker.Busy? ==> s.attempts == []
  {
  }
}
