/** One client at a time (`accept_one`): generations, and which connections are still open. */
module OneClient {
  import opened Words
  import opened Server

  predicate Open(c: Connection) {
    !c.shut && !c.closed
  }

  predicate Unnumbered(s: State, c: nat) {
    s.acceptor.Accepted? && s.acceptor.conn == c
  }

  /** Connections are numbered 1, 2, 3, ... in the order they were accepted. */
  predicate NumberedInOrder(s: State) {
    && (forall c :: 0 <= c < |s.connections| ==>
          s.connections[c].generation == if Unnumbered(s, c) then 0 else c + 1)
    && s.activeGen == (if s.acceptor.Accepted? then |s.connections| - 1 else |s.connections|)
    && (!s.acceptor.Listening? ==> s.acceptor.conn == |s.connections| - 1)
  }

  predicate OnlyActiveOpen(s: State) {
    && (forall c :: 0 <= c < |s.connections| && Open(s.connections[c]) ==>
          s.activeStream == Some(c) || (!s.acceptor.Listening? && s.acceptor.conn == c))
    && (s.activeStream.Some? ==>
          s.activeStream.value == |s.connections| - if s.acceptor.Accepted? || s.acceptor.Numbered? then 2 else 1)
    && (s.acceptor.Evicted? || s.acceptor.Greeting? || s.acceptor.Greeted? || s.acceptor.Cloned? ==>
          s.activeStream == None)
    && (s.acceptor.Stored? ==> s.activeStream == Some(s.acceptor.conn))
  }

  predicate HandlersNumbered(s: State) {
    && (forall h :: 0 <= h < |s.handlers| ==>
          HandlerAt(s, h) && s.handlers[h].generation == s.handlers[h].conn + 1)
    && (forall h, k :: 0 <= h < k < |s.handlers| ==> s.handlers[h].conn < s.handlers[k].conn)
    && (!s.acceptor.Listening? ==>
          forall h :: 0 <= h < |s.handlers| ==> s.handlers[h].conn < s.acceptor.conn)
  }

  predicate AcceptInv(s: State) {
    NumberedInOrder(s) && OnlyActiveOpen(s) && HandlersNumbered(s)
  }

  predicate AcceptorEvent(e: Event) {
    || e.Connect? || e.TakeNumber? || e.Evict? || e.LoadGeometry?
    || e.WriteHello? || e.CloneStream? || e.StoreStream? || e.StartHandler?
  }

  lemma AcceptorKeepsAcceptInv(s: State, e: Event)
    requires AcceptInv(s) && Enabled(s, e) && AcceptorEvent(e)
    ensures AcceptInv(Step(s, e))
  {
    var s' := Step(s, e);
    assert NumberedInOrder(s');
    assert OnlyActiveOpen(s');
    assert HandlersNumbered(s');
  }

  /** Handlers, clients and geometry changes leave the acceptor's bookkeeping alone. */
  lemma OtherStepsFrame(s: State, e: Event)
    requires Enabled(s, e) && !AcceptorEvent(e)
    ensures var s' := Step(s, e);
            && s'.acceptor == s.acceptor && s'.activeGen == s.activeGen && s'.activeStream == s.activeStream
            && |s'.connections| == |s.connections| && |s'.handlers| == |s.handlers|
            && (forall c :: 0 <= c < |s.connections| ==>
                  && s'.connections[c].generation == s.connections[c].generation
                  && Open(s'.connections[c]) == Open(s.connections[c]))
            && (forall h :: 0 <= h < |s.handlers| ==>
                  && s'.handlers[h].conn == s.handlers[h].conn
                  && s'.handlers[h].generation == s.handlers[h].generation)
  {
  }

  lemma StepKeepsAcceptInv(s: State, e: Event)
    requires AcceptInv(s) && Enabled(s, e)
    ensures AcceptInv(Step(s, e))
  {
    if AcceptorEvent(e) {
      AcceptorKeepsAcceptInv(s, e);
    } else {
      OtherStepsFrame(s, e);
      hide Step, Enabled;
    }
  }

  lemma {:induction false} AcceptInvAlways(s: State, events: seq<Event>)
    requires AcceptInv(s) && Run(s, events)
    ensures AcceptInv(Exec(s, events))
    decreases |events|
  {
    if events != [] {
      StepKeepsAcceptInv(s, events[0]);
      AcceptInvAlways(Step(s, events[0]), events[1..]);
    }
  }

  /** In every reachable state: generations are distinct and bounded by `active_gen`, and between
      accepts at most one connection is open, the newest one, whether or not a HELLO or a clone
      failed on the way. */
  lemma OneClientAtATime(events: seq<Event>)
    requires Run(INITIAL, events)
    ensures var t := Exec(INITIAL, events);
            && (forall h :: 0 <= h < |t.handlers| ==> t.handlers[h].generation <= t.activeGen)
            && (forall h, k :: 0 <= h < k < |t.handlers| ==> t.handlers[h].generation < t.handlers[k].generation)
            && (t.acceptor.Listening? ==>
                  forall c :: 0 <= c < |t.connections| && Open(t.connections[c]) ==>
                    t.activeStream == Some(c) && t.connections[c].generation == t.activeGen && c == |t.connections| - 1)
  {
    AcceptInvAlways(INITIAL, events);
  }
}
