/** arkdsource.Subscribe of pkg/solver/arkdsource/arkdsource.go feeding Solver.Run. */
module Source {
  import opened Base
  import opened SolverRun

  /** What the arkd stream delivers. */
  datatype Event = StreamError | NotArkTx | Undecodable | ArkTx(content: int)

  datatype SourcePc = Subscribing | Receiving | Sending(tx: Tx) | Closing | Exited

  /** The source goroutine next to the solver; `events` is all the upstream will ever deliver. */
  datatype System = System(
    events: seq<Event>,
    src: SourcePc,
    subscribed: bool,
    pulled: nat,                       // events taken from upstream
    sawClose: bool,                    // the upstream channel was seen closed
    dropped: bool,                     // a decoded packet was given up because of cancellation
    run: State)

  datatype SystemLabel =
    | SubscribeFails
    | SubscribeOk
    | Pull
    | SeeUpstreamClose
    | Send
    | Quit
    | CloseOut
    | RunStep(l: Label)

  /** The capacity of the out channel. */
  const OUT_CAPACITY: nat := 1

  function Fresh(events: seq<Event>): System
  {
    System(events, Subscribing, false, 0, false, false, INITIAL)
  }

  function SystemStep(plugins: nat, y: System, l: SystemLabel): Option<System>
  {
    match l
    case SubscribeFails => if y.src.Subscribing? then Some(y.(src := Closing)) else None
    case SubscribeOk => if y.src.Subscribing? then Some(y.(src := Receiving, subscribed := true)) else None
    case Pull =>
      if y.src.Receiving? && y.pulled < |y.events| then
        var ev := y.events[y.pulled];
        Some(y.(pulled := y.pulled + 1,
                src := if ev.ArkTx? then Sending(Tx(y.pulled, ev.content)) else Receiving))
      else None
    case SeeUpstreamClose =>
      if y.src.Receiving? && y.pulled == |y.events| then Some(y.(src := Closing, sawClose := true)) else None
    case Send =>
      if y.src.Sending? && |y.run.queue| < OUT_CAPACITY then
        var r := Step(plugins, y.run, ChanSend(Some(y.src.tx)));
        if r.Some? then Some(y.(src := Receiving, run := r.value)) else None
      else None
    case Quit =>
      if y.run.cancelled && (y.src.Receiving? || y.src.Sending?) then
        Some(y.(src := Closing, dropped := y.src.Sending?))
      else None
    case CloseOut =>
      if y.src.Closing? then
        var r := Step(plugins, y.run, ChanClose);
        if r.Some? then Some(y.(src := Exited, run := r.value)) else None
      else None
    case RunStep(rl) =>
      if rl.ChanSend? || rl.ChanClose? then None
      else
        var r := Step(plugins, y.run, rl);
        if r.Some? then Some(y.(run := r.value)) else None
  }

  function SystemReach(plugins: nat, events: seq<Event>, run: seq<SystemLabel>): Option<System>
  {
    if run == [] then Some(Fresh(events))
    else
      var y := SystemReach(plugins, events, run[..|run| - 1]);
      if y == None then None else SystemStep(plugins, y.value, run[|run| - 1])
  }

  /** The decodable ArkTx events of a stream, tagged with their positions. */
  function ArkTxs(events: seq<Event>): seq<Tx>
  {
    if events == [] then []
    else
      var n := |events| - 1;
      ArkTxs(events[..n]) + if events[n].ArkTx? then [Tx(n, events[n].content)] else []
  }

  /** Positions of delivered transactions grow strictly, so none is delivered twice or out of order. */
  predicate Increasing(txs: seq<Tx>)
  {
    forall i, j | 0 <= i < j < |txs| :: txs[i].pos < txs[j].pos
  }

  /** The packets that entered the channel, received or not. */
  function Entered(s: State): seq<Tx> { Packets(s.received) + Packets(s.queue) }

  /** The packet the source goroutine holds. */
  function InHand(src: SourcePc): seq<Tx> { if src.Sending? then [src.tx] else [] }

  /** All packets decoded so far, but for one given up. */
  function Got(y: System): seq<Tx> { Entered(y.run) + InHand(y.src) }

  ghost predicate Follows(got: seq<Tx>, dropped: bool, events: seq<Event>, pulled: nat)
  {
    && pulled <= |events|
    && if dropped then got <= ArkTxs(events[..pulled]) else got == ArkTxs(events[..pulled])
  }

  ghost predicate FlowInv(y: System)
  {
    && (y.dropped ==> y.run.cancelled && (y.src.Closing? || y.src.Exited?))
    && Follows(Got(y), y.dropped, y.events, y.pulled)
  }

  ghost predicate SourceInv(y: System)
  {
    && |y.run.queue| <= 1
    && (y.run.closed <==> y.src.Exited?)
    && (y.src.Subscribing? ==> !y.subscribed)
    && (y.sawClose ==> y.pulled == |y.events|)
    && (y.src.Closing? || y.src.Exited? ==> y.run.cancelled || y.sawClose || !y.subscribed)
    && (!y.subscribed ==> y.pulled == 0 && !y.src.Receiving? && !y.src.Sending?)
  }

  ghost predicate SystemInv(plugins: nat, y: System)
  {
    Inv(plugins, y.run) && FlowInv(y) && SourceInv(y)
  }

  lemma {:induction false} PacketsConcat(a: seq<Option<Tx>>, b: seq<Option<Tx>>)
    ensures Packets(a + b) == Packets(a) + Packets(b)
    decreases |b|
  {
    if b == [] {
      assert a + b == a;
    } else {
      assert (a + b)[..|a + b| - 1] == a + b[..|b| - 1];
      PacketsConcat(a, b[..|b| - 1]);
    }
  }

  lemma ReceiveKeepsPackets(queue: seq<Option<Tx>>, received: seq<Option<Tx>>)
    requires queue != []
    ensures Packets(received + [queue[0]]) + Packets(queue[1..]) == Packets(received) + Packets(queue)
  {
    assert queue == [queue[0]] + queue[1..];
    PacketsConcat([queue[0]], queue[1..]);
    PacketsConcat(received, [queue[0]]);
  }

  lemma PullOne(events: seq<Event>, n: nat)
    requires n < |events|
    ensures ArkTxs(events[..n + 1])
            == ArkTxs(events[..n]) + if events[n].ArkTx? then [Tx(n, events[n].content)] else []
  {
    assert events[..n + 1][..n] == events[..n];
  }

  /** The solver's own steps move packets from the channel to the received list, and nowhere else. */
  lemma RunStepKeepsPackets(plugins: nat, s: State, l: Label)
    requires Step(plugins, s, l).Some? && !l.ChanSend? && !l.ChanClose?
    ensures var t := Step(plugins, s, l).value;
            && Entered(t) == Entered(s)
            && t.closed == s.closed && (s.cancelled ==> t.cancelled) && |t.queue| <= |s.queue|
  {
    hide Packets;
    if l.Receive? {
      ReceiveKeepsPackets(s.queue, s.received);
    }
  }

  lemma PullKeepsFlow(plugins: nat, y: System, t: System)
    requires FlowInv(y) && SystemStep(plugins, y, Pull) == Some(t)
    ensures FlowInv(t)
  {
    PullOne(y.events, y.pulled);
    ConcatEmpty(Entered(y.run));
  }

  lemma SendKeepsGot(plugins: nat, y: System, t: System)
    requires SystemStep(plugins, y, Send) == Some(t)
    ensures Got(t) == Got(y)
  {
    PacketsSnoc(y.run.queue, Some(y.src.tx));
    ConcatAssoc(Packets(y.run.received), Packets(y.run.queue), [y.src.tx]);
    ConcatEmpty(Entered(t.run));
  }

  lemma QuitKeepsFlow(plugins: nat, y: System, t: System)
    requires FlowInv(y) && SystemStep(plugins, y, Quit) == Some(t)
    ensures FlowInv(t)
  {
    ConcatEmpty(Entered(y.run));
  }

  lemma StepKeepsFlow(plugins: nat, y: System, l: SystemLabel, t: System)
    requires FlowInv(y) && SystemStep(plugins, y, l) == Some(t)
    ensures FlowInv(t)
  {
    match l
    case RunStep(rl) => RunStepKeepsPackets(plugins, y.run, rl);
    case Pull => PullKeepsFlow(plugins, y, t);
    case Send => SendKeepsGot(plugins, y, t);
    case Quit => QuitKeepsFlow(plugins, y, t);
    case _ => assert InHand(t.src) == InHand(y.src) && Entered(t.run) == Entered(y.run);
  }

  lemma StepKeepsSource(plugins: nat, y: System, l: SystemLabel)
    requires SourceInv(y) && SystemStep(plugins, y, l).Some?
    ensures SourceInv(SystemStep(plugins, y, l).value)
  {
    if l.RunStep? {
      RunStepKeepsPackets(plugins, y.run, l.l);
    }
  }

  lemma SystemStepKeepsInv(plugins: nat, y: System, l: SystemLabel, t: System)
    requires SystemInv(plugins, y) && SystemStep(plugins, y, l) == Some(t)
    ensures SystemInv(plugins, t) && t.events == y.events
  {
    StepKeepsFlow(plugins, y, l, t);
    StepKeepsSource(plugins, y, l);
    match l
    case RunStep(rl) => StepKeepsInv(plugins, y.run, rl);
    case Send => StepKeepsInv(plugins, y.run, ChanSend(Some(y.src.tx)));
    case CloseOut => StepKeepsInv(plugins, y.run, ChanClose);
    case _ =>
  }

  lemma FreshInv(plugins: nat, events: seq<Event>)
    ensures SystemInv(plugins, Fresh(events))
  {
    assert events[..0] == [];
  }

  lemma {:induction false} SystemReachInv(plugins: nat, events: seq<Event>, run: seq<SystemLabel>)
    requires SystemReach(plugins, events, run).Some?
    ensures SystemInv(plugins, SystemReach(plugins, events, run).value)
    ensures SystemReach(plugins, events, run).value.events == events
  {
    if run == [] {
      FreshInv(plugins, events);
    } else {
      var before := run[..|run| - 1];
      SystemReachInv(plugins, events, before);
      var y, t := SystemReach(plugins, events, before).value, SystemReach(plugins, events, run).value;
      SystemStepKeepsInv(plugins, y, run[|run| - 1], t);
    }
  }

  lemma {:induction false} ArkTxsPositions(events: seq<Event>)
    ensures Increasing(ArkTxs(events))
    ensures forall i | 0 <= i < |ArkTxs(events)| :: ArkTxs(events)[i].pos < |events|
  {
    if events != [] {
      ArkTxsPositions(events[..|events| - 1]);
    }
  }

  lemma {:induction false} ArkTxsPrefix(events: seq<Event>, n: nat)
    requires n <= |events|
    ensures ArkTxs(events[..n]) <= ArkTxs(events)
    decreases |events| - n
  {
    if n == |events| {
      assert events[..n] == events;
    } else {
      PullOne(events, n);
      ArkTxsPrefix(events, n + 1);
    }
  }

  /**
   * In every run of source and solver, the packets handed to plugins are a prefix of the stream's
   * decodable ArkTx events, in stream order and without repetition, and at most one is buffered.
   */
  lemma DeliveredInOrder(plugins: nat, events: seq<Event>, run: seq<SystemLabel>)
    requires SystemReach(plugins, events, run).Some?
    ensures var got := Packets(SystemReach(plugins, events, run).value.run.received);
            got <= ArkTxs(events) && Increasing(got)
    ensures |SystemReach(plugins, events, run).value.run.queue| <= 1
  {
    SystemReachInv(plugins, events, run);
    var y := SystemReach(plugins, events, run).value;
    var got := Packets(y.run.received);
    assert got <= Entered(y.run) <= Got(y);
    ArkTxsPrefix(events, y.pulled);
    ArkTxsPositions(events);
  }

  /**
   * When the solver returns without having been cancelled, it returned nil; if the subscription
   * had succeeded, the plugins were handed all of the stream's ArkTx events, each matched by every
   * plugin in order, and otherwise nothing at all.
   */
  lemma DeliveredAll(plugins: nat, events: seq<Event>, run: seq<SystemLabel>)
    requires SystemReach(plugins, events, run).Some?
    requires var y := SystemReach(plugins, events, run).value; y.run.pc.Returned? && !y.run.cancelled
    ensures var y := SystemReach(plugins, events, run).value;
            && y.run.pc.ret == ReturnNil
            && Packets(y.run.received) == (if y.subscribed then ArkTxs(events) else [])
            && CallKeys(y.run.matches) == Rounds(if y.subscribed then ArkTxs(events) else [], plugins)
  {
    SystemReachInv(plugins, events, run);
    var y := SystemReach(plugins, events, run).value;
    assert Got(y) == Packets(y.run.received);
    if y.subscribed {
      assert events[..y.pulled] == events;
    } else {
      assert events[..0] == [];
    }
  }

  // ---------------------------------------------------------------------------
  // What can happen: leaving on cancellation, and delivering everything.

  /** A cancelled source can leave even when it is blocked on a full channel, and closes it. */
  lemma CancelledSourceLeaves(plugins: nat, y: System)
    requires SourceInv(y) && y.run.cancelled && (y.src.Receiving? || y.src.Sending?)
    ensures var q := SystemStep(plugins, y, Quit);
            && q.Some? && q.value.run == y.run
            && SystemStep(plugins, q.value, CloseOut) == Some(q.value.(src := Exited, run := y.run.(closed := true)))
  {
  }

  lemma ReachOn(plugins: nat, events: seq<Event>, run: seq<SystemLabel>, y: System, l: SystemLabel)
    returns (more: seq<SystemLabel>, t: System)
    requires SystemReach(plugins, events, run) == Some(y) && SystemStep(plugins, y, l).Some?
    ensures SystemStep(plugins, y, l) == Some(t) && SystemReach(plugins, events, more) == Some(t)
  {
    more, t := run + [l], SystemStep(plugins, y, l).value;
    assert more[..|run|] == run;
  }

  /** The solver's own steps are steps of the system. */
  lemma {:induction false} Lift(plugins: nat, events: seq<Event>, run: seq<SystemLabel>, y: System, ls: seq<Label>)
    returns (more: seq<SystemLabel>)
    requires SystemReach(plugins, events, run) == Some(y) && Continue(plugins, y.run, ls).Some? && OwnSteps(ls)
    ensures SystemReach(plugins, events, more) == Some(y.(run := Continue(plugins, y.run, ls).value))
  {
    if ls == [] {
      more := run;
    } else {
      var n := |ls| - 1;
      var before := Lift(plugins, events, run, y, ls[..n]);
      var mid := y.(run := Continue(plugins, y.run, ls[..n]).value);
      var t;
      more, t := ReachOn(plugins, events, before, mid, RunStep(ls[n]));
    }
  }

  /** Both sides wait for the next event. */
  predicate Waiting(y: System)
  {
    && y.src.Receiving? && y.subscribed
    && y.run.pc.Select? && y.run.queue == [] && !y.run.closed && !y.run.cancelled
  }

  /** The next event can be taken and, if it is an ArkTx, handed over and matched. */
  lemma DeliverOne(plugins: nat, events: seq<Event>, run: seq<SystemLabel>, y: System, decide: (Tx, nat) -> MatchOutcome)
    returns (more: seq<SystemLabel>, t: System)
    requires SystemReach(plugins, events, run) == Some(y) && Waiting(y) && y.pulled < |y.events|
    ensures SystemReach(plugins, events, more) == Some(t) && Waiting(t)
    ensures t.events == y.events && t.pulled == y.pulled + 1 && Decided(decide, y.run.matches, t.run.matches)
  {
    hide SystemReach, Continue;
    more, t := ReachOn(plugins, events, run, y, Pull);
    if t.src.Sending? {
      more, t := ReachOn(plugins, events, more, t, Send);
      SystemReachInv(plugins, events, more);
      StayPut(plugins, t.run);
      var ls, r := ConsumeOne(plugins, t.run, [], t.run, decide);
      more := Lift(plugins, events, more, t, ls);
      t := t.(run := r);
    }
  }

  lemma StayPut(plugins: nat, s: State)
    requires Inv(plugins, s)
    ensures Leads(plugins, s, [], s)
  {
  }

  /** From a wait, all remaining events can be delivered. */
  lemma DeliverRest(plugins: nat, events: seq<Event>, run: seq<SystemLabel>, y: System, decide: (Tx, nat) -> MatchOutcome)
    returns (more: seq<SystemLabel>, t: System)
    requires SystemReach(plugins, events, run) == Some(y) && Waiting(y) && y.pulled <= |y.events|
    ensures SystemReach(plugins, events, more) == Some(t) && Waiting(t)
    ensures t.pulled == |t.events| && Decided(decide, y.run.matches, t.run.matches)
    decreases |y.events| - y.pulled
  {
    if y.pulled == |y.events| {
      more, t := run, y;
    } else {
      var mid;
      more, mid := DeliverOne(plugins, events, run, y, decide);
      more, t := DeliverRest(plugins, events, more, mid, decide);
    }
  }

  /**
   * Everything can be delivered: for every stream and every decision of the plugins on every
   * transaction, be it to decline, to accept or to panic, and whether or not solves panic, there is a
   * run in which all of the stream's ArkTx events are matched with these outcomes, every accepted one is
   * solved to its end, and Run returns nil.
   */
  lemma FullRunPossible(plugins: nat, events: seq<Event>, decide: (Tx, nat) -> MatchOutcome, panicked: bool)
    returns (run: seq<SystemLabel>)
    ensures SystemReach(plugins, events, run).Some?
    ensures var s := SystemReach(plugins, events, run).value.run;
            && s.pc == Returned(ReturnNil)
            && CallKeys(s.matches) == Rounds(ArkTxs(events), plugins)
            && (forall i | 0 <= i < |s.matches| :: s.matches[i].outcome == decide(s.matches[i].tx, s.matches[i].plugin))
            && s.spawned == Owed(s.matches)
            && (forall i :: 0 <= i < |s.spawned| <==> i in s.finished)
  {
    hide Continue, CallKeys, Rounds, ArkTxs, Owed;
    var y;
    run, y := ReachOn(plugins, events, [], Fresh(events), SubscribeOk);
    run, y := DeliverRest(plugins, events, run, y, decide);
    run, y := ReachOn(plugins, events, run, y, SeeUpstreamClose);
    run, y := ReachOn(plugins, events, run, y, CloseOut);
    SystemReachInv(plugins, events, run);
    var ls, t := ReturnPossible(plugins, y.run, decide, panicked);
    run := Lift(plugins, events, run, y, ls);
    DeliveredAll(plugins, events, run);
    SystemReachInv(plugins, events, run);
  }
}
