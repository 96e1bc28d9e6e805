/** Solver.Run of pkg/solver/solver.go with its solve goroutines, as a machine stepped by labels. */
module SolverRun {
  import opened Base

  /** A decoded transaction: its position in the stream and a number standing for its content. */
  datatype Tx = Tx(pos: nat, content: int)
  datatype Intent = Intent(content: int)

  /** What p.Match does: return false, return an intent with true, or panic. */
  datatype MatchOutcome = Declined | Accepted(intent: Intent) | Panicked
  datatype MatchCall = MatchCall(tx: Tx, plugin: nat, outcome: MatchOutcome)
  datatype Solve = Solve(tx: Tx, plugin: nat, intent: Intent)

  datatype Ret = ReturnNil | ReturnCtxErr

  /** Where the receive loop is. */
  datatype Pc =
    | Select
    | Matching(tx: Tx, k: nat)                   // about to match plugin k
    | Adding(solve: Solve)                       // about to wg.Add(1)
    | Spawning(solve: Solve)                     // about to start the goroutine
    | Draining(ret: Ret)                         // in the deferred wg.Wait()
    | Returned(ret: Ret)

  datatype State = State(
    cancelled: bool,
    queue: seq<Option<Tx>>,                      // the txs channel; None is a nil packet
    closed: bool,
    pc: Pc,
    received: seq<Option<Tx>>,
    matches: seq<MatchCall>,
    spawned: seq<Solve>,
    solving: set<int>,                           // goroutines inside safeSolve, by position in spawned
    ending: set<int>,                            // past safeSolve, wg.Done() still to run
    finished: set<int>,
    wg: int)

  datatype Label =
    | Cancel
    | ChanSend(item: Option<Tx>)
    | ChanClose
    | SeeCancel
    | SeeClose
    | Receive
    | Match(outcome: MatchOutcome)
    | EndRound
    | WgAdd
    | Go
    | SolveReturns(id: int, panicked: bool)
    | WgDone(id: int)
    | WaitDone

  const INITIAL := State(false, [], false, Select, [], [], [], {}, {}, {}, 0)

  /** One atomic step; None when the label is not enabled. `plugins` is the number of plugins. */
  function Step(plugins: nat, s: State, l: Label): Option<State>
  {
    match l
    case Cancel => Some(s.(cancelled := true))
    case ChanSend(item) => if s.closed then None else Some(s.(queue := s.queue + [item]))
    case ChanClose => if s.closed then None else Some(s.(closed := true))
    case SeeCancel => if s.pc.Select? && s.cancelled then Some(s.(pc := Draining(ReturnCtxErr))) else None
    case SeeClose =>
      if s.pc.Select? && s.closed && s.queue == [] then Some(s.(pc := Draining(ReturnNil))) else None
    case Receive =>
      if s.pc.Select? && s.queue != [] then
        Some(s.(queue := s.queue[1..], received := s.received + [s.queue[0]],
                pc := if s.queue[0] == None then Select else Matching(s.queue[0].value, 0)))
      else None
    case Match(outcome) =>
      if s.pc.Matching? && s.pc.k < plugins then
        Some(s.(matches := s.matches + [MatchCall(s.pc.tx, s.pc.k, outcome)],
                pc := if outcome.Accepted? then Adding(Solve(s.pc.tx, s.pc.k, outcome.intent))
                      else Matching(s.pc.tx, s.pc.k + 1)))
      else None
    case EndRound => if s.pc.Matching? && s.pc.k == plugins then Some(s.(pc := Select)) else None
    case WgAdd => if s.pc.Adding? then Some(s.(pc := Spawning(s.pc.solve), wg := s.wg + 1)) else None
    case Go =>
      if s.pc.Spawning? then
        Some(s.(spawned := s.spawned + [s.pc.solve], solving := s.solving + {|s.spawned|},
                pc := Matching(s.pc.solve.tx, s.pc.solve.plugin + 1)))
      else None
    case SolveReturns(id, panicked) =>
      if id in s.solving then Some(s.(solving := s.solving - {id}, ending := s.ending + {id})) else None
    case WgDone(id) =>
      if id in s.ending then
        Some(s.(ending := s.ending - {id}, finished := s.finished + {id}, wg := s.wg - 1))
      else None
    case WaitDone => if s.pc.Draining? && s.wg == 0 then Some(s.(pc := Returned(s.pc.ret))) else None
  }

  /** The state after a run of steps, if every step was enabled. */
  function Reach(plugins: nat, run: seq<Label>): Option<State>
  {
    if run == [] then Some(INITIAL)
    else
      var s := Reach(plugins, run[..|run| - 1]);
      if s == None then None else Step(plugins, s.value, run[|run| - 1])
  }

  // ---------------------------------------------------------------------------
  // What a run should have done, read off the received transactions.

  /** The packets that are not nil. */
  function Packets(items: seq<Option<Tx>>): seq<Tx>
  {
    if items == [] then []
    else Packets(items[..|items| - 1]) + if items[|items| - 1].Some? then [items[|items| - 1].value] else []
  }

  /** The match calls of one transaction: plugins 0, 1, ..., n-1. */
  function Round(tx: Tx, n: nat): seq<(Tx, nat)>
  {
    if n == 0 then [] else Round(tx, n - 1) + [(tx, n - 1)]
  }

  function Rounds(txs: seq<Tx>, n: nat): seq<(Tx, nat)>
  {
    if txs == [] then [] else Rounds(txs[..|txs| - 1], n) + Round(txs[|txs| - 1], n)
  }

  function CallKeys(calls: seq<MatchCall>): seq<(Tx, nat)>
  {
    if calls == [] then []
    else CallKeys(calls[..|calls| - 1]) + [(calls[|calls| - 1].tx, calls[|calls| - 1].plugin)]
  }

  /** The solves owed to the match calls that returned true. */
  function Owed(calls: seq<MatchCall>): seq<Solve>
  {
    if calls == [] then []
    else
      var c := calls[|calls| - 1];
      Owed(calls[..|calls| - 1]) + if c.outcome.Accepted? then [Solve(c.tx, c.plugin, c.outcome.intent)] else []
  }

  /** The match accepted last, while its goroutine has not started. */
  function Pending(pc: Pc): seq<Solve>
  {
    if pc.Adding? || pc.Spawning? then [pc.solve] else []
  }

  /** The transaction being matched and the number of its match calls made so far. */
  function Current(pc: Pc): Option<(Tx, nat)>
  {
    if pc.Matching? then Some((pc.tx, pc.k))
    else if pc.Adding? || pc.Spawning? then Some((pc.solve.tx, pc.solve.plugin + 1))
    else None
  }

  /** The calls made: full rounds for all transactions but the current one, and its opening calls. */
  ghost predicate Matched(plugins: nat, txs: seq<Tx>, current: Option<(Tx, nat)>, calls: seq<(Tx, nat)>)
  {
    if current == None then calls == Rounds(txs, plugins)
    else
      var (tx, k) := current.value;
      && k <= plugins
      && txs != [] && txs[|txs| - 1] == tx
      && calls == Rounds(txs[..|txs| - 1], plugins) + Round(tx, k)
  }

  ghost predicate MatchInv(plugins: nat, s: State)
  {
    Matched(plugins, Packets(s.received), Current(s.pc), CallKeys(s.matches))
  }

  ghost predicate SolveInv(s: State)
  {
    Owed(s.matches) == s.spawned + Pending(s.pc)
  }

  /** The goroutines in flight. */
  function InFlight(s: State): set<int> { s.solving + s.ending }

  /** Every started solve is at exactly one stage. */
  ghost predicate Accounted(solving: set<int>, ending: set<int>, finished: set<int>, started: nat)
  {
    && solving !! ending && (solving + ending) !! finished
    && forall i :: 0 <= i < started <==> i in solving || i in ending || i in finished
  }

  ghost predicate WaitInv(s: State)
  {
    && Accounted(s.solving, s.ending, s.finished, |s.spawned|)
    && s.wg == |s.solving| + |s.ending| + (if s.pc.Spawning? then 1 else 0)
    && (s.pc.Returned? ==> s.wg == 0)
  }

  ghost predicate ReturnInv(s: State)
  {
    s.pc.Draining? || s.pc.Returned? ==>
      if s.pc.ret.ReturnNil? then s.closed && s.queue == [] else s.cancelled
  }

  ghost predicate Inv(plugins: nat, s: State)
  {
    MatchInv(plugins, s) && SolveInv(s) && WaitInv(s) && ReturnInv(s)
  }

  lemma PacketsSnoc(items: seq<Option<Tx>>, item: Option<Tx>)
    ensures Packets(items + [item]) == Packets(items) + if item.Some? then [item.value] else []
  {
    assert (items + [item])[..|items|] == items;
  }

  lemma CallKeysSnoc(calls: seq<MatchCall>, c: MatchCall)
    ensures CallKeys(calls + [c]) == CallKeys(calls) + [(c.tx, c.plugin)]
  {
    assert (calls + [c])[..|calls|] == calls;
  }

  lemma OwedSnoc(calls: seq<MatchCall>, c: MatchCall)
    ensures Owed(calls + [c])
            == Owed(calls) + if c.outcome.Accepted? then [Solve(c.tx, c.plugin, c.outcome.intent)] else []
  {
    assert (calls + [c])[..|calls|] == calls;
  }

  /** Receiving a packet opens an empty round. */
  lemma OpenRound(plugins: nat, txs: seq<Tx>, tx: Tx, calls: seq<(Tx, nat)>)
    requires Matched(plugins, txs, None, calls)
    ensures Matched(plugins, txs + [tx], Some((tx, 0)), calls)
  {
    assert (txs + [tx])[..|txs|] == txs;
    assert Round(tx, 0) == [];
  }

  /** A match call extends the open round by its plugin. */
  lemma ExtendRound(plugins: nat, txs: seq<Tx>, tx: Tx, k: nat, calls: seq<(Tx, nat)>)
    requires Matched(plugins, txs, Some((tx, k)), calls) && k < plugins
    ensures Matched(plugins, txs, Some((tx, k + 1)), calls + [(tx, k)])
  {
    var front := Rounds(txs[..|txs| - 1], plugins);
    assert (front + Round(tx, k)) + [(tx, k)] == front + Round(tx, k + 1);
  }

  /** A round of all plugins closes. */
  lemma CloseRound(plugins: nat, txs: seq<Tx>, tx: Tx, calls: seq<(Tx, nat)>)
    requires Matched(plugins, txs, Some((tx, plugins)), calls)
    ensures Matched(plugins, txs, None, calls)
  {
  }

  lemma ReceiveKeepsMatchInv(plugins: nat, s: State, t: State)
    requires Step(plugins, s, Receive) == Some(t) && MatchInv(plugins, s)
    ensures MatchInv(plugins, t)
  {
    hide Matched, Packets, CallKeys;
    var item := s.queue[0];
    PacketsSnoc(s.received, item);
    if item.Some? {
      OpenRound(plugins, Packets(s.received), item.value, CallKeys(s.matches));
      MatchInvIntro(plugins, t, Packets(s.received) + [item.value], Some((item.value, 0)), CallKeys(s.matches));
    } else {
      ConcatEmpty(Packets(s.received));
      MatchInvIntro(plugins, t, Packets(s.received), None, CallKeys(s.matches));
    }
  }

  lemma MatchInvIntro(plugins: nat, s: State, txs: seq<Tx>, current: Option<(Tx, nat)>, calls: seq<(Tx, nat)>)
    requires Packets(s.received) == txs && Current(s.pc) == current && CallKeys(s.matches) == calls
    requires Matched(plugins, txs, current, calls)
    ensures MatchInv(plugins, s)
  {
  }

  lemma MatchKeepsMatchInv(plugins: nat, s: State, outcome: MatchOutcome, t: State)
    requires Step(plugins, s, Match(outcome)) == Some(t) && MatchInv(plugins, s)
    ensures MatchInv(plugins, t)
  {
    hide Matched, Packets, CallKeys;
    var tx, k, calls := s.pc.tx, s.pc.k, CallKeys(s.matches);
    CallKeysSnoc(s.matches, MatchCall(tx, k, outcome));
    ExtendRound(plugins, Packets(s.received), tx, k, calls);
    MatchInvIntro(plugins, t, Packets(s.received), Some((tx, k + 1)), calls + [(tx, k)]);
  }

  /** The other steps neither receive nor match. */
  lemma OtherStep(plugins: nat, s: State, l: Label)
    requires Step(plugins, s, l).Some? && !l.Receive? && !l.Match? && !l.EndRound?
    ensures var t := Step(plugins, s, l).value;
            t.received == s.received && t.matches == s.matches && Current(t.pc) == Current(s.pc)
  {
  }

  lemma StepKeepsMatchInv(plugins: nat, s: State, l: Label)
    requires Step(plugins, s, l).Some? && MatchInv(plugins, s)
    ensures MatchInv(plugins, Step(plugins, s, l).value)
  {
    hide Matched, Packets, CallKeys;
    if l.Receive? {
      ReceiveKeepsMatchInv(plugins, s, Step(plugins, s, l).value);
    } else if l.Match? {
      MatchKeepsMatchInv(plugins, s, l.outcome, Step(plugins, s, l).value);
    } else if l.EndRound? {
      CloseRound(plugins, Packets(s.received), s.pc.tx, CallKeys(s.matches));
    } else {
      OtherStep(plugins, s, l);
    }
  }

  lemma StepKeepsSolveInv(plugins: nat, s: State, l: Label)
    requires Step(plugins, s, l).Some? && SolveInv(s)
    ensures SolveInv(Step(plugins, s, l).value)
  {
    hide Owed;
    if l.Match? {
      MatchKeepsSolveInv(plugins, s, l.outcome);
    } else {
      OtherKeepsSolves(plugins, s, l);
    }
  }

  lemma MatchKeepsSolveInv(plugins: nat, s: State, outcome: MatchOutcome)
    requires Step(plugins, s, Match(outcome)).Some? && SolveInv(s)
    ensures SolveInv(Step(plugins, s, Match(outcome)).value)
  {
    var t := Step(plugins, s, Match(outcome)).value;
    hide Owed;
    OwedSnoc(s.matches, MatchCall(s.pc.tx, s.pc.k, outcome));
    ConcatEmpty(s.spawned);
    assert Pending(s.pc) == [] && t.spawned == s.spawned;
  }

  /** The other steps make no match call; starting a solve moves it from pending to started. */
  lemma OtherKeepsSolves(plugins: nat, s: State, l: Label)
    requires Step(plugins, s, l).Some? && !l.Match?
    ensures var t := Step(plugins, s, l).value;
            t.matches == s.matches && t.spawned + Pending(t.pc) == s.spawned + Pending(s.pc)
  {
    if l.Go? {
      ConcatEmpty(s.spawned + [s.pc.solve]);
    }
  }

  lemma GoKeepsWaitInv(plugins: nat, s: State)
    requires s.pc.Spawning? && WaitInv(s)
    ensures WaitInv(Step(plugins, s, Go).value)
  {
    assert |s.spawned| !in s.solving;
  }

  lemma ReturnKeepsWaitInv(plugins: nat, s: State, id: int, panicked: bool)
    requires id in s.solving && WaitInv(s)
    ensures WaitInv(Step(plugins, s, SolveReturns(id, panicked)).value)
  {
    assert id !in s.ending;
  }

  lemma DoneKeepsWaitInv(plugins: nat, s: State, id: int)
    requires id in s.ending && WaitInv(s)
    ensures WaitInv(Step(plugins, s, WgDone(id)).value)
  {
    assert |s.ending - {id}| == |s.ending| - 1;
  }

  lemma StepKeepsWaitInv(plugins: nat, s: State, l: Label)
    requires Step(plugins, s, l).Some? && WaitInv(s)
    ensures WaitInv(Step(plugins, s, l).value)
  {
    if l.Go? {
      GoKeepsWaitInv(plugins, s);
    } else if l.SolveReturns? {
      ReturnKeepsWaitInv(plugins, s, l.id, l.panicked);
    } else if l.WgDone? {
      DoneKeepsWaitInv(plugins, s, l.id);
    }
  }

  lemma StepKeepsReturnInv(plugins: nat, s: State, l: Label)
    requires Step(plugins, s, l).Some? && ReturnInv(s)
    ensures ReturnInv(Step(plugins, s, l).value)
  {
  }

  lemma StepKeepsInv(plugins: nat, s: State, l: Label)
    requires Step(plugins, s, l).Some? && Inv(plugins, s)
    ensures Inv(plugins, Step(plugins, s, l).value)
  {
    StepKeepsMatchInv(plugins, s, l);
    StepKeepsSolveInv(plugins, s, l);
    StepKeepsWaitInv(plugins, s, l);
    StepKeepsReturnInv(plugins, s, l);
  }

  lemma {:induction false} ReachInv(plugins: nat, run: seq<Label>)
    requires Reach(plugins, run).Some?
    ensures Inv(plugins, Reach(plugins, run).value)
  {
    if run != [] {
      var before := run[..|run| - 1];
      ReachInv(plugins, before);
      StepKeepsInv(plugins, Reach(plugins, before).value, run[|run| - 1]);
    }
  }

  /**
   * At every point of every interleaving the wait group counts the solves in flight, plus the one
   * being started, and the started solves are the accepted matches, once each and in order.
   */
  lemma WaitGroupCountsSolves(plugins: nat, run: seq<Label>)
    requires Reach(plugins, run).Some?
    ensures var s := Reach(plugins, run).value;
            && s.wg == |InFlight(s)| + (if s.pc.Spawning? then 1 else 0) >= 0
            && s.spawned <= Owed(s.matches) && |Owed(s.matches)| <= |s.spawned| + 1
            && (forall i :: 0 <= i < |s.spawned| <==> i in InFlight(s) || i in s.finished)
            && InFlight(s) !! s.finished
  {
    ReachInv(plugins, run);
  }

  /**
   * When Run returns, in any interleaving and whatever panicked: every received packet was matched
   * by every plugin in registration order, every accepted match was solved to the end, nothing is
   * in flight, and the result tells why: nil only after close, ctx.Err() only after cancel.
   */
  lemma RunReturns(plugins: nat, run: seq<Label>)
    requires Reach(plugins, run).Some? && Reach(plugins, run).value.pc.Returned?
    ensures var s := Reach(plugins, run).value;
            && CallKeys(s.matches) == Rounds(Packets(s.received), plugins)
            && s.spawned == Owed(s.matches)
            && s.wg == 0 && InFlight(s) == {}
            && (forall i :: 0 <= i < |s.spawned| <==> i in s.finished)
            && (s.pc.ret.ReturnNil? ==> s.closed && s.queue == [])
            && (s.pc.ret.ReturnCtxErr? ==> s.cancelled)
  {
    ReachInv(plugins, run);
  }

  /** After Run has returned, no step can match, solve or leave anything in flight. */
  lemma ReturnedIsFinal(plugins: nat, s: State, l: Label)
    requires Inv(plugins, s) && s.pc.Returned? && Step(plugins, s, l).Some?
    ensures var t := Step(plugins, s, l).value;
            t.pc == s.pc && InFlight(t) == {} && t.matches == s.matches && t.spawned == s.spawned
  {
  }

  lemma NoMember(ids: set<int>)
    ensures (forall j :: j !in ids) ==> ids == {}
  {
    if forall j :: j !in ids {
      assert ids == {};
    }
  }

  lemma Member(ids: set<int>) returns (i: int)
    requires ids != {}
    ensures i in ids
  {
    NoMember(ids);
    i :| i in ids;
  }

  /** Run never gets stuck once it has a reason to stop: until it returns, one of its own steps is enabled. */
  lemma ShutdownProgress(plugins: nat, s: State) returns (l: Label)
    requires Inv(plugins, s) && !s.pc.Returned? && (s.cancelled || s.closed)
    ensures Step(plugins, s, l).Some?
    ensures !l.Cancel? && !l.ChanSend? && !l.ChanClose?
  {
    hide SolveInv, ReturnInv;
    match s.pc {
      case Select => l := if s.cancelled then SeeCancel else if s.queue == [] then SeeClose else Receive;
      case Matching(_, k) => l := if k < plugins then Match(Declined) else EndRound;
      case Adding(_) => l := WgAdd;
      case Spawning(_) => l := Go;
      case Draining(_) =>
        if s.solving != {} {
          var i := Member(s.solving);
          l := SolveReturns(i, false);
        } else if s.ending != {} {
          var i := Member(s.ending);
          l := WgDone(i);
        } else {
          l := WaitDone;
        }
    }
  }

  // ---------------------------------------------------------------------------
  // What can happen: panics, and running to the end.

  /**
   * Panics are possible and contained. A match may panic whenever it may run, and then leaves the same
   * as declining, but for the record of the call; a solve may end either way, and both ends are the same.
   */
  lemma PanicsContained(plugins: nat, s: State)
    ensures s.pc.Matching? && s.pc.k < plugins ==>
              var p, d := Step(plugins, s, Match(Panicked)), Step(plugins, s, Match(Declined));
              && p.Some? && d.Some? && p.value.(matches := s.matches) == d.value.(matches := s.matches)
              && p.value == s.(matches := s.matches + [MatchCall(s.pc.tx, s.pc.k, Panicked)], pc := Matching(s.pc.tx, s.pc.k + 1))
    ensures forall id, panicked | id in s.solving ::
              Step(plugins, s, SolveReturns(id, panicked)) == Some(s.(solving := s.solving - {id}, ending := s.ending + {id}))
  {
  }

  /** The state after more steps from a given one. */
  function Continue(plugins: nat, s: State, ls: seq<Label>): Option<State>
  {
    if ls == [] then Some(s)
    else
      var t := Continue(plugins, s, ls[..|ls| - 1]);
      if t == None then None else Step(plugins, t.value, ls[|ls| - 1])
  }

  /** Steps of Run and its solve goroutines only. */
  predicate OwnSteps(ls: seq<Label>)
  {
    forall i | 0 <= i < |ls| :: !ls[i].Cancel? && !ls[i].ChanSend? && !ls[i].ChanClose?
  }

  /** A run of own steps that leads from s to t. */
  ghost predicate Leads(plugins: nat, s: State, ls: seq<Label>, t: State)
  {
    Continue(plugins, s, ls) == Some(t) && OwnSteps(ls) && Inv(plugins, t)
  }

  lemma LeadsOn(plugins: nat, s: State, ls: seq<Label>, t: State, l: Label) returns (more: seq<Label>, u: State)
    requires Leads(plugins, s, ls, t) && Step(plugins, t, l).Some? && !l.Cancel? && !l.ChanSend? && !l.ChanClose?
    ensures Step(plugins, t, l) == Some(u) && Leads(plugins, s, more, u)
  {
    hide Step, Inv;
    more, u := ls + [l], Step(plugins, t, l).value;
    assert more[..|ls|] == ls;
    StepKeepsInv(plugins, t, l);
  }

  /** What matching leaves alone. */
  predicate SameChannel(s: State, t: State)
  {
    t.queue == s.queue && t.closed == s.closed && t.cancelled == s.cancelled && t.received == s.received
  }

  /** The match calls made since had the outcomes that `decide` gives. */
  ghost predicate Decided(decide: (Tx, nat) -> MatchOutcome, before: seq<MatchCall>, after: seq<MatchCall>)
  {
    && before <= after
    && forall i | |before| <= i < |after| :: after[i].outcome == decide(after[i].tx, after[i].plugin)
  }

  /** One plugin is matched and, if it accepts, its solve is started. */
  lemma MatchOne(plugins: nat, s: State, ls: seq<Label>, t: State, decide: (Tx, nat) -> MatchOutcome)
    returns (more: seq<Label>, u: State)
    requires Leads(plugins, s, ls, t) && t.pc.Matching? && t.pc.k < plugins
    ensures Leads(plugins, s, more, u) && u.pc == Matching(t.pc.tx, t.pc.k + 1)
    ensures SameChannel(t, u) && Decided(decide, t.matches, u.matches)
  {
    hide Leads;
    var outcome := decide(t.pc.tx, t.pc.k);
    more, u := LeadsOn(plugins, s, ls, t, Match(outcome));
    assert u.matches == t.matches + [MatchCall(t.pc.tx, t.pc.k, outcome)];
    if u.pc.Adding? {
      more, u := LeadsOn(plugins, s, more, u, WgAdd);
      more, u := LeadsOn(plugins, s, more, u, Go);
    }
  }

  /** Whatever the plugins decide, a round can be matched to its end. */
  lemma FinishRound(plugins: nat, s: State, ls: seq<Label>, t: State, decide: (Tx, nat) -> MatchOutcome)
    returns (more: seq<Label>, u: State)
    requires Leads(plugins, s, ls, t) && t.pc.Matching?
    ensures Leads(plugins, s, more, u) && u.pc.Select?
    ensures SameChannel(t, u) && Decided(decide, t.matches, u.matches)
  {
    RoundBound(plugins, s, ls, t);
    hide Leads, Decided;
    more, u := ls, t;
    DecidedSame(decide, t.matches);
    while u.pc.k < plugins
      invariant Leads(plugins, s, more, u) && u.pc.Matching? && u.pc.k <= plugins
      invariant SameChannel(t, u) && Decided(decide, t.matches, u.matches)
      decreases plugins - u.pc.k
    {
      var v := u;
      more, u := MatchOne(plugins, s, more, v, decide);
      DecidedOn(decide, t.matches, v.matches, u.matches);
    }
    more, u := LeadsOn(plugins, s, more, u, EndRound);
  }

  lemma RoundBound(plugins: nat, s: State, ls: seq<Label>, t: State)
    requires Leads(plugins, s, ls, t) && t.pc.Matching?
    ensures t.pc.k <= plugins
  {
  }

  /** One solve in flight moves towards its end, by a panic or not. */
  lemma DrainOne(plugins: nat, s: State, ls: seq<Label>, t: State, panicked: bool) returns (more: seq<Label>, u: State)
    requires Leads(plugins, s, ls, t) && t.pc.Draining? && InFlight(t) != {}
    ensures Leads(plugins, s, more, u) && u.pc == t.pc && SameChannel(t, u) && u.matches == t.matches
    ensures u.solving < t.solving || (u.solving == t.solving && u.ending < t.ending)
  {
    hide Leads;
    if t.solving != {} {
      var i := Member(t.solving);
      more, u := LeadsOn(plugins, s, ls, t, SolveReturns(i, panicked));
    } else {
      var i := Member(t.ending);
      more, u := LeadsOn(plugins, s, ls, t, WgDone(i));
    }
  }

  /** With nothing in flight, a draining Run is free to return. */
  lemma DrainLast(plugins: nat, s: State, ls: seq<Label>, t: State) returns (more: seq<Label>, u: State)
    requires Leads(plugins, s, ls, t) && t.pc.Draining? && InFlight(t) == {}
    ensures Leads(plugins, s, more, u) && u.pc == Returned(t.pc.ret) && SameChannel(t, u) && u.matches == t.matches
  {
    assert t.solving == {} && t.ending == {};
    more, u := LeadsOn(plugins, s, ls, t, WaitDone);
  }

  /** A draining Run can return: every solve in flight can end. */
  lemma Drain(plugins: nat, s: State, ls: seq<Label>, t: State, panicked: bool) returns (more: seq<Label>, u: State)
    requires Leads(plugins, s, ls, t) && t.pc.Draining?
    ensures Leads(plugins, s, more, u) && u.pc == Returned(t.pc.ret)
    ensures SameChannel(t, u) && u.matches == t.matches
  {
    hide Leads;
    more, u := ls, t;
    while InFlight(u) != {}
      invariant Leads(plugins, s, more, u) && u.pc == t.pc && SameChannel(t, u) && u.matches == t.matches
      decreases u.solving, u.ending
    {
      more, u := DrainOne(plugins, s, more, u, panicked);
    }
    more, u := DrainLast(plugins, s, more, u);
  }

  /** Run can always get back to its select, or to draining. */
  lemma BackToSelect(plugins: nat, s: State, decide: (Tx, nat) -> MatchOutcome) returns (ls: seq<Label>, t: State)
    requires Inv(plugins, s) && !s.pc.Returned?
    ensures Leads(plugins, s, ls, t) && (t.pc.Select? || t.pc.Draining?) && SameChannel(s, t)
    ensures Decided(decide, s.matches, t.matches) && (s.pc.Select? ==> t.pc.Select?)
  {
    ls, t := [], s;
    if t.pc.Adding? {
      ls, t := LeadsOn(plugins, s, ls, t, WgAdd);
    }
    if t.pc.Spawning? {
      ls, t := LeadsOn(plugins, s, ls, t, Go);
    }
    if t.pc.Matching? {
      ls, t := FinishRound(plugins, s, ls, t, decide);
    }
  }

  lemma DecidedOn(decide: (Tx, nat) -> MatchOutcome, a: seq<MatchCall>, b: seq<MatchCall>, c: seq<MatchCall>)
    requires Decided(decide, a, b) && Decided(decide, b, c)
    ensures Decided(decide, a, c)
  {
  }

  /** One queued packet is received and, if it is not nil, matched. */
  lemma ConsumeOne(plugins: nat, s: State, ls: seq<Label>, t: State, decide: (Tx, nat) -> MatchOutcome)
    returns (more: seq<Label>, u: State)
    requires Leads(plugins, s, ls, t) && t.pc.Select? && t.queue != []
    ensures Leads(plugins, s, more, u) && u.pc.Select? && Decided(decide, t.matches, u.matches)
    ensures u.closed == t.closed && u.cancelled == t.cancelled
    ensures u.queue == t.queue[1..] && u.received == t.received + [t.queue[0]]
  {
    hide Leads;
    more, u := LeadsOn(plugins, s, ls, t, Receive);
    if u.pc.Matching? {
      more, u := FinishRound(plugins, s, more, u, decide);
    }
  }

  /** The whole queue can be received and matched. */
  lemma ConsumeAll(plugins: nat, s: State, ls: seq<Label>, t: State, decide: (Tx, nat) -> MatchOutcome)
    returns (more: seq<Label>, u: State)
    requires Leads(plugins, s, ls, t) && t.pc.Select?
    ensures Leads(plugins, s, more, u) && u.pc.Select? && Decided(decide, t.matches, u.matches)
    ensures u.closed == t.closed && u.cancelled == t.cancelled
    ensures u.queue == [] && u.received == t.received + t.queue
    decreases |t.queue|
  {
    hide Leads, Decided;
    if t.queue == [] {
      more, u := ls, t;
      DecidedSame(decide, t.matches);
    } else {
      var mid;
      more, mid := ConsumeOne(plugins, s, ls, t, decide);
      more, u := ConsumeAll(plugins, s, more, mid, decide);
      DecidedOn(decide, t.matches, mid.matches, u.matches);
      assert t.received + [t.queue[0]] + t.queue[1..] == t.received + t.queue;
    }
  }

  lemma DecidedSame(decide: (Tx, nat) -> MatchOutcome, a: seq<MatchCall>)
    ensures Decided(decide, a, a)
  {
  }

  /** From its select, Run can leave once it is cancelled, or closed and its queue received. */
  lemma Leave(plugins: nat, s: State, ls: seq<Label>, t: State, panicked: bool) returns (more: seq<Label>, u: State)
    requires Leads(plugins, s, ls, t) && t.pc.Select? && (t.cancelled || (t.closed && t.queue == []))
    ensures Leads(plugins, s, more, u) && u.pc.Returned? && SameChannel(t, u) && u.matches == t.matches
    ensures !t.cancelled ==> u.pc.ret == ReturnNil
  {
    hide Leads;
    more, u := LeadsOn(plugins, s, ls, t, if t.cancelled then SeeCancel else SeeClose);
    more, u := Drain(plugins, s, more, u, panicked);
  }

  /**
   * Once cancelled or closed, Run can return from wherever it is, by its own steps and those of its
   * solves, whatever the plugins decide and whether or not the solves panic. If it was closed and not
   * cancelled, what is queued is received and matched first.
   */
  lemma ReturnPossible(plugins: nat, s: State, decide: (Tx, nat) -> MatchOutcome, panicked: bool)
    returns (ls: seq<Label>, t: State)
    requires Inv(plugins, s) && !s.pc.Returned? && (s.cancelled || s.closed)
    ensures Leads(plugins, s, ls, t) && t.pc.Returned? && Decided(decide, s.matches, t.matches)
    ensures t.closed == s.closed && t.cancelled == s.cancelled
    ensures !s.cancelled && s.pc.Select? ==> t.pc.ret == ReturnNil && t.queue == [] && t.received == s.received + s.queue
  {
    hide Leads, Decided;
    var mid;
    ls, t := BackToSelect(plugins, s, decide);
    if t.pc.Select? {
      if !t.cancelled {
        mid := t;
        ls, t := ConsumeAll(plugins, s, ls, mid, decide);
        DecidedOn(decide, s.matches, mid.matches, t.matches);
      }
      ls, t := Leave(plugins, s, ls, t, panicked);
    } else {
      ls, t := Drain(plugins, s, ls, t, panicked);
    }
  }
}
