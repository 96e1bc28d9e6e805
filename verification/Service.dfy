/** TakerService.Start, Stop and setRunning of internal/core/application/service.go around source and solver. */
module Service {
  import opened Base
  import opened SolverRun
  import opened Source

  /** The run goroutine: Run itself, then the deferred calls in the reverse order of their defer. */
  datatype GoroutinePc = NotSpawned | InRun | SettingFalse | ClosingDone | Gone

  /** The caller of Start and Stop; Stopped is also the state before the first Start. */
  datatype CallerPc = Stopped | StartedContext | StartedRunning | Started | Stopping

  datatype Svc = Svc(
    caller: CallerPc,
    hasCancel: bool,                   // svc.cancel != nil
    doneClosed: bool,
    running: bool,
    goroutine: GoroutinePc,
    sys: System)

  datatype SvcLabel =
    | CallStart(events: seq<Event>)    // new context and done channel, Subscribe
    | StartSetsRunning
    | StartSpawns
    | CallStop
    | StopReturns
    | SystemMoves(l: SystemLabel)
    | RunReturnsToGoroutine
    | DeferSetsFalse
    | DeferClosesDone

  const IDLE := Svc(Stopped, false, false, false, NotSpawned, Fresh([]))

  /** Steps that belong to the source goroutine, which Subscribe has already started. */
  predicate SourceOwn(l: SystemLabel) { !l.RunStep? }

  function SvcStep(plugins: nat, v: Svc, l: SvcLabel): Option<Svc>
  {
    match l
    case CallStart(events) =>
      if v.caller.Stopped? then
        Some(v.(caller := StartedContext, hasCancel := true, doneClosed := false, goroutine := NotSpawned,
                sys := Fresh(events)))
      else None
    case StartSetsRunning =>
      if v.caller.StartedContext? then Some(v.(caller := StartedRunning, running := true)) else None
    case StartSpawns =>
      if v.caller.StartedRunning? then Some(v.(caller := Started, goroutine := InRun)) else None
    case CallStop =>
      if !v.caller.Stopped? && !v.caller.Started? then None
      else if !v.hasCancel then Some(v.(caller := Stopped))
      else Some(v.(caller := Stopping, sys := v.sys.(run := v.sys.run.(cancelled := true))))
    case StopReturns =>
      if v.caller.Stopping? && v.doneClosed then Some(v.(caller := Stopped)) else None
    case SystemMoves(sl) =>
      if !SourceOwn(sl) && (v.goroutine.NotSpawned? || sl.l.Cancel?) then None
      else
        var y := SystemStep(plugins, v.sys, sl);
        if y.Some? then Some(v.(sys := y.value)) else None
    case RunReturnsToGoroutine =>
      if v.goroutine.InRun? && v.sys.run.pc.Returned? then Some(v.(goroutine := SettingFalse)) else None
    case DeferSetsFalse =>
      if v.goroutine.SettingFalse? then Some(v.(goroutine := ClosingDone, running := false)) else None
    case DeferClosesDone =>
      if v.goroutine.ClosingDone? then Some(v.(goroutine := Gone, doneClosed := true)) else None
  }

  function SvcReach(plugins: nat, run: seq<SvcLabel>): Option<Svc>
  {
    if run == [] then Some(IDLE)
    else
      var v := SvcReach(plugins, run[..|run| - 1]);
      if v == None then None else SvcStep(plugins, v.value, run[|run| - 1])
  }

  /** The service's own flags follow the run goroutine. */
  ghost predicate FlagInv(v: Svc)
  {
    && (v.running <==> v.caller.StartedRunning? || v.goroutine.InRun? || v.goroutine.SettingFalse?)
    && (v.doneClosed <==> v.goroutine.Gone?)
    && (v.goroutine.NotSpawned? <==> v.caller.StartedContext? || v.caller.StartedRunning? || !v.hasCancel)
    && (v.caller.Stopped? && v.hasCancel ==> v.goroutine.Gone?)
    && (!v.hasCancel ==> v.caller.Stopped?)
  }

  /** Before the goroutine is spawned nothing was matched; after Run, Run has returned. */
  ghost predicate RunInv(v: Svc)
  {
    && (v.goroutine.NotSpawned? ==> v.sys.run.pc.Select? && InFlight(v.sys.run) == {} && v.sys.run.wg == 0)
    && (v.goroutine.SettingFalse? || v.goroutine.ClosingDone? || v.goroutine.Gone? ==> v.sys.run.pc.Returned?)
    && (v.caller.Stopping? ==> v.sys.run.cancelled)
  }

  ghost predicate SvcInv(plugins: nat, v: Svc)
  {
    SystemInv(plugins, v.sys) && FlagInv(v) && RunInv(v)
  }

  /** The source's own steps only touch the solver's channel. */
  lemma SourceStepFrame(plugins: nat, y: System, l: SystemLabel, t: System)
    requires SourceOwn(l) && SystemStep(plugins, y, l) == Some(t)
    ensures t.run.pc == y.run.pc && InFlight(t.run) == InFlight(y.run) && t.run.wg == y.run.wg
  {
  }

  lemma CancelledStays(plugins: nat, y: System, l: SystemLabel, t: System)
    requires y.run.cancelled && SystemStep(plugins, y, l) == Some(t)
    ensures t.run.cancelled
  {
  }

  lemma ReturnedStays(plugins: nat, y: System, l: SystemLabel, t: System)
    requires SystemInv(plugins, y) && y.run.pc.Returned? && SystemStep(plugins, y, l) == Some(t)
    ensures t.run.pc.Returned?
  {
    match l
    case RunStep(rl) => ReturnedIsFinal(plugins, y.run, rl);
    case _ => SourceStepFrame(plugins, y, l, t);
  }

  lemma MoveKeepsInv(plugins: nat, v: Svc, l: SystemLabel, t: Svc)
    requires SvcInv(plugins, v) && SvcStep(plugins, v, SystemMoves(l)) == Some(t)
    ensures SvcInv(plugins, t)
  {
    SystemStepKeepsInv(plugins, v.sys, l, t.sys);
    if v.sys.run.pc.Returned? {
      ReturnedStays(plugins, v.sys, l, t.sys);
    }
    if v.goroutine.NotSpawned? {
      SourceStepFrame(plugins, v.sys, l, t.sys);
    }
    if v.sys.run.cancelled {
      CancelledStays(plugins, v.sys, l, t.sys);
    }
  }

  /** Cancelling the context is the solver's Cancel step. */
  lemma CancelKeepsInv(plugins: nat, y: System)
    requires SystemInv(plugins, y)
    ensures SystemInv(plugins, y.(run := y.run.(cancelled := true)))
  {
    SystemStepKeepsInv(plugins, y, RunStep(Cancel), y.(run := y.run.(cancelled := true)));
  }

  lemma SvcStepKeepsInv(plugins: nat, v: Svc, l: SvcLabel, t: Svc)
    requires SvcInv(plugins, v) && SvcStep(plugins, v, l) == Some(t)
    ensures SvcInv(plugins, t)
  {
    match l
    case SystemMoves(sl) => MoveKeepsInv(plugins, v, sl, t);
    case CallStart(events) => FreshInv(plugins, events);
    case CallStop => CancelKeepsInv(plugins, v.sys);
    case _ =>
  }

  lemma {:induction false} SvcReachInv(plugins: nat, run: seq<SvcLabel>)
    requires SvcReach(plugins, run).Some?
    ensures SvcInv(plugins, SvcReach(plugins, run).value)
  {
    if run == [] {
      FreshInv(plugins, []);
    } else {
      var before := run[..|run| - 1];
      SvcReachInv(plugins, before);
      SvcStepKeepsInv(plugins, SvcReach(plugins, before).value, run[|run| - 1], SvcReach(plugins, run).value);
    }
  }

  /** Whenever the status says not running, no solve is in flight. */
  lemma NotRunningMeansQuiet(plugins: nat, run: seq<SvcLabel>)
    requires SvcReach(plugins, run).Some? && !SvcReach(plugins, run).value.running
    ensures InFlight(SvcReach(plugins, run).value.sys.run) == {}
    ensures SvcReach(plugins, run).value.sys.run.wg == 0
  {
    SvcReachInv(plugins, run);
  }

  /**
   * Over every alternation of Start and Stop, in every interleaving: when Stop has returned, the
   * status is not running, the run goroutine is gone and no solve is in flight.
   */
  lemma StopMeansStopped(plugins: nat, run: seq<SvcLabel>)
    requires SvcReach(plugins, run).Some? && SvcReach(plugins, run).value.caller.Stopped?
    ensures var v := SvcReach(plugins, run).value;
            && !v.running
            && (v.goroutine.Gone? || v.goroutine.NotSpawned?)
            && InFlight(v.sys.run) == {} && v.sys.run.wg == 0
  {
    SvcReachInv(plugins, run);
    NotRunningMeansQuiet(plugins, run);
  }

  /** Stop is never stuck: until it can return, the run goroutine or the solver has an enabled step. */
  lemma StopProgress(plugins: nat, run: seq<SvcLabel>) returns (l: SvcLabel)
    requires SvcReach(plugins, run).Some? && SvcReach(plugins, run).value.caller.Stopping?
    ensures SvcStep(plugins, SvcReach(plugins, run).value, l).Some?
    ensures !l.CallStart? && !l.CallStop?
  {
    SvcReachInv(plugins, run);
    var v := SvcReach(plugins, run).value;
    if v.goroutine.Gone? {
      l := StopReturns;
    } else if v.goroutine.ClosingDone? {
      l := DeferClosesDone;
    } else if v.goroutine.SettingFalse? {
      l := DeferSetsFalse;
    } else if v.sys.run.pc.Returned? {
      l := RunReturnsToGoroutine;
    } else {
      var rl := ShutdownProgress(plugins, v.sys.run);
      l := SystemMoves(RunStep(rl));
    }
  }

  /** The service after more steps from a given state. */
  function SvcContinue(plugins: nat, v: Svc, ls: seq<SvcLabel>): Option<Svc>
  {
    if ls == [] then Some(v)
    else
      var t := SvcContinue(plugins, v, ls[..|ls| - 1]);
      if t == None then None else SvcStep(plugins, t.value, ls[|ls| - 1])
  }

  lemma SvcOn(plugins: nat, v: Svc, ls: seq<SvcLabel>, t: Svc, l: SvcLabel) returns (more: seq<SvcLabel>, u: Svc)
    requires SvcContinue(plugins, v, ls) == Some(t) && SvcStep(plugins, t, l).Some?
    ensures SvcStep(plugins, t, l) == Some(u) && SvcContinue(plugins, v, more) == Some(u)
  {
    more, u := ls + [l], SvcStep(plugins, t, l).value;
    assert more[..|ls|] == ls;
  }

  /** Once the goroutine is spawned, the solver's own steps are steps of the service. */
  lemma {:induction false} LiftSolver(plugins: nat, v: Svc, ls: seq<Label>) returns (more: seq<SvcLabel>)
    requires !v.goroutine.NotSpawned? && Continue(plugins, v.sys.run, ls).Some? && OwnSteps(ls)
    ensures SvcContinue(plugins, v, more) == Some(v.(sys := v.sys.(run := Continue(plugins, v.sys.run, ls).value)))
  {
    if ls == [] {
      more := [];
    } else {
      var n := |ls| - 1;
      var before := LiftSolver(plugins, v, ls[..n]);
      var mid := v.(sys := v.sys.(run := Continue(plugins, v.sys.run, ls[..n]).value));
      var t;
      more, t := SvcOn(plugins, v, before, mid, SystemMoves(RunStep(ls[n])));
    }
  }

  /** Start brings the service up: from a stopped service it can run to a spawned, running solver on a fresh stream. */
  lemma StartPossible(plugins: nat, v: Svc, events: seq<Event>) returns (ls: seq<SvcLabel>)
    requires v.caller.Stopped?
    ensures SvcContinue(plugins, v, ls) == Some(Svc(Started, true, false, true, InRun, Fresh(events)))
  {
    var t;
    ls, t := SvcOn(plugins, v, [], v, CallStart(events));
    ls, t := SvcOn(plugins, v, ls, t, StartSetsRunning);
    ls, t := SvcOn(plugins, v, ls, t, StartSpawns);
  }

  /**
   * Stop can always complete: from every state in which it waits there are steps of the solver, its
   * solves and the run goroutine after which it returns, whatever the plugins decide and whether or not
   * solves panic.
   */
  lemma StopPossible(plugins: nat, run: seq<SvcLabel>, decide: (Tx, nat) -> MatchOutcome, panicked: bool)
    returns (ls: seq<SvcLabel>, t: Svc)
    requires SvcReach(plugins, run).Some? && SvcReach(plugins, run).value.caller.Stopping?
    ensures SvcContinue(plugins, SvcReach(plugins, run).value, ls) == Some(t) && t.caller.Stopped? && !t.running
  {
    SvcReachInv(plugins, run);
    var v := SvcReach(plugins, run).value;
    ls, t := [], v;
    if !v.sys.run.pc.Returned? {
      var rs, r := ReturnPossible(plugins, v.sys.run, decide, panicked);
      ls := LiftSolver(plugins, v, rs);
      t := v.(sys := v.sys.(run := r));
    }
    ls, t := WindUp(plugins, v, ls, t);
  }

  /** After Run has returned, the deferred calls and then Stop can run to their end. */
  lemma WindUp(plugins: nat, v: Svc, before: seq<SvcLabel>, s: Svc) returns (ls: seq<SvcLabel>, t: Svc)
    requires SvcContinue(plugins, v, before) == Some(s) && s.caller.Stopping? && s.sys.run.pc.Returned? && FlagInv(s)
    ensures SvcContinue(plugins, v, ls) == Some(t) && t.caller.Stopped? && !t.running
  {
    ls, t := before, s;
    if t.goroutine.InRun? {
      ls, t := SvcOn(plugins, v, ls, t, RunReturnsToGoroutine);
    }
    if t.goroutine.SettingFalse? {
      ls, t := SvcOn(plugins, v, ls, t, DeferSetsFalse);
    }
    if t.goroutine.ClosingDone? {
      ls, t := SvcOn(plugins, v, ls, t, DeferClosesDone);
    }
    ls, t := SvcOn(plugins, v, ls, t, StopReturns);
  }
}
