/**
 Run and the health monitor as they interleave. Run moves from one blocking point to the next,
 the monitor ticks in a goroutine of its own and may take a tick that was ready together with
 the cancellation, and the context can be cancelled at any time. Every run of this machine,
 stopped anywhere, is a prefix of what the sequential `RunTrace` describes; a finished one is
 exactly such a trace, so what holds of all those traces holds of all interleavings.
 */
module LifecycleMachine {
  import opened Wrappers
  import opened Lifecycle

  datatype Pc =
    | Validate
    | CheckCancelled
    | StartOps
    | StartServer
    | StartTiering
    | Spawn
    | AwaitCancel
    | AwaitMonitor
    | StopServer
    | StopTiering
    | StopOps
    | CloseClients
    | Finished

  /** The monitor goroutine: in its select, collecting after a tick, or gone with `done` closed. */
  datatype Monitor = NotSpawned | Selecting | Collecting | Exited

  datatype State = State(
    pc: Pc,
    monitor: Monitor,
    cancelled: bool,        // ctx is done
    runCancelled: bool,     // cancelRun has been called
    early: bool,            // the check before the starts saw the cancellation
    collected: seq<Report>, // what the monitor has published so far
    trace: seq<Event>)

  function Init(): State {
    State(Validate, NotSpawned, false, false, false, [], [])
  }

  /** The outcomes of the outside calls, with the two that depend on the interleaving filled in. */
  function Seen(out: Outside, s: State): Outside {
    out.(cancelledEarly := s.early, collected := s.collected)
  }

  /** One start attempt of Run. */
  function AfterStart(parts: Parts, out: Outside, s: State, c: Component, next: Pc): State {
    if !parts.Has(c) then s.(pc := next)
    else s.(pc := if out.startFails(c) then StopServer else next, trace := s.trace + [Start(c)])
  }

  function AfterStop(parts: Parts, s: State, c: Component, next: Pc): State {
    s.(pc := next, trace := s.trace + StopIf(parts, c))
  }

  /** Run blocks on the context and then on the monitor's done channel; anywhere else it can go on. */
  predicate RunReady(s: State) {
    match s.pc
    case AwaitCancel => s.cancelled
    case AwaitMonitor => s.monitor.NotSpawned? || s.monitor.Exited?
    case Finished => false
    case _ => true
  }

  ghost function AfterRun(parts: Parts, out: Outside, s: State): State {
    match s.pc
    case Validate => s.(pc := if ValidationRefuses(parts, out) then Finished else CheckCancelled,
                        trace := s.trace + Validating(parts, out))
    case CheckCancelled => s.(pc := if s.cancelled then StopServer else StartOps, early := s.cancelled)
    case StartOps => AfterStart(parts, out, s, Ops, StartServer)
    case StartServer => AfterStart(parts, out, s, Server, StartTiering)
    case StartTiering => AfterStart(parts, out, s, Tiering, Spawn)
    case Spawn =>
      if parts.Monitored() then s.(pc := AwaitCancel, monitor := Selecting, trace := s.trace + [SpawnMonitor])
      else s.(pc := AwaitCancel)
    case AwaitCancel => s.(pc := AwaitMonitor, runCancelled := true)
    case AwaitMonitor => s.(pc := StopServer)
    case StopServer => AfterStop(parts, s, Server, StopTiering)
    case StopTiering => AfterStop(parts, s, Tiering, StopOps)
    case StopOps => AfterStop(parts, s, Ops, CloseClients)
    case CloseClients => AfterStop(parts, s, Clients, Finished)
    case Finished => s
  }

  ghost predicate RunStep(parts: Parts, out: Outside, s: State, s': State) {
    RunReady(s) && s' == AfterRun(parts, out, s)
  }

  /** The select may take a tick even when the context is already done. */
  ghost predicate MonitorStep(s: State, s': State) {
    match s.monitor
    case Selecting =>
      || s' == s.(monitor := Collecting)
      || ((s.cancelled || s.runCancelled) && s' == s.(monitor := Exited, trace := s.trace + [MonitorDone]))
    case Collecting =>
      exists report :: Published(s, s', report)
    case _ => false
  }

  ghost predicate Published(s: State, s': State, report: Report) {
    s' == s.(monitor := Selecting, collected := s.collected + [report],
             trace := s.trace + [SetStatus(CollectionStatus(report))])
  }

  ghost predicate Next(parts: Parts, out: Outside, s: State, s': State) {
    || RunStep(parts, out, s, s')
    || MonitorStep(s, s')
    || s' == s.(cancelled := true)
  }

  ghost predicate IsRun(parts: Parts, out: Outside, run: seq<State>) {
    && run != [] && run[0] == Init()
    && forall i :: 0 <= i < |run| - 1 ==> Next(parts, out, run[i], run[i + 1])
  }

  // ---- the invariant ----------------------------------------------------------------------

  /** The monitor's part of the trace so far. */
  function Watched(parts: Parts, s: State): seq<Event> {
    if !parts.Monitored() || s.monitor.NotSpawned? then []
    else [SpawnMonitor] + Statuses(s.collected) + if s.monitor.Exited? then [MonitorDone] else []
  }

  /** The stops done when Run is at `pc`. */
  function StopsDone(parts: Parts, pc: Pc): seq<Event> {
    match pc
    case StopTiering => StopIf(parts, Server)
    case StopOps => StopIf(parts, Server) + StopIf(parts, Tiering)
    case CloseClients => StopIf(parts, Server) + StopIf(parts, Tiering) + StopIf(parts, Ops)
    case Finished => Shutdown(parts)
    case _ => []
  }

  /** What the trace consists of, phase by phase. */
  ghost predicate Inv(parts: Parts, out: Outside, s: State) {
    var seen := Seen(out, s);
    var failed := FailedStart(parts, out, START_ORDER);
    && (s.monitor.NotSpawned? ==> s.collected == [])
    && (!parts.Monitored() ==> s.monitor.NotSpawned?)
    && match s.pc
       case Validate => s.monitor.NotSpawned? && !s.early && s.trace == []
       case CheckCancelled =>
         s.monitor.NotSpawned? && !s.early && !ValidationRefuses(parts, out) && s.trace == Validating(parts, out)
       case StartOps =>
         s.monitor.NotSpawned? && !s.early && !ValidationRefuses(parts, out) && s.trace == Validating(parts, out)
       case StartServer =>
         s.monitor.NotSpawned? && !s.early && !ValidationRefuses(parts, out) && FailedStart(parts, out, [Ops]).None?
         && s.trace == Validating(parts, out) + Starts(parts, out, [Ops])
       case StartTiering =>
         s.monitor.NotSpawned? && !s.early && !ValidationRefuses(parts, out)
         && FailedStart(parts, out, [Ops, Server]).None?
         && s.trace == Validating(parts, out) + Starts(parts, out, [Ops, Server])
       case Spawn =>
         s.monitor.NotSpawned? && !s.early && !ValidationRefuses(parts, out) && failed.None?
         && s.trace == Validating(parts, out) + Starts(parts, out, START_ORDER)
       case AwaitCancel =>
         (parts.Monitored() ==> !s.monitor.NotSpawned?) && !s.early && !ValidationRefuses(parts, out) && failed.None?
         && s.trace == Validating(parts, out) + Starts(parts, out, START_ORDER) + Watched(parts, s)
       case AwaitMonitor =>
         (parts.Monitored() ==> !s.monitor.NotSpawned?) && !s.early && !ValidationRefuses(parts, out) && failed.None?
         && s.trace == Validating(parts, out) + Starts(parts, out, START_ORDER) + Watched(parts, s)
       case _ =>
         (s.monitor.NotSpawned? || s.monitor.Exited?)
         && if ValidationRefuses(parts, out) then s.pc.Finished? && s.trace == RunTrace(parts, seen)
            else s.trace == Validating(parts, out) + Active(parts, seen) + StopsDone(parts, s.pc)
  }

  lemma {:induction false} StartsSnoc(parts: Parts, out: Outside, cs: seq<Component>, c: Component)
    requires FailedStart(parts, out, cs).None?
    ensures Starts(parts, out, cs + [c]) == Starts(parts, out, cs) + if parts.Has(c) then [Start(c)] else []
    ensures FailedStart(parts, out, cs + [c]) == if parts.Has(c) && out.startFails(c) then Some(c) else None
  {
    if cs == [] {
      assert [] + [c] == [c];
      StartsStep(parts, out, c, []);
      assert [c] + [] == [c];
    } else {
      assert (cs + [c])[1..] == cs[1..] + [c];
      StartsSnoc(parts, out, cs[1..], c);
    }
  }

  /** After a failing start nothing further is attempted. */
  lemma {:induction false} StartsEnd(parts: Parts, out: Outside, cs: seq<Component>, more: seq<Component>)
    requires FailedStart(parts, out, cs).Some?
    ensures Starts(parts, out, cs + more) == Starts(parts, out, cs)
    ensures FailedStart(parts, out, cs + more) == FailedStart(parts, out, cs)
  {
    assert (cs + more)[1..] == cs[1..] + more;
    if !(parts.Has(cs[0]) && out.startFails(cs[0])) {
      StartsEnd(parts, out, cs[1..], more);
    }
  }

  /** The starts depend on what fails, not on what the interleaving decides. */
  lemma {:induction false} StartsSeen(parts: Parts, out: Outside, s: State, cs: seq<Component>)
    ensures Starts(parts, Seen(out, s), cs) == Starts(parts, out, cs)
    ensures FailedStart(parts, Seen(out, s), cs) == FailedStart(parts, out, cs)
  {
    if cs != [] {
      StartsSeen(parts, out, s, cs[1..]);
    }
  }

  /** One start attempt, seen from the list of components tried so far. */
  lemma StartKeeps(parts: Parts, out: Outside, s: State, cs: seq<Component>, c: Component, more: seq<Component>,
                   next: Pc)
    requires FailedStart(parts, out, cs).None? && START_ORDER == cs + [c] + more
    requires s.monitor.NotSpawned? && s.collected == [] && !s.early && !ValidationRefuses(parts, out)
    requires s.trace == Validating(parts, out) + Starts(parts, out, cs)
    ensures var s' := AfterStart(parts, out, s, c, next);
            && ((s'.pc == StopServer && FailedStart(parts, out, START_ORDER).Some?
                 && s'.trace == Validating(parts, out) + Active(parts, Seen(out, s')))
                || (s'.pc == next && FailedStart(parts, out, cs + [c]).None?
                    && s'.trace == Validating(parts, out) + Starts(parts, out, cs + [c])))
  {
    var s' := AfterStart(parts, out, s, c, next);
    StartsSnoc(parts, out, cs, c);
    if parts.Has(c) && out.startFails(c) {
      StartsEnd(parts, out, cs + [c], more);
      StartsSeen(parts, out, s', START_ORDER);
    }
  }

  lemma StartStepsKeep(parts: Parts, out: Outside, s: State, s': State)
    requires Inv(parts, out, s) && RunStep(parts, out, s, s')
    requires s.pc.StartOps? || s.pc.StartServer? || s.pc.StartTiering?
    ensures Inv(parts, out, s')
  {
    assert START_ORDER == [] + [Ops] + [Server, Tiering] == [Ops] + [Server] + [Tiering]
           == [Ops, Server] + [Tiering] + [];
    assert [] + [Ops] == [Ops] && [Ops] + [Server] == [Ops, Server] && [Ops, Server] + [Tiering] == START_ORDER;
    match s.pc {
      case StartOps =>
        assert s.trace == s.trace + Starts(parts, out, []);
        StartKeeps(parts, out, s, [], Ops, [Server, Tiering], StartServer);
      case StartServer => StartKeeps(parts, out, s, [Ops], Server, [Tiering], StartTiering);
      case StartTiering => StartKeeps(parts, out, s, [Ops, Server], Tiering, [], Spawn);
    }
    if s'.pc.StopServer? {
      assert s'.trace == Validating(parts, out) + Active(parts, Seen(out, s')) + [];
    }
  }

  /** The component whose stop is attempted at `pc`. */
  function StopAt(pc: Pc): Component
    requires pc.StopServer? || pc.StopTiering? || pc.StopOps? || pc.CloseClients?
  {
    match pc
    case StopServer => Server
    case StopTiering => Tiering
    case StopOps => Ops
    case _ => Clients
  }

  function AfterStopAt(pc: Pc): (next: Pc)
    requires pc.StopServer? || pc.StopTiering? || pc.StopOps? || pc.CloseClients?
  {
    match pc
    case StopServer => StopTiering
    case StopTiering => StopOps
    case StopOps => CloseClients
    case _ => Finished
  }

  lemma StopsDoneStep(parts: Parts, pc: Pc)
    requires pc.StopServer? || pc.StopTiering? || pc.StopOps? || pc.CloseClients?
    ensures StopsDone(parts, AfterStopAt(pc)) == StopsDone(parts, pc) + StopIf(parts, StopAt(pc))
  {
    if pc.StopServer? {
      assert [] + StopIf(parts, Server) == StopIf(parts, Server);
    }
  }

  lemma StopStepsKeep(parts: Parts, out: Outside, s: State, s': State)
    requires Inv(parts, out, s) && RunStep(parts, out, s, s')
    requires s.pc.StopServer? || s.pc.StopTiering? || s.pc.StopOps? || s.pc.CloseClients?
    ensures Inv(parts, out, s')
  {
    assert s' == s.(pc := AfterStopAt(s.pc), trace := s.trace + StopIf(parts, StopAt(s.pc)));
    StopsDoneStep(parts, s.pc);
    Joined(Validating(parts, out) + Active(parts, Seen(out, s)), StopsDone(parts, s.pc), StopIf(parts, StopAt(s.pc)));
    assert Seen(out, s') == Seen(out, s);
  }

  lemma Joined(a: seq<Event>, b: seq<Event>, c: seq<Event>)
    ensures a + b + c == a + (b + c)
  {
  }

  lemma OtherStepsKeep(parts: Parts, out: Outside, s: State, s': State)
    requires Inv(parts, out, s) && RunStep(parts, out, s, s')
    requires s.pc.Validate? || s.pc.CheckCancelled? || s.pc.Spawn? || s.pc.AwaitCancel? || s.pc.AwaitMonitor?
    ensures Inv(parts, out, s')
  {
    match s.pc {
      case CheckCancelled =>
        assert Active(parts, Seen(out, s')) == [] || !s.cancelled;
        assert s.trace + [] + [] == s.trace;
      case Spawn =>
        assert [SpawnMonitor] + Statuses([]) == [SpawnMonitor];
        assert s.trace + [] == s.trace;
      case AwaitMonitor =>
        StartsSeen(parts, out, s', START_ORDER);
        var v, a, w := Validating(parts, out), Starts(parts, out, START_ORDER), Watched(parts, s);
        assert w == Monitoring(parts, Seen(out, s'));
        assert v + a + w == v + (a + w) + [];
      case _ =>
    }
  }

  lemma MonitorKeeps(parts: Parts, out: Outside, s: State, s': State)
    requires Inv(parts, out, s) && MonitorStep(s, s')
    ensures Inv(parts, out, s') && (s.pc.AwaitCancel? || s.pc.AwaitMonitor?)
  {
    var head := Validating(parts, out) + Starts(parts, out, START_ORDER);
    if s.monitor.Collecting? {
      var report :| Published(s, s', report);
      StatusesSnoc(s.collected, report);
      assert Watched(parts, s') == Watched(parts, s) + [SetStatus(CollectionStatus(report))];
    } else if s'.monitor.Exited? {
      assert Watched(parts, s') == Watched(parts, s) + [MonitorDone];
    }
  }

  lemma StepKeeps(parts: Parts, out: Outside, s: State, s': State)
    requires Inv(parts, out, s) && Next(parts, out, s, s')
    ensures Inv(parts, out, s')
  {
    if RunStep(parts, out, s, s') {
      if s.pc.StartOps? || s.pc.StartServer? || s.pc.StartTiering? {
        StartStepsKeep(parts, out, s, s');
      } else if s.pc.StopServer? || s.pc.StopTiering? || s.pc.StopOps? || s.pc.CloseClients? {
        StopStepsKeep(parts, out, s, s');
      } else {
        OtherStepsKeep(parts, out, s, s');
      }
    } else if MonitorStep(s, s') {
      MonitorKeeps(parts, out, s, s');
    } else {
      assert Seen(out, s') == Seen(out, s);
    }
  }

  lemma {:induction false} RunsKeep(parts: Parts, out: Outside, run: seq<State>, i: nat)
    requires IsRun(parts, out, run) && i < |run|
    ensures Inv(parts, out, run[i])
  {
    if i > 0 {
      RunsKeep(parts, out, run, i - 1);
      assert Next(parts, out, run[i - 1], run[i - 1 + 1]);
      StepKeeps(parts, out, run[i - 1], run[i]);
    }
  }
}
