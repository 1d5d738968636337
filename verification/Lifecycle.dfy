/**
 Running and stopping the application (movoor.go): validateWatches, Run and shutdown. Every
 call that can fail is decided by an outcome handed in, and every visible effect is appended
 to a trace.
 */
module Lifecycle {
  import opened Wrappers

  datatype Component = Ops | Server | Tiering | Clients

  datatype Readiness = ReadyOk | Degraded | Unavailable

  datatype Event =
    | SetStatus(status: Readiness)
    | Start(c: Component)
    | Stop(c: Component)
    | SpawnMonitor
    | MonitorDone

  datatype Warning = Warning(kind: string, code: string)

  /** What a watch validation or a status collection reports. */
  datatype Report = Report(nodesExpected: nat, nodesResponded: nat, nodesFailed: nat, warnings: seq<Warning>)

  datatype RunError = Validation | StartFailed(c: Component) | StopFailed(c: Component)

  // ---- statuses -------------------------------------------------------------------------

  function ValidationStatus(result: Report, failed: bool): Readiness {
    if failed then Unavailable
    else if result.nodesFailed > 0 || |result.warnings| > 0 then Degraded
    else ReadyOk
  }

  function CollectionStatus(result: Report): Readiness {
    if result.nodesExpected > 0 && result.nodesResponded == 0 then Unavailable
    else if result.nodesFailed > 0 || |result.warnings| > 0 then Degraded
    else ReadyOk
  }

  predicate IsUnreachable(w: Warning) {
    w.kind == "reachability" && w.code == "node_unreachable"
  }

  /** Nodes were expected, none answered, and unreachability is all there is to report. */
  ghost predicate OnlyUnreachable(result: Report) {
    && result.nodesExpected > 0 && result.nodesResponded == 0
    && result.warnings != [] && forall i :: 0 <= i < |result.warnings| ==> IsUnreachable(result.warnings[i])
  }

  method IsReachabilityOnlyValidationFailure(result: Report) returns (r: bool)
    ensures r <==> OnlyUnreachable(result)
    ensures r <==>
      && result.nodesExpected > 0 && result.nodesResponded == 0 && result.warnings != []
      && forall w :: w in result.warnings ==> w.kind == "reachability" && w.code == "node_unreachable"
  {
    if result.nodesExpected == 0 || result.nodesResponded != 0 || |result.warnings| == 0 {
      return false;
    }
    for i := 0 to |result.warnings|
      invariant forall j :: 0 <= j < i ==> IsUnreachable(result.warnings[j])
    {
      var w := result.warnings[i];
      if w.kind != "reachability" || w.code != "node_unreachable" {
        return false;
      }
    }
    return true;
  }

  // ---- the application ------------------------------------------------------------------

  /** Which parts an App has; the state collector exists exactly when there are ClickHouse nodes. */
  datatype Parts = Parts(server: bool, ops: bool, tiering: bool, clients: bool, state: bool) {
    predicate Has(c: Component) {
      match c
      case Ops => ops
      case Server => server
      case Tiering => tiering
      case Clients => clients
    }

    predicate Monitored() {
      state && ops
    }
  }

  /**
   How everything outside turns out during one Run: the validation report and whether it is an
   error, whether the context is cancelled before anything starts, which starts and stops
   fail, and what the monitor collects until it ends.
   */
  datatype Outside = Outside(
    report: Report,
    validationFails: bool,
    cancelledEarly: bool,
    startFails: Component -> bool,
    stopFails: Component -> bool,
    collected: seq<Report>)

  function Statuses(collected: seq<Report>): seq<Event> {
    if collected == [] then [] else [SetStatus(CollectionStatus(collected[0]))] + Statuses(collected[1..])
  }

  lemma {:induction false} StatusesSnoc(collected: seq<Report>, last: Report)
    ensures Statuses(collected + [last]) == Statuses(collected) + [SetStatus(CollectionStatus(last))]
  {
    if collected == [] {
      assert [] + [last] == [last];
    } else {
      assert (collected + [last])[1..] == collected[1..] + [last];
      StatusesSnoc(collected[1..], last);
    }
  }

  /**
   The event publishes what a collection found: Unavailable exactly when nodes were expected and
   none responded, Degraded exactly when that is not so and a node failed or there is a warning.
   */
  predicate Announces(e: Event, r: Report) {
    && e.SetStatus?
    && (e.status == Unavailable <==> r.nodesExpected > 0 && r.nodesResponded == 0)
    && (e.status == Degraded <==>
          !(r.nodesExpected > 0 && r.nodesResponded == 0) && (r.nodesFailed > 0 || r.warnings != []))
  }

  /** One status per collection, in order. */
  lemma {:induction false} StatusesAre(collected: seq<Report>, i: nat)
    requires i < |collected|
    ensures |Statuses(collected)| == |collected| && Announces(Statuses(collected)[i], collected[i])
  {
    StatusesLength(collected);
    if i > 0 {
      StatusesAre(collected[1..], i - 1);
    }
  }

  lemma {:induction false} AllAnnounced(before: seq<Event>, collected: seq<Report>, trace: seq<Event>)
    requires trace == before + [SpawnMonitor] + Statuses(collected) + [MonitorDone]
    ensures |trace| == |before| + |collected| + 2
    ensures trace[|before|] == SpawnMonitor && trace[|trace| - 1] == MonitorDone
    ensures forall i :: 0 <= i < |collected| ==> Announces(trace[|before| + 1 + i], collected[i])
  {
    StatusesLength(collected);
    var said := Statuses(collected);
    forall i | 0 <= i < |collected| ensures Announces(said[i], collected[i]) {
      StatusesAre(collected, i);
    }
    assert forall i :: 0 <= i < |said| ==> trace[|before| + 1 + i] == said[i];
  }

  lemma {:induction false} StatusesLength(collected: seq<Report>)
    ensures |Statuses(collected)| == |collected|
  {
    if collected != [] {
      StatusesLength(collected[1..]);
    }
  }

  function StopIf(parts: Parts, c: Component): seq<Event> {
    if parts.Has(c) then [Stop(c)] else []
  }

  function Shutdown(parts: Parts): seq<Event> {
    StopIf(parts, Server) + StopIf(parts, Tiering) + StopIf(parts, Ops) + StopIf(parts, Clients)
  }

  function StopErrorIf(parts: Parts, out: Outside, c: Component): seq<RunError> {
    if parts.Has(c) && out.stopFails(c) then [StopFailed(c)] else []
  }

  function ShutdownErrors(parts: Parts, out: Outside): seq<RunError> {
    StopErrorIf(parts, out, Server) + StopErrorIf(parts, out, Tiering)
    + StopErrorIf(parts, out, Ops) + StopErrorIf(parts, out, Clients)
  }

  function Validating(parts: Parts, out: Outside): seq<Event> {
    if parts.Monitored() then [SetStatus(ValidationStatus(out.report, out.validationFails))] else []
  }

  /** validateWatches returns an error. */
  ghost predicate ValidationRefuses(parts: Parts, out: Outside) {
    parts.state && out.validationFails && !OnlyUnreachable(out.report)
  }

  /** The start attempts, in order, up to and including the first failing one. */
  function Starts(parts: Parts, out: Outside, cs: seq<Component>): seq<Event> {
    if cs == [] then []
    else if !parts.Has(cs[0]) then Starts(parts, out, cs[1..])
    else [Start(cs[0])] + if out.startFails(cs[0]) then [] else Starts(parts, out, cs[1..])
  }

  function FailedStart(parts: Parts, out: Outside, cs: seq<Component>): Option<Component> {
    if cs == [] then None
    else if parts.Has(cs[0]) && out.startFails(cs[0]) then Some(cs[0])
    else FailedStart(parts, out, cs[1..])
  }

  lemma StartsStep(parts: Parts, out: Outside, c: Component, rest: seq<Component>)
    ensures Starts(parts, out, [c] + rest)
         == if !parts.Has(c) then Starts(parts, out, rest)
            else [Start(c)] + if out.startFails(c) then [] else Starts(parts, out, rest)
    ensures FailedStart(parts, out, [c] + rest)
         == if parts.Has(c) && out.startFails(c) then Some(c) else FailedStart(parts, out, rest)
  {
    assert ([c] + rest)[1..] == rest;
  }

  const START_ORDER: seq<Component> := [Ops, Server, Tiering]

  function Monitoring(parts: Parts, out: Outside): seq<Event> {
    if parts.Monitored() then [SpawnMonitor] + Statuses(out.collected) + [MonitorDone] else []
  }

  /** What Run does once validation let it through, before it shuts down. */
  function Active(parts: Parts, out: Outside): seq<Event> {
    if out.cancelledEarly then []
    else if FailedStart(parts, out, START_ORDER).Some? then Starts(parts, out, START_ORDER)
    else Starts(parts, out, START_ORDER) + Monitoring(parts, out)
  }

  /** Everything one Run does. */
  ghost function RunTrace(parts: Parts, out: Outside): seq<Event> {
    if ValidationRefuses(parts, out) then Validating(parts, out)
    else Validating(parts, out) + Active(parts, out) + Shutdown(parts)
  }

  function StartErrors(parts: Parts, out: Outside): seq<RunError> {
    if out.cancelledEarly then []
    else match FailedStart(parts, out, START_ORDER)
      case None => []
      case Some(c) => [StartFailed(c)]
  }

  ghost function RunErrors(parts: Parts, out: Outside): seq<RunError> {
    if ValidationRefuses(parts, out) then [Validation] else StartErrors(parts, out) + ShutdownErrors(parts, out)
  }

  class App {
    const parts: Parts
    const out: Outside
    var trace: seq<Event>

    constructor (parts: Parts, out: Outside)
      ensures this.parts == parts && this.out == out && trace == []
    {
      this.parts := parts;
      this.out := out;
      trace := [];
    }

    method StartComponent(c: Component) returns (failed: bool)
      modifies this
      ensures trace == old(trace) + [Start(c)] && failed == out.startFails(c)
    {
      trace := trace + [Start(c)];
      failed := out.startFails(c);
    }

    method StopComponent(c: Component) returns (failed: bool)
      modifies this
      ensures trace == old(trace) + [Stop(c)] && failed == out.stopFails(c)
    {
      trace := trace + [Stop(c)];
      failed := out.stopFails(c);
    }

    /** Swallows an error exactly when the report is about unreachable nodes only. */
    method ValidateWatches() returns (failed: bool)
      modifies this
      ensures trace == old(trace) + Validating(parts, out)
      ensures failed <==> ValidationRefuses(parts, out)
      ensures failed <==>
        && parts.state && out.validationFails
        && (out.report.nodesExpected == 0 || out.report.nodesResponded > 0 || out.report.warnings == []
            || exists w :: w in out.report.warnings && (w.kind != "reachability" || w.code != "node_unreachable"))
      ensures parts.state && out.validationFails && !failed ==>
                OnlyUnreachable(out.report) && (parts.ops ==> trace == old(trace) + [SetStatus(Unavailable)])
      ensures parts.state && parts.ops ==>
                && |trace| == |old(trace)| + 1 && trace[|old(trace)|].SetStatus?
                && (trace[|old(trace)|].status == Unavailable <==> out.validationFails)
                && (trace[|old(trace)|].status == Degraded <==>
                      !out.validationFails && (out.report.nodesFailed > 0 || out.report.warnings != []))
    {
      if !parts.state {
        return false;
      }
      var status := ValidationStatus(out.report, out.validationFails);
      if parts.ops {
        trace := trace + [SetStatus(status)];
      }
      if out.validationFails {
        var swallow := IsReachabilityOnlyValidationFailure(out.report);
        return !swallow;
      }
      return false;
    }

    /** The stop attempt of one component, if the App has it. */
    method StopPresent(c: Component, errs: seq<RunError>) returns (joined: seq<RunError>)
      modifies this
      ensures trace == old(trace) + StopIf(parts, c)
      ensures joined == errs + StopErrorIf(parts, out, c)
    {
      joined := errs;
      if parts.Has(c) {
        var failed := StopComponent(c);
        if failed {
          joined := errs + [StopFailed(c)];
        }
      }
    }

    /** shutdown: every present component gets its attempt, whatever the earlier ones return. */
    method ShutdownAll() returns (errs: seq<RunError>)
      modifies this
      ensures trace == old(trace) + Shutdown(parts)
      ensures errs == ShutdownErrors(parts, out)
    {
      errs := StopPresent(Server, []);
      errs := StopPresent(Tiering, errs);
      errs := StopPresent(Ops, errs);
      errs := StopPresent(Clients, errs);
    }

    /** The monitor's life as Run sees it: spawned, ticking until it ends, waited for. */
    method MonitorUntilCancelled()
      modifies this
      ensures trace == old(trace) + Monitoring(parts, out)
      ensures !(parts.state && parts.ops) ==> trace == old(trace)
      ensures parts.state && parts.ops ==>
                && |trace| == |old(trace)| + |out.collected| + 2
                && trace[|old(trace)|] == SpawnMonitor && trace[|trace| - 1] == MonitorDone
                && forall i :: 0 <= i < |out.collected| ==> Announces(trace[|old(trace)| + 1 + i], out.collected[i])
    {
      ghost var before := trace;
      if !parts.state || !parts.ops {
        return;
      }
      trace := trace + [SpawnMonitor];
      for i := 0 to |out.collected|
        invariant trace == old(trace) + ([SpawnMonitor] + Statuses(out.collected[..i]))
      {
        trace := trace + [SetStatus(CollectionStatus(out.collected[i]))];
        StatusesSnoc(out.collected[..i], out.collected[i]);
        assert out.collected[..i + 1] == out.collected[..i] + [out.collected[i]];
      }
      assert out.collected[..|out.collected|] == out.collected;
      trace := trace + [MonitorDone];
      assert trace == before + [SpawnMonitor] + Statuses(out.collected) + [MonitorDone];
      AllAnnounced(before, out.collected, trace);
    }

    /** The start attempts of Run: listeners first, the writing controller last. */
    method StartAll() returns (failed: Option<Component>)
      modifies this
      ensures trace == old(trace) + Starts(parts, out, START_ORDER)
      ensures failed == FailedStart(parts, out, START_ORDER)
    {
      StartsStep(parts, out, Tiering, []);
      StartsStep(parts, out, Server, [Tiering]);
      StartsStep(parts, out, Ops, [Server, Tiering]);
      assert START_ORDER == [Ops] + [Server, Tiering] && [Server, Tiering] == [Server] + [Tiering]
             && [Tiering] == [Tiering] + [];
      if parts.ops {
        var opsFailed := StartComponent(Ops);
        if opsFailed {
          return Some(Ops);
        }
      }
      if parts.server {
        var serverFailed := StartComponent(Server);
        if serverFailed {
          return Some(Server);
        }
      }
      if parts.tiering {
        var tieringFailed := StartComponent(Tiering);
        if tieringFailed {
          return Some(Tiering);
        }
      }
      return None;
    }

    method Run() returns (errs: seq<RunError>)
      modifies this
      ensures trace == old(trace) + RunTrace(parts, out)
      ensures errs == RunErrors(parts, out)
    {
      ghost var before := trace;
      var refused := ValidateWatches();
      if refused {
        return [Validation];
      }
      if out.cancelledEarly {
        errs := ShutdownAll();
        Regroup(before, Validating(parts, out), [], Shutdown(parts));
        return;
      }
      var failed := StartAll();
      if failed.Some? {
        errs := ShutdownAll();
        Regroup(before, Validating(parts, out), Starts(parts, out, START_ORDER), Shutdown(parts));
        return [StartFailed(failed.value)] + errs;
      }
      MonitorUntilCancelled();
      Regroup(before, Validating(parts, out), Starts(parts, out, START_ORDER), Monitoring(parts, out));
      errs := ShutdownAll();
      Regroup(before, Validating(parts, out), Active(parts, out), Shutdown(parts));
    }
  }

  lemma Regroup(a: seq<Event>, b: seq<Event>, c: seq<Event>, d: seq<Event>)
    ensures a + b + c + d == a + (b + c + d) && a + b + c + d == a + b + (c + d)
    ensures c == [] ==> a + b + d == a + (b + c + d)
  {
  }
}
