/**
 What holds over every interleaving of Run and the health monitor, at every point of it: the
 order of starts and stops, who is left running, and when a status may still be published.
 */
module LifecycleSafety {
  import opened Wrappers
  import opened Lifecycle
  import opened LifecycleMachine

  // ---- the promises, as properties of a trace ---------------------------------------------

  /** Component c, if there is one, was started successfully before position k. */
  ghost predicate UpBefore(parts: Parts, out: Outside, t: seq<Event>, k: nat, c: Component)
    requires k <= |t|
  {
    parts.Has(c) ==> !out.startFails(c) && Start(c) in t[..k]
  }

  /** The ops server is up before the server starts, and the controller, which is the one that writes, starts last. */
  ghost predicate TieringLast(parts: Parts, out: Outside, t: seq<Event>) {
    && (forall k :: 0 <= k < |t| && t[k] == Start(Server) ==> UpBefore(parts, out, t, k, Ops))
    && forall k :: 0 <= k < |t| && t[k] == Start(Tiering) ==>
         UpBefore(parts, out, t, k, Ops) && UpBefore(parts, out, t, k, Server)
  }

  /** Ops before the server before tiering, each at most once. */
  ghost predicate StartsOrdered(t: seq<Event>) {
    forall i, j :: 0 <= i < j < |t| && t[i].Start? && t[j].Start? ==>
      t[i] != t[j] && (t[i].c == Ops || (t[i].c == Server && t[j].c == Tiering))
  }

  /** The server before tiering before ops before the client pool, each at most once. */
  ghost predicate StopsOrdered(t: seq<Event>) {
    forall i, j :: 0 <= i < j < |t| && t[i].Stop? && t[j].Stop? ==>
      && t[i] != t[j]
      && (t[i].c == Server || (t[i].c == Tiering && t[j].c != Server) || (t[i].c == Ops && t[j].c == Clients))
  }

  /** Once the first component is being stopped nothing is published, started or spawned. */
  ghost predicate QuietOnceStopping(t: seq<Event>) {
    forall i, j :: 0 <= i < j < |t| && t[i].Stop? ==> t[j].Stop?
  }

  /** The monitor is spawned only if every start succeeded, and is over before any stop. */
  ghost predicate MonitorOverBeforeStops(parts: Parts, out: Outside, t: seq<Event>) {
    && (SpawnMonitor in t ==> forall c :: c != Clients && parts.Has(c) ==> !out.startFails(c) && Start(c) in t)
    && (forall i, j :: 0 <= i < j < |t| && t[i] == SpawnMonitor && t[j].Stop? ==> MonitorDone in t[i..j])
    && (forall i, j :: 0 <= i < j < |t| && t[i] == MonitorDone ==> t[j].Stop?)
  }

  /** A refused validation starts and stops nothing; any other exit stops each part exactly once. */
  ghost predicate StoppedExactlyOnce(parts: Parts, out: Outside, t: seq<Event>) {
    if ValidationRefuses(parts, out) then forall e :: e in t ==> e.SetStatus?
    else
      && (forall c :: multiset(t)[Stop(c)] == if parts.Has(c) then 1 else 0)
      && Shutdown(parts) == t[|t| - |Shutdown(parts)|..]
      && forall k, c :: 0 <= k < |t| && t[k] == Start(c) ==> Stop(c) in t[k..]
  }

  // ---- the phases of a trace --------------------------------------------------------------

  ghost predicate Phases(parts: Parts, out: Outside, v: seq<Event>, n: nat, w: seq<Event>, z: seq<Event>) {
    && (forall e :: e in v ==> e.SetStatus?)
    && n <= 3
    && (w != [] ==> n == 3 && FailedStart(parts, out, START_ORDER).None?)
    && (forall e :: e in w ==> e.SetStatus? || e.SpawnMonitor? || e.MonitorDone?)
    && (forall k :: 0 <= k < |w| - 1 ==> w[k] != MonitorDone)
    && (forall k :: 0 < k < |w| ==> w[k] != SpawnMonitor)
    && (forall e :: e in z ==> e.Stop?)
    && (w != [] && z != [] ==> w[|w| - 1] == MonitorDone)
  }

  function Joined(parts: Parts, out: Outside, v: seq<Event>, n: nat, w: seq<Event>, z: seq<Event>): seq<Event>
    requires n <= 3
  {
    v + Starts(parts, out, START_ORDER[..n]) + w + z
  }

  lemma {:induction false} StatusesOnly(collected: seq<Report>)
    ensures forall e :: e in Statuses(collected) ==> e.SetStatus?
  {
    if collected != [] {
      StatusesOnly(collected[1..]);
    }
  }

  lemma {:induction false} StartsOnly(parts: Parts, out: Outside, cs: seq<Component>)
    ensures forall e :: e in Starts(parts, out, cs) ==> e.Start? && e.c in cs && parts.Has(e.c)
  {
    if cs != [] {
      StartsOnly(parts, out, cs[1..]);
    }
  }

  lemma WatchedPhase(parts: Parts, s: State)
    ensures var w := Watched(parts, s);
            && (forall e :: e in w ==> e.SetStatus? || e.SpawnMonitor? || e.MonitorDone?)
            && (forall k :: 0 <= k < |w| - 1 ==> w[k] != MonitorDone)
            && (forall k :: 0 < k < |w| ==> w[k] != SpawnMonitor)
            && (s.monitor.Exited? && w != [] ==> w[|w| - 1] == MonitorDone)
  {
    StatusesOnly(s.collected);
    var all := Statuses(s.collected);
    assert forall k :: 0 <= k < |all| ==> all[k] in all;
  }

  predicate Starting(pc: Pc) {
    pc.Validate? || pc.CheckCancelled? || pc.StartOps? || pc.StartServer? || pc.StartTiering? || pc.Spawn?
  }

  /** Up to the last start there is nothing else yet. */
  lemma SplitStarting(parts: Parts, out: Outside, s: State) returns (v: seq<Event>, n: nat)
    requires Inv(parts, out, s) && Starting(s.pc)
    ensures Phases(parts, out, v, n, [], []) && s.trace == Joined(parts, out, v, n, [], [])
  {
    assert START_ORDER[..3] == START_ORDER && START_ORDER[..2] == [Ops, Server] && START_ORDER[..1] == [Ops];
    v := if s.pc.Validate? then [] else Validating(parts, out);
    n := if s.pc.StartServer? then 1 else if s.pc.StartTiering? then 2 else if s.pc.Spawn? then 3 else 0;
    assert s.trace == v + Starts(parts, out, START_ORDER[..n]);
  }

  /** The monitor's part of the trace: still growing while Run waits, complete afterwards. */
  function MonitorCut(parts: Parts, out: Outside, s: State): seq<Event> {
    if s.early || FailedStart(parts, out, START_ORDER).Some? then []
    else Watched(parts, if s.pc.AwaitCancel? || s.pc.AwaitMonitor? then s else s.(monitor := Exited))
  }

  /** From then on it is `Active`, cut off where the monitor is, and the stops done so far. */
  lemma ActivePhases(parts: Parts, out: Outside, s: State) returns (n: nat, w: seq<Event>)
    requires Inv(parts, out, s) && !Starting(s.pc) && !ValidationRefuses(parts, out)
    ensures Phases(parts, out, Validating(parts, out), n, w, StopsDone(parts, s.pc))
    ensures s.trace == Joined(parts, out, Validating(parts, out), n, w, StopsDone(parts, s.pc))
  {
    n, w := if s.early then 0 else 3, MonitorCut(parts, out, s);
    assert START_ORDER[..3] == START_ORDER && START_ORDER[..0] == [];
    CutPhases(parts, out, s);
    CutTrace(parts, out, s, Starts(parts, out, START_ORDER[..n]));
  }

  lemma CutPhases(parts: Parts, out: Outside, s: State)
    requires Inv(parts, out, s) && !Starting(s.pc) && !ValidationRefuses(parts, out)
    ensures Phases(parts, out, Validating(parts, out), if s.early then 0 else 3,
                   MonitorCut(parts, out, s), StopsDone(parts, s.pc))
  {
    StopsDoneOnly(parts, s.pc);
    WatchedPhase(parts, if s.pc.AwaitCancel? || s.pc.AwaitMonitor? then s else s.(monitor := Exited));
  }

  lemma StopsDoneOnly(parts: Parts, pc: Pc)
    ensures forall e :: e in StopsDone(parts, pc) ==> e.Stop?
    ensures pc.AwaitCancel? || pc.AwaitMonitor? ==> StopsDone(parts, pc) == []
  {
  }

  lemma CutTrace(parts: Parts, out: Outside, s: State, a: seq<Event>)
    requires Inv(parts, out, s) && !Starting(s.pc) && !ValidationRefuses(parts, out)
    requires a == if s.early then [] else Starts(parts, out, START_ORDER)
    ensures s.trace == Validating(parts, out) + a + MonitorCut(parts, out, s) + StopsDone(parts, s.pc)
  {
    StartsSeen(parts, out, s, START_ORDER);
    Regrouped(Validating(parts, out), a, MonitorCut(parts, out, s), StopsDone(parts, s.pc));
    if !s.pc.AwaitCancel? && !s.pc.AwaitMonitor? {
      assert Active(parts, Seen(out, s)) == a + MonitorCut(parts, out, s);
    }
  }

  lemma Regrouped(a: seq<Event>, b: seq<Event>, c: seq<Event>, d: seq<Event>)
    ensures a + b + c + d == a + (b + c) + d && a + b + c + [] == a + b + c && a + [] + [] + [] == a
  {
  }

  lemma RefusedTrace(parts: Parts, out: Outside, s: State)
    requires Inv(parts, out, s) && !Starting(s.pc) && ValidationRefuses(parts, out)
    ensures s.pc.Finished? && s.trace == Validating(parts, out)
  {
  }

  lemma StopsDoneOrdered(parts: Parts, pc: Pc)
    ensures StopsOrdered(StopsDone(parts, pc))
  {
  }

  /** Every reachable trace is statuses, then starts, then the monitor's life, then stops. */
  lemma Split(parts: Parts, out: Outside, s: State) returns (v: seq<Event>, n: nat, w: seq<Event>, z: seq<Event>)
    requires Inv(parts, out, s)
    ensures Phases(parts, out, v, n, w, z) && s.trace == Joined(parts, out, v, n, w, z)
    ensures StopsOrdered(z)
    ensures s.pc.Finished? && !ValidationRefuses(parts, out) ==> z == Shutdown(parts)
    ensures s.pc.Finished? && ValidationRefuses(parts, out) ==> s.trace == v
  {
    v, n, w, z := Validating(parts, out), 0, [], [];
    if Starting(s.pc) {
      v, n := SplitStarting(parts, out, s);
    } else if ValidationRefuses(parts, out) {
      RefusedTrace(parts, out, s);
      assert START_ORDER[..0] == [];
      Regrouped(v, [], [], []);
    } else {
      z := StopsDone(parts, s.pc);
      StopsDoneOrdered(parts, s.pc);
      n, w := ActivePhases(parts, out, s);
    }
  }

  // ---- from the phases to the promises ----------------------------------------------------

  /** A start attempt comes after a successful one of every present component listed earlier. */
  lemma {:induction false} StartsInOrder(parts: Parts, out: Outside, cs: seq<Component>, k: nat) returns (m: nat)
    requires k < |Starts(parts, out, cs)|
    ensures m < |cs| && Starts(parts, out, cs)[k] == Start(cs[m])
    ensures forall j :: 0 <= j < m && parts.Has(cs[j]) ==>
              !out.startFails(cs[j]) && Start(cs[j]) in Starts(parts, out, cs)[..k]
  {
    var rest := Starts(parts, out, cs[1..]);
    if !parts.Has(cs[0]) {
      m := StartsInOrder(parts, out, cs[1..], k);
      m := m + 1;
    } else if k == 0 {
      m := 0;
    } else {
      m := StartsInOrder(parts, out, cs[1..], k - 1);
      m := m + 1;
      assert Starts(parts, out, cs)[..k] == [Start(cs[0])] + rest[..k - 1];
    }
  }

  /** When nothing fails every present component is started. */
  lemma {:induction false} AllStarted(parts: Parts, out: Outside, cs: seq<Component>, c: Component)
    requires FailedStart(parts, out, cs).None? && c in cs && parts.Has(c)
    ensures Start(c) in Starts(parts, out, cs) && !out.startFails(c)
  {
    if c != cs[0] {
      AllStarted(parts, out, cs[1..], c);
    }
  }

  lemma Located(v: seq<Event>, a: seq<Event>, w: seq<Event>, z: seq<Event>, k: nat)
    requires k < |v + a + w + z|
    ensures var e := (v + a + w + z)[k];
            if k < |v| then e in v
            else if k < |v + a| then e == a[k - |v|] && e in a
            else if k < |v + a + w| then e == w[k - |v + a|] && e in w
            else e in z
  {
  }

  lemma TieringStartsLast(parts: Parts, out: Outside, v: seq<Event>, n: nat, w: seq<Event>, z: seq<Event>)
    requires Phases(parts, out, v, n, w, z)
    ensures TieringLast(parts, out, Joined(parts, out, v, n, w, z))
  {
    var cs := START_ORDER[..n];
    var a, t := Starts(parts, out, cs), Joined(parts, out, v, n, w, z);
    forall k | 0 <= k < |t| && t[k] == Start(Tiering)
      ensures UpBefore(parts, out, t, k, Ops) && UpBefore(parts, out, t, k, Server)
    {
      Located(v, a, w, z, k);
      var m := StartsInOrder(parts, out, cs, k - |v|);
      assert m == 2 && cs[0] == Ops && cs[1] == Server;
      assert t[..k] == v + a[..k - |v|];
    }
    forall k | 0 <= k < |t| && t[k] == Start(Server)
      ensures UpBefore(parts, out, t, k, Ops)
    {
      Located(v, a, w, z, k);
      var m := StartsInOrder(parts, out, cs, k - |v|);
      assert m == 1 && cs[0] == Ops;
      assert t[..k] == v + a[..k - |v|];
    }
  }

  lemma OrderKept(parts: Parts, out: Outside, v: seq<Event>, n: nat, w: seq<Event>, z: seq<Event>)
    requires Phases(parts, out, v, n, w, z) && StopsOrdered(z)
    ensures StartsOrdered(Joined(parts, out, v, n, w, z)) && StopsOrdered(Joined(parts, out, v, n, w, z))
  {
    var cs := START_ORDER[..n];
    StartsOnly(parts, out, cs);
    var a, t := Starts(parts, out, cs), Joined(parts, out, v, n, w, z);
    StartsInTurn(parts, out, n);
    forall i, j | 0 <= i < j < |t| && t[i].Start? && t[j].Start?
      ensures t[i] != t[j] && (t[i].c == Ops || (t[i].c == Server && t[j].c == Tiering))
    {
      Located(v, a, w, z, i);
      Located(v, a, w, z, j);
      assert a[i - |v|] == t[i] && a[j - |v|] == t[j];
    }
    var lo := |v + a + w|;
    forall i | 0 <= i < |t| && t[i].Stop? ensures i >= lo && t[i] == z[i - lo] {
      Located(v, a, w, z, i);
    }
  }

  lemma StartsInTurn(parts: Parts, out: Outside, n: nat)
    requires n <= 3
    ensures StartsOrdered(Starts(parts, out, START_ORDER[..n]))
  {
    assert START_ORDER[..0] == [] && START_ORDER[..1] == [Ops] + [] && START_ORDER[..2] == [Ops] + ([Server] + [])
           && START_ORDER[..3] == [Ops] + ([Server] + ([Tiering] + []));
    StartsStep(parts, out, Ops, []);
    StartsStep(parts, out, Server, []);
    StartsStep(parts, out, Tiering, []);
    StartsStep(parts, out, Ops, [Server] + []);
    StartsStep(parts, out, Server, [Tiering] + []);
    StartsStep(parts, out, Ops, [Server] + ([Tiering] + []));
  }

  lemma StopsComeLast(parts: Parts, out: Outside, v: seq<Event>, n: nat, w: seq<Event>, z: seq<Event>)
    requires Phases(parts, out, v, n, w, z)
    ensures QuietOnceStopping(Joined(parts, out, v, n, w, z))
  {
    StartsOnly(parts, out, START_ORDER[..n]);
    var a, t := Starts(parts, out, START_ORDER[..n]), Joined(parts, out, v, n, w, z);
    forall i, j | 0 <= i < j < |t| && t[i].Stop?
      ensures t[j].Stop?
    {
      Located(v, a, w, z, i);
      Located(v, a, w, z, j);
    }
  }

  lemma MonitorEnds(parts: Parts, out: Outside, v: seq<Event>, n: nat, w: seq<Event>, z: seq<Event>)
    requires Phases(parts, out, v, n, w, z)
    ensures MonitorOverBeforeStops(parts, out, Joined(parts, out, v, n, w, z))
  {
    StartsOnly(parts, out, START_ORDER[..n]);
    var a, t := Starts(parts, out, START_ORDER[..n]), Joined(parts, out, v, n, w, z);
    if SpawnMonitor in t {
      SpawnedLate(parts, out, v, n, w, z);
    }
    OverBeforeStops(v + a, w, z);
  }

  /** The monitor is spawned only when every present component was started. */
  lemma SpawnedLate(parts: Parts, out: Outside, v: seq<Event>, n: nat, w: seq<Event>, z: seq<Event>)
    requires Phases(parts, out, v, n, w, z) && SpawnMonitor in Joined(parts, out, v, n, w, z)
    ensures forall c :: c != Clients && parts.Has(c) ==>
              !out.startFails(c) && Start(c) in Joined(parts, out, v, n, w, z)
  {
    StartsOnly(parts, out, START_ORDER[..n]);
    var a, t := Starts(parts, out, START_ORDER[..n]), Joined(parts, out, v, n, w, z);
    var i :| 0 <= i < |t| && t[i] == SpawnMonitor;
    Located(v, a, w, z, i);
    assert START_ORDER[..n] == START_ORDER;
    forall c | c != Clients && parts.Has(c)
      ensures !out.startFails(c) && Start(c) in t
    {
      AllStarted(parts, out, START_ORDER, c);
    }
  }

  lemma OverBeforeStops(h: seq<Event>, w: seq<Event>, z: seq<Event>)
    requires forall e :: e in h ==> e.SetStatus? || e.Start?
    requires forall e :: e in w ==> e.SetStatus? || e.SpawnMonitor? || e.MonitorDone?
    requires (forall k :: 0 <= k < |w| - 1 ==> w[k] != MonitorDone) && forall e :: e in z ==> e.Stop?
    requires w != [] && z != [] ==> w[|w| - 1] == MonitorDone
    ensures var t := h + w + z;
            && (forall i, j :: 0 <= i < j < |t| && t[i] == SpawnMonitor && t[j].Stop? ==> MonitorDone in t[i..j])
            && (forall i, j :: 0 <= i < j < |t| && t[i] == MonitorDone ==> t[j].Stop?)
  {
    var t, lo, hi := h + w + z, |h|, |h + w|;
    assert forall i :: 0 <= i < lo ==> t[i] in h;
    assert forall i :: hi <= i < |t| ==> t[i] in z;
    assert forall i :: lo <= i < hi ==> t[i] == w[i - lo] && t[i] in w;
    forall i, j | 0 <= i < j < |t| && t[i] == SpawnMonitor && t[j].Stop?
      ensures MonitorDone in t[i..j]
    {
      assert lo <= i < hi <= j;
      assert t[i..j][hi - 1 - i] == t[hi - 1] == w[|w| - 1];
    }
    forall i, j | 0 <= i < j < |t| && t[i] == MonitorDone
      ensures t[j].Stop?
    {
      assert i == hi - 1;
    }
  }

  lemma StopIfCount(parts: Parts, d: Component, c: Component)
    ensures multiset(StopIf(parts, d))[Stop(c)] == if c == d && parts.Has(c) then 1 else 0
  {
  }

  lemma ShutdownCounts(parts: Parts, c: Component)
    ensures multiset(Shutdown(parts))[Stop(c)] == if parts.Has(c) then 1 else 0
  {
    StopIfCount(parts, Server, c);
    StopIfCount(parts, Tiering, c);
    StopIfCount(parts, Ops, c);
    StopIfCount(parts, Clients, c);
    CountsAdd(StopIf(parts, Server), StopIf(parts, Tiering), StopIf(parts, Ops), StopIf(parts, Clients), Stop(c));
  }

  lemma CountsAdd(p: seq<Event>, q: seq<Event>, r: seq<Event>, s: seq<Event>, e: Event)
    ensures multiset(p + q + r + s)[e] == multiset(p)[e] + multiset(q)[e] + multiset(r)[e] + multiset(s)[e]
  {
    assert multiset(p + q + r + s) == multiset(p) + multiset(q) + multiset(r) + multiset(s);
  }

  /** Before the shutdown there are no stops, and only present components are started. */
  lemma BeforeStops(parts: Parts, out: Outside, v: seq<Event>, n: nat, w: seq<Event>)
    requires Phases(parts, out, v, n, w, Shutdown(parts))
    ensures forall e :: e in v + Starts(parts, out, START_ORDER[..n]) + w ==> !e.Stop? && (e.Start? ==> parts.Has(e.c))
  {
    StartsOnly(parts, out, START_ORDER[..n]);
  }

  lemma StopsOnce(parts: Parts, out: Outside, v: seq<Event>, n: nat, w: seq<Event>)
    requires Phases(parts, out, v, n, w, Shutdown(parts)) && !ValidationRefuses(parts, out)
    ensures StoppedExactlyOnce(parts, out, Joined(parts, out, v, n, w, Shutdown(parts)))
  {
    BeforeStops(parts, out, v, n, w);
    forall c
      ensures multiset(Shutdown(parts))[Stop(c)] == if parts.Has(c) then 1 else 0
    {
      ShutdownCounts(parts, c);
    }
    StopsOnceAfter(parts, v + Starts(parts, out, START_ORDER[..n]) + w, Shutdown(parts));
  }

  lemma StopsOnceAfter(parts: Parts, h: seq<Event>, z: seq<Event>)
    requires forall e :: e in h ==> !e.Stop? && (e.Start? ==> parts.Has(e.c))
    requires forall e :: e in z ==> e.Stop?
    requires forall c :: multiset(z)[Stop(c)] == if parts.Has(c) then 1 else 0
    ensures forall c :: multiset(h + z)[Stop(c)] == if parts.Has(c) then 1 else 0
    ensures (h + z)[|h + z| - |z|..] == z
    ensures forall k, c :: 0 <= k < |h + z| && (h + z)[k] == Start(c) ==> Stop(c) in (h + z)[k..]
  {
    forall c
      ensures multiset(h + z)[Stop(c)] == if parts.Has(c) then 1 else 0
    {
      assert Stop(c) !in h;
      assert multiset(h + z) == multiset(h) + multiset(z);
    }
    forall k, c | 0 <= k < |h + z| && (h + z)[k] == Start(c)
      ensures Stop(c) in (h + z)[k..]
    {
      StopFollows(parts, h, z, k, c);
    }
  }

  lemma StopFollows(parts: Parts, h: seq<Event>, z: seq<Event>, k: nat, c: Component)
    requires forall e :: e in h ==> !e.Stop? && (e.Start? ==> parts.Has(e.c))
    requires forall i :: 0 <= i < |z| ==> z[i].Stop?
    requires forall d :: multiset(z)[Stop(d)] == if parts.Has(d) then 1 else 0
    requires k < |h + z| && (h + z)[k] == Start(c)
    ensures Stop(c) in (h + z)[k..]
  {
    if k < |h| {
      assert h[k] in h;
      assert multiset(z)[Stop(c)] == 1;
      assert (h + z)[k..] == h[k..] + z;
    }
  }

  // ---- over every run ---------------------------------------------------------------------

  /** At every point of every interleaving. */
  lemma AlwaysSafe(parts: Parts, out: Outside, run: seq<State>, i: nat)
    requires IsRun(parts, out, run) && i < |run|
    ensures TieringLast(parts, out, run[i].trace)
    ensures QuietOnceStopping(run[i].trace)
    ensures MonitorOverBeforeStops(parts, out, run[i].trace)
    ensures StartsOrdered(run[i].trace) && StopsOrdered(run[i].trace)
  {
    RunsKeep(parts, out, run, i);
    var v, n, w, z := Split(parts, out, run[i]);
    OrderKept(parts, out, v, n, w, z);
    TieringStartsLast(parts, out, v, n, w, z);
    StopsComeLast(parts, out, v, n, w, z);
    MonitorEnds(parts, out, v, n, w, z);
  }

  /** When Run has returned: nothing started is left running, unless nothing was started at all. */
  lemma FinishedClean(parts: Parts, out: Outside, run: seq<State>)
    requires IsRun(parts, out, run) && run[|run| - 1].pc.Finished?
    ensures StoppedExactlyOnce(parts, out, run[|run| - 1].trace)
  {
    RunsKeep(parts, out, run, |run| - 1);
    var v, n, w, z := Split(parts, out, run[|run| - 1]);
    if !ValidationRefuses(parts, out) {
      StopsOnce(parts, out, v, n, w);
    }
  }

  /** Whatever the interleaving, the finished trace is one that the sequential Run describes. */
  lemma FinishedIsSequential(parts: Parts, out: Outside, run: seq<State>)
    requires IsRun(parts, out, run) && run[|run| - 1].pc.Finished?
    ensures run[|run| - 1].trace == RunTrace(parts, Seen(out, run[|run| - 1]))
  {
    RunsKeep(parts, out, run, |run| - 1);
  }

  /** Run as one method: everything that holds of the interleavings holds of each of its traces. */
  lemma RunTraceSafe(parts: Parts, out: Outside)
    ensures var t := RunTrace(parts, out);
            && TieringLast(parts, out, t) && QuietOnceStopping(t)
            && MonitorOverBeforeStops(parts, out, t) && StoppedExactlyOnce(parts, out, t)
            && StartsOrdered(t) && StopsOrdered(t)
  {
    var s := EndState(parts, out);
    var v, n, w, z := Split(parts, out, s);
    OrderKept(parts, out, v, n, w, z);
    TieringStartsLast(parts, out, v, n, w, z);
    StopsComeLast(parts, out, v, n, w, z);
    MonitorEnds(parts, out, v, n, w, z);
    if !ValidationRefuses(parts, out) {
      StopsOnce(parts, out, v, n, w);
    }
  }

  /** Which calls Run gets to, in the order of its starts, and whether the monitor is spawned. */
  lemma RunStarts(parts: Parts, out: Outside)
    ensures var (t, go) := (RunTrace(parts, out), !ValidationRefuses(parts, out) && !out.cancelledEarly);
            var opsUp := !(parts.ops && out.startFails(Ops));
            var serverUp := opsUp && !(parts.server && out.startFails(Server));
            && (Start(Ops) in t <==> go && parts.ops)
            && (Start(Server) in t <==> go && opsUp && parts.server)
            && (Start(Tiering) in t <==> go && serverUp && parts.tiering)
            && Start(Clients) !in t
            && (SpawnMonitor in t <==>
                  go && serverUp && !(parts.tiering && out.startFails(Tiering)) && parts.state && parts.ops)
  {
    var t := RunTrace(parts, out);
    StartsSpelledOut(parts, out);
    AttemptsInTrace(parts, out, Ops);
    AttemptsInTrace(parts, out, Server);
    AttemptsInTrace(parts, out, Tiering);
    AttemptsInTrace(parts, out, Clients);
    Among(Validating(parts, out), Active(parts, out), Shutdown(parts), SpawnMonitor);
    InShutdown(parts, Ops);
    StartsOnly(parts, out, START_ORDER);
    SpawnInActive(parts, out);
  }

  lemma SpawnInActive(parts: Parts, out: Outside)
    ensures SpawnMonitor in Active(parts, out)
       <==> !out.cancelledEarly && FailedStart(parts, out, START_ORDER).None? && parts.Monitored()
  {
    StartsOnly(parts, out, START_ORDER);
    StatusesOnly(out.collected);
    assert parts.Monitored() ==> Monitoring(parts, out)[0] == SpawnMonitor;
  }

  lemma StartsSpelledOut(parts: Parts, out: Outside)
    ensures var opsUp := !(parts.ops && out.startFails(Ops));
            var serverUp := opsUp && !(parts.server && out.startFails(Server));
            var a := Starts(parts, out, START_ORDER);
            && (Start(Ops) in a <==> parts.ops)
            && (Start(Server) in a <==> opsUp && parts.server)
            && (Start(Tiering) in a <==> serverUp && parts.tiering)
            && (FailedStart(parts, out, START_ORDER).None? <==> serverUp && !(parts.tiering && out.startFails(Tiering)))
  {
    StartsStep(parts, out, Tiering, []);
    StartsStep(parts, out, Server, [Tiering]);
    StartsStep(parts, out, Ops, [Server, Tiering]);
    assert START_ORDER == [Ops] + [Server, Tiering] && [Server, Tiering] == [Server] + [Tiering]
           && [Tiering] == [Tiering] + [];
  }

  /**
   What Run publishes about the validation, first of all: Unavailable exactly when it failed,
   Degraded exactly when it did not and a node failed or there is a warning.
   */
  lemma ValidationPublished(parts: Parts, out: Outside)
    requires parts.state && parts.ops
    ensures var t := RunTrace(parts, out);
            && |t| > 0 && t[0].SetStatus? && (t[0].status == Unavailable <==> out.validationFails)
            && (t[0].status == Degraded <==>
                  !out.validationFails && (out.report.nodesFailed > 0 || out.report.warnings != []))
  {
    assert RunTrace(parts, out)[0] == Validating(parts, out)[0];
  }

  /**
   The monitor is spawned at position k; between its spawning and its end there is one status per
   collection, in order, Unavailable exactly when nodes were expected and none responded,
   Degraded exactly when that is not so and a node failed or there is a warning. Behind the first
   event there is no other status.
   */
  ghost predicate OneStatusEach(t: seq<Event>, k: nat, collected: seq<Report>) {
    && k + |collected| + 1 < |t| && t[k] == SpawnMonitor && t[k + |collected| + 1] == MonitorDone
    && (forall i :: 1 <= i < |t| && t[i].SetStatus? ==> k < i <= k + |collected|)
    && forall i :: 0 <= i < |collected| ==>
         var (r, e) := (collected[i], t[k + 1 + i]);
         && e.SetStatus?
         && (e.status == Unavailable <==> r.nodesExpected > 0 && r.nodesResponded == 0)
         && (e.status == Degraded <==>
               !(r.nodesExpected > 0 && r.nodesResponded == 0) && (r.nodesFailed > 0 || r.warnings != []))
  }

  /** What the monitor publishes in a Run that spawns it; nothing else is published but the validation. */
  lemma CollectionsPublished(parts: Parts, out: Outside) returns (k: nat)
    requires SpawnMonitor in RunTrace(parts, out)
    ensures OneStatusEach(RunTrace(parts, out), k, out.collected)
  {
    var v, a, z := Validating(parts, out), Starts(parts, out, START_ORDER), Shutdown(parts);
    k := |v + a|;
    SpawnedTrace(parts, out);
    StartsOnly(parts, out, START_ORDER);
    InShutdown(parts, Ops);
    PublishedBetween(v, a, out.collected, z, RunTrace(parts, out));
  }

  lemma {:induction false} PublishedBetween(v: seq<Event>, a: seq<Event>, collected: seq<Report>, z: seq<Event>,
                                            t: seq<Event>)
    requires t == v + a + ([SpawnMonitor] + Statuses(collected) + [MonitorDone]) + z && |v| <= 1
    requires (forall e :: e in a ==> e.Start?) && forall e :: e in z ==> e.Stop?
    ensures OneStatusEach(t, |v + a|, collected)
  {
    Surrounded(v + a, collected, z, t);
    OnlyBetween(v, a, collected, z, t);
    forall i | 0 <= i < |collected| ensures Announces(t[|v + a| + 1 + i], collected[i]) {
    }
  }

  lemma {:induction false} OnlyBetween(v: seq<Event>, a: seq<Event>, collected: seq<Report>, z: seq<Event>,
                                       t: seq<Event>)
    requires t == v + a + ([SpawnMonitor] + Statuses(collected) + [MonitorDone]) + z && |v| <= 1
    requires (forall e :: e in a ==> e.Start?) && forall e :: e in z ==> e.Stop?
    ensures forall i :: 1 <= i < |t| && t[i].SetStatus? ==> |v + a| < i <= |v + a| + |collected|
  {
    StatusesLength(collected);
    var w := [SpawnMonitor] + Statuses(collected) + [MonitorDone];
    forall i | 1 <= i < |t| && t[i].SetStatus? ensures |v + a| < i <= |v + a| + |collected| {
      Located(v, a, w, z, i);
    }
  }

  lemma SpawnedTrace(parts: Parts, out: Outside)
    requires SpawnMonitor in RunTrace(parts, out)
    ensures RunTrace(parts, out)
         == Validating(parts, out) + Starts(parts, out, START_ORDER)
            + ([SpawnMonitor] + Statuses(out.collected) + [MonitorDone]) + Shutdown(parts)
  {
    Among(Validating(parts, out), Active(parts, out), Shutdown(parts), SpawnMonitor);
    InShutdown(parts, Ops);
    SpawnInActive(parts, out);
    var m := [SpawnMonitor] + Statuses(out.collected) + [MonitorDone];
    var v, a := Validating(parts, out), Starts(parts, out, START_ORDER);
    assert v + (a + m) == v + a + m;
  }

  /** Without a monitor there is no other status, and without collector or ops server none at all. */
  lemma NothingElsePublished(parts: Parts, out: Outside, i: nat)
    requires SpawnMonitor !in RunTrace(parts, out) && i < |RunTrace(parts, out)|
    ensures RunTrace(parts, out)[i].SetStatus? ==> i == 0 && parts.state && parts.ops
  {
    var v, a, z := Validating(parts, out), Active(parts, out), Shutdown(parts);
    Among(v, a, z, SpawnMonitor);
    SpawnInActive(parts, out);
    StartsOnly(parts, out, START_ORDER);
    InShutdown(parts, Ops);
    if !ValidationRefuses(parts, out) && i >= |v| {
      NotPublished(parts, out);
      Located(v, a, [], z, i);
      assert v + a + [] + z == v + a + z;
    }
  }

  lemma NotPublished(parts: Parts, out: Outside)
    requires SpawnMonitor !in Active(parts, out)
    ensures forall e :: e in Active(parts, out) ==> !e.SetStatus?
  {
    SpawnInActive(parts, out);
    StartsOnly(parts, out, START_ORDER);
  }

  lemma {:induction false} Surrounded(before: seq<Event>, collected: seq<Report>, after: seq<Event>, t: seq<Event>)
    requires t == before + ([SpawnMonitor] + Statuses(collected) + [MonitorDone]) + after
    ensures var k := |before|;
            && k + |collected| + 1 < |t| && t[k] == SpawnMonitor && t[k + |collected| + 1] == MonitorDone
            && (forall i :: 0 <= i < k ==> t[i] == before[i])
            && (forall i :: k + |collected| + 1 < i < |t| ==> t[i] in after)
            && forall i :: 0 <= i < |collected| ==> Announces(t[k + 1 + i], collected[i])
  {
    var front := before + [SpawnMonitor] + Statuses(collected) + [MonitorDone];
    AllAnnounced(before, collected, front);
    assert t == front + after;
    assert forall i :: 0 <= i < |front| ==> t[i] == front[i];
  }

  /** Whenever the monitor publishes something, at any point of any interleaving, it is what it collected. */
  lemma MonitorAnnounces(s: State, s': State, report: Report)
    requires Published(s, s', report)
    ensures |s'.trace| == |s.trace| + 1 && s.trace == s'.trace[..|s.trace|]
    ensures Announces(s'.trace[|s.trace|], report) && s'.collected == s.collected + [report]
  {
  }

  /** The state in which the sequential Run ends, as one of the machine. */
  lemma EndState(parts: Parts, out: Outside) returns (s: State)
    ensures Inv(parts, out, s) && s.pc.Finished? && s.trace == RunTrace(parts, out)
  {
    s := State(Finished, if parts.Monitored() then Exited else NotSpawned, true, true, out.cancelledEarly,
               if parts.Monitored() then out.collected else [], RunTrace(parts, out));
    StartsSeen(parts, out, s, START_ORDER);
    assert Active(parts, Seen(out, s)) == Active(parts, out);
  }

  /** The attempt that failed is the one the error names. */
  lemma {:induction false} FailedAttempt(parts: Parts, out: Outside, cs: seq<Component>, c: Component)
    ensures FailedStart(parts, out, cs) == Some(c) <==> Start(c) in Starts(parts, out, cs) && out.startFails(c)
  {
    if cs != [] {
      FailedAttempt(parts, out, cs[1..], c);
    }
  }

  /** Every failure that happened is in the error Run returns, and nothing else. */
  lemma RunErrorsExact(parts: Parts, out: Outside, c: Component)
    ensures Validation in RunErrors(parts, out) <==> ValidationRefuses(parts, out)
    ensures StartFailed(c) in RunErrors(parts, out) <==> Start(c) in RunTrace(parts, out) && out.startFails(c)
    ensures StopFailed(c) in RunErrors(parts, out) <==> Stop(c) in RunTrace(parts, out) && out.stopFails(c)
  {
    AttemptsInTrace(parts, out, c);
    StartErrorsExact(parts, out, c);
    StopErrors(parts, out, c);
    EitherError(StartErrors(parts, out), ShutdownErrors(parts, out), Validation);
    EitherError(StartErrors(parts, out), ShutdownErrors(parts, out), StartFailed(c));
    EitherError(StartErrors(parts, out), ShutdownErrors(parts, out), StopFailed(c));
  }

  lemma EitherError(a: seq<RunError>, b: seq<RunError>, e: RunError)
    ensures e in a + b <==> e in a || e in b
  {
  }

  lemma StartErrorsExact(parts: Parts, out: Outside, c: Component)
    ensures StartFailed(c) in StartErrors(parts, out)
       <==> !out.cancelledEarly && Start(c) in Starts(parts, out, START_ORDER) && out.startFails(c)
    ensures forall e :: e in StartErrors(parts, out) ==> e.StartFailed?
  {
    FailedAttempt(parts, out, START_ORDER, c);
  }

  lemma AttemptsInTrace(parts: Parts, out: Outside, c: Component)
    ensures Start(c) in RunTrace(parts, out)
       <==> !ValidationRefuses(parts, out) && !out.cancelledEarly && Start(c) in Starts(parts, out, START_ORDER)
    ensures Stop(c) in RunTrace(parts, out) <==> !ValidationRefuses(parts, out) && parts.Has(c)
  {
    AttemptsInActive(parts, out, c);
    InShutdown(parts, c);
    Among(Validating(parts, out), Active(parts, out), Shutdown(parts), Start(c));
    Among(Validating(parts, out), Active(parts, out), Shutdown(parts), Stop(c));
  }

  lemma Among(a: seq<Event>, b: seq<Event>, c: seq<Event>, e: Event)
    ensures e in a + b + c <==> e in a || e in b || e in c
  {
  }

  lemma AttemptsInActive(parts: Parts, out: Outside, c: Component)
    ensures Start(c) in Active(parts, out) <==> !out.cancelledEarly && Start(c) in Starts(parts, out, START_ORDER)
    ensures Stop(c) !in Active(parts, out)
  {
    StartsOnly(parts, out, START_ORDER);
    StatusesOnly(out.collected);
    Among([SpawnMonitor], Statuses(out.collected), [MonitorDone], Start(c));
    Among([SpawnMonitor], Statuses(out.collected), [MonitorDone], Stop(c));
  }

  lemma InShutdown(parts: Parts, c: Component)
    ensures Stop(c) in Shutdown(parts) <==> parts.Has(c)
    ensures forall e :: e in Shutdown(parts) ==> e.Stop?
  {
    assert parts.Has(c) ==> Stop(c) in StopIf(parts, c);
  }

  lemma StopErrors(parts: Parts, out: Outside, c: Component)
    ensures StopFailed(c) in ShutdownErrors(parts, out) <==> parts.Has(c) && out.stopFails(c)
    ensures forall e :: e in ShutdownErrors(parts, out) ==> e.StopFailed?
  {
    assert parts.Has(c) && out.stopFails(c) ==> StopFailed(c) in StopErrorIf(parts, out, c);
  }

  /** A refused validation is the one exit that leaves the pool open. */
  lemma PoolLeftOpenExactly(parts: Parts, out: Outside, run: seq<State>)
    requires IsRun(parts, out, run) && run[|run| - 1].pc.Finished? && parts.clients
    ensures Stop(Clients) in run[|run| - 1].trace <==> !ValidationRefuses(parts, out)
  {
    FinishedClean(parts, out, run);
    assert multiset(run[|run| - 1].trace)[Stop(Clients)] > 0 ==> Stop(Clients) in run[|run| - 1].trace;
  }

  /** Once the context is cancelled Run or the monitor can always move on until Run is finished. */
  lemma NeverStuck(parts: Parts, out: Outside, run: seq<State>, i: nat) returns (s': State)
    requires IsRun(parts, out, run) && i < |run| && run[i].cancelled && !run[i].pc.Finished?
    ensures s' != run[i] && (RunStep(parts, out, run[i], s') || MonitorStep(run[i], s'))
  {
    var s := run[i];
    RunsKeep(parts, out, run, i);
    if s.pc.AwaitMonitor? && s.monitor.Selecting? {
      s' := s.(monitor := Exited, trace := s.trace + [MonitorDone]);
    } else if s.pc.AwaitMonitor? && s.monitor.Collecting? {
      s' := s.(monitor := Selecting, collected := s.collected + [out.report],
               trace := s.trace + [SetStatus(CollectionStatus(out.report))]);
      assert Published(s, s', out.report);
    } else {
      s' := AfterRun(parts, out, s);
    }
  }

  /** A run in which one of the watched tables cannot be used: it ends with the pool open. */
  lemma RefusedLeavesPoolOpen() returns (parts: Parts, out: Outside, run: seq<State>)
    ensures IsRun(parts, out, run) && run[|run| - 1].pc.Finished? && parts.clients
    ensures run[|run| - 1].trace == [SetStatus(Unavailable)]
  {
    parts := Parts(true, true, true, true, true);
    out := Outside(Report(1, 1, 0, []), true, false, c => false, c => false, []);
    var next := AfterRun(parts, out, Init());
    run := [Init(), next];
    assert Next(parts, out, Init(), next);
    assert [] + [SetStatus(Unavailable)] == [SetStatus(Unavailable)];
  }
}
