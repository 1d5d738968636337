/**
 The controller's calls as they interleave with each other and with the operator. The
 controller's mutex serialises the calls, but the store has a mutex of its own: between the
 moment a call reads the status and the moment it writes its changed copy back, an operator's
 pause or resume can land. A call that publishes is therefore two steps, with the copy held in
 between. The foreign-mover guard of a table reads the status, counts under the controller's
 mutex, and may resume afterwards: three steps.
 */
module DispatchRuns {
  import opened Wrappers
  import opened Dispatch

  datatype State = State(
    books: Ledger,
    legs: set<Leg>,        // the goroutines that are executing a leg
    status: Status,
    held: Option<Status>,  // the copy a call is about to write back
    guards: map<string, Guard>,
    clean: map<string, nat>) // clean ticks seen by each table's guard

  /** A table's guard after its scan found nothing: what it saw of the status, or about to resume. */
  datatype Guard = Idle | Saw(foreign: bool) | Resuming

  const FOREIGN := "foreign-mover"

  function GuardOf(s: State, table: string): Guard {
    if table in s.guards then s.guards[table] else Idle
  }

  function CleanOf(s: State, table: string): nat {
    if table in s.clean then s.clean[table] else 0
  }

  function Start(actionsLeft: int): State {
    State(Ledger(map[], 0, map[], map[], actionsLeft), {}, Status(false, "", 0), None, map[], map[])
  }

  datatype Action =
    | TryStart(v: Verdict, today: string)
    | WriteBack
    | Finish(leg: Leg, success: bool, today: string)
    | Mark(v: Verdict)
    | Unmark(leg: Leg)
    | Seed(node: string, bytes: uint64, today: string)
    | Pause(reason: string)
    | Resume
    | GuardPause(reason: string)
    | GuardSee(table: string)
    | GuardCount(table: string)
    | GuardResume(table: string)

  /** Everything but the store's own operations needs the controller's mutex. */
  ghost predicate Enabled(s: State, a: Action) {
    match a
    case TryStart(_, _) => s.held.None?
    case WriteBack => s.held.Some?
    case Finish(leg, _, _) => s.held.None? && leg in s.legs && leg.source.Autonomous?
    case Mark(_) => s.held.None?
    case Unmark(leg) => s.held.None? && leg in s.legs && leg.source.Supervised?
    case Seed(node, _, _) => s.held.None? && Sum(s.books.inFlight, Legs(DispatchedOn(node))) == 0
    case Pause(_) => true
    case Resume => true
    case GuardPause(_) => true
    case GuardSee(table) => GuardOf(s, table).Idle?
    case GuardCount(table) => s.held.None? && GuardOf(s, table).Saw?
    case GuardResume(table) => GuardOf(s, table).Resuming?
  }

  ghost function After(limits: Limits, s: State, a: Action): State
    requires Enabled(s, a)
  {
    match a
    case TryStart(v, today) =>
      var books := AfterTry(limits, s.books, v, today);
      if Admits(limits, s.books, v, today)
      then s.(books := books, legs := s.legs + {Leg(v, Autonomous)},
              held := Some(s.status.(bytesInFlight := books.bytesInFlight)))
      else s.(books := books)
    case WriteBack => s.(status := s.held.value, held := None)
    case Finish(leg, success, today) =>
      var books := AfterFinish(s.books, leg.verdict, success, today);
      s.(books := books, legs := s.legs - {leg}, held := Some(StatusAfterFinish(s.status, s.books, books)))
    case Mark(v) =>
      if FlightKey(v) in s.books.inFlight then s
      else s.(books := s.books.(inFlight := s.books.inFlight[FlightKey(v) := Leg(v, Supervised)]),
              legs := s.legs + {Leg(v, Supervised)})
    case Unmark(leg) =>
      s.(books := s.books.(inFlight := s.books.inFlight - {FlightKey(leg.verdict)}), legs := s.legs - {leg})
    case Seed(node, bytes, today) =>
      s.(books := s.books.(moved := s.books.moved[node := bytes], day := s.books.day[node := today]),
         held := Some(s.status))
    case Pause(reason) => s.(status := Stopped(s.status, reason))
    case Resume => s.(status := Running(s.status))
    case GuardPause(reason) => s.(status := Stopped(s.status, reason))
    case GuardSee(table) => s.(guards := s.guards[table := Saw(s.status.reason == FOREIGN)])
    case GuardCount(table) => Counted(s, table, if s.guards[table].foreign then CleanOf(s, table) + 1 else 0)
    case GuardResume(table) => s.(status := Running(s.status), guards := s.guards[table := Idle])
  }

  function Stopped(status: Status, reason: string): Status {
    status.(paused := true, reason := reason)
  }

  function Running(status: Status): Status {
    status.(paused := false, reason := "")
  }

  /** The second clean tick in a row makes the guard resume. */
  function Counted(s: State, table: string, ticks: nat): State {
    s.(clean := s.clean[table := ticks], guards := s.guards[table := if ticks >= 2 then Resuming else Idle])
  }

  /** The sum that is compared with the day's budget, before it is cut to 64 bits. */
  ghost function DaySum(l: Ledger, v: Verdict, today: string): nat {
    MovedBy(Rolled(l, v.node, today).moved, v.node) + Sum(l.inFlight, Bytes(OnNode(v.node))) + v.bytes
  }

  /** The sums an admission takes stay below 2^64. */
  ghost predicate Fits(s: State, a: Action) {
    a.TryStart? ==>
      && s.books.bytesInFlight + a.v.bytes < WORD
      && DaySum(s.books, a.v, a.today) < WORD
  }

  ghost predicate IsRun(limits: Limits, run: seq<State>, actions: seq<Action>) {
    && |run| == |actions| + 1
    && forall i :: 0 <= i < |actions| ==> Enabled(run[i], actions[i]) && run[i + 1] == After(limits, run[i], actions[i])
  }

  // ---- what every run keeps ---------------------------------------------------------------

  /** The map holds exactly the executing legs, each under its own key: one leg a partition. */
  ghost predicate SingleFlight(legs: set<Leg>, inFlight: map<string, Leg>) {
    && (forall leg :: leg in legs ==> FlightKey(leg.verdict) in inFlight && inFlight[FlightKey(leg.verdict)] == leg)
    && (forall key :: key in inFlight ==> inFlight[key] in legs && FlightKey(inFlight[key].verdict) == key)
  }

  /** The byte counter is what the dispatched legs add up to, and within the ceiling. */
  ghost predicate BytesBalance(limits: Limits, l: Ledger) {
    Sum(l.inFlight, Bytes(Dispatched)) == l.bytesInFlight <= limits.bytesInFlight
  }

  /**
   The dispatched legs on a node are within its cap, and while there is one, finishing them all
   stays within the day's budget.
   */
  ghost predicate NodeWithin(limits: Limits, l: Ledger, node: string) {
    && Sum(l.inFlight, Legs(DispatchedOn(node))) <= limits.perNode
    && (Sum(l.inFlight, Legs(DispatchedOn(node))) > 0 ==>
          MovedBy(l.moved, node) + Sum(l.inFlight, Bytes(DispatchedOn(node))) <= limits.bytesPerDay)
  }

  ghost predicate WithinLimits(limits: Limits, l: Ledger) {
    BytesBalance(limits, l) && forall node: string :: NodeWithin(limits, l, node)
  }

  /** Whenever no call is between its read and its write the store shows the byte counter. */
  ghost predicate Shown(s: State) {
    (if s.held.Some? then s.held.value else s.status).bytesInFlight == s.books.bytesInFlight
  }

  ghost predicate Sound(limits: Limits, s: State) {
    SingleFlight(s.legs, s.books.inFlight) && WithinLimits(limits, s.books) && Shown(s)
  }

  // ---- arithmetic on the map --------------------------------------------------------------

  /** Dispatched legs on a node are among the legs on it. */
  lemma {:induction false} DispatchedBelow(legs: map<string, Leg>, node: string)
    ensures Sum(legs, Bytes(DispatchedOn(node))) <= Sum(legs, Bytes(OnNode(node)))
    ensures Sum(legs, Legs(DispatchedOn(node))) <= Sum(legs, Legs(OnNode(node)))
    decreases |legs|
  {
    if |legs| > 0 {
      var key := SomeKey(legs);
      assert (legs - {key}).Keys == legs.Keys - {key};
      DispatchedBelow(legs - {key}, node);
      SumWithout(legs, Bytes(DispatchedOn(node)), key);
      SumWithout(legs, Bytes(OnNode(node)), key);
      SumWithout(legs, Legs(DispatchedOn(node)), key);
      SumWithout(legs, Legs(OnNode(node)), key);
    }
  }

  /** What a leg adds to the sums, and takes away again. */
  lemma Adding(legs: map<string, Leg>, leg: Leg, node: string)
    requires FlightKey(leg.verdict) !in legs
    ensures var more := legs[FlightKey(leg.verdict) := leg];
            && Sum(more, Bytes(Dispatched)) == Sum(legs, Bytes(Dispatched)) + Weigh(Bytes(Dispatched), leg)
            && Sum(more, Bytes(DispatchedOn(node)))
               == Sum(legs, Bytes(DispatchedOn(node))) + Weigh(Bytes(DispatchedOn(node)), leg)
            && Sum(more, Legs(DispatchedOn(node)))
               == Sum(legs, Legs(DispatchedOn(node))) + Weigh(Legs(DispatchedOn(node)), leg)
  {
    SumWith(legs, Bytes(Dispatched), FlightKey(leg.verdict), leg);
    SumWith(legs, Bytes(DispatchedOn(node)), FlightKey(leg.verdict), leg);
    SumWith(legs, Legs(DispatchedOn(node)), FlightKey(leg.verdict), leg);
  }

  lemma Removing(legs: map<string, Leg>, leg: Leg, node: string)
    requires FlightKey(leg.verdict) in legs && legs[FlightKey(leg.verdict)] == leg
    ensures var fewer := legs - {FlightKey(leg.verdict)};
            && Sum(fewer, Bytes(Dispatched)) == Sum(legs, Bytes(Dispatched)) - Weigh(Bytes(Dispatched), leg)
            && Sum(fewer, Bytes(DispatchedOn(node)))
               == Sum(legs, Bytes(DispatchedOn(node))) - Weigh(Bytes(DispatchedOn(node)), leg)
            && Sum(fewer, Legs(DispatchedOn(node)))
               == Sum(legs, Legs(DispatchedOn(node))) - Weigh(Legs(DispatchedOn(node)), leg)
  {
    SumWithout(legs, Bytes(Dispatched), FlightKey(leg.verdict));
    SumWithout(legs, Bytes(DispatchedOn(node)), FlightKey(leg.verdict));
    SumWithout(legs, Legs(DispatchedOn(node)), FlightKey(leg.verdict));
  }

  // ---- one step ---------------------------------------------------------------------------

  lemma FlightAdds(legs: set<Leg>, inFlight: map<string, Leg>, leg: Leg)
    requires SingleFlight(legs, inFlight) && FlightKey(leg.verdict) !in inFlight
    ensures SingleFlight(legs + {leg}, inFlight[FlightKey(leg.verdict) := leg]) && leg !in legs
  {
  }

  lemma FlightRemoves(legs: set<Leg>, inFlight: map<string, Leg>, leg: Leg)
    requires SingleFlight(legs, inFlight) && leg in legs
    ensures SingleFlight(legs - {leg}, inFlight - {FlightKey(leg.verdict)})
  {
  }

  /** A new budget day leaves more room. */
  lemma RollKeeps(limits: Limits, l: Ledger, who: string, today: string)
    requires WithinLimits(limits, l)
    ensures WithinLimits(limits, Rolled(l, who, today))
  {
    var l' := Rolled(l, who, today);
    forall node: string
      ensures NodeWithin(limits, l', node)
    {
      assert NodeWithin(limits, l, node);
    }
  }

  lemma AdmitKeepsNode(limits: Limits, l: Ledger, v: Verdict, node: string)
    requires NodeWithin(limits, l, node) && FlightKey(v) !in l.inFlight
    requires Sum(l.inFlight, Legs(OnNode(v.node))) < limits.perNode
    requires MovedBy(l.moved, v.node) + Sum(l.inFlight, Bytes(OnNode(v.node))) + v.bytes <= limits.bytesPerDay
    ensures NodeWithin(limits, Admitted(l, v), node)
  {
    Adding(l.inFlight, Leg(v, Autonomous), node);
    DispatchedBelow(l.inFlight, v.node);
  }

  lemma AdmitBalances(limits: Limits, l: Ledger, v: Verdict)
    requires BytesBalance(limits, l) && FlightKey(v) !in l.inFlight && l.bytesInFlight + v.bytes <= limits.bytesInFlight
    ensures BytesBalance(limits, Admitted(l, v))
  {
    SumWith(l.inFlight, Bytes(Dispatched), FlightKey(v), Leg(v, Autonomous));
  }

  lemma AdmitKeeps(limits: Limits, l: Ledger, v: Verdict)
    requires WithinLimits(limits, l) && FlightKey(v) !in l.inFlight
    requires Sum(l.inFlight, Legs(OnNode(v.node))) < limits.perNode
    requires MovedBy(l.moved, v.node) + Sum(l.inFlight, Bytes(OnNode(v.node))) + v.bytes <= limits.bytesPerDay
    requires l.bytesInFlight + v.bytes <= limits.bytesInFlight
    ensures WithinLimits(limits, Admitted(l, v))
  {
    AdmitBalances(limits, l, v);
    forall node: string
      ensures NodeWithin(limits, Admitted(l, v), node)
    {
      AdmitKeepsNode(limits, l, v, node);
    }
  }

  lemma RollKeepsRest(l: Ledger, who: string, today: string)
    ensures Rolled(l, who, today).inFlight == l.inFlight && Rolled(l, who, today).bytesInFlight == l.bytesInFlight
    ensures MovedBy(Rolled(l, who, today).moved, who) <= MovedBy(l.moved, who)
  {
  }

  /** An admission whose sums fit 64 bits really is within cap, ceiling and budget. */
  lemma AdmittedWithin(limits: Limits, l: Ledger, v: Verdict, today: string)
    requires Admits(limits, l, v, today) && l.bytesInFlight + v.bytes < WORD
    requires DaySum(l, v, today) < WORD
    ensures var rolled := Rolled(l, v.node, today);
            && Sum(rolled.inFlight, Legs(OnNode(v.node))) < limits.perNode
            && MovedBy(rolled.moved, v.node) + Sum(rolled.inFlight, Bytes(OnNode(v.node))) + v.bytes
               <= limits.bytesPerDay
            && rolled.bytesInFlight + v.bytes <= limits.bytesInFlight
  {
    RollKeepsRest(l, v.node, today);
  }

  lemma AfterTryKeeps(limits: Limits, l: Ledger, v: Verdict, today: string)
    requires WithinLimits(limits, l) && l.bytesInFlight + v.bytes < WORD
    requires DaySum(l, v, today) < WORD
    ensures WithinLimits(limits, AfterTry(limits, l, v, today))
  {
    RollKeeps(limits, l, v.node, today);
    if Admits(limits, l, v, today) {
      AdmittedWithin(limits, l, v, today);
      RollKeepsRest(l, v.node, today);
      AdmitKeeps(limits, Rolled(l, v.node, today), v);
    }
  }

  lemma TryFlight(limits: Limits, s: State, v: Verdict, today: string)
    requires SingleFlight(s.legs, s.books.inFlight) && Shown(s) && s.held.None?
    ensures var s' := After(limits, s, TryStart(v, today)); SingleFlight(s'.legs, s'.books.inFlight) && Shown(s')
  {
    RollKeepsRest(s.books, v.node, today);
    if Admits(limits, s.books, v, today) {
      FlightAdds(s.legs, s.books.inFlight, Leg(v, Autonomous));
    }
  }

  lemma TryKeeps(limits: Limits, s: State, v: Verdict, today: string)
    requires Sound(limits, s) && s.held.None? && Fits(s, TryStart(v, today))
    ensures Sound(limits, After(limits, s, TryStart(v, today)))
  {
    AfterTryKeeps(limits, s.books, v, today);
    TryFlight(limits, s, v, today);
  }

  /** A leg that finishes was counted: the branch that resets a too small counter is never taken. */
  lemma FinishedWasCounted(limits: Limits, s: State, leg: Leg)
    requires Sound(limits, s) && leg in s.legs && leg.source.Autonomous?
    ensures s.books.bytesInFlight >= leg.verdict.bytes
  {
    Removing(s.books.inFlight, leg, leg.verdict.node);
  }

  lemma FinishKeepsNode(limits: Limits, l: Ledger, leg: Leg, node: string)
    requires NodeWithin(limits, l, node) && leg.source.Autonomous?
    requires FlightKey(leg.verdict) in l.inFlight && l.inFlight[FlightKey(leg.verdict)] == leg
    ensures NodeWithin(limits, Freed(l, leg.verdict), node)
    ensures NodeWithin(limits, Charged(Freed(l, leg.verdict), leg.verdict), node)
  {
    Removing(l.inFlight, leg, node);
  }

  lemma FinishedKeeps(limits: Limits, l: Ledger, leg: Leg)
    requires WithinLimits(limits, l) && leg.source.Autonomous?
    requires FlightKey(leg.verdict) in l.inFlight && l.inFlight[FlightKey(leg.verdict)] == leg
    ensures WithinLimits(limits, Freed(l, leg.verdict))
    ensures WithinLimits(limits, Charged(Freed(l, leg.verdict), leg.verdict))
  {
    Removing(l.inFlight, leg, leg.verdict.node);
    forall node: string
      ensures NodeWithin(limits, Freed(l, leg.verdict), node)
              && NodeWithin(limits, Charged(Freed(l, leg.verdict), leg.verdict), node)
    {
      FinishKeepsNode(limits, l, leg, node);
    }
  }

  lemma CountingKeeps(limits: Limits, l: Ledger)
    requires WithinLimits(limits, l)
    ensures WithinLimits(limits, CountedDown(l))
  {
    forall node: string
      ensures NodeWithin(limits, CountedDown(l), node)
    {
      assert NodeWithin(limits, l, node);
    }
  }

  lemma AfterFinishKeeps(limits: Limits, l: Ledger, leg: Leg, success: bool, today: string)
    requires WithinLimits(limits, l) && leg.source.Autonomous?
    requires FlightKey(leg.verdict) in l.inFlight && l.inFlight[FlightKey(leg.verdict)] == leg
    ensures WithinLimits(limits, AfterFinish(l, leg.verdict, success, today))
  {
    var v := leg.verdict;
    FinishedKeeps(limits, l, leg);
    if success {
      RollKeeps(limits, l, v.node, today);
      FinishedKeeps(limits, Rolled(l, v.node, today), leg);
      assert Rolled(Freed(l, v), v.node, today) == Freed(Rolled(l, v.node, today), v);
      CountingKeeps(limits, Charged(Rolled(Freed(l, v), v.node, today), v));
    }
  }

  lemma FinishFrees(l: Ledger, v: Verdict, success: bool, today: string)
    ensures AfterFinish(l, v, success, today).inFlight == l.inFlight - {FlightKey(v)}
  {
  }

  lemma FinishShows(limits: Limits, s: State, leg: Leg, success: bool, today: string)
    requires Enabled(s, Finish(leg, success, today))
    ensures Shown(After(limits, s, Finish(leg, success, today)))
  {
  }

  lemma FinishKeeps(limits: Limits, s: State, leg: Leg, success: bool, today: string)
    requires Sound(limits, s) && Enabled(s, Finish(leg, success, today))
    ensures Sound(limits, After(limits, s, Finish(leg, success, today)))
  {
    FinishShows(limits, s, leg, success, today);
    FinishFlight(limits, s, leg, success, today);
    AfterFinishKeeps(limits, s.books, leg, success, today);
  }

  lemma FinishFlight(limits: Limits, s: State, leg: Leg, success: bool, today: string)
    requires SingleFlight(s.legs, s.books.inFlight) && Enabled(s, Finish(leg, success, today))
    ensures var s' := After(limits, s, Finish(leg, success, today)); SingleFlight(s'.legs, s'.books.inFlight)
  {
    FlightRemoves(s.legs, s.books.inFlight, leg);
    FinishFrees(s.books, leg.verdict, success, today);
  }

  lemma SameSums(limits: Limits, l: Ledger, inFlight: map<string, Leg>)
    requires WithinLimits(limits, l) && Sum(inFlight, Bytes(Dispatched)) == Sum(l.inFlight, Bytes(Dispatched))
    requires forall node: string :: Sum(inFlight, Legs(DispatchedOn(node))) == Sum(l.inFlight, Legs(DispatchedOn(node)))
    requires forall node: string ::
               Sum(inFlight, Bytes(DispatchedOn(node))) == Sum(l.inFlight, Bytes(DispatchedOn(node)))
    ensures WithinLimits(limits, l.(inFlight := inFlight))
  {
    forall node: string
      ensures NodeWithin(limits, l.(inFlight := inFlight), node)
    {
      assert NodeWithin(limits, l, node);
    }
  }

  /** A supervised leg is in none of the dispatch sums. */
  lemma MarkKeeps(limits: Limits, l: Ledger, leg: Leg)
    requires WithinLimits(limits, l) && leg.source.Supervised? && FlightKey(leg.verdict) !in l.inFlight
    ensures WithinLimits(limits, l.(inFlight := l.inFlight[FlightKey(leg.verdict) := leg]))
  {
    forall node: string {
      Adding(l.inFlight, leg, node);
    }
    Adding(l.inFlight, leg, leg.verdict.node);
    SameSums(limits, l, l.inFlight[FlightKey(leg.verdict) := leg]);
  }

  lemma UnmarkKeeps(limits: Limits, l: Ledger, leg: Leg)
    requires WithinLimits(limits, l) && leg.source.Supervised?
    requires FlightKey(leg.verdict) in l.inFlight && l.inFlight[FlightKey(leg.verdict)] == leg
    ensures WithinLimits(limits, l.(inFlight := l.inFlight - {FlightKey(leg.verdict)}))
  {
    forall node: string {
      Removing(l.inFlight, leg, node);
    }
    Removing(l.inFlight, leg, leg.verdict.node);
    SameSums(limits, l, l.inFlight - {FlightKey(leg.verdict)});
  }

  lemma SeedKeeps(limits: Limits, l: Ledger, who: string, bytes: uint64, today: string)
    requires WithinLimits(limits, l) && Sum(l.inFlight, Legs(DispatchedOn(who))) == 0
    ensures WithinLimits(limits, l.(moved := l.moved[who := bytes], day := l.day[who := today]))
  {
    var l' := l.(moved := l.moved[who := bytes], day := l.day[who := today]);
    forall node: string
      ensures NodeWithin(limits, l', node)
    {
      assert NodeWithin(limits, l, node);
    }
  }

  lemma StepKeeps(limits: Limits, s: State, a: Action)
    requires Sound(limits, s) && Enabled(s, a) && Fits(s, a)
    ensures Sound(limits, After(limits, s, a))
  {
    match a {
      case TryStart(v, today) => TryKeeps(limits, s, v, today);
      case Finish(leg, success, today) => FinishKeeps(limits, s, leg, success, today);
      case Mark(v) =>
        if FlightKey(v) !in s.books.inFlight {
          MarkKeeps(limits, s.books, Leg(v, Supervised));
          FlightAdds(s.legs, s.books.inFlight, Leg(v, Supervised));
        }
      case Unmark(leg) =>
        UnmarkKeeps(limits, s.books, leg);
        FlightRemoves(s.legs, s.books.inFlight, leg);
      case Seed(node, bytes, today) => SeedKeeps(limits, s.books, node, bytes, today);
      case _ =>
    }
  }

  // ---- whole runs -------------------------------------------------------------------------

  lemma StartSound(limits: Limits, n: int)
    ensures Sound(limits, Start(n))
  {
    var l := Start(n).books;
    assert Sum(l.inFlight, Bytes(Dispatched)) == 0;
    forall node: string
      ensures NodeWithin(limits, l, node)
    {
      assert Sum(l.inFlight, Legs(DispatchedOn(node))) == 0;
    }
  }

  lemma {:induction false} SoundAt(limits: Limits, run: seq<State>, actions: seq<Action>, n: int, i: nat)
    requires IsRun(limits, run, actions) && run[0] == Start(n) && i < |run|
    requires forall j :: 0 <= j < |actions| ==> Fits(run[j], actions[j])
    ensures Sound(limits, run[i])
  {
    if i == 0 {
      StartSound(limits, n);
    } else {
      SoundAt(limits, run, actions, n, i - 1);
      assert run[i - 1 + 1] == After(limits, run[i - 1], actions[i - 1]);
      StepKeeps(limits, run[i - 1], actions[i - 1]);
    }
  }

  /**
   Over every run whose sums fit 64 bits: the in-flight map is exactly the executing legs, one a
   partition; the counter is exactly their bytes and within the ceiling; each node stays within
   its cap and its budget; and the store shows the counter.
   */
  lemma RunsStaySound(limits: Limits, run: seq<State>, actions: seq<Action>, n: int)
    requires IsRun(limits, run, actions) && run[0] == Start(n)
    requires forall i :: 0 <= i < |actions| ==> Fits(run[i], actions[i])
    ensures forall i :: 0 <= i < |run| ==> Sound(limits, run[i])
  {
    forall i | 0 <= i < |run|
      ensures Sound(limits, run[i])
    {
      SoundAt(limits, run, actions, n, i);
    }
  }

  /** A fresh controller admits anything within its limits. */
  lemma FirstAdmitted(limits: Limits, v: Verdict, today: string, n: int)
    requires limits.perNode > 0 && v.bytes <= limits.bytesInFlight && v.bytes <= limits.bytesPerDay
    ensures Admits(limits, Start(n).books, v, today)
    ensures After(limits, Start(n), TryStart(v, today)).books.inFlight == map[FlightKey(v) := Leg(v, Autonomous)]
  {
    var l := Start(n).books;
    assert Sum(l.inFlight, Legs(OnNode(v.node))) == 0 && Sum(l.inFlight, Bytes(OnNode(v.node))) == 0;
    assert !TooManyBytes(limits, l, v);
    assert !OverDay(limits, Rolled(l, v.node, today), v);
  }
}
