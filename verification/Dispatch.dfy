/**
 Admission of tiering legs (internal/tiering/dispatch.go): the single-flight map, the bytes in
 flight, the daily budget per node and the status snapshot the store publishes. Sums are taken
 in 64 bits, as the controller takes them.
 */
module Dispatch {
  const WORD: int := 0x1_0000_0000_0000_0000

  type uint64 = x: int | 0 <= x < WORD

  /** Addition that wraps around. */
  function Add64(a: uint64, b: uint64): uint64 {
    if a + b < WORD then a + b else a + b - WORD
  }

  /** The decisions that dispatch a write. */
  datatype Decision = Append | Consolidate | Optimize | Tier

  datatype Verdict = Verdict(
    node: string, database: string, table: string, partition: string, decision: Decision, bytes: uint64)

  datatype Source = Autonomous | Supervised

  datatype Leg = Leg(verdict: Verdict, source: Source)

  function FlightKey(v: Verdict): string {
    v.node + "/" + v.database + "/" + v.table + "/" + v.partition
  }

  datatype Limits = Limits(perNode: nat, bytesInFlight: uint64, bytesPerDay: uint64)

  datatype Status = Status(paused: bool, reason: string, bytesInFlight: uint64)

  // ---- sums over the single-flight map ----------------------------------------------------

  datatype Which = OnNode(node: string) | Dispatched | DispatchedOn(node: string)

  datatype Measure = Legs(which: Which) | Bytes(which: Which)

  predicate Picks(which: Which, leg: Leg) {
    match which
    case OnNode(node) => leg.verdict.node == node
    case Dispatched => leg.source.Autonomous?
    case DispatchedOn(node) => leg.source.Autonomous? && leg.verdict.node == node
  }

  function Weigh(measure: Measure, leg: Leg): nat {
    if !Picks(measure.which, leg) then 0
    else match measure
      case Legs(_) => 1
      case Bytes(_) => leg.verdict.bytes
  }

  ghost function SomeKey(legs: map<string, Leg>): (key: string)
    requires |legs| > 0
    ensures key in legs
  {
    var key :| key in legs;
    key
  }

  ghost function Sum(legs: map<string, Leg>, measure: Measure): nat
    decreases |legs|
  {
    if |legs| == 0 then 0
    else
      var key := SomeKey(legs);
      Weigh(measure, legs[key]) + Sum(legs - {key}, measure)
  }

  lemma Commute(legs: map<string, Leg>, a: string, b: string)
    requires a in legs && b in legs && a != b
    ensures legs - {a} - {b} == legs - {b} - {a}
    ensures b in legs - {a} && (legs - {a})[b] == legs[b] && a in legs - {b} && (legs - {b})[a] == legs[a]
    ensures |legs - {a}| < |legs| && |legs - {b}| < |legs|
  {
    assert (legs - {a}).Keys == legs.Keys - {a} && (legs - {b}).Keys == legs.Keys - {b};
  }

  /** The sum does not depend on the order in which the map is walked. */
  lemma {:induction false} SumWithout(legs: map<string, Leg>, measure: Measure, key: string)
    requires key in legs
    ensures Sum(legs, measure) == Weigh(measure, legs[key]) + Sum(legs - {key}, measure)
    decreases |legs|
  {
    var first := SomeKey(legs);
    if first != key {
      Commute(legs, first, key);
      SumWithout(legs - {first}, measure, key);
      SumWithout(legs - {key}, measure, first);
    }
  }

  lemma SumWith(legs: map<string, Leg>, measure: Measure, key: string, leg: Leg)
    requires key !in legs
    ensures Sum(legs[key := leg], measure) == Sum(legs, measure) + Weigh(measure, leg)
  {
    SumWithout(legs[key := leg], measure, key);
    assert legs[key := leg] - {key} == legs;
  }

  lemma ModAdd(s: nat, b: uint64)
    ensures Add64(s % WORD, b) == (s + b) % WORD
  {
  }

  lemma DayAdd(a: uint64, s: nat, b: uint64)
    ensures Add64(Add64(a, s % WORD), b) == (a + s + b) % WORD
  {
    ModAdd(s, a);
    ModAdd(s + a, b);
  }

  /** One step of a walk over the map. */
  lemma WalkStep(left: map<string, Leg>, node: string, key: string)
    requires key in left
    ensures Sum(left, Legs(OnNode(node)))
         == Sum(left - {key}, Legs(OnNode(node))) + if left[key].verdict.node == node then 1 else 0
    ensures Sum(left, Bytes(OnNode(node)))
         == Sum(left - {key}, Bytes(OnNode(node)))
            + if left[key].verdict.node == node then left[key].verdict.bytes else 0
    ensures |left - {key}| < |left|
  {
    SumWithout(left, Legs(OnNode(node)), key);
    SumWithout(left, Bytes(OnNode(node)), key);
    assert (left - {key}).Keys == left.Keys - {key};
  }

  /** The walk has `left` still before it, and has seen `count` legs and `seen` bytes on the node. */
  ghost predicate Walked(legs: map<string, Leg>, left: map<string, Leg>, node: string, count: nat, seen: nat) {
    && count + Sum(left, Legs(OnNode(node))) == Sum(legs, Legs(OnNode(node)))
    && seen + Sum(left, Bytes(OnNode(node))) == Sum(legs, Bytes(OnNode(node)))
  }

  lemma WalkKeeps(legs: map<string, Leg>, left: map<string, Leg>, node: string, count: nat, seen: nat, key: string)
    requires Walked(legs, left, node, count, seen) && key in left
    ensures |left - {key}| < |left|
    ensures if left[key].verdict.node == node
            then Walked(legs, left - {key}, node, count + 1, seen + left[key].verdict.bytes)
            else Walked(legs, left - {key}, node, count, seen)
  {
    WalkStep(left, node, key);
  }

  /** The walk over the map at the start of tryStart. */
  method NodeLoad(legs: map<string, Leg>, node: string) returns (count: nat, bytes: uint64)
    ensures count == Sum(legs, Legs(OnNode(node)))
    ensures bytes == Sum(legs, Bytes(OnNode(node))) % WORD
  {
    count, bytes := 0, 0;
    var left := legs;
    ghost var seen: nat := 0;
    while left.Keys != {}
      invariant Walked(legs, left, node, count, seen) && bytes == seen % WORD
      decreases |left|
    {
      var key :| key in left.Keys;
      WalkKeeps(legs, left, node, count, seen, key);
      if left[key].verdict.node == node {
        count := count + 1;
        ModAdd(seen, left[key].verdict.bytes);
        bytes := Add64(bytes, left[key].verdict.bytes);
        seen := seen + left[key].verdict.bytes;
      }
      left := left - {key};
    }
    assert |left.Keys| == 0;
  }

  // ---- the ledger -------------------------------------------------------------------------

  datatype Ledger = Ledger(
    inFlight: map<string, Leg>,
    bytesInFlight: uint64,
    moved: map<string, uint64>,
    day: map<string, string>,
    actionsLeft: int)

  function MovedBy(moved: map<string, uint64>, node: string): uint64 {
    if node in moved then moved[node] else 0
  }

  /** The node's tally starts again when the calendar day changes. */
  function Rolled(l: Ledger, node: string, today: string): Ledger {
    if node in l.day && l.day[node] == today then l
    else l.(day := l.day[node := today], moved := l.moved[node := 0])
  }

  predicate TooManyBytes(limits: Limits, l: Ledger, v: Verdict) {
    Add64(l.bytesInFlight, v.bytes) > limits.bytesInFlight
  }

  ghost predicate OverDay(limits: Limits, l: Ledger, v: Verdict) {
    (MovedBy(l.moved, v.node) + Sum(l.inFlight, Bytes(OnNode(v.node))) + v.bytes) % WORD > limits.bytesPerDay
  }

  function Admitted(l: Ledger, v: Verdict): Ledger {
    l.(inFlight := l.inFlight[FlightKey(v) := Leg(v, Autonomous)], bytesInFlight := Add64(l.bytesInFlight, v.bytes))
  }

  /** The checks made before the budget day is looked at. */
  ghost predicate Full(limits: Limits, l: Ledger, v: Verdict) {
    Sum(l.inFlight, Legs(OnNode(v.node))) >= limits.perNode || TooManyBytes(limits, l, v)
  }

  ghost predicate Admits(limits: Limits, l: Ledger, v: Verdict, today: string) {
    && !Full(limits, l, v)
    && !OverDay(limits, Rolled(l, v.node, today), v)
    && FlightKey(v) !in l.inFlight
  }

  ghost function AfterTry(limits: Limits, l: Ledger, v: Verdict, today: string): Ledger {
    if Full(limits, l, v) then l
    else if Admits(limits, l, v, today) then Admitted(Rolled(l, v.node, today), v)
    else Rolled(l, v.node, today)
  }

  function Charged(l: Ledger, v: Verdict): Ledger {
    if v.decision.Optimize? then l
    else l.(moved := l.moved[v.node := Add64(MovedBy(l.moved, v.node), v.bytes)])
  }

  function Freed(l: Ledger, v: Verdict): Ledger {
    l.(inFlight := l.inFlight - {FlightKey(v)},
       bytesInFlight := if l.bytesInFlight >= v.bytes then l.bytesInFlight - v.bytes else 0)
  }

  function CountedDown(l: Ledger): Ledger {
    if l.actionsLeft > 0 then l.(actionsLeft := l.actionsLeft - 1) else l
  }

  function AfterFinish(l: Ledger, v: Verdict, success: bool, today: string): Ledger {
    if success then CountedDown(Charged(Rolled(Freed(l, v), v.node, today), v)) else Freed(l, v)
  }

  /** The snapshot finish writes back; the last permitted action pauses. */
  function StatusAfterFinish(status: Status, before: Ledger, after: Ledger): Status {
    var shown := status.(bytesInFlight := after.bytesInFlight);
    if before.actionsLeft > 0 && after.actionsLeft == 0
    then shown.(paused := true, reason := "training-wheels")
    else shown
  }

  // ---- what the ledger does, in numbers -----------------------------------------------------

  lemma AddMod(a: uint64, b: uint64)
    ensures Add64(a, b) == (a + b) % WORD
  {
    ModAdd(a, b);
    assert a % WORD == a;
  }

  lemma TallyRolled(l: Ledger, node: string, today: string)
    ensures MovedBy(Rolled(l, node, today).moved, node)
         == if node in l.day && l.day[node] == today then MovedBy(l.moved, node) else 0
  {
  }

  /**
   A completion charges the node's day with the bytes of a successful move, and with nothing for
   an optimize or a failure; a new day starts at nothing; no other node is touched.
   */
  lemma FinishCharges(l: Ledger, v: Verdict, success: bool, today: string)
    ensures var after := AfterFinish(l, v, success, today);
            var m := if v.node in l.day && l.day[v.node] == today then MovedBy(l.moved, v.node) else 0;
            && (!success ==> after.moved == l.moved && after.day == l.day)
            && (success && v.decision != Optimize ==> MovedBy(after.moved, v.node) == (m + v.bytes) % WORD)
            && (success && v.decision == Optimize ==> MovedBy(after.moved, v.node) == m)
            && (success ==> v.node in after.day && after.day[v.node] == today)
            && (forall node: string :: node != v.node ==> MovedBy(after.moved, node) == MovedBy(l.moved, node))
            && (forall node: string :: node != v.node ==>
                  (node in after.day <==> node in l.day) && (node in l.day ==> after.day[node] == l.day[node]))
  {
    TallyRolled(Freed(l, v), v.node, today);
    AddMod(if v.node in l.day && l.day[v.node] == today then MovedBy(l.moved, v.node) else 0, v.bytes);
  }

  /** It takes the leg and its bytes out of flight, and a success uses up one of the permitted actions. */
  lemma FinishClears(l: Ledger, v: Verdict, success: bool, today: string)
    ensures var after := AfterFinish(l, v, success, today);
            && (forall key :: key in after.inFlight <==> key in l.inFlight && key != FlightKey(v))
            && (forall key :: key in after.inFlight ==> after.inFlight[key] == l.inFlight[key])
            && after.bytesInFlight == (if l.bytesInFlight >= v.bytes then l.bytesInFlight - v.bytes else 0)
            && after.actionsLeft == if success && l.actionsLeft > 0 then l.actionsLeft - 1 else l.actionsLeft
  {
  }

  /** The copy that a completion writes back pauses exactly when it used up the last permitted action. */
  lemma FinishPauses(status: Status, l: Ledger, v: Verdict, success: bool, today: string)
    ensures var after := AfterFinish(l, v, success, today);
            StatusAfterFinish(status, l, after)
            == if success && l.actionsLeft == 1 then Status(true, "training-wheels", after.bytesInFlight)
               else Status(status.paused, status.reason, after.bytesInFlight)
  {
  }

  lemma OverDayBy(limits: Limits, l: Ledger, v: Verdict, today: string, m: nat)
    requires m == if v.node in l.day && l.day[v.node] == today then MovedBy(l.moved, v.node) else 0
    ensures OverDay(limits, Rolled(l, v.node, today), v)
       <==> (m + Sum(l.inFlight, Bytes(OnNode(v.node))) + v.bytes) % WORD > limits.bytesPerDay
  {
    var r := Rolled(l, v.node, today);
    TallyRolled(l, v.node, today);
    assert MovedBy(r.moved, v.node) == m && r.inFlight == l.inFlight;
  }

  /**
   A leg is admitted exactly when its node has room for one more, the counter with it stays
   within the ceiling and the day's bytes with it and those in flight on the node within the
   day's budget, both as 64-bit sums, and the partition is not in flight.
   */
  lemma AdmitsExactly(limits: Limits, l: Ledger, v: Verdict, today: string, m: nat)
    requires m == if v.node in l.day && l.day[v.node] == today then MovedBy(l.moved, v.node) else 0
    ensures Admits(limits, l, v, today)
       <==> && Sum(l.inFlight, Legs(OnNode(v.node))) + 1 <= limits.perNode
            && (l.bytesInFlight + v.bytes) % WORD <= limits.bytesInFlight
            && (m + Sum(l.inFlight, Bytes(OnNode(v.node))) + v.bytes) % WORD <= limits.bytesPerDay
            && FlightKey(v) !in l.inFlight
  {
    AddMod(l.bytesInFlight, v.bytes);
    OverDayBy(limits, l, v, today, m);
  }

  /**
   What an attempt leaves behind: an admitted leg in flight and its bytes on the counter, and
   nothing of that otherwise. No tally grows; one is dropped only for the node whose day is new,
   and only if the node had room.
   */
  lemma TryBooks(limits: Limits, l: Ledger, v: Verdict, today: string)
    ensures var (after, ok) := (AfterTry(limits, l, v, today), Admits(limits, l, v, today));
            && after.inFlight == (if ok then l.inFlight[FlightKey(v) := Leg(v, Autonomous)] else l.inFlight)
            && after.bytesInFlight == (if ok then (l.bytesInFlight + v.bytes) % WORD else l.bytesInFlight)
            && after.actionsLeft == l.actionsLeft
            && (forall node: string :: node != v.node ==> MovedBy(after.moved, node) == MovedBy(l.moved, node))
            && (forall node: string :: node != v.node ==>
                  (node in after.day <==> node in l.day) && (node in l.day ==> after.day[node] == l.day[node]))
  {
    AddMod(l.bytesInFlight, v.bytes);
  }

  /** The node's day is looked at exactly when the node and the counter had room. */
  lemma TryRolls(limits: Limits, l: Ledger, v: Verdict, today: string)
    ensures var after := AfterTry(limits, l, v, today);
            if Sum(l.inFlight, Legs(OnNode(v.node))) >= limits.perNode
               || (l.bytesInFlight + v.bytes) % WORD > limits.bytesInFlight
            then after.moved == l.moved && after.day == l.day
            else && v.node in after.day && after.day[v.node] == today
                 && MovedBy(after.moved, v.node)
                    == if v.node in l.day && l.day[v.node] == today then MovedBy(l.moved, v.node) else 0
  {
    AddMod(l.bytesInFlight, v.bytes);
    TallyRolled(l, v.node, today);
  }

  // ---- the controller ---------------------------------------------------------------------

  /** The plan store's status, behind a mutex of its own. */
  class Store {
    var status: Status

    constructor ()
      ensures status == Status(false, "", 0)
    {
      status := Status(false, "", 0);
    }

    method Pause(reason: string)
      modifies this
      ensures status == old(status).(paused := true, reason := reason)
    {
      status := status.(paused := true, reason := reason);
    }

    method Resume()
      modifies this
      ensures status == old(status).(paused := false, reason := "")
    {
      status := status.(paused := false, reason := "");
    }
  }

  class Controller {
    const limits: Limits
    const store: Store
    var inFlight: map<string, Leg>
    var bytesInFlight: uint64
    var moved: map<string, uint64>
    var day: map<string, string>
    var actionsLeft: int

    ghost function Books(): Ledger
      reads this
    {
      Ledger(inFlight, bytesInFlight, moved, day, actionsLeft)
    }

    constructor (limits: Limits, actionsLeft: int)
      ensures this.limits == limits && fresh(store) && store.status == Status(false, "", 0)
      ensures Books() == Ledger(map[], 0, map[], map[], actionsLeft)
    {
      this.limits := limits;
      this.actionsLeft := actionsLeft;
      inFlight, bytesInFlight, moved, day := map[], 0, map[], map[];
      store := new Store();
    }

    method RollDailyBudget(node: string, today: string)
      modifies this
      ensures Books() == Rolled(old(Books()), node, today)
    {
      if node in day && day[node] == today {
        return;
      }
      day := day[node := today];
      moved := moved[node := 0];
    }

    method TryStart(v: Verdict, today: string) returns (ok: bool)
      modifies this, store
      ensures ok <==> Admits(limits, old(Books()), v, today)
      ensures Books() == AfterTry(limits, old(Books()), v, today)
      ensures store.status == if ok then old(store.status).(bytesInFlight := bytesInFlight) else old(store.status)
    {
      var count, bytes := NodeLoad(inFlight, v.node);
      if count >= limits.perNode {
        return false;
      }
      if Add64(bytesInFlight, v.bytes) > limits.bytesInFlight {
        return false;
      }
      var status := store.status;
      RollDailyBudget(v.node, today);
      var movedToday := MovedBy(moved, v.node);
      var wanted := Add64(Add64(movedToday, bytes), v.bytes);
      assert wanted > limits.bytesPerDay <==> OverDay(limits, Books(), v) by {
        DayAdd(movedToday, Sum(inFlight, Bytes(OnNode(v.node))), v.bytes);
      }
      if wanted > limits.bytesPerDay {
        return false;
      }
      if FlightKey(v) in inFlight {
        return false;
      }
      inFlight := inFlight[FlightKey(v) := Leg(v, Autonomous)];
      bytesInFlight := Add64(bytesInFlight, v.bytes);
      store.status := status.(bytesInFlight := bytesInFlight);
      return true;
    }

    method Finish(v: Verdict, success: bool, today: string)
      modifies this, store
      ensures Books() == AfterFinish(old(Books()), v, success, today)
      ensures store.status == StatusAfterFinish(old(store.status), old(Books()), Books())
    {
      inFlight := inFlight - {FlightKey(v)};
      if bytesInFlight >= v.bytes {
        bytesInFlight := bytesInFlight - v.bytes;
      } else {
        bytesInFlight := 0;
      }
      var status := store.status.(bytesInFlight := bytesInFlight);
      if success {
        RollDailyBudget(v.node, today);
        if v.decision != Optimize {
          moved := moved[v.node := Add64(MovedBy(moved, v.node), v.bytes)];
        }
        if actionsLeft > 0 {
          actionsLeft := actionsLeft - 1;
          if actionsLeft == 0 {
            status := status.(paused := true, reason := "training-wheels");
          }
        }
      }
      store.status := status;
    }

    /** The bytes already moved today, counted by the node itself, before its loops start. */
    method SeedNode(node: string, bytes: uint64, today: string)
      modifies this
      ensures Books() == old(Books()).(moved := old(moved)[node := bytes], day := old(day)[node := today])
    {
      moved := moved[node := bytes];
      day := day[node := today];
    }

    /** A leg a person asked for: in the map, but in none of the budgets. */
    method MarkSupervised(v: Verdict) returns (ok: bool)
      modifies this
      ensures ok <==> FlightKey(v) !in old(inFlight)
      ensures Books() == if ok
                         then old(Books()).(inFlight := old(inFlight)[FlightKey(v) := Leg(v, Supervised)])
                         else old(Books())
    {
      if FlightKey(v) in inFlight {
        return false;
      }
      inFlight := inFlight[FlightKey(v) := Leg(v, Supervised)];
      return true;
    }

    method UnmarkSupervised(v: Verdict)
      modifies this
      ensures Books() == old(Books()).(inFlight := old(inFlight) - {FlightKey(v)})
    {
      inFlight := inFlight - {FlightKey(v)};
    }
  }
}
