/**
 Admissions whose 64-bit sums wrap around: the counter and the day's budget are kept exactly
 when the sums fit, and a run in which they do not.
 */
module DispatchOverflow {
  import opened Dispatch
  import opened DispatchRuns

  /** An admission keeps the counter right exactly when the sum it takes stays below 2^64. */
  lemma AdmissionBalancesExactly(limits: Limits, l: Ledger, v: Verdict, today: string)
    requires BytesBalance(limits, l) && Admits(limits, l, v, today)
    ensures BytesBalance(limits, AfterTry(limits, l, v, today)) <==> l.bytesInFlight + v.bytes < WORD
  {
    Adding(l.inFlight, Leg(v, Autonomous), v.node);
  }

  /** In the same way the day's budget is kept exactly when its sum does, with only dispatched bytes on the node. */
  lemma AdmissionKeepsDayExactly(limits: Limits, l: Ledger, v: Verdict, today: string)
    requires NodeWithin(limits, l, v.node) && Admits(limits, l, v, today)
    requires Sum(l.inFlight, Bytes(OnNode(v.node))) == Sum(l.inFlight, Bytes(DispatchedOn(v.node)))
    ensures NodeWithin(limits, AfterTry(limits, l, v, today), v.node) <==> DaySum(l, v, today) < WORD
  {
    AdmittedSums(limits, l, v, today);
  }

  /** Supervised bytes on the node are in the sum but in no budget, so then one direction is left. */
  lemma AdmissionKeepsDay(limits: Limits, l: Ledger, v: Verdict, today: string)
    requires NodeWithin(limits, l, v.node) && Admits(limits, l, v, today) && DaySum(l, v, today) < WORD
    ensures NodeWithin(limits, AfterTry(limits, l, v, today), v.node)
  {
    AdmittedSums(limits, l, v, today);
    DispatchedBelow(l.inFlight, v.node);
  }

  lemma AdmittedSums(limits: Limits, l: Ledger, v: Verdict, today: string)
    requires Admits(limits, l, v, today)
    ensures var (l', node) := (AfterTry(limits, l, v, today), v.node);
            && l'.moved == Rolled(l, node, today).moved
            && Sum(l'.inFlight, Legs(DispatchedOn(node)))
               == Sum(l.inFlight, Legs(DispatchedOn(node))) + 1 <= limits.perNode
            && Sum(l'.inFlight, Bytes(DispatchedOn(node))) == Sum(l.inFlight, Bytes(DispatchedOn(node))) + v.bytes
            && (DaySum(l, v, today) < WORD ==> DaySum(l, v, today) <= limits.bytesPerDay)
  {
    RollKeepsRest(l, v.node, today);
    Adding(l.inFlight, Leg(v, Autonomous), v.node);
    DispatchedBelow(l.inFlight, v.node);
  }

  const TEN: Limits := Limits(2, 10, 10)

  lemma SecondAdmitted(l: Ledger, v: Verdict, w: Verdict, today: string)
    requires v.node == w.node && FlightKey(v) != FlightKey(w) && v.bytes == 10 && w.bytes == WORD - 5
    requires l.inFlight == map[FlightKey(v) := Leg(v, Autonomous)] && l.bytesInFlight == 10
    requires MovedBy(Rolled(l, w.node, today).moved, w.node) == 0
    ensures Admits(TEN, l, w, today)
  {
    assert !Full(TEN, l, w) by {
      OneLeg(Leg(v, Autonomous), Legs(OnNode(w.node)));
    }
    assert !OverDay(TEN, Rolled(l, w.node, today), w) by {
      OneLeg(Leg(v, Autonomous), Bytes(OnNode(w.node)));
      assert Sum(l.inFlight, Bytes(OnNode(w.node))) == 10;
    }
    assert FlightKey(w) !in l.inFlight;
  }

  lemma SecondWraps(l: Ledger, v: Verdict, w: Verdict)
    requires FlightKey(v) != FlightKey(w) && v.bytes == 10 && w.bytes == WORD - 5
    requires l.inFlight == map[FlightKey(v) := Leg(v, Autonomous)] && l.bytesInFlight == 10
    ensures Admitted(l, w).bytesInFlight == 5 && Sum(Admitted(l, w).inFlight, Bytes(Dispatched)) == WORD + 5
  {
    OneLeg(Leg(v, Autonomous), Bytes(Dispatched));
    SumWith(l.inFlight, Bytes(Dispatched), FlightKey(w), Leg(w, Autonomous));
  }

  lemma SecondBreaksDay(l: Ledger, v: Verdict, w: Verdict)
    requires v.node == w.node && FlightKey(v) != FlightKey(w) && v.bytes == 10 && w.bytes == WORD - 5
    requires l.inFlight == map[FlightKey(v) := Leg(v, Autonomous)]
    ensures !NodeWithin(TEN, Admitted(l, w), v.node)
  {
    var node := v.node;
    OneLeg(Leg(v, Autonomous), Legs(DispatchedOn(node)));
    OneLeg(Leg(v, Autonomous), Bytes(DispatchedOn(node)));
    SumWith(l.inFlight, Legs(DispatchedOn(node)), FlightKey(w), Leg(w, Autonomous));
    SumWith(l.inFlight, Bytes(DispatchedOn(node)), FlightKey(w), Leg(w, Autonomous));
  }

  /**
   Two admissions from a fresh controller, of two partitions of a table: the second one's sum
   wraps to 5 and passes, under the ceiling and under the day's budget.
   */
  lemma WrapBreaksCeiling(v: Verdict, w: Verdict, today: string, n: int) returns (run: seq<State>, actions: seq<Action>)
    requires v.node == w.node && FlightKey(v) != FlightKey(w) && v.bytes == 10 && w.bytes == WORD - 5
    ensures IsRun(TEN, run, actions) && run[0] == Start(n)
            && actions == [TryStart(v, today), WriteBack, TryStart(w, today)]
    ensures var l := run[3].books;
            l.bytesInFlight == 5 && Sum(l.inFlight, Bytes(Dispatched)) == WORD + 5 && !NodeWithin(TEN, l, v.node)
  {
    actions := [TryStart(v, today), WriteBack, TryStart(w, today)];
    FirstAdmitted(TEN, v, today, n);
    var s1 := After(TEN, Start(n), actions[0]);
    var s2 := After(TEN, s1, actions[1]);
    SecondAdmitted(s2.books, v, w, today);
    SecondWraps(Rolled(s2.books, w.node, today), v, w);
    SecondBreaksDay(Rolled(s2.books, w.node, today), v, w);
    run := [Start(n), s1, s2, After(TEN, s2, actions[2])];
  }

  lemma OneLeg(leg: Leg, measure: Measure)
    ensures Sum(map[FlightKey(leg.verdict) := leg], measure) == Weigh(measure, leg)
  {
    SumWith(map[], measure, FlightKey(leg.verdict), leg);
    assert map[][FlightKey(leg.verdict) := leg] == map[FlightKey(leg.verdict) := leg];
  }
}
