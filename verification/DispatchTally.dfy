/**
 The daily tally over whole runs: what a node is charged with is what its successful moves since
 its day began add up to, and the seed if that is what the day began with.
 */
module DispatchTally {
  import opened Wrappers
  import opened Dispatch
  import opened DispatchRuns

  /** What an action adds to the node's day: the bytes of a leg that moved them, optimizes left out. */
  function Charge(a: Action, node: string): uint64 {
    match a
    case Finish(leg, true, _) =>
      if leg.verdict.node == node && leg.verdict.decision != Optimize then leg.verdict.bytes else 0
    case _ => 0
  }

  function Charges(actions: seq<Action>, node: string): nat {
    if actions == [] then 0 else Charges(actions[..|actions| - 1], node) + Charge(actions[|actions| - 1], node)
  }

  /** The day on which an action looks at the node's tally, if it does. */
  ghost function LooksOn(limits: Limits, s: State, a: Action, node: string): Option<string> {
    match a
    case TryStart(v, today) =>
      if v.node == node
         && Sum(s.books.inFlight, Legs(OnNode(node))) < limits.perNode
         && (s.books.bytesInFlight + v.bytes) % WORD <= limits.bytesInFlight
      then Some(today) else None
    case Finish(leg, true, today) => if leg.verdict.node == node then Some(today) else None
    case _ => None
  }

  /** The node's day begins anew: it is seeded, or looked at on a day that is not the one it is on. */
  ghost predicate Begins(limits: Limits, s: State, a: Action, node: string) {
    || (a.Seed? && a.node == node)
    || (LooksOn(limits, s, a, node).Some?
        && !(node in s.books.day && s.books.day[node] == LooksOn(limits, s, a, node).value))
  }

  function Seeded(a: Action): uint64 {
    if a.Seed? then a.bytes else 0
  }

  /** The same sum as the controller takes it, cut to 64 bits at each step. */
  function Tally64(start: uint64, actions: seq<Action>, node: string): uint64 {
    if actions == [] then start
    else Add64(Tally64(start, actions[..|actions| - 1], node), Charge(actions[|actions| - 1], node))
  }

  lemma {:induction false} Tally64Is(start: uint64, actions: seq<Action>, node: string)
    ensures Tally64(start, actions, node) == (start + Charges(actions, node)) % WORD
  {
    if actions == [] {
      assert start % WORD == start;
    } else {
      var front, last := actions[..|actions| - 1], actions[|actions| - 1];
      Tally64Is(start, front, node);
      ModAdd(start + Charges(front, node), Charge(last, node));
    }
  }

  /** One action: a day that begins starts from the seed or from nothing, any other goes on. */
  lemma TallyStep(limits: Limits, s: State, a: Action, node: string)
    requires Enabled(s, a)
    ensures MovedBy(After(limits, s, a).books.moved, node)
         == Add64(if Begins(limits, s, a, node) then Seeded(a) else MovedBy(s.books.moved, node), Charge(a, node))
  {
    match a {
      case TryStart(v, today) => TryTally(limits, s, v, today, node);
      case Finish(leg, success, today) => FinishTally(limits, s, leg, success, today, node);
      case _ =>
    }
  }

  lemma TryTally(limits: Limits, s: State, v: Verdict, today: string, node: string)
    requires Enabled(s, TryStart(v, today))
    ensures MovedBy(AfterTry(limits, s.books, v, today).moved, node)
         == if Begins(limits, s, TryStart(v, today), node) then 0 else MovedBy(s.books.moved, node)
  {
    TryRolls(limits, s.books, v, today);
    TryBooks(limits, s.books, v, today);
  }

  lemma FinishTally(limits: Limits, s: State, leg: Leg, success: bool, today: string, node: string)
    ensures MovedBy(AfterFinish(s.books, leg.verdict, success, today).moved, node)
         == Add64(if Begins(limits, s, Finish(leg, success, today), node) then 0 else MovedBy(s.books.moved, node),
                  Charge(Finish(leg, success, today), node))
  {
    AddMod(if Begins(limits, s, Finish(leg, success, today), node) then 0 else MovedBy(s.books.moved, node),
           Charge(Finish(leg, success, today), node));
    FinishCharges(s.books, leg.verdict, success, today);
  }

  ghost function TallyAt(run: seq<State>, k: nat, node: string): uint64
    requires k < |run|
  {
    MovedBy(run[k].books.moved, node)
  }

  /** The step at position `k` of a run. */
  lemma RunStep(limits: Limits, run: seq<State>, actions: seq<Action>, node: string, k: nat)
    requires IsRun(limits, run, actions) && k < |actions|
    ensures TallyAt(run, k + 1, node)
         == Add64(if Begins(limits, run[k], actions[k], node) then Seeded(actions[k]) else TallyAt(run, k, node),
                  Charge(actions[k], node))
    ensures !Begins(limits, run[k], actions[k], node) && node !in run[k].books.day ==>
              node !in run[k + 1].books.day && Charge(actions[k], node) == 0
  {
    assert run[k + 1] == After(limits, run[k], actions[k]);
    TallyStep(limits, run[k], actions[k], node);
    if !Begins(limits, run[k], actions[k], node) && node !in run[k].books.day {
      NoDayYet(limits, run[k], actions[k], node);
    }
  }

  lemma {:induction false} SumsUp(t: seq<uint64>, actions: seq<Action>, node: string, start: uint64, b: nat, j: nat)
    requires b < j <= |actions| && |t| == |actions| + 1 && t[b + 1] == Add64(start, Charge(actions[b], node))
    requires forall k :: b < k < j ==> t[k + 1] == Add64(t[k], Charge(actions[k], node))
    ensures t[j] == Tally64(start, actions[b..j], node)
  {
    var part := actions[b..j];
    assert part[..|part| - 1] == actions[b..j - 1] && part[|part| - 1] == actions[j - 1];
    if j - 1 > b {
      SumsUp(t, actions, node, start, b, j - 1);
    } else {
      assert actions[b..j - 1] == [];
    }
  }

  /** Action `b` began the node's day and none before `j` has since. */
  ghost predicate DaySince(limits: Limits, run: seq<State>, actions: seq<Action>, node: string, b: nat, j: nat)
    requires IsRun(limits, run, actions) && b < j <= |actions|
  {
    && Begins(limits, run[b], actions[b], node)
    && forall k :: b < k < j ==> !Begins(limits, run[k], actions[k], node)
  }

  lemma StepSince(limits: Limits, run: seq<State>, actions: seq<Action>, node: string, b: nat, j: nat, k: nat)
    requires IsRun(limits, run, actions) && b <= k < j <= |actions| && DaySince(limits, run, actions, node, b, j)
    ensures TallyAt(run, k + 1, node)
         == Add64(if k == b then Seeded(actions[b]) else TallyAt(run, k, node), Charge(actions[k], node))
  {
    RunStep(limits, run, actions, node, k);
  }

  lemma AddsUp(limits: Limits, run: seq<State>, actions: seq<Action>, node: string, b: nat, j: nat)
    requires IsRun(limits, run, actions) && b < j <= |actions| && DaySince(limits, run, actions, node, b, j)
    ensures TallyAt(run, j, node) == Tally64(Seeded(actions[b]), actions[b..j], node)
  {
    var t: seq<uint64> := seq(|run|, k requires 0 <= k < |run| => TallyAt(run, k, node));
    forall k | b <= k < j
      ensures t[k + 1] == Add64(if k == b then Seeded(actions[b]) else t[k], Charge(actions[k], node))
    {
      StepSince(limits, run, actions, node, b, j, k);
    }
    SumsUp(t, actions, node, Seeded(actions[b]), b, j);
  }

  /**
   Over every run: if action `b` began the node's day and none has since, the tally is what that
   day began with and what the successful moves since then add up to, in 64 bits.
   */
  lemma TallySinceDayBegan(limits: Limits, run: seq<State>, actions: seq<Action>, node: string, b: nat, j: nat)
    requires IsRun(limits, run, actions) && b < j <= |actions| && DaySince(limits, run, actions, node, b, j)
    ensures MovedBy(run[j].books.moved, node) == (Seeded(actions[b]) + Charges(actions[b..j], node)) % WORD
  {
    var start, since := Seeded(actions[b]), actions[b..j];
    Tally64Is(start, since, node);
    AddsUp(limits, run, actions, node, b, j);
  }

  /** Before a fresh controller has looked at the node or seeded it, nothing is charged to it. */
  lemma {:induction false} NothingBeforeFirstDay(limits: Limits, run: seq<State>, actions: seq<Action>, node: string,
                                                 n: int, j: nat)
    requires IsRun(limits, run, actions) && run[0] == Start(n) && j <= |actions|
    requires forall k :: 0 <= k < j ==> !Begins(limits, run[k], actions[k], node)
    ensures node !in run[j].books.day && MovedBy(run[j].books.moved, node) == 0
  {
    if j > 0 {
      NothingBeforeFirstDay(limits, run, actions, node, n, j - 1);
      RunStep(limits, run, actions, node, j - 1);
    }
  }

  lemma NoDayYet(limits: Limits, s: State, a: Action, node: string)
    requires Enabled(s, a) && !Begins(limits, s, a, node) && node !in s.books.day
    ensures node !in After(limits, s, a).books.day && Charge(a, node) == 0
  {
    match a {
      case TryStart(v, today) =>
        TryRolls(limits, s.books, v, today);
        TryBooks(limits, s.books, v, today);
      case Finish(leg, success, today) => FinishCharges(s.books, leg.verdict, success, today);
      case _ =>
    }
  }
}
