/**
 The operator's pause and resume against the calls and guards of `DispatchRuns`: when what the
 operator says stands, whatever follows, and when it is lost.
 */
module PauseRuns {
  import opened Wrappers
  import opened Dispatch
  import opened DispatchRuns

  predicate Commands(a: Action) {
    a.Pause? || a.Resume? || a.GuardPause?
  }

  /** The last permitted action pauses by itself. */
  ghost predicate PausesItself(s: State, a: Action) {
    a.Finish? && s.books.actionsLeft == 1 && a.success
  }

  /** What sets the status against this, or, for a pause, to one that guards undo. */
  ghost predicate Overrides(paused: bool, s: State, a: Action) {
    if paused then a.Resume? || a == Pause(FOREIGN) || a == GuardPause(FOREIGN)
    else a.Pause? || a.GuardPause? || PausesItself(s, a)
  }

  /** The state after these actions, if they can happen one after the other and none overrides the command. */
  ghost function Later(limits: Limits, paused: bool, s: State, actions: seq<Action>): Option<State>
    decreases |actions|
  {
    if actions == [] then Some(s)
    else if !Enabled(s, actions[0]) || Overrides(paused, s, actions[0]) then None
    else Later(limits, paused, After(limits, s, actions[0]), actions[1..])
  }

  /** Whatever happens from `s` on that does not override it, the status keeps saying this. */
  ghost predicate Stands(limits: Limits, s: State, paused: bool) {
    forall actions: seq<Action> :: Later(limits, paused, s, actions).Some? ==>
      Later(limits, paused, s, actions).value.status.paused == paused
  }

  /** The guard of this table has seen a foreign-mover pause and is going to resume. */
  predicate ResumePending(s: State, table: string) {
    GuardOf(s, table).Resuming? || (GuardOf(s, table) == Saw(true) && CleanOf(s, table) >= 1)
  }

  predicate CopyKeepsPause(s: State) {
    s.held.None? || (s.held.value.paused && s.held.value.reason != FOREIGN)
  }

  ghost predicate Undisturbed(s: State) {
    CopyKeepsPause(s) && forall table: string :: !ResumePending(s, table)
  }

  /**
   An operator's pause stands, whatever happens that does not override it, exactly when at the
   moment it is given no call holds a copy that says running, or paused for a foreign mover,
   and no guard is on its way to resume.
   */
  lemma PauseStandsExactly(limits: Limits, s: State, reason: string)
    requires reason != FOREIGN
    ensures Stands(limits, After(limits, s, Pause(reason)), true) <==> Undisturbed(s)
  {
    var told := After(limits, s, Pause(reason));
    assert forall table: string :: ResumePending(told, table) <==> ResumePending(s, table);
    if Undisturbed(s) {
      forall actions: seq<Action> | Later(limits, true, told, actions).Some?
        ensures Later(limits, true, told, actions).value.status.paused
      {
        KeepsPause(limits, told, actions);
      }
    } else {
      var actions := LosesPause(limits, told);
    }
  }

  /** Paused, and not for a foreign mover: nothing that may happen changes that. */
  ghost predicate FirmlyPaused(s: State) {
    s.status.paused && s.status.reason != FOREIGN && Undisturbed(s)
  }

  /**
   Paused, and about to be paused by a call's copy for a reason that guards leave alone, while no
   guard can be brought to resume by what it sees until then.
   */
  ghost predicate PauseReturns(s: State) {
    && s.status.paused
    && s.held.Some? && s.held.value.paused && s.held.value.reason != FOREIGN
    && forall table: string :: Harmless(s, table)
  }

  predicate Harmless(s: State, table: string) {
    !ResumePending(s, table) && (GuardOf(s, table).Idle? ==> CleanOf(s, table) == 0)
  }

  lemma FirmStep(limits: Limits, s: State, a: Action)
    requires FirmlyPaused(s) && Enabled(s, a) && !Overrides(true, s, a)
    ensures FirmlyPaused(After(limits, s, a))
  {
    if a.GuardResume? {
      WouldBePending(s, a.table);
      assert false;
    } else {
      var s' := After(limits, s, a);
      forall table: string
        ensures !ResumePending(s', table)
      {
        assert !ResumePending(s, table);
      }
    }
  }

  lemma ReturnStep(limits: Limits, s: State, a: Action)
    requires PauseReturns(s) && Enabled(s, a) && !Overrides(true, s, a)
    ensures PauseReturns(After(limits, s, a)) || FirmlyPaused(After(limits, s, a))
  {
    if a.GuardResume? {
      WouldBePending(s, a.table);
      assert false;
    } else {
      var s' := After(limits, s, a);
      forall table: string
        ensures !ResumePending(s', table) && (!a.WriteBack? ==> Harmless(s', table))
      {
        assert Harmless(s, table);
      }
    }
  }

  lemma WouldBePending(s: State, table: string)
    requires GuardOf(s, table).Resuming?
    ensures ResumePending(s, table) && !Harmless(s, table)
  {
  }

  lemma {:induction false} KeepsPause(limits: Limits, s: State, actions: seq<Action>)
    requires FirmlyPaused(s) || PauseReturns(s)
    requires Later(limits, true, s, actions).Some?
    ensures Later(limits, true, s, actions).value.status.paused
    decreases |actions|
  {
    if actions != [] {
      if FirmlyPaused(s) {
        FirmStep(limits, s, actions[0]);
      } else {
        ReturnStep(limits, s, actions[0]);
      }
      KeepsPause(limits, After(limits, s, actions[0]), actions[1..]);
    }
  }

  /** One more thing happens first. */
  lemma LaterStep(limits: Limits, paused: bool, s: State, a: Action, more: seq<Action>)
    requires Enabled(s, a) && !Overrides(paused, s, a)
    ensures Later(limits, paused, s, [a] + more) == Later(limits, paused, After(limits, s, a), more)
  {
    assert ([a] + more)[1..] == more;
  }

  /** These actions, none of which overrides a pause, leave the status running. */
  ghost predicate Undoes(limits: Limits, s: State, actions: seq<Action>) {
    var later := Later(limits, true, s, actions);
    later.Some? && !later.value.status.paused
  }

  /** How a disturbed pause goes away. */
  lemma LosesPause(limits: Limits, s: State) returns (actions: seq<Action>)
    requires s.status.paused && !Undisturbed(s)
    ensures Undoes(limits, s, actions)
  {
    if s.held.Some? {
      var written := After(limits, s, WriteBack);
      if !s.held.value.paused {
        actions := [];
      } else if s.held.value.reason == FOREIGN {
        actions := GuardsUndo(limits, written, "t");
      } else {
        var table :| ResumePending(s, table);
        assert ResumePending(written, table);
        actions := GuardResumes(limits, written, table);
      }
      LaterStep(limits, true, s, WriteBack, actions);
      actions := [WriteBack] + actions;
    } else {
      var table :| ResumePending(s, table);
      actions := GuardResumes(limits, s, table);
    }
  }

  lemma GuardResumes(limits: Limits, s: State, table: string) returns (actions: seq<Action>)
    requires s.held.None? && ResumePending(s, table)
    ensures Undoes(limits, s, actions)
  {
    var ready := if GuardOf(s, table).Saw? then After(limits, s, GuardCount(table)) else s;
    actions := [GuardResume(table)];
    LaterStep(limits, true, ready, GuardResume(table), []);
    assert [GuardResume(table)] + [] == actions;
    if GuardOf(s, table).Saw? {
      LaterStep(limits, true, s, GuardCount(table), actions);
      actions := [GuardCount(table)] + actions;
    }
  }

  /** A pause for a foreign mover is undone by any table's guard after at most two clean ticks. */
  lemma GuardsUndo(limits: Limits, s: State, table: string) returns (actions: seq<Action>)
    requires s.held.None? && s.status.paused && s.status.reason == FOREIGN
    ensures Undoes(limits, s, actions)
  {
    if ResumePending(s, table) {
      actions := GuardResumes(limits, s, table);
    } else if GuardOf(s, table).Saw? {
      var counted := After(limits, s, GuardCount(table));
      actions := GuardSeesTwice(limits, counted, table);
      LaterStep(limits, true, s, GuardCount(table), actions);
      actions := [GuardCount(table)] + actions;
    } else {
      actions := GuardSeesTwice(limits, s, table);
    }
  }

  lemma GuardSeesTwice(limits: Limits, s: State, table: string) returns (actions: seq<Action>)
    requires s.held.None? && s.status.paused && s.status.reason == FOREIGN && GuardOf(s, table).Idle?
    ensures Undoes(limits, s, actions)
    decreases if CleanOf(s, table) == 0 then 1 else 0
  {
    var seen := After(limits, s, GuardSee(table));
    if CleanOf(s, table) >= 1 {
      actions := GuardResumes(limits, seen, table);
    } else {
      var counted := After(limits, seen, GuardCount(table));
      actions := GuardSeesTwice(limits, counted, table);
      LaterStep(limits, true, seen, GuardCount(table), actions);
      actions := [GuardCount(table)] + actions;
    }
    LaterStep(limits, true, s, GuardSee(table), actions);
    actions := [GuardSee(table)] + actions;
  }

  /**
   A guard's pause for a foreign mover, over an operator's or over none, stands exactly when a
   call is about to write back a pause for another reason and no guard has ticked or may tick
   before that: it is the copy's pause that then stands.
   */
  lemma GuardPauseStandsExactly(limits: Limits, s: State)
    ensures Stands(limits, After(limits, s, GuardPause(FOREIGN)), true)
       <==> s.held.Some? && s.held.value.paused && s.held.value.reason != FOREIGN
            && forall table: string :: Harmless(s, table)
  {
    var told := After(limits, s, GuardPause(FOREIGN));
    assert forall table: string :: Harmless(told, table) <==> Harmless(s, table);
    assert forall table: string :: ResumePending(told, table) <==> ResumePending(s, table);
    if PauseReturns(told) {
      forall actions: seq<Action> | Later(limits, true, told, actions).Some?
        ensures Later(limits, true, told, actions).value.status.paused
      {
        KeepsPause(limits, told, actions);
      }
    } else {
      var actions := LosesGuardPause(limits, told);
      assert Undoes(limits, told, actions);
    }
  }

  lemma LosesGuardPause(limits: Limits, s: State) returns (actions: seq<Action>)
    requires s.status.paused && s.status.reason == FOREIGN && !PauseReturns(s)
    ensures Undoes(limits, s, actions)
  {
    if s.held.None? {
      actions := GuardsUndo(limits, s, "t");
    } else if !Undisturbed(s) {
      actions := LosesPause(limits, s);
    } else {
      var table: string :| !Harmless(s, table);
      assert !ResumePending(s, table);
      var seen := After(limits, s, GuardSee(table));
      assert ResumePending(seen, table);
      actions := LosesPause(limits, seen);
      LaterStep(limits, true, s, GuardSee(table), actions);
      actions := [GuardSee(table)] + actions;
    }
  }

  /** It does happen: a pause given between a guard's last look at the status and its resume is erased. */
  lemma PauseErasedByGuard(limits: Limits, table: string, reason: string, n: int)
    returns (run: seq<State>, actions: seq<Action>)
    ensures IsRun(limits, run, actions) && run[0] == Start(n)
    ensures actions == [GuardPause(FOREIGN), GuardSee(table), GuardCount(table), GuardSee(table), GuardCount(table),
                        Pause(reason), GuardResume(table)]
    ensures forall i :: 0 <= i < |run| ==> run[i].held.None?
    ensures run[6].status.paused && run[6].status.reason == reason && !run[7].status.paused
  {
    actions := [GuardPause(FOREIGN), GuardSee(table), GuardCount(table), GuardSee(table), GuardCount(table),
                Pause(reason), GuardResume(table)];
    var s1, s2, s3 := FirstTick(limits, n, table);
    var s4, s5 := SecondTick(limits, s3, table);
    var s6 := After(limits, s5, Pause(reason));
    run := [Start(n), s1, s2, s3, s4, s5, s6, After(limits, s6, GuardResume(table))];
  }

  predicate Waiting(s: State, table: string, ticks: nat) {
    s.held.None? && s.status.reason == FOREIGN && GuardOf(s, table).Idle? && CleanOf(s, table) == ticks
  }

  lemma FirstTick(limits: Limits, n: int, table: string) returns (s1: State, s2: State, s3: State)
    ensures s1 == After(limits, Start(n), GuardPause(FOREIGN))
    ensures Enabled(s1, GuardSee(table)) && s2 == After(limits, s1, GuardSee(table))
    ensures Enabled(s2, GuardCount(table)) && s3 == After(limits, s2, GuardCount(table))
    ensures Waiting(s3, table, 1) && s1.held.None? && s2.held.None?
  {
    s1 := After(limits, Start(n), GuardPause(FOREIGN));
    s2 := After(limits, s1, GuardSee(table));
    s3 := After(limits, s2, GuardCount(table));
  }

  lemma SecondTick(limits: Limits, s3: State, table: string) returns (s4: State, s5: State)
    requires Waiting(s3, table, 1)
    ensures Enabled(s3, GuardSee(table)) && s4 == After(limits, s3, GuardSee(table))
    ensures Enabled(s4, GuardCount(table)) && s5 == After(limits, s4, GuardCount(table))
    ensures GuardOf(s5, table).Resuming? && s4.held.None? && s5.held.None?
  {
    s4 := After(limits, s3, GuardSee(table));
    s5 := After(limits, s4, GuardCount(table));
  }

  /** A resume stands exactly when at that moment no call holds a copy that says paused. */
  lemma ResumeStandsExactly(limits: Limits, s: State)
    ensures Stands(limits, After(limits, s, Resume), false) <==> (s.held.None? || !s.held.value.paused)
  {
    var told := After(limits, s, Resume);
    if s.held.None? || !s.held.value.paused {
      forall actions: seq<Action> | Later(limits, false, told, actions).Some?
        ensures !Later(limits, false, told, actions).value.status.paused
      {
        KeepsRunning(limits, told, actions);
      }
    } else {
      LaterStep(limits, false, told, WriteBack, []);
      assert Later(limits, false, told, [WriteBack] + []).value.status.paused;
    }
  }

  lemma {:induction false} KeepsRunning(limits: Limits, s: State, actions: seq<Action>)
    requires !s.status.paused && (s.held.None? || !s.held.value.paused) && Later(limits, false, s, actions).Some?
    ensures !Later(limits, false, s, actions).value.status.paused
    decreases |actions|
  {
    if actions != [] {
      KeepsRunning(limits, After(limits, s, actions[0]), actions[1..]);
    }
  }

  /** In these runs nobody but the operator and the calls touch the status. */
  ghost predicate Unguarded(run: seq<State>, actions: seq<Action>)
    requires |run| >= |actions|
  {
    forall i :: 0 < i < |actions| ==>
      !Commands(actions[i]) && !actions[i].GuardResume? && !PausesItself(run[i], actions[i])
  }

  /** Without guards the outcome of each single run is settled: a copy that says running always wins. */
  lemma PauseOutcomeExactly(limits: Limits, run: seq<State>, actions: seq<Action>)
    requires IsRun(limits, run, actions) && |actions| > 0 && actions[0].Pause? && Unguarded(run, actions)
    requires run[|actions|].held.None?
    ensures run[|actions|].status.paused <==> (run[0].held.None? || run[0].held.value.paused)
  {
    if run[0].held.None? || run[0].held.value.paused {
      StaysTold(limits, run, actions, true, |actions|);
    } else {
      StaysLost(limits, run, actions, true, |actions|);
    }
  }

  lemma ResumeOutcomeExactly(limits: Limits, run: seq<State>, actions: seq<Action>)
    requires IsRun(limits, run, actions) && |actions| > 0 && actions[0].Resume? && Unguarded(run, actions)
    requires run[|actions|].held.None?
    ensures !run[|actions|].status.paused <==> (run[0].held.None? || !run[0].held.value.paused)
  {
    if run[0].held.None? || !run[0].held.value.paused {
      StaysTold(limits, run, actions, false, |actions|);
    } else {
      StaysLost(limits, run, actions, false, |actions|);
    }
  }

  lemma {:induction false} StaysTold(limits: Limits, run: seq<State>, actions: seq<Action>, told: bool, i: nat)
    requires IsRun(limits, run, actions) && 0 < i <= |actions| && Unguarded(run, actions)
    requires if told then actions[0].Pause? else actions[0].Resume?
    requires run[0].held.None? || run[0].held.value.paused == told
    ensures run[i].status.paused == told && (run[i].held.Some? ==> run[i].held.value.paused == told)
  {
    assert run[0 + 1] == After(limits, run[0], actions[0]);
    if i > 1 {
      StaysTold(limits, run, actions, told, i - 1);
      assert run[i - 1 + 1] == After(limits, run[i - 1], actions[i - 1]);
    }
  }

  /** Until the stale copy is written the command shows; afterwards it is gone. */
  lemma {:induction false} StaysLost(limits: Limits, run: seq<State>, actions: seq<Action>, told: bool, i: nat)
    requires IsRun(limits, run, actions) && 0 < i <= |actions| && Unguarded(run, actions)
    requires if told then actions[0].Pause? else actions[0].Resume?
    requires run[0].held.Some? && run[0].held.value.paused != told
    ensures run[i].held.Some? ==> run[i].held.value.paused != told
    ensures run[i].held.None? ==> run[i].status.paused != told
  {
    assert run[0 + 1] == After(limits, run[0], actions[0]);
    if i > 1 {
      StaysLost(limits, run, actions, told, i - 1);
      assert run[i - 1 + 1] == After(limits, run[i - 1], actions[i - 1]);
    }
  }

  /** It does happen: a pause given while a first leg is being admitted is overwritten. */
  lemma PauseOverwritten(limits: Limits, v: Verdict, today: string, reason: string, n: int)
    returns (run: seq<State>, actions: seq<Action>)
    requires limits.perNode > 0 && v.bytes <= limits.bytesInFlight && v.bytes <= limits.bytesPerDay
    ensures IsRun(limits, run, actions) && run[0] == Start(n)
    ensures actions == [TryStart(v, today), Pause(reason), WriteBack]
    ensures run[2].status.paused && !run[3].status.paused && Leg(v, Autonomous) in run[3].legs
  {
    actions := [TryStart(v, today), Pause(reason), WriteBack];
    FirstAdmitted(limits, v, today, n);
    var s1 := After(limits, Start(n), actions[0]);
    var s2 := After(limits, s1, actions[1]);
    run := [Start(n), s1, s2, After(limits, s2, actions[2])];
  }
}
