/** How often a reminder is attempted. The source marks keys under a read lock, so two selections may overlap. */
module SystemReminders {
  import opened Records
  import opened Sorting
  import Keyed
  import Evidence
  import Store
  import OperationsService
  import BillingService
  import opened RemindersService
  import opened SystemRuns
  import opened RunsOfMarks
  import SystemTheorems

  /** Every marked key was taken once, and no other. */
  ghost predicate TakenOnce(s: Sys) {
    forall key :: Taken(s, key) == One(key in s.st.reminderSent)
  }

  /** The step marks a key that was marked before: between its check and its mark another selection came in. */
  predicate Remarks(s: Sys, step: Step) {
    step.MarkReminder? && step.k < |s.found| && KeyOfJob(s.found[step.k]) in s.st.reminderSent
  }

  lemma StepFromOnce(c: Config, s: Sys, step: Step, s': Sys)
    requires MarksOk(s) && TakenOnce(s) && Next(c, s, step, s')
    ensures TakenOnce(s') <==> !Remarks(s, step)
  {
    hide Next, Taken, KeyOfJob;
    forall key
      ensures Taken(s', key) == Taken(s, key) + One(MarksKey(s, step, key))
      ensures key in s'.st.reminderSent <==> key in s.st.reminderSent || MarksKey(s, step, key)
    {
      StepTakes(c, s, step, s', key);
    }
    if Remarks(s, step) {
      var key := KeyOfJob(s.found[step.k]);
      assert MarksKey(s, step, key);
      assert Taken(s', key) == 2;
    }
  }

  lemma StepFromTwice(c: Config, s: Sys, step: Step, s': Sys)
    requires MarksOk(s) && !TakenOnce(s) && Next(c, s, step, s')
    ensures !TakenOnce(s')
  {
    hide Next, Taken, MarksKey;
    var key :| Taken(s, key) != One(key in s.st.reminderSent);
    assert Taken(s, key) > 1;
    StepTakes(c, s, step, s', key);
  }

  /** Over any run, each marked key was taken exactly once if and only if no step marked a marked key. */
  lemma {:induction false} TakenOnceIff(c: Config, trace: seq<Sys>, steps: seq<Step>, n: nat)
    requires IsRun(c, trace, steps) && n <= |steps|
    ensures TakenOnce(trace[n]) <==> forall k :: 0 <= k < n ==> !Remarks(trace[k], steps[k])
  {
    hide Next, Remarks, TakenOnce, SystemTheorems.Inv, MarksOk;
    if n == 0 {
      NothingTaken();
    } else {
      TakenOnceIff(c, trace, steps, n - 1);
      MarksAt(c, trace, steps, n - 1);
      if TakenOnce(trace[n - 1]) {
        StepFromOnce(c, trace[n - 1], steps[n - 1], trace[n]);
      } else {
        StepFromTwice(c, trace[n - 1], steps[n - 1], trace[n]);
      }
    }
  }

  lemma NothingTaken()
    ensures TakenOnce(START)
  {
  }

  lemma MarksAt(c: Config, trace: seq<Sys>, steps: seq<Step>, n: nat)
    requires IsRun(c, trace, steps) && n <= |steps|
    ensures MarksOk(trace[n]) && AttemptsLogged(trace[n])
  {
    hide Next, MarksOk, AttemptsLogged, PaymentsOk;
    SystemTheorems.RunKeeps(c, trace, steps, n);
  }

  // ---- Selections that overlap ----------------------------------------------

  /** The check finds an item free whose key is already between its check and its mark. */
  predicate Overlaps(s: Sys, step: Step) {
    step.CheckReminder? && exists i :: 0 <= i < |s.found| && KeyOfJob(s.found[i]) == KeyFor(step.it, step.now)
  }

  ghost predicate NoOverlap(trace: seq<Sys>, steps: seq<Step>, n: nat)
    requires n <= |steps| < |trace|
  {
    forall k :: 0 <= k < n ==> !Overlaps(trace[k], steps[k])
  }

  /** The keys between their check and their mark are different and not marked. */
  predicate FoundFree(s: Sys) {
    && (forall i :: 0 <= i < |s.found| ==> KeyOfJob(s.found[i]) !in s.st.reminderSent)
    && (forall i, j :: 0 <= i < j < |s.found| ==> KeyOfJob(s.found[i]) != KeyOfJob(s.found[j]))
  }

  lemma FoundUntouched(c: Config, s: Sys, step: Step, s': Sys)
    requires Next(c, s, step, s') && !step.CheckReminder? && !step.MarkReminder?
    ensures s'.found == s.found && s'.st.reminderSent == s.st.reminderSent
  {
    hide Store.RowsSet, OperationsService.Reached, BillingService.StripeEntry, ReminderEntry, Without;
  }

  lemma CheckFinds(c: Config, s: Sys, it: Item, now: Instant, s': Sys)
    requires FoundFree(s) && Next(c, s, CheckReminder(it, now), s')
    ensures FoundFree(s') <==> !Overlaps(s, CheckReminder(it, now))
  {
    hide HasItem, Evidence.ReminderDue, DayOf;
    var n := |s.found|;
    assert KeyOfJob(s'.found[n]) == KeyFor(it, now);
    if i :| 0 <= i < n && KeyOfJob(s.found[i]) == KeyFor(it, now) {
      assert KeyOfJob(s'.found[i]) == KeyOfJob(s'.found[n]);
    }
  }

  lemma MarkFrees(c: Config, s: Sys, k: nat, s': Sys)
    requires FoundFree(s) && Next(c, s, MarkReminder(k), s')
    ensures FoundFree(s')
  {
    hide KeyOfJob;
    forall i | 0 <= i < |s'.found|
      ensures s'.found[i] == s.found[if i < k then i else i + 1]
    {
    }
  }

  lemma SameFound(s: Sys, s': Sys)
    requires s'.found == s.found && s'.st.reminderSent == s.st.reminderSent
    ensures FoundFree(s') == FoundFree(s)
  {
  }

  /** Exactly an overlapping check gives up that the keys are different and free. */
  lemma StepKeepsFree(c: Config, s: Sys, step: Step, s': Sys)
    requires FoundFree(s) && Next(c, s, step, s')
    ensures FoundFree(s') <==> !Overlaps(s, step)
  {
    hide Next, FoundFree, KeyOfJob;
    if step.CheckReminder? {
      CheckFinds(c, s, step.it, step.now, s');
    } else if step.MarkReminder? {
      MarkFrees(c, s, step.k, s');
    } else {
      FoundUntouched(c, s, step, s');
      SameFound(s, s');
    }
  }

  lemma FreeNeverRemarks(s: Sys, step: Step)
    requires FoundFree(s)
    ensures !Remarks(s, step)
  {
  }

  lemma {:induction false} FreeWithoutOverlap(c: Config, trace: seq<Sys>, steps: seq<Step>, n: nat)
    requires AreSteps(c, trace, steps) && n <= |steps| && FoundFree(trace[0]) && NoOverlap(trace, steps, n)
    ensures FoundFree(trace[n]) && forall k :: 0 <= k < n ==> !Remarks(trace[k], steps[k])
  {
    hide Next, FoundFree, Remarks, Overlaps;
    if n > 0 {
      FreeWithoutOverlap(c, trace, steps, n - 1);
      StepKeepsFree(c, trace[n - 1], steps[n - 1], trace[n]);
      FreeNeverRemarks(trace[n - 1], steps[n - 1]);
    }
  }

  lemma NothingFound()
    ensures FoundFree(START)
  {
  }

  /** Two jobs found with one key: marking both marks the key twice. */
  lemma TwoFoundRemark(c: Config, s: Sys, i: nat, j: nat) returns (s1: Sys, s2: Sys)
    requires i < j < |s.found| && KeyOfJob(s.found[i]) == KeyOfJob(s.found[j])
    ensures Next(c, s, MarkReminder(i), s1) && Next(c, s1, MarkReminder(j - 1), s2)
    ensures Remarks(s1, MarkReminder(j - 1))
  {
    hide KeyOfJob;
    var key := KeyOfJob(s.found[i]);
    s1 := s.(st := s.st.(reminderSent := s.st.reminderSent + {key}), found := Without(s.found, i),
             jobs := s.jobs + [s.found[i]]);
    assert s1.found[j - 1] == s.found[j];
    s2 := s1.(st := s1.st.(reminderSent := s1.st.reminderSent + {key}), found := Without(s1.found, j - 1),
              jobs := s1.jobs + [s1.found[j - 1]]);
  }

  lemma RemarkTakesTwice(c: Config, s: Sys, step: Step, s': Sys)
    requires MarksOk(s) && Next(c, s, step, s') && Remarks(s, step)
    ensures !TakenOnce(s')
  {
    hide Next, MarksOk, TakenOnce, Remarks;
    if TakenOnce(s) {
      StepFromOnce(c, s, step, s');
    } else {
      StepFromTwice(c, s, step, s');
    }
  }

  /** Main result: without an overlapping check every key is taken once in every state of a run … */
  lemma NoOverlapTakesOnce(c: Config, trace: seq<Sys>, steps: seq<Step>, n: nat)
    requires IsRun(c, trace, steps) && n <= |steps| && NoOverlap(trace, steps, n)
    ensures FoundFree(trace[n]) && TakenOnce(trace[n])
  {
    hide Next, FoundFree, Remarks, Overlaps, TakenOnce;
    NothingFound();
    FreeWithoutOverlap(c, trace, steps, n);
    TakenOnceIff(c, trace, steps, n);
  }

  /** … and after an overlapping check two more steps, the two marks, take a key twice. */
  lemma OverlapTakesTwice(c: Config, trace: seq<Sys>, steps: seq<Step>, n: nat)
    returns (s1: Sys, s2: Sys, i: nat, j: nat)
    requires IsRun(c, trace, steps) && n < |steps| && Overlaps(trace[n], steps[n])
    ensures Next(c, trace[n + 1], MarkReminder(i), s1) && Next(c, s1, MarkReminder(j), s2) && !TakenOnce(s2)
  {
    hide Next, TakenOnce, MarksOk, AttemptsLogged, KeyOfJob, KeyFor;
    var s, it, now := trace[n + 1], steps[n].it, steps[n].now;
    i :| 0 <= i < |trace[n].found| && KeyOfJob(trace[n].found[i]) == KeyFor(it, now);
    j := |trace[n].found|;
    CheckAppends(c, trace[n], it, now, s);
    s1, s2 := TwoFoundRemark(c, s, i, j);
    j := j - 1;
    MarksAt(c, trace, steps, n + 1);
    StepKeepsMarks(c, s, MarkReminder(i), s1);
    RemarkTakesTwice(c, s1, MarkReminder(j), s2);
  }

  lemma CheckAppends(c: Config, s: Sys, it: Item, now: Instant, s': Sys)
    requires Next(c, s, CheckReminder(it, now), s')
    ensures s'.found == s.found + [Job(it, DayOf(now))] && KeyOfJob(Job(it, DayOf(now))) == KeyFor(it, now)
  {
    hide HasItem, Evidence.ReminderDue, DayOf;
  }

  /** No item is checked while another is between its check and its mark. */
  ghost predicate Serial(trace: seq<Sys>, steps: seq<Step>)
    requires |steps| < |trace|
  {
    forall k :: 0 <= k < |steps| && steps[k].CheckReminder? ==> trace[k].found == []
  }

  lemma SerialNeverOverlaps(trace: seq<Sys>, steps: seq<Step>, n: nat)
    requires n <= |steps| < |trace| && Serial(trace, steps)
    ensures NoOverlap(trace, steps, n)
  {
  }

  /** So one selection at a time never marks a marked key. */
  lemma SerialNeverRemarks(c: Config, trace: seq<Sys>, steps: seq<Step>, n: nat)
    requires IsRun(c, trace, steps) && n <= |steps| && Serial(trace, steps)
    ensures FoundFree(trace[n]) && TakenOnce(trace[n])
    ensures forall k :: 0 <= k < n ==> !Remarks(trace[k], steps[k])
  {
    hide Next, Serial, NoOverlap, FoundFree, TakenOnce, Remarks;
    SerialNeverOverlaps(trace, steps, n);
    NoOverlapTakesOnce(c, trace, steps, n);
    TakenOnceIff(c, trace, steps, n);
  }

  // ---- Attempts -------------------------------------------------------------

  /** No item is tried twice for one day, nor tried and still waiting. */
  ghost predicate NoSecondAttempt(s: Sys) {
    && (forall i, j :: 0 <= i < j < |s.attempts| ==> KeyOfJob(s.attempts[i]) != KeyOfJob(s.attempts[j]))
    && (forall i, j :: 0 <= i < |s.attempts| && 0 <= j < |s.jobs| ==> KeyOfJob(s.attempts[i]) != KeyOfJob(s.jobs[j]))
  }

  /** No key is taken twice, and none that is not marked. */
  ghost predicate TakenAtMostOnce(s: Sys) {
    forall key :: Taken(s, key) <= One(key in s.st.reminderSent)
  }

  lemma TakenAtMostOnceMeans(s: Sys)
    requires TakenAtMostOnce(s)
    ensures NoSecondAttempt(s)
  {
    hide KeyOfJob;
    var tried, waiting := KeysOf(s.attempts), KeysOf(s.jobs);
    forall i, j | 0 <= i < j < |s.attempts|
      ensures KeyOfJob(s.attempts[i]) != KeyOfJob(s.attempts[j])
    {
      assert Taken(s, tried[i]) <= 1;
      if tried[i] == tried[j] {
        Keyed.TwiceCounts(tried, i, j);
      }
    }
    forall i, j | 0 <= i < |s.attempts| && 0 <= j < |s.jobs|
      ensures KeyOfJob(s.attempts[i]) != KeyOfJob(s.jobs[j])
    {
      assert Taken(s, tried[i]) <= 1;
      assert tried[i] in multiset(tried) && waiting[j] in multiset(waiting);
    }
  }

  lemma StepTakesAtMostOnce(c: Config, s: Sys, step: Step, s': Sys)
    requires TakenAtMostOnce(s) && Next(c, s, step, s') && !Remarks(s, step)
    ensures TakenAtMostOnce(s')
  {
    hide Next, Taken;
    forall key ensures Taken(s', key) <= One(key in s'.st.reminderSent) {
      StepTakes(c, s, step, s', key);
    }
  }

  /** From any state in which the found keys are free and no key was taken twice, without overlapping checks. */
  lemma {:induction false} AttemptsGoOn(c: Config, trace: seq<Sys>, steps: seq<Step>, n: nat)
    requires AreSteps(c, trace, steps) && n <= |steps| && NoOverlap(trace, steps, n)
    requires FoundFree(trace[0]) && TakenAtMostOnce(trace[0])
    ensures TakenAtMostOnce(trace[n]) && NoSecondAttempt(trace[n])
  {
    hide Next, FoundFree, TakenAtMostOnce, NoSecondAttempt, Remarks, Overlaps;
    if n > 0 {
      AttemptsGoOn(c, trace, steps, n - 1);
      FreeWithoutOverlap(c, trace, steps, n);
      StepTakesAtMostOnce(c, trace[n - 1], steps[n - 1], trace[n]);
    }
    TakenAtMostOnceMeans(trace[n]);
  }

  lemma OnceIsAtMostOnce(s: Sys)
    requires TakenOnce(s)
    ensures TakenAtMostOnce(s)
  {
  }

  /** Main result: in every run the audit log has exactly one reminder entry for each attempt, in order; and without
      overlapping checks no item is tried twice for one day. */
  lemma OneAttemptPerDay(c: Config, trace: seq<Sys>, steps: seq<Step>, n: nat)
    requires IsRun(c, trace, steps) && n <= |steps|
    ensures var attempts, entries := trace[n].attempts, Filter(trace[n].st.auditLogs, IsReminder);
            && |entries| == |attempts|
            && (forall i :: 0 <= i < |attempts| ==> Reports(entries[i], attempts[i]))
    ensures NoOverlap(trace, steps, n) ==> NoSecondAttempt(trace[n])
  {
    hide Next, NoSecondAttempt, Reports, Filter, IsReminder, MarksOk, TakenOnce, TakenAtMostOnce, NoOverlap,
      FoundFree;
    MarksAt(c, trace, steps, n);
    if NoOverlap(trace, steps, n) {
      NoOverlapTakesOnce(c, trace, steps, n);
      OnceIsAtMostOnce(trace[n]);
      TakenAtMostOnceMeans(trace[n]);
    }
  }

  // ---- A selection under the lock is serial ---------------------------------

  function JobsFor(selected: seq<Item>, now: Instant): seq<Job> {
    seq(|selected|, k requires 0 <= k < |selected| => Job(selected[k], DayOf(now)))
  }

  function MarkedBy(st: Store.State, selected: seq<Item>, now: Instant): Store.State {
    st.(reminderSent := st.reminderSent + set k | 0 <= k < |selected| :: KeyFor(selected[k], now))
  }

  lemma MarkedBySnoc(st: Store.State, front: seq<Item>, it: Item, now: Instant)
    ensures MarkedBy(st, front + [it], now).reminderSent == MarkedBy(st, front, now).reminderSent + {KeyFor(it, now)}
  {
    hide KeyFor;
    var all := front + [it];
    forall key
      ensures key in MarkedBy(st, all, now).reminderSent <==>
              key in MarkedBy(st, front, now).reminderSent + {KeyFor(it, now)}
    {
      if k :| 0 <= k < |front| && KeyFor(front[k], now) == key {
        assert KeyFor(all[k], now) == key;
      }
      assert all[|front|] == it;
    }
  }

  lemma FrontSelecting(st: Store.State, now: Instant, front: seq<Item>, it: Item)
    requires Selecting(st, MarkedBy(st, front + [it], now), now, front + [it])
    ensures Selecting(st, MarkedBy(st, front, now), now, front)
    ensures HasItem(st.evidence, it) && Selectable(MarkedBy(st, front, now), it, now)
  {
    hide Evidence.ReminderDue, HasItem, KeyFor;
    var all, keys := front + [it], KeysFor(front + [it], now);
    assert keys[|front|] == KeyFor(it, now) && all[|front|] == it;
    forall k | 0 <= k < |front|
      ensures keys[k] == KeyFor(front[k], now) == KeysFor(front, now)[k] && all[k] == front[k]
    {
    }
  }

  lemma CheckThenMark(c: Config, s: Sys, now: Instant, front: seq<Item>, it: Item)
    requires Selecting(s.st, MarkedBy(s.st, front + [it], now), now, front + [it]) && s.found == []
    ensures var a, d := SelectedSys(s, front, now), SelectedSys(s, front + [it], now);
            var b := a.(found := [Job(it, DayOf(now))]);
            Next(c, a, CheckReminder(it, now), b) && Next(c, b, MarkReminder(0), d)
  {
    hide Evidence.ReminderDue, HasItem, MarkedBy, DayOf;
    FrontSelecting(s.st, now, front, it);
    MarkedBySnoc(s.st, front, it, now);
    SameButMarks(s.st, front + [it], now);
    SameButMarks(s.st, front, now);
    assert JobsFor(front + [it], now) == JobsFor(front, now) + [Job(it, DayOf(now))];
    assert s.jobs + JobsFor(front, now) + [Job(it, DayOf(now))] == s.jobs + JobsFor(front + [it], now);
  }

  lemma SameButMarks(st: Store.State, selected: seq<Item>, now: Instant)
    ensures MarkedBy(st, selected, now) == st.(reminderSent := MarkedBy(st, selected, now).reminderSent)
  {
  }

  /** The system after selecting these items. */
  function SelectedSys(s: Sys, selected: seq<Item>, now: Instant): Sys {
    s.(st := MarkedBy(s.st, selected, now), jobs := s.jobs + JobsFor(selected, now))
  }

  lemma AppendTwo(c: Config, trace: seq<Sys>, steps: seq<Step>, check: Step, b: Sys, mark: Step, d: Sys)
    requires AreSteps(c, trace, steps) && Serial(trace, steps) && trace[|steps|].found == [] && mark.MarkReminder?
    requires Next(c, trace[|steps|], check, b) && Next(c, b, mark, d)
    ensures AreSteps(c, trace + [b, d], steps + [check, mark]) && Serial(trace + [b, d], steps + [check, mark])
  {
    hide Next;
    var trace', steps' := trace + [b, d], steps + [check, mark];
    forall k | 0 <= k < |steps'|
      ensures Next(c, trace'[k], steps'[k], trace'[k + 1])
      ensures steps'[k].CheckReminder? ==> trace'[k].found == []
    {
      if k < |steps| {
        assert steps'[k] == steps[k] && trace'[k] == trace[k] && trace'[k + 1] == trace[k + 1];
      }
    }
  }

  /** What the selecting method does in one go is a serial sequence of checks and marks. */
  lemma {:induction false} SelectionIsSerial(c: Config, s: Sys, now: Instant, selected: seq<Item>)
          returns (trace: seq<Sys>, steps: seq<Step>)
    requires Selecting(s.st, MarkedBy(s.st, selected, now), now, selected) && s.found == []
    ensures AreSteps(c, trace, steps) && Serial(trace, steps) && trace[0] == s
    ensures trace[|steps|] == SelectedSys(s, selected, now)
  {
    hide Next, Evidence.ReminderDue, HasItem, DayOf, MarkedBy, Serial;
    if selected == [] {
      trace, steps := [s], [];
      NothingSelectedYet(s, now);
      AloneIsSerial(s);
    } else {
      var n := |selected| - 1;
      var it := selected[n];
      assert selected == selected[..n] + [it];
      FrontSelecting(s.st, now, selected[..n], it);
      trace, steps := SelectionIsSerial(c, s, now, selected[..n]);
      var b, d := trace[|steps|].(found := [Job(it, DayOf(now))]), SelectedSys(s, selected, now);
      CheckThenMark(c, s, now, selected[..n], it);
      AppendTwo(c, trace, steps, CheckReminder(it, now), b, MarkReminder(0), d);
      trace, steps := trace + [b, d], steps + [CheckReminder(it, now), MarkReminder(0)];
    }
  }

  lemma NothingSelectedYet(s: Sys, now: Instant)
    ensures SelectedSys(s, [], now) == s
  {
    assert s.jobs + JobsFor([], now) == s.jobs;
    assert MarkedBy(s.st, [], now).reminderSent == s.st.reminderSent;
  }

  lemma AloneIsSerial(s: Sys)
    ensures Serial([s], [])
  {
  }
}
