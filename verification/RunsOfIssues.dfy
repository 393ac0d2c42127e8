/** What every run keeps about unresolved issues and adjudication events. */
module RunsOfIssues {
  import opened Records
  import opened AdjudicationService
  import opened SystemRuns

  predicate IssuesDrawn(issues: seq<Issue>, drawn: set<string>) {
    forall i :: 0 <= i < |issues| ==> issues[i].id in drawn
  }

  ghost predicate AllIssuesOk(s: Sys) {
    forall t ::
      IssuesOk(t, Rows(s.st.issues, t), Rows(s.st.adjudications, t)) && IssuesDrawn(Rows(s.st.issues, t), s.drawn)
  }

  ghost predicate AllIssuesEvolve(s: Sys, s': Sys) {
    forall t :: IssuesEvolve(Rows(s.st.issues, t), Rows(s'.st.issues, t))
  }

  lemma EnsureTenant(c: Config, s: Sys, s': Sys, t: string, evidenceID: string, typ: string, now: Instant,
          newID: string, u: string)
    requires AllIssuesOk(s) && Next(c, s, Ensure(t, evidenceID, typ, now, newID), s')
    ensures IssuesOk(u, Rows(s'.st.issues, u), Rows(s'.st.adjudications, u))
            && IssuesDrawn(Rows(s'.st.issues, u), s'.drawn)
    ensures IssuesEvolve(Rows(s.st.issues, u), Rows(s'.st.issues, u))
  {
    hide IssuesOk, IssuesEvolve, Rows, Matches, OpenIssue;
    var issues := Rows(s.st.issues, u);
    assert IssuesOk(u, issues, Rows(s.st.adjudications, u));
    if u == t {
      EnsureKeepsIssues(t, issues, Rows(s.st.adjudications, t), evidenceID, typ, now, newID);
    } else {
      UnchangedEvolves(issues);
    }
  }

  lemma ResolvedDrawn(issues: seq<Issue>, issueID: string, reason: string, now: Instant, drawn: set<string>)
    requires IssuesDrawn(issues, drawn)
    ensures IssuesDrawn(ResolvedIssues(issues, issueID, reason, now), drawn)
  {
  }

  lemma ResolveTenant(c: Config, s: Sys, s': Sys, t: string, issueID: string, operator: string, reason: string,
          now: Instant, newID: string, u: string)
    requires AllIssuesOk(s) && Next(c, s, Resolve(t, issueID, operator, reason, now, newID), s')
    ensures IssuesOk(u, Rows(s'.st.issues, u), Rows(s'.st.adjudications, u))
            && IssuesDrawn(Rows(s'.st.issues, u), s'.drawn)
    ensures IssuesEvolve(Rows(s.st.issues, u), Rows(s'.st.issues, u))
  {
    hide IssuesOk, IssuesEvolve, Rows, ResolvedIssues, ResolutionEvents;
    var issues, adjudications := Rows(s.st.issues, u), Rows(s.st.adjudications, u);
    assert IssuesOk(u, issues, adjudications) && IssuesDrawn(issues, s.drawn);
    if u == t {
      ResolveKeepsIssues(t, issues, adjudications, issueID, operator, reason, now, newID);
      ResolvedDrawn(issues, issueID, reason, now, s.drawn);
    } else {
      UnchangedEvolves(issues);
    }
  }

  lemma IssuesUntouched(c: Config, s: Sys, step: Step, s': Sys)
    requires Next(c, s, step, s') && !step.Ensure? && !step.Resolve?
    ensures s'.st.issues == s.st.issues && s'.st.adjudications == s.st.adjudications && s.drawn <= s'.drawn
  {
  }

  lemma IssuesOfTenantKept(c: Config, s: Sys, step: Step, s': Sys, u: string)
    requires AllIssuesOk(s) && Next(c, s, step, s')
    ensures IssuesOk(u, Rows(s'.st.issues, u), Rows(s'.st.adjudications, u))
            && IssuesDrawn(Rows(s'.st.issues, u), s'.drawn)
    ensures IssuesEvolve(Rows(s.st.issues, u), Rows(s'.st.issues, u))
  {
    hide Next, IssuesOk, IssuesEvolve, Rows;
    assert IssuesOk(u, Rows(s.st.issues, u), Rows(s.st.adjudications, u)) && IssuesDrawn(Rows(s.st.issues, u), s.drawn);
    if step.Ensure? {
      EnsureTenant(c, s, s', step.t, step.evidenceID, step.typ, step.now, step.newID, u);
    } else if step.Resolve? {
      ResolveTenant(c, s, s', step.t, step.issueID, step.operator, step.reason, step.now, step.newID, u);
    } else {
      IssuesUntouched(c, s, step, s');
      UnchangedEvolves(Rows(s.st.issues, u));
    }
  }

  /** Every step keeps the invariant of every tenant, and moves its issues on. */
  lemma IssuesKept(c: Config, s: Sys, step: Step, s': Sys)
    requires AllIssuesOk(s) && Next(c, s, step, s')
    ensures AllIssuesOk(s') && AllIssuesEvolve(s, s')
  {
    hide Next, IssuesOk, IssuesEvolve, Rows, IssuesDrawn;
    forall u
      ensures IssuesOk(u, Rows(s'.st.issues, u), Rows(s'.st.adjudications, u))
              && IssuesDrawn(Rows(s'.st.issues, u), s'.drawn)
      ensures IssuesEvolve(Rows(s.st.issues, u), Rows(s'.st.issues, u))
    {
      IssuesOfTenantKept(c, s, step, s', u);
    }
  }

  lemma IssuesAtStart()
    ensures AllIssuesOk(START)
  {
  }

  // ---- The issues alone -----------------------------------------------------

  /** The invariant of the issues alone. */
  predicate ListOk(issues: seq<Issue>, drawn: set<string>) {
    DistinctIssues(issues) && OneOpen(issues) && IssuesDrawn(issues, drawn)
  }

  lemma EnsureDrawn(issues: seq<Issue>, tenantID: string, evidenceID: string, typ: string, now: Instant, newID: string,
          drawn: set<string>)
    requires IssuesDrawn(issues, drawn)
    ensures IssuesDrawn(Ensured(issues, tenantID, evidenceID, typ, now, newID).0, drawn + {newID})
  {
    hide OpenIssue;
  }

  lemma EnsureList(c: Config, s: Sys, s': Sys, t: string, evidenceID: string, typ: string, now: Instant,
          newID: string, u: string)
    requires ListOk(Rows(s.st.issues, u), s.drawn) && Next(c, s, Ensure(t, evidenceID, typ, now, newID), s')
    ensures ListOk(Rows(s'.st.issues, u), s'.drawn) && IssuesEvolve(Rows(s.st.issues, u), Rows(s'.st.issues, u))
  {
    hide DistinctIssues, OneOpen, IssuesEvolve, Ensured, Rows;
    var issues := Rows(s.st.issues, u);
    if u == t {
      EnsureKeepsList(t, issues, evidenceID, typ, now, newID);
      EnsureDrawn(issues, t, evidenceID, typ, now, newID, s.drawn);
    } else {
      UnchangedEvolves(issues);
    }
  }

  lemma ResolveList(c: Config, s: Sys, s': Sys, t: string, issueID: string, operator: string, reason: string,
          now: Instant, newID: string, u: string)
    requires ListOk(Rows(s.st.issues, u), s.drawn)
             && Next(c, s, Resolve(t, issueID, operator, reason, now, newID), s')
    ensures ListOk(Rows(s'.st.issues, u), s'.drawn) && IssuesEvolve(Rows(s.st.issues, u), Rows(s'.st.issues, u))
  {
    hide DistinctIssues, OneOpen, IssuesEvolve, ResolvedIssues, ResolutionEvents, Rows;
    var issues := Rows(s.st.issues, u);
    if u == t {
      ResolveKeepsList(issues, issueID, reason, now);
      ResolvedDrawn(issues, issueID, reason, now, s.drawn);
    } else {
      UnchangedEvolves(issues);
    }
  }

  /** Every step keeps the invariant of a tenant's issues, whatever its events say. */
  lemma ListKept(c: Config, s: Sys, step: Step, s': Sys, u: string)
    requires ListOk(Rows(s.st.issues, u), s.drawn) && Next(c, s, step, s')
    ensures ListOk(Rows(s'.st.issues, u), s'.drawn) && IssuesEvolve(Rows(s.st.issues, u), Rows(s'.st.issues, u))
  {
    hide Next, DistinctIssues, OneOpen, IssuesEvolve, Rows;
    if step.Ensure? {
      EnsureList(c, s, s', step.t, step.evidenceID, step.typ, step.now, step.newID, u);
    } else if step.Resolve? {
      ResolveList(c, s, s', step.t, step.issueID, step.operator, step.reason, step.now, step.newID, u);
    } else {
      IssuesUntouched(c, s, step, s');
      UnchangedEvolves(Rows(s.st.issues, u));
    }
  }

  // ---- The events alone -----------------------------------------------------

  lemma ResolveExtends(c: Config, s: Sys, step: Step, s': Sys, u: string)
    requires Next(c, s, step, s') && (step.Ensure? || step.Resolve?)
    ensures Extends(Rows(s.st.adjudications, u), Rows(s'.st.adjudications, u))
  {
    hide Ensured, ResolvedIssues, Rows;
  }

  /** Events are only added, in front. */
  lemma {:induction false} EventsExtend(c: Config, trace: seq<Sys>, steps: seq<Step>, j: nat, k: nat, u: string)
    requires AreSteps(c, trace, steps) && j <= k <= |steps|
    ensures Extends(Rows(trace[j].st.adjudications, u), Rows(trace[k].st.adjudications, u))
    decreases k
  {
    hide Next, Rows;
    if j < k {
      EventsExtend(c, trace, steps, j, k - 1, u);
      if steps[k - 1].Ensure? || steps[k - 1].Resolve? {
        ResolveExtends(c, trace[k - 1], steps[k - 1], trace[k], u);
      } else {
        IssuesUntouched(c, trace[k - 1], steps[k - 1], trace[k]);
      }
    }
  }
}
