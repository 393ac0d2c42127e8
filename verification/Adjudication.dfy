/** Unresolved issues and the adjudication events that resolve them. */
module AdjudicationService {
  import opened Records
  import opened Store

  // ---- EnsureIssue ----------------------------------------------------------

  predicate Matches(issue: Issue, evidenceID: string, typ: string) {
    issue.evidenceID == evidenceID && issue.typ == typ && issue.resolvedAt.None?
  }

  /** The first open issue of the kind, if there is one. */
  function OpenIssue(issues: seq<Issue>, evidenceID: string, typ: string): Option<string> {
    if issues == [] then None
    else if Matches(issues[0], evidenceID, typ) then Some(issues[0].id)
    else OpenIssue(issues[1..], evidenceID, typ)
  }

  function Ensured(issues: seq<Issue>, tenantID: string, evidenceID: string, typ: string, now: Instant,
          newID: string): (seq<Issue>, string) {
    match OpenIssue(issues, evidenceID, typ)
    case Some(id) => (issues, id)
    case None => ([Issue(newID, tenantID, evidenceID, typ, now, None, "")] + issues, newID)
  }

  ghost predicate EnsureStep(before: State, after: State, tenantID: string, evidenceID: string, typ: string,
          now: Instant, newID: string) {
    && RowsSet(before.issues, after.issues, tenantID,
      Ensured(Rows(before.issues, tenantID), tenantID, evidenceID, typ, now, newID).0)
    && after == before.(issues := after.issues)
  }

  method EnsureIssue(store: MemoryStore, tenantID: string, evidenceID: string, typ: string, now: Instant,
          newID: string) returns (id: string)
    modifies store
    ensures id == Ensured(Rows(old(store.st).issues, tenantID), tenantID, evidenceID, typ, now, newID).1
    ensures EnsureStep(old(store.st), store.st, tenantID, evidenceID, typ, now, newID)
  {
    var arr := Rows(store.st.issues, tenantID);
    for i := 0 to |arr|
      invariant OpenIssue(arr, evidenceID, typ) == OpenIssue(arr[i..], evidenceID, typ)
      invariant store.st == old(store.st)
    {
      assert arr[i..][1..] == arr[i + 1..];
      if Matches(arr[i], evidenceID, typ) {
        return arr[i].id;
      }
    }
    id := newID;
    store.st := store.st.(issues :=
      store.st.issues[tenantID := [Issue(newID, tenantID, evidenceID, typ, now, None, "")] + arr]);
  }

  // ---- ResolveIssue ---------------------------------------------------------

  datatype ResolveResult = Resolved | AlreadyResolved | IssueNotFound

  /** The index of the issue with this identifier, or the length when there is none. */
  function IssueIndex(issues: seq<Issue>, issueID: string): (i: nat)
    ensures i <= |issues|
    ensures i < |issues| ==> issues[i].id == issueID
    ensures forall k :: 0 <= k < i ==> issues[k].id != issueID
  {
    if issues == [] || issues[0].id == issueID then 0 else 1 + IssueIndex(issues[1..], issueID)
  }

  function ResolveOutcome(issues: seq<Issue>, issueID: string): ResolveResult {
    var i := IssueIndex(issues, issueID);
    if i == |issues| then IssueNotFound
    else if issues[i].resolvedAt.Some? then AlreadyResolved
    else Resolved
  }

  function ResolvedIssues(issues: seq<Issue>, issueID: string, reason: string, now: Instant): seq<Issue> {
    var i := IssueIndex(issues, issueID);
    if ResolveOutcome(issues, issueID) != Resolved then issues
    else issues[i := issues[i].(resolvedAt := Some(now), resolvedReason := reason)]
  }

  function ResolutionEvents(issues: seq<Issue>, adjudications: seq<Adjudication>, tenantID: string, issueID: string,
          operator: string, reason: string, now: Instant, newID: string): seq<Adjudication> {
    if ResolveOutcome(issues, issueID) != Resolved then adjudications
    else [Adjudication(newID, tenantID, issueID, "resolved", operator, reason, now)] + adjudications
  }

  ghost predicate ResolveStep(before: State, after: State, tenantID: string, issueID: string, operator: string,
          reason: string, now: Instant, newID: string) {
    var issues, adjudications := Rows(before.issues, tenantID), Rows(before.adjudications, tenantID);
    && RowsSet(before.issues, after.issues, tenantID, ResolvedIssues(issues, issueID, reason, now))
    && RowsSet(before.adjudications, after.adjudications, tenantID,
               ResolutionEvents(issues, adjudications, tenantID, issueID, operator, reason, now, newID))
    && after == before.(issues := after.issues, adjudications := after.adjudications)
  }

  method ResolveIssue(store: MemoryStore, tenantID: string, issueID: string, operator: string, reason: string,
          now: Instant, newID: string)
    returns (r: ResolveResult)
    modifies store
    ensures r == ResolveOutcome(Rows(old(store.st).issues, tenantID), issueID)
    ensures ResolveStep(old(store.st), store.st, tenantID, issueID, operator, reason, now, newID)
    ensures r != Resolved ==> store.st == old(store.st)
  {
    var arr := Rows(store.st.issues, tenantID);
    var found := false;
    var i := 0;
    while i < |arr|
      invariant 0 <= i <= |arr| && store.st == old(store.st)
      invariant !found && forall k :: 0 <= k < i ==> arr[k].id != issueID
    {
      if arr[i].id == issueID {
        if arr[i].resolvedAt.Some? {
          return AlreadyResolved;
        }
        arr := arr[i := arr[i].(resolvedAt := Some(now), resolvedReason := reason)];
        found := true;
        break;
      }
      i := i + 1;
    }
    if !found {
      return IssueNotFound;
    }
    var event := Adjudication(newID, tenantID, issueID, "resolved", operator, reason, now);
    store.st := store.st.(
      issues := store.st.issues[tenantID := arr],
      adjudications := store.st.adjudications[tenantID := [event] + Rows(store.st.adjudications, tenantID)]);
    return Resolved;
  }

  // ---- What the two operations do -------------------------------------------

  /** An open issue about this evidence item and of this type. */
  predicate OpenAt(issues: seq<Issue>, i: int, evidenceID: string, typ: string) {
    0 <= i < |issues| && issues[i].evidenceID == evidenceID && issues[i].typ == typ && issues[i].resolvedAt == None
  }

  ghost predicate FirstOpen(issues: seq<Issue>, i: int, evidenceID: string, typ: string) {
    OpenAt(issues, i, evidenceID, typ) && forall k :: 0 <= k < i ==> !OpenAt(issues, k, evidenceID, typ)
  }

  /** The identifier is that of the first open issue of the kind; if there is none, a new open issue is in front. */
  lemma {:induction false} EnsureMeans(issues: seq<Issue>, tenantID: string, evidenceID: string, typ: string,
          now: Instant, newID: string)
    ensures var e := Ensured(issues, tenantID, evidenceID, typ, now, newID);
            if exists i :: OpenAt(issues, i, evidenceID, typ)
            then e.0 == issues && exists i :: FirstOpen(issues, i, evidenceID, typ) && e.1 == issues[i].id
            else e.0 == [Issue(newID, tenantID, evidenceID, typ, now, None, "")] + issues && e.1 == newID
  {
    if issues != [] {
      var rest := issues[1..];
      EnsureMeans(rest, tenantID, evidenceID, typ, now, newID);
      forall i ensures OpenAt(rest, i, evidenceID, typ) <==> i >= 0 && OpenAt(issues, i + 1, evidenceID, typ) {
      }
      if OpenAt(issues, 0, evidenceID, typ) {
        assert FirstOpen(issues, 0, evidenceID, typ);
      } else {
        if i :| OpenAt(issues, i, evidenceID, typ) {
          assert OpenAt(rest, i - 1, evidenceID, typ);
        }
        if i :| FirstOpen(rest, i, evidenceID, typ)
                && Ensured(rest, tenantID, evidenceID, typ, now, newID).1 == rest[i].id {
          FirstOpenLater(issues, i, evidenceID, typ);
        }
      }
    }
  }

  lemma FirstOpenLater(issues: seq<Issue>, i: int, evidenceID: string, typ: string)
    requires issues != [] && !OpenAt(issues, 0, evidenceID, typ) && FirstOpen(issues[1..], i, evidenceID, typ)
    ensures FirstOpen(issues, i + 1, evidenceID, typ)
  {
    forall k | 0 <= k < i + 1 ensures !OpenAt(issues, k, evidenceID, typ) {
      assert k > 0 ==> !OpenAt(issues[1..], k - 1, evidenceID, typ);
    }
  }

  /** Resolving closes the first issue with the identifier, if it is open, and records one event in front; otherwise the
      answer says why and nothing changes. */
  lemma ResolveMeans(issues: seq<Issue>, adjudications: seq<Adjudication>, tenantID: string, issueID: string,
          operator: string, reason: string, now: Instant, newID: string)
    ensures var r, after, events := ResolveOutcome(issues, issueID), ResolvedIssues(issues, issueID, reason, now),
              ResolutionEvents(issues, adjudications, tenantID, issueID, operator, reason, now, newID);
            if forall k :: 0 <= k < |issues| ==> issues[k].id != issueID
            then r == IssueNotFound && after == issues && events == adjudications
            else exists i :: 0 <= i < |issues| && issues[i].id == issueID
                   && (forall k :: 0 <= k < i ==> issues[k].id != issueID)
                   && if issues[i].resolvedAt == None
                      then r == Resolved
                        && after == issues[i := issues[i].(resolvedAt := Some(now), resolvedReason := reason)]
                        && events == [Adjudication(newID, tenantID, issueID, "resolved", operator, reason, now)]
                                     + adjudications
                      else r == AlreadyResolved && after == issues && events == adjudications
  {
    var i := IssueIndex(issues, issueID);
  }

  // ---- What every run keeps -------------------------------------------------

  predicate DistinctIssues(issues: seq<Issue>) {
    forall i, j :: 0 <= i < j < |issues| ==> issues[i].id != issues[j].id
  }

  /** At most one open issue per evidence item and type. */
  predicate OneOpen(issues: seq<Issue>) {
    forall i, j :: 0 <= i < j < |issues| && issues[i].resolvedAt.None? && issues[j].resolvedAt.None? ==>
      issues[i].evidenceID != issues[j].evidenceID || issues[i].typ != issues[j].typ
  }

  /** The event records this resolution. */
  predicate Documents(a: Adjudication, issue: Issue) {
    && a.issueID == issue.id
    && issue.resolvedAt == Some(a.createdAt)
    && issue.resolvedReason == a.reason
  }

  ghost predicate HasEvent(adjudications: seq<Adjudication>, issue: Issue) {
    exists k :: 0 <= k < |adjudications| && Documents(adjudications[k], issue)
  }

  ghost predicate HasIssue(issues: seq<Issue>, a: Adjudication) {
    exists i :: 0 <= i < |issues| && Documents(a, issues[i])
  }

  /** Resolved issues and adjudication events correspond one to one. */
  ghost predicate Corresponds(issues: seq<Issue>, adjudications: seq<Adjudication>) {
    && (forall i :: 0 <= i < |issues| && issues[i].resolvedAt.Some? ==> HasEvent(adjudications, issues[i]))
    && (forall k :: 0 <= k < |adjudications| ==> HasIssue(issues, adjudications[k]))
    && (forall k, m :: 0 <= k < m < |adjudications| ==> adjudications[k].issueID != adjudications[m].issueID)
  }

  ghost predicate IssuesOk(tenantID: string, issues: seq<Issue>, adjudications: seq<Adjudication>) {
    && DistinctIssues(issues) && OneOpen(issues) && Corresponds(issues, adjudications)
    && (forall i :: 0 <= i < |issues| ==> issues[i].tenantID == tenantID)
    && (forall k :: 0 <= k < |adjudications| ==> adjudications[k].tenantID == tenantID)
  }

  /** The later list extends the earlier one at its front; what identifies an issue stays, and a resolved issue
      never changes again. */
  ghost predicate IssuesEvolve(before: seq<Issue>, after: seq<Issue>) {
    && |before| <= |after|
    && forall i :: 0 <= i < |before| ==>
         var old_, new_ := before[i], after[|after| - |before| + i];
         && new_.(resolvedAt := old_.resolvedAt, resolvedReason := old_.resolvedReason) == old_
         && (old_.resolvedAt.Some? ==> new_ == old_)
  }

  /** The issues that were resolved are the same later. */
  ghost predicate ResolvedStay(before: seq<Issue>, after: seq<Issue>) {
    && |before| <= |after|
    && forall i :: 0 <= i < |before| && before[i].resolvedAt.Some? ==> after[|after| - |before| + i] == before[i]
  }

  lemma IssuesEvolveOn(a: seq<Issue>, b: seq<Issue>, c: seq<Issue>)
    requires IssuesEvolve(a, b) && IssuesEvolve(b, c)
    ensures IssuesEvolve(a, c)
  {
  }

  lemma {:induction false} OpenIssueFinds(issues: seq<Issue>, evidenceID: string, typ: string)
    ensures OpenIssue(issues, evidenceID, typ).None? <==>
            forall i :: 0 <= i < |issues| ==> !Matches(issues[i], evidenceID, typ)
    ensures OpenIssue(issues, evidenceID, typ).Some? ==>
              exists i :: 0 <= i < |issues| && Matches(issues[i], evidenceID, typ)
                          && issues[i].id == OpenIssue(issues, evidenceID, typ).value
  {
    if issues != [] {
      OpenIssueFinds(issues[1..], evidenceID, typ);
      if !Matches(issues[0], evidenceID, typ) {
        forall i | 0 <= i < |issues[1..]| ensures issues[1..][i] == issues[i + 1] {}
        if OpenIssue(issues, evidenceID, typ).None? {
          forall i | 0 <= i < |issues| ensures !Matches(issues[i], evidenceID, typ) {
            assert i > 0 ==> issues[i] == issues[1..][i - 1];
          }
        }
      }
    }
  }

  /** `EnsureIssue` keeps the list in order, whatever the events say. */
  lemma EnsureKeepsList(tenantID: string, issues: seq<Issue>, evidenceID: string, typ: string, now: Instant,
          newID: string)
    requires DistinctIssues(issues) && OneOpen(issues)
    requires forall i :: 0 <= i < |issues| ==> issues[i].id != newID
    ensures var next := Ensured(issues, tenantID, evidenceID, typ, now, newID).0;
            DistinctIssues(next) && OneOpen(next) && IssuesEvolve(issues, next)
  {
    hide OpenIssue, DistinctIssues, OneOpen, IssuesEvolve, Matches;
    OpenIssueFinds(issues, evidenceID, typ);
    UnchangedEvolves(issues);
    if OpenIssue(issues, evidenceID, typ).None? {
      AddedIsOpen(issues, Issue(newID, tenantID, evidenceID, typ, now, None, ""));
      AddedEvolves(issues, Issue(newID, tenantID, evidenceID, typ, now, None, ""));
    }
  }

  /** `EnsureIssue` keeps the invariant, and the identifier it returns belongs to an open issue of the kind. */
  lemma EnsureKeepsIssues(tenantID: string, issues: seq<Issue>, adjudications: seq<Adjudication>, evidenceID: string,
          typ: string, now: Instant, newID: string)
    requires IssuesOk(tenantID, issues, adjudications)
    requires forall i :: 0 <= i < |issues| ==> issues[i].id != newID
    ensures var e := Ensured(issues, tenantID, evidenceID, typ, now, newID);
            && IssuesOk(tenantID, e.0, adjudications) && IssuesEvolve(issues, e.0)
            && exists i :: 0 <= i < |e.0| && Matches(e.0[i], evidenceID, typ) && e.0[i].id == e.1
  {
    hide Corresponds, OpenIssue, DistinctIssues, OneOpen, IssuesEvolve;
    OpenIssueFinds(issues, evidenceID, typ);
    EnsureKeepsList(tenantID, issues, evidenceID, typ, now, newID);
    if OpenIssue(issues, evidenceID, typ).None? {
      var added := Issue(newID, tenantID, evidenceID, typ, now, None, "");
      assert ([added] + issues)[0] == added;
      PrependCorresponds(issues, adjudications, added);
    }
  }

  /** A new open issue of a kind that had none. */
  lemma AddedIsOpen(issues: seq<Issue>, added: Issue)
    requires DistinctIssues(issues) && OneOpen(issues) && added.resolvedAt.None?
    requires forall i :: 0 <= i < |issues| ==>
             issues[i].id != added.id && !Matches(issues[i], added.evidenceID, added.typ)
    ensures var next := [added] + issues;
            DistinctIssues(next) && OneOpen(next) && Matches(added, added.evidenceID, added.typ)
  {
    var next := [added] + issues;
    assert forall i :: 0 < i < |next| ==> next[i] == issues[i - 1];
  }

  lemma AddedEvolves(issues: seq<Issue>, added: Issue)
    ensures IssuesEvolve(issues, [added] + issues)
  {
    assert |[added] + issues| - |issues| == 1;
  }

  lemma PrependCorresponds(issues: seq<Issue>, adjudications: seq<Adjudication>, added: Issue)
    requires Corresponds(issues, adjudications) && added.resolvedAt.None?
    ensures Corresponds([added] + issues, adjudications)
  {
    var next := [added] + issues;
    forall i | 0 <= i < |next| && next[i].resolvedAt.Some?
      ensures HasEvent(adjudications, next[i])
    {
      assert next[i] == issues[i - 1];
    }
    forall k | 0 <= k < |adjudications|
      ensures HasIssue(next, adjudications[k])
    {
      assert HasIssue(issues, adjudications[k]);
      var i :| 0 <= i < |issues| && Documents(adjudications[k], issues[i]);
      assert next[i + 1] == issues[i];
    }
  }

  /** `ResolveIssue` keeps the list in order, whatever the events say. */
  lemma ResolveKeepsList(issues: seq<Issue>, issueID: string, reason: string, now: Instant)
    requires DistinctIssues(issues) && OneOpen(issues)
    ensures var next := ResolvedIssues(issues, issueID, reason, now);
            DistinctIssues(next) && OneOpen(next) && IssuesEvolve(issues, next)
  {
    hide DistinctIssues, OneOpen, IssuesEvolve;
    UnchangedEvolves(issues);
    if ResolveOutcome(issues, issueID) == Resolved {
      ClosingKeepsLists(issues, IssueIndex(issues, issueID),
        Adjudication("", "", issueID, "resolved", "", reason, now));
    }
  }

  /** `ResolveIssue` keeps the invariant. */
  lemma ResolveKeepsIssues(tenantID: string, issues: seq<Issue>, adjudications: seq<Adjudication>, issueID: string,
          operator: string, reason: string, now: Instant, newID: string)
    requires IssuesOk(tenantID, issues, adjudications)
    ensures IssuesOk(tenantID, ResolvedIssues(issues, issueID, reason, now),
                     ResolutionEvents(issues, adjudications, tenantID, issueID, operator, reason, now, newID))
    ensures IssuesEvolve(issues, ResolvedIssues(issues, issueID, reason, now))
  {
    hide Corresponds, DistinctIssues, OneOpen, IssuesEvolve;
    ResolveKeepsList(issues, issueID, reason, now);
    if ResolveOutcome(issues, issueID) == Resolved {
      ResolveCorresponds(issues, adjudications, IssueIndex(issues, issueID),
        Adjudication(newID, tenantID, issueID, "resolved", operator, reason, now));
    }
  }

  function Closed(issue: Issue, event: Adjudication): Issue {
    issue.(resolvedAt := Some(event.createdAt), resolvedReason := event.reason)
  }

  lemma UnchangedEvolves(issues: seq<Issue>)
    ensures IssuesEvolve(issues, issues)
  {
  }

  lemma ClosingKeepsLists(issues: seq<Issue>, i: nat, event: Adjudication)
    requires i < |issues| && issues[i].resolvedAt.None? && DistinctIssues(issues) && OneOpen(issues)
    ensures var next := issues[i := Closed(issues[i], event)];
            DistinctIssues(next) && OneOpen(next) && IssuesEvolve(issues, next)
  {
  }

  lemma ResolveCorresponds(issues: seq<Issue>, adjudications: seq<Adjudication>, i: nat, event: Adjudication)
    requires Corresponds(issues, adjudications) && DistinctIssues(issues)
    requires i < |issues| && issues[i].resolvedAt.None? && event.issueID == issues[i].id
    ensures Corresponds(issues[i := Closed(issues[i], event)], [event] + adjudications)
  {
    hide HasEvent, HasIssue, Documents;
    var next, events := issues[i := Closed(issues[i], event)], [event] + adjudications;
    forall j | 0 <= j < |next| && next[j].resolvedAt.Some?
      ensures HasEvent(events, next[j])
    {
      ResolvedHasEvent(issues, adjudications, i, event, j);
    }
    forall k | 0 <= k < |events|
      ensures HasIssue(next, events[k])
      ensures k > 0 ==> events[k].issueID != event.issueID
    {
      EventHasIssue(issues, adjudications, i, event, k);
    }
    forall k, m | 0 <= k < m < |events|
      ensures events[k].issueID != events[m].issueID
    {
      assert events[m] == adjudications[m - 1];
      assert k > 0 ==> events[k] == adjudications[k - 1];
    }
  }

  lemma ResolvedHasEvent(issues: seq<Issue>, adjudications: seq<Adjudication>, i: nat, event: Adjudication, j: nat)
    requires Corresponds(issues, adjudications)
    requires i < |issues| && event.issueID == issues[i].id && j < |issues|
    requires j == i || issues[j].resolvedAt.Some?
    ensures HasEvent([event] + adjudications, issues[i := Closed(issues[i], event)][j])
  {
    var next, events := issues[i := Closed(issues[i], event)], [event] + adjudications;
    if j == i {
      assert Documents(events[0], next[j]);
    } else {
      assert HasEvent(adjudications, issues[j]);
      var k :| 0 <= k < |adjudications| && Documents(adjudications[k], issues[j]);
      assert events[k + 1] == adjudications[k];
    }
  }

  lemma EventHasIssue(issues: seq<Issue>, adjudications: seq<Adjudication>, i: nat, event: Adjudication, k: nat)
    requires Corresponds(issues, adjudications) && DistinctIssues(issues)
    requires i < |issues| && issues[i].resolvedAt.None? && event.issueID == issues[i].id && k <= |adjudications|
    ensures var events := [event] + adjudications;
            (k > 0 ==> events[k].issueID != event.issueID) && HasIssue(issues[i := Closed(issues[i], event)], events[k])
  {
    var next := issues[i := Closed(issues[i], event)];
    if k == 0 {
      assert Documents(event, next[i]);
    } else {
      var a := adjudications[k - 1];
      assert HasIssue(issues, a);
      var j :| 0 <= j < |issues| && Documents(a, issues[j]);
      assert j != i;
      assert next[j] == issues[j];
    }
  }

  // ---- Issues and events of different moments -------------------------------

  /** The later list of events is the earlier one with newer events in front. */
  predicate Extends(before: seq<Adjudication>, after: seq<Adjudication>) {
    |before| <= |after| && after[|after| - |before|..] == before
  }

  function ResolvedIDs(issues: seq<Issue>): set<string> {
    set i | 0 <= i < |issues| && issues[i].resolvedAt.Some? :: issues[i].id
  }

  function EventIDs(adjudications: seq<Adjudication>): set<string> {
    set k | 0 <= k < |adjudications| :: adjudications[k].issueID
  }

  lemma {:induction false} DistinctEventIDs(adjudications: seq<Adjudication>)
    requires forall k, m :: 0 <= k < m < |adjudications| ==> adjudications[k].issueID != adjudications[m].issueID
    ensures |EventIDs(adjudications)| == |adjudications|
  {
    if adjudications != [] {
      var a, rest := adjudications[0], adjudications[1..];
      DistinctEventIDs(rest);
      assert EventIDs(adjudications) == EventIDs(rest) + {a.issueID} by {
        forall id ensures id in EventIDs(adjudications) <==> id in EventIDs(rest) + {a.issueID} {
          if k :| 0 <= k < |rest| && rest[k].issueID == id {
            assert adjudications[k + 1].issueID == id;
          }
          if k :| 0 <= k < |adjudications| && adjudications[k].issueID == id {
            assert k > 0 ==> rest[k - 1].issueID == id;
          }
        }
      }
    }
  }

  /** So there are as many events as resolved issues. */
  lemma ResolvedAreCounted(issues: seq<Issue>, adjudications: seq<Adjudication>)
    requires Corresponds(issues, adjudications)
    ensures |ResolvedIDs(issues)| == |adjudications|
  {
    DistinctEventIDs(adjudications);
    forall id ensures id in ResolvedIDs(issues) <==> id in EventIDs(adjudications) {
      if i :| 0 <= i < |issues| && issues[i].resolvedAt.Some? && issues[i].id == id {
        assert HasEvent(adjudications, issues[i]);
      }
      if k :| 0 <= k < |adjudications| && adjudications[k].issueID == id {
        assert HasIssue(issues, adjudications[k]);
      }
    }
    assert ResolvedIDs(issues) == EventIDs(adjudications);
  }

  /** Issues found with the events of an earlier or a later moment correspond to them exactly when there are as many
      events as resolved issues. */
  lemma CorrespondIffCounted(issues: seq<Issue>, events: seq<Adjudication>, found: seq<Adjudication>)
    requires Corresponds(issues, events) && (Extends(events, found) || Extends(found, events))
    ensures Corresponds(issues, found) <==> |ResolvedIDs(issues)| == |found|
  {
    hide Corresponds, ResolvedIDs;
    ResolvedAreCounted(issues, events);
    if Corresponds(issues, found) {
      ResolvedAreCounted(issues, found);
    }
    assert |events| == |found| ==> events == found;
  }
}
