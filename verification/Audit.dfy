/** The audit log: appended to by every service, listed newest first for one tenant. */
module AuditService {
  import opened Records
  import Sorting
  import Store

  ghost predicate LogStep(before: Store.State, after: Store.State, entry: AuditEntry) {
    after == before.(auditLogs := before.auditLogs + [entry])
  }

  method Log(store: Store.MemoryStore, tenantID: string, userID: string, action: string, entityType: string,
          entityID: string, metadata: string, now: Instant)
    modifies store
    ensures LogStep(old(store.st), store.st, AuditEntry(tenantID, userID, action, entityType, entityID, metadata, now))
  {
    store.st := store.st.(auditLogs := store.st.auditLogs
      + [AuditEntry(tenantID, userID, action, entityType, entityID, metadata, now)]);
  }

  datatype AuditLine = AuditLine(action: string, entityType: string, entityID: string, createdAt: Instant)

  function LineOf(e: AuditEntry): AuditLine {
    AuditLine(e.action, e.entityType, e.entityID, e.createdAt)
  }

  function OfTenant(tenantID: string): AuditEntry -> bool {
    (e: AuditEntry) => e.tenantID == tenantID
  }

  function Reversed<T>(s: seq<T>): (r: seq<T>)
    ensures |r| == |s| && forall k :: 0 <= k < |s| ==> r[k] == s[|s| - 1 - k]
  {
    if s == [] then [] else [s[|s| - 1]] + Reversed(s[..|s| - 1])
  }

  function Lines(entries: seq<AuditEntry>): seq<AuditLine> {
    seq(|entries|, k requires 0 <= k < |entries| => LineOf(entries[k]))
  }

  /** The tenant's whole list, newest first. */
  function Newest(logs: seq<AuditEntry>, tenantID: string): seq<AuditLine> {
    Lines(Reversed(Sorting.Filter(logs, OfTenant(tenantID))))
  }

  /** A limit that is not positive means no limit. */
  function Listed(logs: seq<AuditEntry>, tenantID: string, limit: int): seq<AuditLine> {
    if limit > 0 then Sorting.AtMost(Newest(logs, tenantID), limit) else Newest(logs, tenantID)
  }

  lemma NewestSnoc(logs: seq<AuditEntry>, e: AuditEntry, tenantID: string)
    ensures Newest(logs + [e], tenantID)
            == (if e.tenantID == tenantID then [LineOf(e)] else []) + Newest(logs, tenantID)
  {
    hide LineOf;
    Sorting.FilterSnoc(logs, e, OfTenant(tenantID));
    if e.tenantID == tenantID {
      var kept := Sorting.Filter(logs, OfTenant(tenantID));
      assert (kept + [e])[..|kept|] == kept;
      assert Reversed(kept + [e]) == [e] + Reversed(kept);
    }
  }

  method ListByTenant(store: Store.MemoryStore, tenantID: string, limit: int) returns (out: seq<AuditLine>)
    ensures out == Listed(store.st.auditLogs, tenantID, limit)
  {
    hide Newest, LineOf;
    var logs := store.st.auditLogs;
    out := [];
    assert logs[..|logs|] == logs;
    var i := |logs|;
    while i > 0
      invariant 0 <= i <= |logs|
      invariant Newest(logs, tenantID) == out + Newest(logs[..i], tenantID)
      invariant limit > 0 ==> |out| < limit
    {
      i := i - 1;
      var e := logs[i];
      assert logs[..i + 1] == logs[..i] + [e];
      NewestSnoc(logs[..i], e, tenantID);
      if e.tenantID != tenantID {
        continue;
      }
      out := out + [LineOf(e)];
      if limit > 0 && |out| >= limit {
        return;
      }
    }
    assert logs[..0] == [];
    NothingLogged(tenantID);
  }

  lemma NothingLogged(tenantID: string)
    ensures Newest([], tenantID) == []
  {
  }

  /** What is logged for one tenant moves to the front of its list, and leaves every other tenant's list alone. */
  lemma ListedAfterLog(logs: seq<AuditEntry>, e: AuditEntry, tenantID: string, limit: int)
    ensures Listed(logs + [e], tenantID, limit) ==
            if e.tenantID != tenantID then Listed(logs, tenantID, limit)
            else if limit > 0 then [LineOf(e)] + Sorting.AtMost(Listed(logs, tenantID, limit), limit - 1)
            else [LineOf(e)] + Listed(logs, tenantID, limit)
  {
    hide Newest, LineOf;
    NewestSnoc(logs, e, tenantID);
  }

  /** The line shows what the entry says. */
  predicate Shows(line: AuditLine, e: AuditEntry) {
    && line.action == e.action && line.entityType == e.entityType && line.entityID == e.entityID
    && line.createdAt == e.createdAt
  }

  /** The lines show the tenant's entries at these places of the log. */
  predicate ShownAt(logs: seq<AuditEntry>, tenantID: string, lines: seq<AuditLine>, at: seq<nat>) {
    && |at| == |lines|
    && (forall j :: 0 <= j < |at| ==>
          at[j] < |logs| && logs[at[j]].tenantID == tenantID && Shows(lines[j], logs[at[j]]))
    && (forall j, k :: 0 <= j < k < |at| ==> at[j] > at[k])
  }

  lemma {:induction false} NewestAt(logs: seq<AuditEntry>, tenantID: string) returns (at: seq<nat>)
    ensures ShownAt(logs, tenantID, Newest(logs, tenantID), at)
    ensures forall i :: 0 <= i < |logs| && logs[i].tenantID == tenantID ==> i in at
  {
    hide Newest;
    if logs == [] {
      NothingLogged(tenantID);
      at := [];
    } else {
      var n := |logs| - 1;
      at := NewestAt(logs[..n], tenantID);
      assert logs == logs[..n] + [logs[n]];
      NewestSnoc(logs[..n], logs[n], tenantID);
      if logs[n].tenantID == tenantID {
        at := [n] + at;
      }
    }
  }

  /** What is listed: the tenant's entries, the last logged first, each once and with its own words; if not all, then as
      many as the limit says, and the ones logged last. */
  lemma ListedMeans(logs: seq<AuditEntry>, tenantID: string, limit: int) returns (at: seq<nat>)
    ensures ShownAt(logs, tenantID, Listed(logs, tenantID, limit), at)
    ensures forall i :: 0 <= i < |logs| && logs[i].tenantID == tenantID ==>
              i in at || (limit > 0 && |at| == limit && forall j :: 0 <= j < |at| ==> at[j] > i)
    ensures limit > 0 ==> |at| <= limit
  {
    hide Newest;
    var all := NewestAt(logs, tenantID);
    at := if limit > 0 then Sorting.AtMost(all, limit) else all;
    forall i | 0 <= i < |logs| && logs[i].tenantID == tenantID
      ensures i in at || (limit > 0 && |at| == limit && forall j :: 0 <= j < |at| ==> at[j] > i)
    {
      assert i in all;
      var k :| 0 <= k < |all| && all[k] == i;
      if k < |at| {
        assert at[k] == i;
      }
    }
  }
}
