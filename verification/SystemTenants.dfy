/** What the services store for other tenants never shows in a tenant's graph. */
module SystemTenants {
  import opened Records
  import opened GraphModel
  import opened EvidenceGraph
  import Store
  import opened EvidenceService
  import opened OperationsService
  import opened AdjudicationService
  import BillingService
  import opened RemindersService
  import opened SystemRuns

  function TenantDataOf(st: Store.State, tenantID: string): TenantData {
    TenantData(Rows(st.proofpacks, tenantID), Rows(st.reviews, tenantID), Rows(st.opSnapshots, tenantID),
      Rows(st.events, tenantID), Rows(st.reports, tenantID))
  }

  /** `LoadTenantGraphData`; without a store there is no data. */
  method LoadTenantGraphData(store: Store.MemoryStore?, tenantID: string) returns (data: TenantData)
    ensures data == if store == null then NO_DATA else TenantDataOf(store.st, tenantID)
  {
    data := NO_DATA;
    if store == null {
      return;
    }
    data := data.(proofpacks := Rows(store.st.proofpacks, tenantID));
    data := data.(reviews := Rows(store.st.reviews, tenantID));
    data := data.(opSnapshots := Rows(store.st.opSnapshots, tenantID));
    data := data.(events := Rows(store.st.events, tenantID));
    data := data.(reports := Rows(store.st.reports, tenantID));
  }

  /** Everything a graph of the tenant is built from: its items and records, and what its narratives are told from. */
  datatype View = View(items: seq<Item>, data: TenantData, activation: Milestones)

  function ViewOf(st: Store.State, tenantID: string): View {
    View(Rows(st.evidence, tenantID), TenantDataOf(st, tenantID), MilestonesAt(st.activation, tenantID))
  }

  /** The tenant a step is about; payments, reminders and audit entries are about none. */
  function TenantOf(step: Step): Option<string> {
    match step
    case CreateItem(t, _, _, _, _) => Some(t)
    case UpdateItem(t, _, _, _, _) => Some(t)
    case Attach(t, _, _) => Some(t)
    case ReadForExport(t) => Some(t)
    case RecordExport(e, _, _, _) => Some(e.tenantID)
    case WriteReview(t, _) => Some(t)
    case LogReview(t, _, _) => Some(t)
    case LogEvent(t, _) => Some(t)
    case WriteReport(t, _) => Some(t)
    case WriteSnapshot(t, _) => Some(t)
    case Ensure(t, _, _, _, _) => Some(t)
    case Resolve(t, _, _, _, _, _) => Some(t)
    case _ => None
  }

  lemma EvidenceOfOthers(c: Config, s: Sys, step: Step, s': Sys, t: string)
    requires Next(c, s, step, s') && TenantOf(step) != Some(t)
    ensures Rows(s'.st.evidence, t) == Rows(s.st.evidence, t) && Rows(s'.st.proofpacks, t) == Rows(s.st.proofpacks, t)
  {
    hide Rows, Reached, MilestonesAt, BillingService.StripeEntry, ReminderEntry, Without, HasItem, Selectable,
      RowsAfterCreate, RowsAfterUpdate, RowsAfterAttach, FilesAfterAttach, ManifestOf, WithSnapshot, Ensured,
      ResolvedIssues, ResolutionEvents;
  }

  lemma EventsOfOthers(c: Config, s: Sys, step: Step, s': Sys, t: string)
    requires Next(c, s, step, s') && TenantOf(step) != Some(t)
    ensures Rows(s'.st.events, t) == Rows(s.st.events, t)
            && MilestonesAt(s'.st.activation, t) == MilestonesAt(s.st.activation, t)
  {
    hide Rows, Reached, MilestonesAt, BillingService.StripeEntry, ReminderEntry, Without, HasItem, Selectable,
      RowsAfterCreate, RowsAfterUpdate, RowsAfterAttach, FilesAfterAttach, ManifestOf, WithSnapshot, Ensured,
      ResolvedIssues, ResolutionEvents;
  }

  lemma RecordsOfOthers(c: Config, s: Sys, step: Step, s': Sys, t: string)
    requires Next(c, s, step, s') && TenantOf(step) != Some(t)
    ensures Rows(s'.st.reviews, t) == Rows(s.st.reviews, t) && Rows(s'.st.reports, t) == Rows(s.st.reports, t)
    ensures Rows(s'.st.opSnapshots, t) == Rows(s.st.opSnapshots, t)
  {
    hide Rows, Reached, MilestonesAt, BillingService.StripeEntry, ReminderEntry, Without, HasItem, Selectable,
      RowsAfterCreate, RowsAfterUpdate, RowsAfterAttach, FilesAfterAttach, ManifestOf, WithSnapshot, Ensured,
      ResolvedIssues, ResolutionEvents;
  }

  /** No step between `j` and `k` is about the tenant. */
  ghost predicate OnlyOthers(steps: seq<Step>, j: nat, k: nat, t: string)
    requires j <= k <= |steps|
  {
    forall i :: j <= i < k ==> TenantOf(steps[i]) != Some(t)
  }

  lemma {:induction false} ViewStays(c: Config, trace: seq<Sys>, steps: seq<Step>, j: nat, k: nat, t: string)
    requires AreSteps(c, trace, steps) && j <= k <= |steps| && OnlyOthers(steps, j, k, t)
    ensures ViewOf(trace[k].st, t) == ViewOf(trace[j].st, t)
    decreases k
  {
    hide Next, TenantOf, Rows, MilestonesAt;
    if j < k {
      ViewStays(c, trace, steps, j, k - 1, t);
      EvidenceOfOthers(c, trace[k - 1], steps[k - 1], trace[k], t);
      EventsOfOthers(c, trace[k - 1], steps[k - 1], trace[k], t);
      RecordsOfOthers(c, trace[k - 1], steps[k - 1], trace[k], t);
    }
  }

  /** The graph of a view; `narrate` is what the operations service tells about it. */
  function GraphOfView(t: string, v: View, narrate: View -> seq<Narrative>, now: Instant, formats: Formats,
          maxNodes: int, maxEdges: int): Graph {
    GraphOf(InputOf(t, now, v.items, v.data, narrate(v), formats), maxNodes, maxEdges)
  }

  /** Main result: whatever happens to other tenants between two moments, and whenever in between the items, the
      records and the narratives are read, the tenant's graph is the same. */
  lemma OthersNeverShow(c: Config, trace: seq<Sys>, steps: seq<Step>, j: nat, k: nat, t: string, items: nat,
          records: nat, told: nat, narrate: View -> seq<Narrative>, now: Instant, formats: Formats, maxNodes: int,
          maxEdges: int)
    requires AreSteps(c, trace, steps) && j <= k <= |steps| && OnlyOthers(steps, j, k, t)
    requires j <= items <= k && j <= records <= k && j <= told <= k
    ensures var inp := InputOf(t, now, Rows(trace[items].st.evidence, t), TenantDataOf(trace[records].st, t),
                               narrate(ViewOf(trace[told].st, t)), formats);
            GraphOf(inp, maxNodes, maxEdges)
              == GraphOfView(t, ViewOf(trace[j].st, t), narrate, now, formats, maxNodes, maxEdges)
  {
    hide Next, TenantOf, GraphOf, InputOf, Rows, MilestonesAt;
    ViewStays(c, trace, steps, j, items, t);
    ViewStays(c, trace, steps, j, records, t);
    ViewStays(c, trace, steps, j, told, t);
  }
}
