/** What a restart finds. The store saves the state in fourteen files, so some parts may be of one moment and some of
    another. */
module SystemRestart {
  import opened Records
  import opened Store
  import FileStore

  // ---- The fourteen parts ---------------------------------------------------

  datatype Kind =
    | TENANTS | EVIDENCE | FILES | REMINDERS | PROOFPACKS | AUDIT | STRIPE | REVIEWS
    | EVENTS | ACTIVATION | SNAPSHOTS | REPORTS | ISSUES | ADJUDICATIONS

  function NameOf(k: Kind): FileStore.Name {
    match k
    case TENANTS => "tenants.json"
    case EVIDENCE => "evidence_items.json"
    case FILES => "evidence_files.json"
    case REMINDERS => "reminder_logs.json"
    case PROOFPACKS => "proofpacks.json"
    case AUDIT => "audit_logs.json"
    case STRIPE => "stripe_events.json"
    case REVIEWS => "review_snapshots.json"
    case EVENTS => "operational_events.json"
    case ACTIVATION => "activation_milestones.json"
    case SNAPSHOTS => "operational_snapshots.json"
    case REPORTS => "review_reports.json"
    case ISSUES => "unresolved_issues.json"
    case ADJUDICATIONS => "adjudication_events.json"
  }

  datatype Part =
    | TenantsPart(tenants: map<string, string>)
    | EvidencePart(evidence: map<string, seq<Item>>)
    | FilesPart(files: map<string, seq<EvidenceFile>>)
    | RemindersPart(reminderSent: set<ReminderKey>)
    | ProofpacksPart(proofpacks: map<string, seq<Proofpack>>)
    | AuditPart(auditLogs: seq<AuditEntry>)
    | StripePart(stripeEvents: set<string>)
    | ReviewsPart(reviews: map<string, seq<ReviewSnapshot>>)
    | EventsPart(events: map<string, seq<OperationalEvent>>)
    | ActivationPart(activation: map<string, Milestones>)
    | SnapshotsPart(opSnapshots: map<string, seq<OperationalSnapshot>>)
    | ReportsPart(reports: map<string, seq<ReviewReport>>)
    | IssuesPart(issues: map<string, seq<Issue>>)
    | AdjudicationsPart(adjudications: map<string, seq<Adjudication>>)

  function PartAt(st: State, k: Kind): Part {
    match k
    case TENANTS => TenantsPart(st.tenants)
    case EVIDENCE => EvidencePart(st.evidence)
    case FILES => FilesPart(st.files)
    case REMINDERS => RemindersPart(st.reminderSent)
    case PROOFPACKS => ProofpacksPart(st.proofpacks)
    case AUDIT => AuditPart(st.auditLogs)
    case STRIPE => StripePart(st.stripeEvents)
    case REVIEWS => ReviewsPart(st.reviews)
    case EVENTS => EventsPart(st.events)
    case ACTIVATION => ActivationPart(st.activation)
    case SNAPSHOTS => SnapshotsPart(st.opSnapshots)
    case REPORTS => ReportsPart(st.reports)
    case ISSUES => IssuesPart(st.issues)
    case ADJUDICATIONS => AdjudicationsPart(st.adjudications)
  }

  /** The files are those of the fourteen kinds. */
  function KindFor(n: FileStore.Name): (k: Kind)
    requires n in FileStore.PARTS
    ensures NameOf(k) == n
  {
    if n == "tenants.json" then TENANTS else
    if n == "evidence_items.json" then EVIDENCE else
    if n == "evidence_files.json" then FILES else
    if n == "reminder_logs.json" then REMINDERS else
    if n == "proofpacks.json" then PROOFPACKS else
    if n == "audit_logs.json" then AUDIT else
    if n == "stripe_events.json" then STRIPE else
    if n == "review_snapshots.json" then REVIEWS else
    if n == "operational_events.json" then EVENTS else
    if n == "activation_milestones.json" then ACTIVATION else
    if n == "operational_snapshots.json" then SNAPSHOTS else
    if n == "review_reports.json" then REPORTS else
    if n == "unresolved_issues.json" then ISSUES else ADJUDICATIONS
  }

  lemma NameIsPart(k: Kind)
    ensures NameOf(k) in FileStore.PARTS
  {
  }

  lemma NamesDiffer(k: Kind, k': Kind)
    ensures NameOf(k) == NameOf(k') ==> k == k'
  {
  }

  /** The saved parts are those of this state. */
  ghost predicate Represents(parts: map<FileStore.Name, Part>, st: State) {
    parts.Keys == FileStore.PARTS && forall k: Kind :: NameOf(k) in parts && parts[NameOf(k)] == PartAt(st, k)
  }

  lemma EveryStateIsSaved(st: State) returns (parts: map<FileStore.Name, Part>)
    ensures Represents(parts, st)
  {
    hide FileStore.PARTS, NameOf, PartAt, KindFor;
    parts := map n | n in FileStore.PARTS :: PartAt(st, KindFor(n));
    forall k: Kind ensures NameOf(k) in parts && parts[NameOf(k)] == PartAt(st, k) {
      NameIsPart(k);
      NamesDiffer(k, KindFor(NameOf(k)));
    }
  }

  // ---- A state put together from several ------------------------------------

  /** `b` where its part landed, `a` elsewhere. */
  function MixOf(a: State, b: State, landed: set<FileStore.Name>): State {
    State(
      if NameOf(TENANTS) in landed then b.tenants else a.tenants,
      if NameOf(EVIDENCE) in landed then b.evidence else a.evidence,
      if NameOf(FILES) in landed then b.files else a.files,
      if NameOf(REMINDERS) in landed then b.reminderSent else a.reminderSent,
      if NameOf(PROOFPACKS) in landed then b.proofpacks else a.proofpacks,
      if NameOf(AUDIT) in landed then b.auditLogs else a.auditLogs,
      if NameOf(STRIPE) in landed then b.stripeEvents else a.stripeEvents,
      if NameOf(REVIEWS) in landed then b.reviews else a.reviews,
      if NameOf(EVENTS) in landed then b.events else a.events,
      if NameOf(ACTIVATION) in landed then b.activation else a.activation,
      if NameOf(SNAPSHOTS) in landed then b.opSnapshots else a.opSnapshots,
      if NameOf(REPORTS) in landed then b.reports else a.reports,
      if NameOf(ISSUES) in landed then b.issues else a.issues,
      if NameOf(ADJUDICATIONS) in landed then b.adjudications else a.adjudications)
  }

  lemma MixedPart(a: State, b: State, landed: set<FileStore.Name>, k: Kind)
    ensures PartAt(MixOf(a, b, landed), k) == if NameOf(k) in landed then PartAt(b, k) else PartAt(a, k)
  {
    hide NameOf;
  }

  lemma MixedIsMix(old_: map<FileStore.Name, Part>, new_: map<FileStore.Name, Part>, a: State, b: State,
          landed: set<FileStore.Name>)
    requires Represents(old_, a) && Represents(new_, b)
    ensures Represents(FileStore.Mixed(old_, new_, landed), MixOf(a, b, landed))
  {
    hide FileStore.PARTS, NameOf, PartAt, MixOf;
    forall k: Kind
      ensures PartAt(MixOf(a, b, landed), k) == if NameOf(k) in landed then PartAt(b, k) else PartAt(a, k)
    {
      MixedPart(a, b, landed, k);
    }
  }

  ghost predicate PartFromSome(k: Kind, m: State, states: seq<State>) {
    exists i :: 0 <= i < |states| && PartAt(m, k) == PartAt(states[i], k)
  }

  /** Each part is that of one of the states. */
  ghost predicate Patched(m: State, states: seq<State>) {
    forall k: Kind :: PartFromSome(k, m, states)
  }

  lemma MixIsPatched(states: seq<State>, i: nat, j: nat, landed: set<FileStore.Name>)
    requires i < |states| && j < |states|
    ensures Patched(MixOf(states[i], states[j], landed), states)
  {
    hide NameOf, PartAt, MixOf;
    forall k: Kind ensures PartFromSome(k, MixOf(states[i], states[j], landed), states) {
      MixedPart(states[i], states[j], landed, k);
    }
  }

  function Pick(states: seq<State>, at: Kind -> nat): State
    requires forall k: Kind :: at(k) < |states|
  {
    State(
      states[at(TENANTS)].tenants,
      states[at(EVIDENCE)].evidence,
      states[at(FILES)].files,
      states[at(REMINDERS)].reminderSent,
      states[at(PROOFPACKS)].proofpacks,
      states[at(AUDIT)].auditLogs,
      states[at(STRIPE)].stripeEvents,
      states[at(REVIEWS)].reviews,
      states[at(EVENTS)].events,
      states[at(ACTIVATION)].activation,
      states[at(SNAPSHOTS)].opSnapshots,
      states[at(REPORTS)].reports,
      states[at(ISSUES)].issues,
      states[at(ADJUDICATIONS)].adjudications)
  }

  lemma PickedPart(states: seq<State>, at: Kind -> nat, k: Kind)
    requires forall k: Kind :: at(k) < |states|
    ensures PartAt(Pick(states, at), k) == PartAt(states[at(k)], k)
  {
  }

  ghost predicate FromSome(k: Kind, p: Part, states: seq<State>) {
    exists i :: 0 <= i < |states| && PartAt(states[i], k) == p
  }

  ghost function IndexOf(k: Kind, p: Part, states: seq<State>): (i: nat)
    requires FromSome(k, p, states)
    ensures i < |states| && PartAt(states[i], k) == p
  {
    var i :| 0 <= i < |states| && PartAt(states[i], k) == p;
    i
  }

  lemma PatchedState(parts: map<FileStore.Name, Part>, states: seq<State>) returns (m: State)
    requires parts.Keys == FileStore.PARTS
             && forall k: Kind :: NameOf(k) in parts && FromSome(k, parts[NameOf(k)], states)
    ensures Represents(parts, m) && Patched(m, states)
  {
    hide FileStore.PARTS, PartAt, Pick, NameOf, FromSome;
    ghost var at: Kind -> nat := (k: Kind) => if FromSome(k, parts[NameOf(k)], states)
      then IndexOf(k, parts[NameOf(k)], states) else 0;
    m := Pick(states, at);
    forall k: Kind ensures PartAt(m, k) == parts[NameOf(k)] && PartFromSome(k, m, states) {
      PickedPart(states, at, k);
    }
  }

  // ---- Restarting -----------------------------------------------------------

  ghost predicate Holds(sys: FileStore.System<Part>, st: State) {
    sys.memory.Some? && Represents(sys.memory.value, st)
  }

  /** The process is up, and the event is a call that leaves this state in memory. */
  ghost predicate Leads(before: FileStore.System<Part>, ev: FileStore.Event<Part>, next: State) {
    ev.Call? && before.memory.Some? && Represents(ev.fn(before.memory.value).0, next)
  }

  /** The store is opened on what it saved, and then the calls carry the memory through these states. Any of them may
      fail to save some of the parts, and the last may crash. What only reads, or marks a reminder under the read lock,
      is a call that saves nothing. */
  ghost predicate Carries(c: FileStore.Codec<Part>, sys: FileStore.System<Part>, evs: seq<FileStore.Event<Part>>,
          states: seq<State>)
    requires FileStore.Faithful(c) && FileStore.SystemOk(c, sys) && FileStore.EventsOk(evs)
  {
    && |states| == |evs| + 1
    && Holds(sys, states[0]) && FileStore.LoadOf(c, sys.finals) == sys.memory
    && forall k :: 0 <= k < |evs| ==> Leads(FileStore.Run(c, sys, evs[..k]), evs[k], states[k + 1])
  }

  lemma LoadedPart(c: FileStore.Codec<Part>, sys: FileStore.System<Part>, evs: seq<FileStore.Event<Part>>,
          states: seq<State>, k: Kind)
    requires FileStore.Faithful(c) && FileStore.SystemOk(c, sys) && FileStore.EventsOk(evs)
             && Carries(c, sys, evs, states)
    ensures var loaded := FileStore.LoadOf(c, FileStore.Run(c, sys, evs).finals);
            loaded.Some? && NameOf(k) in loaded.value && FromSome(k, loaded.value[NameOf(k)], states)
  {
    hide FileStore.PARTS, PartAt, NameOf, FileStore.LoadOf, FileStore.PartOf, FileStore.Run, FileStore.Whole,
      FileStore.Faithful;
    var n, finals := NameOf(k), FileStore.Run(c, sys, evs).finals;
    NameIsPart(k);
    FileStore.RunsNeverTear(c, sys, evs, n);
    FileStore.WholeLoads(c, finals);
    FileStore.WholeLoads(c, sys.finals);
    var now := FileStore.PartOf(c, finals, n);
    if FileStore.TriedIn(c, sys, evs, n, now.value) {
      var i :| 0 <= i < |evs| && FileStore.Tries(c, FileStore.Run(c, sys, evs[..i]), evs[i], n, now.value);
      assert PartAt(states[i + 1], k) == now.value;
    } else {
      assert PartAt(states[0], k) == now.value;
    }
  }

  /** Main result: after any calls, each of which may fail half-way, and a crash, the store opens again, and each part
      it finds is that of some moment of the run. */
  lemma RestartIsPatched(c: FileStore.Codec<Part>, sys: FileStore.System<Part>, evs: seq<FileStore.Event<Part>>,
          states: seq<State>)
    returns (m: State)
    requires FileStore.Faithful(c) && FileStore.SystemOk(c, sys) && FileStore.EventsOk(evs)
             && Carries(c, sys, evs, states)
    ensures var loaded := FileStore.LoadOf(c, FileStore.Run(c, sys, evs).finals);
            loaded.Some? && Represents(loaded.value, m) && Patched(m, states)
  {
    hide FileStore.PARTS, FileStore.LoadOf, FileStore.Run, FileStore.Whole, FileStore.Faithful, Carries, Represents,
      Patched, FromSome, NameOf;
    var finals := FileStore.Run(c, sys, evs).finals;
    FileStore.WholeLoads(c, finals);
    var loaded := FileStore.LoadOf(c, finals).value;
    forall k: Kind ensures NameOf(k) in loaded && FromSome(k, loaded[NameOf(k)], states) {
      LoadedPart(c, sys, evs, states, k);
    }
    m := PatchedState(loaded, states);
  }

  lemma CarriesOn(c: FileStore.Codec<Part>, sys: FileStore.System<Part>, evs: seq<FileStore.Event<Part>>,
          states: seq<State>, i: nat)
    requires FileStore.Faithful(c) && FileStore.SystemOk(c, sys) && FileStore.EventsOk(evs)
             && Carries(c, sys, evs, states)
    requires i < |evs| && FileStore.Acknowledged(c, FileStore.Run(c, sys, evs[..i]), evs[i])
    ensures FileStore.EventsOk(evs[..i + 1]) && FileStore.EventsOk(evs[i + 1..]) && i + 1 < |states|
    ensures Carries(c, FileStore.Run(c, sys, evs[..i + 1]), evs[i + 1..], states[i + 1..])
  {
    hide FileStore.PARTS, FileStore.LoadOf, FileStore.Whole, FileStore.Faithful, FileStore.EventOk, FileStore.SystemOk,
      Represents, FileStore.Acknowledged;
    hide Leads, FileStore.Run, Holds;
    var first, rest := evs[..i + 1], evs[i + 1..];
    assert first[..i] == evs[..i];
    FileStore.AcknowledgedIsDurable(c, sys, first);
    CallLeads(c, sys, evs, states, i);
    forall k | 0 <= k < |rest|
      ensures Leads(FileStore.Run(c, FileStore.Run(c, sys, first), rest[..k]), rest[k], states[i + 1..][k + 1])
    {
      FileStore.RunConcat(c, sys, first, rest[..k]);
      assert first + rest[..k] == evs[..i + 1 + k];
    }
  }

  lemma CallLeads(c: FileStore.Codec<Part>, sys: FileStore.System<Part>, evs: seq<FileStore.Event<Part>>,
          states: seq<State>, i: nat)
    requires FileStore.Faithful(c) && FileStore.SystemOk(c, sys) && FileStore.EventsOk(evs)
             && Carries(c, sys, evs, states)
    requires i < |evs| && FileStore.Run(c, sys, evs[..i + 1]).memory.Some?
    ensures Holds(FileStore.Run(c, sys, evs[..i + 1]), states[i + 1])
  {
    hide FileStore.PARTS, FileStore.LoadOf, FileStore.Whole, FileStore.Faithful, FileStore.EventOk,
      Represents;
    assert evs[..i + 1][..i] == evs[..i];
  }

  /** Main result: and none is older than the last call that returned nil. */
  lemma RestartIsNotBefore(c: FileStore.Codec<Part>, sys: FileStore.System<Part>, evs: seq<FileStore.Event<Part>>,
          states: seq<State>, i: nat)
    returns (m: State)
    requires FileStore.Faithful(c) && FileStore.SystemOk(c, sys) && FileStore.EventsOk(evs)
             && Carries(c, sys, evs, states)
    requires i < |evs| && FileStore.Acknowledged(c, FileStore.Run(c, sys, evs[..i]), evs[i])
    ensures var loaded := FileStore.LoadOf(c, FileStore.Run(c, sys, evs).finals);
            loaded.Some? && Represents(loaded.value, m) && Patched(m, states[i + 1..])
  {
    hide FileStore.PARTS, FileStore.LoadOf, FileStore.Run, FileStore.Whole, FileStore.Faithful, Carries, Represents,
      Patched, FileStore.Acknowledged, FileStore.EventOk;
    CarriesOn(c, sys, evs, states, i);
    FileStore.RunConcat(c, sys, evs[..i + 1], evs[i + 1..]);
    assert evs[..i + 1] + evs[i + 1..] == evs;
    m := RestartIsPatched(c, FileStore.Run(c, sys, evs[..i + 1]), evs[i + 1..], states[i + 1..]);
  }

  // ---- Every patched state is found -----------------------------------------

  /** Every mixture of what was saved with what is being saved is found after some crash. */
  lemma MixtureIsFound(c: FileStore.Codec<Part>, finals: map<FileStore.Name, FileStore.Bytes>, a: State, b: State,
          old_: map<FileStore.Name, Part>, landed: set<FileStore.Name>)
    returns (new_: map<FileStore.Name, Part>, order: seq<FileStore.Name>, faults: seq<FileStore.Fault>)
    requires FileStore.Faithful(c) && FileStore.Whole(c, finals)
    requires FileStore.LoadOf(c, finals) == Some(old_) && Represents(old_, a) && landed < FileStore.PARTS
    ensures Represents(new_, b) && FileStore.IsOrder(order) && |faults| == |order|
    ensures var w := FileStore.WriteOf(c, finals, (new_, true), order, faults);
            var found := FileStore.LoadOf(c, w.0);
            w.1 == FileStore.CrashedInside && found.Some? && Represents(found.value, MixOf(a, b, landed))
  {
    hide FileStore.PARTS, NameOf, PartAt, MixOf, FileStore.LoadOf, FileStore.Whole, FileStore.Faithful,
      FileStore.WriteOf, FileStore.Mixed;
    new_ := EveryStateIsSaved(b);
    order, faults := FileStore.EveryMixtureHappens(c, finals, (new_, true), landed,
      FileStore.Crashes(FileStore.Open, None, false));
    MixedIsMix(old_, new_, a, b, landed);
  }

  /** The call leads from the one state to the other, and asks for it to be saved. */
  ghost predicate Performs(fn: FileStore.Closure<Part>, st: State, st': State) {
    && (forall parts :: FileStore.IsState(parts) ==> FileStore.IsState(fn(parts).0))
    && forall parts :: Represents(parts, st) ==> fn(parts).1 && Represents(fn(parts).0, st')
  }

  ghost predicate AllPerform(fns: seq<FileStore.Closure<Part>>, states: seq<State>) {
    |states| == |fns| + 1 && forall k :: 0 <= k < |fns| ==> Performs(fns[k], states[k], states[k + 1])
  }

  /** The kinds whose part is that of moment `n`. */
  ghost function LandedAt(at: Kind -> nat, n: nat): (landed: set<FileStore.Name>)
    ensures landed <= FileStore.PARTS
    ensures forall k: Kind :: NameOf(k) in landed <==> at(k) == n
  {
    hide NameOf, FileStore.PARTS;
    var landed := set name | name in FileStore.PARTS && at(KindFor(name)) == n;
    assert forall k: Kind :: NameOf(k) in landed <==> at(k) == n by {
      forall k: Kind ensures NameOf(k) in landed <==> at(k) == n {
        NameIsPart(k);
        NamesDiffer(k, KindFor(NameOf(k)));
      }
    }
    landed
  }

  /** The parts of the moments chosen, as far as these are not later than `n`; otherwise those of the start. */
  ghost predicate LandedUpTo(parts: map<FileStore.Name, Part>, states: seq<State>, at: Kind -> nat, n: nat)
    requires n < |states|
  {
    && parts.Keys == FileStore.PARTS
    && forall k: Kind :: NameOf(k) in parts
         && parts[NameOf(k)] == PartAt(states[if at(k) <= n then at(k) else 0], k)
  }

  lemma LandsNext(old_: map<FileStore.Name, Part>, new_: map<FileStore.Name, Part>, states: seq<State>,
          at: Kind -> nat, n: nat)
    requires n + 1 < |states| && LandedUpTo(old_, states, at, n) && Represents(new_, states[n + 1])
    ensures LandedUpTo(FileStore.Mixed(old_, new_, LandedAt(at, n + 1)), states, at, n + 1)
  {
    hide FileStore.PARTS, NameOf, PartAt, LandedAt;
  }

  ghost function MomentOf(k: Kind, m: State, states: seq<State>): (i: nat)
    requires PartFromSome(k, m, states)
    ensures i < |states| && PartAt(m, k) == PartAt(states[i], k)
  {
    var i :| 0 <= i < |states| && PartAt(m, k) == PartAt(states[i], k);
    i
  }

  lemma {:induction false} CallsLand(c: FileStore.Codec<Part>, sys: FileStore.System<Part>,
          fns: seq<FileStore.Closure<Part>>, states: seq<State>, at: Kind -> nat)
    returns (evs: seq<FileStore.Event<Part>>)
    requires FileStore.Faithful(c) && FileStore.SystemOk(c, sys) && AllPerform(fns, states)
    requires Holds(sys, states[0]) && FileStore.LoadOf(c, sys.finals) == sys.memory
    ensures FileStore.EventsOk(evs) && Carries(c, sys, evs, states)
    ensures var end := FileStore.Run(c, sys, evs);
            var loaded := FileStore.LoadOf(c, end.finals);
            Holds(end, states[|fns|]) && loaded.Some? && LandedUpTo(loaded.value, states, at, |fns|)
  {
    hide FileStore.PARTS, FileStore.LoadOf, FileStore.Whole, FileStore.Faithful, FileStore.Mixed, Carries, Represents,
      Performs, LandedUpTo, LandedAt, NameOf, FileStore.After, FileStore.Run;
    if fns == [] {
      evs := [];
      NoCalls(c, sys, states, at);
    } else {
      var n := |fns| - 1;
      evs := CallsLand(c, sys, fns[..n], states[..n + 1], at);
      var before := FileStore.Run(c, sys, evs);
      var fn := fns[n];
      assert states[..n + 1][n] == states[n] && Performs(fn, states[n], states[n + 1]);
      PerformsOne(fn, states[n], states[n + 1], before.memory.value);
      var ev := FileStore.SomeCallLands(c, before, fn, LandedAt(at, n + 1), FileStore.Fails(FileStore.Open, None));
      UpToPrefix(FileStore.LoadOf(c, before.finals).value, states, at, n);
      LandsNext(FileStore.LoadOf(c, before.finals).value, fn(before.memory.value).0, states, at, n);
      RunSnoc(c, sys, evs, ev);
      CarriesSnoc(c, sys, evs, states[..n + 1], ev, states[n + 1]);
      assert states[..n + 1] + [states[n + 1]] == states;
      evs := evs + [ev];
    }
  }

  lemma PerformsOne(fn: FileStore.Closure<Part>, st: State, st': State, parts: map<FileStore.Name, Part>)
    requires Performs(fn, st, st') && Represents(parts, st)
    ensures forall s :: FileStore.IsState(s) ==> FileStore.IsState(fn(s).0)
    ensures fn(parts).1 && Represents(fn(parts).0, st')
  {
    hide Represents;
  }

  lemma UpToPrefix(parts: map<FileStore.Name, Part>, states: seq<State>, at: Kind -> nat, n: nat)
    requires n < |states| && LandedUpTo(parts, states[..n + 1], at, n)
    ensures LandedUpTo(parts, states, at, n)
  {
    hide FileStore.PARTS, NameOf, PartAt;
  }

  lemma NoCalls(c: FileStore.Codec<Part>, sys: FileStore.System<Part>, states: seq<State>, at: Kind -> nat)
    requires FileStore.Faithful(c) && FileStore.SystemOk(c, sys) && |states| == 1
    requires Holds(sys, states[0]) && FileStore.LoadOf(c, sys.finals) == sys.memory
    ensures Carries(c, sys, [], states) && FileStore.Run(c, sys, []) == sys
    ensures LandedUpTo(sys.memory.value, states, at, 0)
  {
    hide FileStore.PARTS, FileStore.LoadOf, FileStore.Whole, FileStore.Faithful, NameOf, PartAt;
    NoCallYet(c, sys, states[0]);
    assert states == [states[0]];
  }

  lemma RunSnoc(c: FileStore.Codec<Part>, sys: FileStore.System<Part>, evs: seq<FileStore.Event<Part>>,
          ev: FileStore.Event<Part>)
    requires FileStore.Faithful(c) && FileStore.SystemOk(c, sys) && FileStore.EventsOk(evs) && FileStore.EventOk(ev)
    ensures FileStore.EventsOk(evs + [ev])
    ensures FileStore.Run(c, sys, evs + [ev]) == FileStore.After(c, FileStore.Run(c, sys, evs), ev)
  {
    hide FileStore.EventOk, FileStore.Faithful, FileStore.SystemOk, FileStore.After;
    assert (evs + [ev])[..|evs + [ev]| - 1] == evs;
  }

  lemma CarriesSnoc(c: FileStore.Codec<Part>, sys: FileStore.System<Part>, evs: seq<FileStore.Event<Part>>,
          states: seq<State>, ev: FileStore.Event<Part>, next: State)
    requires FileStore.Faithful(c) && FileStore.SystemOk(c, sys) && FileStore.EventsOk(evs)
             && Carries(c, sys, evs, states)
    requires FileStore.EventOk(ev) && ev.Call? && FileStore.Run(c, sys, evs).memory.Some?
             && Represents(ev.fn(FileStore.Run(c, sys, evs).memory.value).0, next)
    ensures FileStore.EventsOk(evs + [ev]) && Carries(c, sys, evs + [ev], states + [next])
  {
    hide FileStore.EventOk, FileStore.Faithful, FileStore.SystemOk, FileStore.After, FileStore.Run, Represents,
      FileStore.LoadOf;
    var evs', states' := evs + [ev], states + [next];
    assert evs'[..|evs|] == evs;
    forall k | 0 <= k < |evs'|
      ensures Leads(FileStore.Run(c, sys, evs'[..k]), evs'[k], states'[k + 1])
    {
      if k < |evs| {
        assert evs'[..k] == evs[..k];
      }
    }
  }

  /** Main result, the converse: whatever calls lead through these states, every state put together from their parts
      is what the store finds when it opens again, after some of them failed to save some of the parts. */
  lemma EveryPatchIsFound(c: FileStore.Codec<Part>, sys: FileStore.System<Part>,
          fns: seq<FileStore.Closure<Part>>, states: seq<State>, m: State)
    returns (evs: seq<FileStore.Event<Part>>)
    requires FileStore.Faithful(c) && FileStore.SystemOk(c, sys) && AllPerform(fns, states)
    requires Holds(sys, states[0]) && FileStore.LoadOf(c, sys.finals) == sys.memory
    requires Patched(m, states)
    ensures FileStore.EventsOk(evs) && Carries(c, sys, evs, states)
    ensures var loaded := FileStore.LoadOf(c, FileStore.Run(c, sys, evs).finals);
            loaded.Some? && Represents(loaded.value, m)
  {
    hide FileStore.PARTS, FileStore.LoadOf, FileStore.Whole, FileStore.Faithful, FileStore.Run, Carries, Performs,
      PartFromSome, NameOf, PartAt;
    ghost var at: Kind -> nat := (k: Kind) => if PartFromSome(k, m, states) then MomentOf(k, m, states) else 0;
    evs := CallsLand(c, sys, fns, states, at);
    forall k: Kind ensures at(k) <= |fns| && PartAt(m, k) == PartAt(states[at(k)], k) {
      assert PartFromSome(k, m, states);
    }
  }

  // ---- A failed call and then a crash ---------------------------------------

  /** A store opened on the files that hold this state. */
  lemma OpenedOn(c: FileStore.Codec<Part>, st: State) returns (sys: FileStore.System<Part>)
    requires FileStore.Faithful(c)
    ensures FileStore.SystemOk(c, sys) && Holds(sys, st) && FileStore.LoadOf(c, sys.finals) == sys.memory
  {
    hide FileStore.PARTS, FileStore.LoadOf, NameOf, PartAt;
    var parts := EveryStateIsSaved(st);
    var finals := map n | n in FileStore.PARTS :: c.encode(parts[n]);
    FileStore.LoadOfIs(c, finals, parts);
    sys := FileStore.System(Some(parts), finals);
  }

  /** A call whose save fails at its first file, so that the disk keeps `a`, and a call whose save crashes when these
      files are renamed. */
  lemma FailThenCrash(c: FileStore.Codec<Part>, sys: FileStore.System<Part>, a: State, b: State, d: State,
          landed: set<FileStore.Name>)
    returns (evs: seq<FileStore.Event<Part>>)
    requires FileStore.Faithful(c) && FileStore.SystemOk(c, sys) && landed < FileStore.PARTS
    requires Holds(sys, a) && FileStore.LoadOf(c, sys.finals) == sys.memory
    ensures FileStore.EventsOk(evs) && Carries(c, sys, evs, [a, b, d]) && |evs| == 2
    ensures evs[0].Call? && FileStore.CallOf(c, sys, evs[0]).1 == FileStore.PersistError
    ensures var mid := FileStore.After(c, sys, evs[0]);
            && FileStore.LoadOf(c, mid.finals) == sys.memory && mid.memory.Some?
            && evs[1].Call? && FileStore.CallOf(c, mid, evs[1]).1 == FileStore.CrashedInside
    ensures var loaded := FileStore.LoadOf(c, FileStore.Run(c, sys, evs).finals);
            loaded.Some? && Represents(loaded.value, MixOf(a, d, landed))
  {
    hide FileStore.PARTS, FileStore.LoadOf, FileStore.Whole, FileStore.Faithful, FileStore.CallOf, FileStore.After,
      FileStore.Run, FileStore.Mixed, FileStore.EventOk, Represents, MixOf, Carries, FileStore.IsState,
      FileStore.SystemOk;
    var second := EveryStateIsSaved(b);
    var third := EveryStateIsSaved(d);
    var ev := CallFor(c, sys, second, b, {}, FileStore.Fails(FileStore.Open, None));
    var mid := FileStore.After(c, sys, ev);
    MixedNone(sys.memory.value, second);
    var ev' := CallFor(c, mid, third, d, landed, FileStore.Crashes(FileStore.Open, None, false));
    NoCallYet(c, sys, a);
    RunSnoc(c, sys, [], ev);
    CarriesSnoc(c, sys, [], [a], ev, b);
    assert [] + [ev] == [ev] && [a] + [b] == [a, b];
    RunSnoc(c, sys, [ev], ev');
    CarriesSnoc(c, sys, [ev], [a, b], ev', d);
    MixedIsMix(sys.memory.value, third, a, d, landed);
    evs := [ev, ev'];
    assert [ev] + [ev'] == evs && [a, b] + [d] == [a, b, d];
  }

  /** The call that stores these parts. */
  lemma CallFor(c: FileStore.Codec<Part>, sys: FileStore.System<Part>, parts: map<FileStore.Name, Part>, st: State,
          landed: set<FileStore.Name>, stop: FileStore.Fault)
    returns (ev: FileStore.Event<Part>)
    requires FileStore.Faithful(c) && FileStore.SystemOk(c, sys) && sys.memory.Some? && landed < FileStore.PARTS
    requires Represents(parts, st) && !stop.NoFault? && !stop.Landed()
    ensures FileStore.EventOk(ev) && Leads(sys, ev, st) && ev.fn(sys.memory.value).0 == parts
    ensures FileStore.SystemOk(c, FileStore.After(c, sys, ev))
    ensures FileStore.CallOf(c, sys, ev).1
            == if stop.Crashes? then FileStore.CrashedInside else FileStore.PersistError
    ensures var next := FileStore.After(c, sys, ev);
            && next.memory == (if stop.Crashes? then None else Some(parts))
            && FileStore.LoadOf(c, sys.finals).Some? && FileStore.IsState(FileStore.LoadOf(c, sys.finals).value)
            && FileStore.IsState(parts)
            && FileStore.LoadOf(c, next.finals)
               == Some(FileStore.Mixed(FileStore.LoadOf(c, sys.finals).value, parts, landed))
  {
    hide FileStore.PARTS, FileStore.LoadOf, FileStore.Whole, FileStore.Faithful, FileStore.CallOf, FileStore.After,
      FileStore.Mixed, FileStore.EventOk;
    var fn: FileStore.Closure<Part> := (_: map<FileStore.Name, Part>) => (parts, true);
    ev := FileStore.SomeCallLands(c, sys, fn, landed, stop);
    FileStore.EventKeepsWhole(c, sys, ev);
  }

  lemma MixedNone(old_: map<FileStore.Name, Part>, new_: map<FileStore.Name, Part>)
    requires FileStore.IsState(old_) && FileStore.IsState(new_)
    ensures FileStore.Mixed(old_, new_, {}) == old_
  {
    hide FileStore.PARTS;
  }

  lemma NoCallYet(c: FileStore.Codec<Part>, sys: FileStore.System<Part>, a: State)
    requires FileStore.Faithful(c) && FileStore.SystemOk(c, sys)
    requires Holds(sys, a) && FileStore.LoadOf(c, sys.finals) == sys.memory
    ensures Carries(c, sys, [], [a]) && FileStore.Run(c, sys, []) == sys
  {
    hide FileStore.PARTS, FileStore.LoadOf, FileStore.Whole, FileStore.Faithful, Represents;
  }
}
