/** The file-backed store: every write saves all fourteen parts through a temporary file, a sync and a rename,
    in arbitrary order, and any of these steps may fail or be the last one before a crash. */
module FileStore {
  import opened Records

  type Bytes = seq<bv8>
  type Name = string

  const PARTS: set<Name> := {
    "tenants.json", "evidence_items.json", "evidence_files.json", "reminder_logs.json", "proofpacks.json",
    "audit_logs.json", "stripe_events.json", "review_snapshots.json", "operational_events.json",
    "activation_milestones.json", "operational_snapshots.json", "review_reports.json", "unresolved_issues.json",
    "adjudication_events.json"}

  function Tmp(n: Name): Name {
    n + ".tmp"
  }

  lemma PartsEndInN(n: Name)
    requires n in PARTS
    ensures |n| > 0 && n[|n| - 1] == 'n'
  {
  }

  /** No temporary file has the name of a part, and no two parts share one. */
  lemma TmpIsNoPart(n: Name, m: Name)
    ensures n in PARTS ==> Tmp(m) != n
    ensures Tmp(n) == Tmp(m) ==> n == m
  {
    hide PARTS;
    if n in PARTS {
      PartsEndInN(n);
    }
    if Tmp(n) == Tmp(m) {
      assert |n| == |m|;
      assert n == Tmp(n)[..|n|] && m == Tmp(m)[..|m|];
    }
  }

  // ---- Contents -------------------------------------------------------------

  /** The JSON codec of the parts, and the part an absent or empty file stands for. */
  datatype Codec<!V> = Codec(encode: V -> Bytes, decode: Bytes -> Option<V>, empty: Name -> V)

  ghost predicate Faithful<V(!new)>(c: Codec<V>) {
    forall v :: c.encode(v) != [] && c.decode(c.encode(v)) == Some(v)
  }

  /** The store's state, part by part. */
  ghost predicate IsState<V>(s: map<Name, V>) {
    s.Keys == PARTS
  }

  /** The order in which a Go map of the parts is ranged over. */
  ghost predicate IsOrder(order: seq<Name>) {
    && (forall n :: n in order <==> n in PARTS)
    && (forall i, j :: 0 <= i < j < |order| ==> order[i] != order[j])
  }

  // ---- Faults ---------------------------------------------------------------

  datatype Step = Marshal | Open | WriteBytes | Sync | Close | Rename

  /** What befalls the saving of one part: nothing, an error at some step, or a crash at some step. `left` is
      what the temporary file then holds, if it was touched; a crash at the rename may come before or after it
      took effect. */
  datatype Fault =
    | NoFault
    | Fails(at: Step, left: Option<Bytes>)
    | Crashes(at: Step, left: Option<Bytes>, renamed: bool)
  {
    predicate Hits(step: Step) {
      !NoFault? && at == step
    }

    /** The part's file was replaced. */
    predicate Landed() {
      NoFault? || (Crashes? && at == Rename && renamed)
    }

    function Result(): Outcome {
      match this
      case NoFault => Done
      case Fails(_, _) => Error
      case Crashes(_, _, _) => Crashed
    }
  }

  datatype Outcome = Done | Error | Crashed

  // ---- The directory --------------------------------------------------------

  class Disk {
    var files: map<Name, Bytes>

    constructor (files: map<Name, Bytes>)
      ensures this.files == files
    {
      this.files := files;
    }

    method Leave(tmp: Name, left: Option<Bytes>)
      modifies this
      ensures files - {tmp} == old(files) - {tmp}
    {
      if left.Some? {
        files := files[tmp := left.value];
      }
    }
  }

  /** The parts' files. */
  function Finals(files: map<Name, Bytes>): map<Name, Bytes> {
    map n | n in files && n in PARTS :: files[n]
  }

  lemma FinalsIgnoreTmp(a: map<Name, Bytes>, b: map<Name, Bytes>, n: Name)
    requires a - {Tmp(n)} == b - {Tmp(n)}
    ensures Finals(a) == Finals(b)
  {
    hide PARTS;
    forall m | m in PARTS
      ensures m in a <==> m in b
      ensures m in a ==> a[m] == b[m]
    {
      TmpIsNoPart(m, n);
      assert m in a <==> m in a - {Tmp(n)};
      assert m in b <==> m in b - {Tmp(n)};
    }
  }

  lemma FinalsUpdate(a: map<Name, Bytes>, b: map<Name, Bytes>, n: Name, bytes: Bytes)
    requires n in PARTS && a - {Tmp(n)} == b[n := bytes] - {Tmp(n)}
    ensures Finals(a) == Finals(b)[n := bytes]
  {
    hide PARTS;
    FinalsIgnoreTmp(a, b[n := bytes], n);
  }

  /** Saving one part: write the temporary file, sync, close, rename. */
  method SavePart(disk: Disk, n: Name, bytes: Bytes, fault: Fault) returns (o: Outcome)
    requires n in PARTS
    modifies disk
    ensures o == fault.Result()
    ensures (o == Done <==> fault.NoFault?) && (o == Error <==> fault.Fails?)
    ensures Finals(disk.files) == if fault.Landed() then old(Finals(disk.files))[n := bytes]
            else old(Finals(disk.files))
    ensures fault.Landed() <==> fault.NoFault? || (fault.Crashes? && fault.at == Rename && fault.renamed)
  {
    hide PARTS, Finals;
    ghost var before := disk.files;
    if fault.Hits(Marshal) {
      return fault.Result();
    }
    var tmp := Tmp(n);
    if fault.Hits(Open) {
      disk.Leave(tmp, fault.left);
      FinalsIgnoreTmp(disk.files, before, n);
      return fault.Result();
    }
    disk.files := disk.files[tmp := []];
    if fault.Hits(WriteBytes) {
      disk.Leave(tmp, fault.left);
      FinalsIgnoreTmp(disk.files, before, n);
      return fault.Result();
    }
    disk.files := disk.files[tmp := bytes];
    if fault.Hits(Sync) || fault.Hits(Close) {
      FinalsIgnoreTmp(disk.files, before, n);
      return fault.Result();
    }
    if fault.Hits(Rename) && !fault.Landed() {
      FinalsIgnoreTmp(disk.files, before, n);
      return fault.Result();
    }
    disk.files := (disk.files - {tmp})[n := disk.files[tmp]];
    TmpIsNoPart(n, n);
    assert disk.files - {tmp} == before[n := bytes] - {tmp};
    FinalsUpdate(disk.files, before, n, bytes);
    return fault.Result();
  }

  // ---- Saving all parts -----------------------------------------------------

  /** The parts' files, and how the call ends, after saving in this order under these faults. */
  function Saved<V>(c: Codec<V>, finals: map<Name, Bytes>, state: map<Name, V>, order: seq<Name>,
          faults: seq<Fault>): (map<Name, Bytes>, Outcome)
    requires |faults| == |order| && forall k :: 0 <= k < |order| ==> order[k] in state
    decreases |order|
  {
    if order == [] then (finals, Done)
    else
      var n, fault := order[0], faults[0];
      var next := if fault.Landed() then finals[n := c.encode(state[n])] else finals;
      if fault.NoFault? then Saved(c, next, state, order[1..], faults[1..]) else (next, fault.Result())
  }

  /** `finals` with these parts replaced by the encoding of `state`. */
  function Overlay<V>(c: Codec<V>, finals: map<Name, Bytes>, state: map<Name, V>, parts: seq<Name>): map<Name, Bytes>
    requires forall k :: 0 <= k < |parts| ==> parts[k] in state
  {
    finals + map n | n in parts :: c.encode(state[n])
  }

  /** Saving stops at the first fault, and the call ends as that fault says. What came before it has landed, the part
      it befell only if the crash came after the rename, and nothing later. */
  lemma {:induction false} SavedIsPrefix<V>(c: Codec<V>, finals: map<Name, Bytes>, state: map<Name, V>,
          order: seq<Name>, faults: seq<Fault>) returns (k: nat, stop: nat)
    requires |faults| == |order| && forall i :: 0 <= i < |order| ==> order[i] in state
    ensures stop <= k <= |order| && Saved(c, finals, state, order, faults).0 == Overlay(c, finals, state, order[..k])
    ensures (forall i :: 0 <= i < stop ==> faults[i].NoFault?) && (stop < |order| ==> !faults[stop].NoFault?)
    ensures k == stop + if stop < |order| && faults[stop].Crashes? && faults[stop].at == Rename
                           && faults[stop].renamed then 1 else 0
    ensures Saved(c, finals, state, order, faults).1
            == if stop == |order| then Done else if faults[stop].Fails? then Error else Crashed
    decreases |order|
  {
    hide Overlay, PARTS;
    if order == [] {
      k, stop := 0, 0;
      OverlayNothing(c, finals, state);
    } else if faults[0].NoFault? {
      var next := finals[order[0] := c.encode(state[order[0]])];
      var m, n := SavedIsPrefix(c, next, state, order[1..], faults[1..]);
      k, stop := m + 1, n + 1;
      OverlayHead(c, finals, state, order, k);
    } else if faults[0].Landed() {
      k, stop := 1, 0;
      assert order[..1] == [order[0]];
      OverlayOne(c, finals, state, order[0]);
    } else {
      k, stop := 0, 0;
      OverlayNothing(c, finals, state);
    }
  }

  lemma OverlayNothing<V>(c: Codec<V>, finals: map<Name, Bytes>, state: map<Name, V>)
    ensures Overlay(c, finals, state, []) == finals
  {
  }

  lemma OverlayOne<V>(c: Codec<V>, finals: map<Name, Bytes>, state: map<Name, V>, n: Name)
    requires n in state
    ensures Overlay(c, finals, state, [n]) == finals[n := c.encode(state[n])]
  {
  }

  lemma OverlayHead<V>(c: Codec<V>, finals: map<Name, Bytes>, state: map<Name, V>, order: seq<Name>, k: nat)
    requires 0 < k <= |order| && forall i :: 0 <= i < |order| ==> order[i] in state
    ensures Overlay(c, finals[order[0] := c.encode(state[order[0]])], state, order[1..][..k - 1])
            == Overlay(c, finals, state, order[..k])
  {
    assert order[..k] == [order[0]] + order[1..][..k - 1];
  }

  /** `persistLocked`. */
  method Persist<V>(c: Codec<V>, disk: Disk, state: map<Name, V>, order: seq<Name>, faults: seq<Fault>)
          returns (o: Outcome)
    requires IsState(state) && IsOrder(order) && |faults| == |order|
    modifies disk
    ensures (Finals(disk.files), o) == Saved(c, old(Finals(disk.files)), state, order, faults)
  {
    hide PARTS, Finals;
    for k := 0 to |order|
      invariant Saved(c, Finals(disk.files), state, order[k..], faults[k..])
                == Saved(c, old(Finals(disk.files)), state, order, faults)
    {
      assert order[k] in order;
      assert order[k..][0] == order[k] && faults[k..][0] == faults[k];
      assert order[k..][1..] == order[k + 1..] && faults[k..][1..] == faults[k + 1..];
      o := SavePart(disk, order[k], c.encode(state[order[k]]), faults[k]);
      if o != Done {
        return;
      }
    }
    o := Done;
  }

  // ---- Loading --------------------------------------------------------------

  /** The part a file stands for, or nothing when it does not decode. */
  function PartOf<V>(c: Codec<V>, finals: map<Name, Bytes>, n: Name): Option<V> {
    if n !in finals || finals[n] == [] then Some(c.empty(n)) else c.decode(finals[n])
  }

  function LoadOf<V>(c: Codec<V>, finals: map<Name, Bytes>): Option<map<Name, V>> {
    if exists n :: n in PARTS && PartOf(c, finals, n).None? then None
    else Some(map n | n in PARTS :: PartOf(c, finals, n).value)
  }

  lemma LoadOfIs<V>(c: Codec<V>, finals: map<Name, Bytes>, state: map<Name, V>)
    requires state.Keys == PARTS && forall n :: n in PARTS ==> PartOf(c, finals, n) == Some(state[n])
    ensures LoadOf(c, finals) == Some(state)
  {
    hide PARTS, PartOf;
    assert forall n :: n in PARTS ==> !PartOf(c, finals, n).None?;
    assert LoadOf(c, finals).Some? && LoadOf(c, finals).value == state;
  }

  /** A file is there that holds something, and it does not decode. */
  ghost predicate Corrupt<V>(c: Codec<V>, files: map<Name, Bytes>, n: Name) {
    n in PARTS && n in files && files[n] != [] && c.decode(files[n]) == None
  }

  /** The load fails exactly when some file holds something that does not decode; otherwise each part is the empty one
      for an absent or empty file, and what its file decodes to for any other. */
  lemma LoadMeans<V>(c: Codec<V>, finals: map<Name, Bytes>)
    ensures LoadOf(c, finals) == None <==> exists n :: Corrupt(c, finals, n)
    ensures LoadOf(c, finals).Some? ==>
              && LoadOf(c, finals).value.Keys == PARTS
              && (forall n :: n in PARTS && (n !in finals || finals[n] == []) ==>
                    LoadOf(c, finals).value[n] == c.empty(n))
              && (forall n :: n in PARTS && n in finals && finals[n] != [] ==>
                    c.decode(finals[n]) == Some(LoadOf(c, finals).value[n]))
  {
    hide PARTS;
    if n :| Corrupt(c, finals, n) {
      assert PartOf(c, finals, n).None?;
    }
    if n :| n in PARTS && PartOf(c, finals, n).None? {
      assert Corrupt(c, finals, n);
    }
  }

  /** The same for the directory itself, in which other files may lie about. */
  lemma LoadMeansOnDisk<V>(c: Codec<V>, files: map<Name, Bytes>)
    ensures LoadOf(c, Finals(files)) == None <==> exists n :: Corrupt(c, files, n)
    ensures LoadOf(c, Finals(files)).Some? ==>
              && LoadOf(c, Finals(files)).value.Keys == PARTS
              && (forall n :: n in PARTS && (n !in files || files[n] == []) ==>
                    LoadOf(c, Finals(files)).value[n] == c.empty(n))
              && (forall n :: n in PARTS && n in files && files[n] != [] ==>
                    c.decode(files[n]) == Some(LoadOf(c, Finals(files)).value[n]))
  {
    hide PARTS, LoadOf;
    LoadMeans(c, Finals(files));
    forall n ensures Corrupt(c, files, n) <==> Corrupt(c, Finals(files), n) {
    }
  }

  lemma PartOnDisk<V>(c: Codec<V>, files: map<Name, Bytes>, n: Name)
    requires n in PARTS
    ensures PartOf(c, Finals(files), n)
            == if n !in files || files[n] == [] then Some(c.empty(n)) else c.decode(files[n])
  {
  }

  lemma LoadOfFails<V>(c: Codec<V>, finals: map<Name, Bytes>, n: Name)
    requires n in PARTS && PartOf(c, finals, n) == None
    ensures LoadOf(c, finals) == None
  {
  }

  /** `load` into the empty state. `unreadable` holds the files whose reading fails for a reason other than their
      absence. */
  method Load<V>(c: Codec<V>, disk: Disk, order: seq<Name>, unreadable: set<Name>) returns (r: Option<map<Name, V>>)
    requires IsOrder(order)
    ensures r == if unreadable !! PARTS then LoadOf(c, Finals(disk.files)) else None
    ensures r == None <==> !(unreadable !! PARTS) || exists n :: Corrupt(c, disk.files, n)
    ensures r.Some? ==> r.value.Keys == PARTS && forall n :: n in PARTS ==>
              if n !in disk.files || disk.files[n] == [] then r.value[n] == c.empty(n)
              else c.decode(disk.files[n]) == Some(r.value[n])
  {
    hide PARTS, LoadOf, Corrupt, PartOf, Finals;
    ghost var finals := Finals(disk.files);
    var state: map<Name, V> := map n | n in PARTS :: c.empty(n);
    for k := 0 to |order|
      invariant state.Keys == PARTS
      invariant forall i :: 0 <= i < k ==> order[i] !in unreadable
      invariant forall i :: 0 <= i < k ==> PartOf(c, finals, order[i]) == Some(state[order[i]])
      invariant forall i :: k <= i < |order| ==> state[order[i]] == c.empty(order[i])
    {
      var n := order[k];
      assert n in order;
      PartOnDisk(c, disk.files, n);
      if n in unreadable {
        return None;
      }
      if n !in disk.files {
        continue;
      }
      var b := disk.files[n];
      if |b| == 0 {
        continue;
      }
      var v := c.decode(b);
      if v.None? {
        LoadOfFails(c, finals, n);
        LoadMeansOnDisk(c, disk.files);
        return None;
      }
      state := state[n := v.value];
    }
    forall n | n in PARTS
      ensures PartOf(c, finals, n) == Some(state[n])
    {
      assert n in order;
      var i :| 0 <= i < |order| && order[i] == n;
    }
    LoadOfIs(c, finals, state);
    r := Some(state);
    LoadMeansOnDisk(c, disk.files);
  }

  // ---- The store ------------------------------------------------------------

  /** What a closure passed to `Write` does: the state it leaves, and whether it returned nil. */
  type Closure<!V> = map<Name, V> -> (map<Name, V>, bool)

  datatype WriteResult = Nil | ClosureError | PersistError | CrashedInside

  class Store<V(!new)> {
    const codec: Codec<V>
    const disk: Disk
    var state: map<Name, V>

    ghost predicate Valid()
      reads this
    {
      IsState(state)
    }

    /** Opening the store on a directory loads it. */
    constructor (codec: Codec<V>, disk: Disk, loaded: map<Name, V>)
      requires LoadOf(codec, Finals(disk.files)) == Some(loaded)
      ensures Valid() && this.codec == codec && this.disk == disk && state == loaded
    {
      this.codec, this.disk, this.state := codec, disk, loaded;
    }

    /** `Write`: run the closure on the state in memory, then save every part. */
    method Write(fn: Closure<V>, order: seq<Name>, faults: seq<Fault>) returns (r: WriteResult)
      requires Valid() && IsOrder(order) && |faults| == |order|
      requires IsState(fn(state).0)
      modifies this, disk
      ensures Valid() && state == fn(old(state)).0
      ensures (Finals(disk.files), r) == WriteOf(codec, old(Finals(disk.files)), fn(old(state)), order, faults)
      ensures var before, call := System(Some(old(state)), old(Finals(disk.files))), Call(fn, order, faults);
              SystemOk(codec, before) && EventOk(call) ==>
                After(codec, before, call)
                == System(if r == CrashedInside then None else Some(state), Finals(disk.files))
    {
      hide Saved, Finals, PARTS;
      var out := fn(state);
      state := out.0;
      if !out.1 {
        return ClosureError;
      }
      var o := Persist(codec, disk, state, order, faults);
      r := match o case Done => Nil case Error => PersistError case Crashed => CrashedInside;
    }
  }

  function WriteOf<V>(c: Codec<V>, finals: map<Name, Bytes>, out: (map<Name, V>, bool), order: seq<Name>,
          faults: seq<Fault>): (map<Name, Bytes>, WriteResult)
    requires |faults| == |order| && forall k :: 0 <= k < |order| ==> order[k] in out.0
  {
    if !out.1 then (finals, ClosureError)
    else
      var s := Saved(c, finals, out.0, order, faults);
      (s.0, match s.1 case Done => Nil case Error => PersistError case Crashed => CrashedInside)
  }

  // ---- What a later load finds ----------------------------------------------

  /** Every part's file is absent, empty, or exactly an encoding: nothing is torn. */
  ghost predicate Whole<V(!new)>(c: Codec<V>, finals: map<Name, Bytes>) {
    forall n :: n in finals ==> finals[n] == [] || exists v :: finals[n] == c.encode(v)
  }

  lemma WholeLoads<V(!new)>(c: Codec<V>, finals: map<Name, Bytes>)
    requires Faithful(c) && Whole(c, finals)
    ensures LoadOf(c, finals).Some? && LoadOf(c, finals).value.Keys == PARTS
    ensures forall n :: n in PARTS ==> PartOf(c, finals, n) == Some(LoadOf(c, finals).value[n])
  {
  }

  /** Old on some parts, new on the others. */
  function Mixed<V>(old_: map<Name, V>, new_: map<Name, V>, landed: set<Name>): map<Name, V>
    requires IsState(old_) && IsState(new_)
  {
    map n | n in PARTS :: if n in landed then new_[n] else old_[n]
  }

  lemma OverlayIsWhole<V(!new)>(c: Codec<V>, finals: map<Name, Bytes>, state: map<Name, V>, parts: seq<Name>)
    requires Whole(c, finals) && forall k :: 0 <= k < |parts| ==> parts[k] in state
    ensures Whole(c, Overlay(c, finals, state, parts))
  {
  }

  lemma PartOfOverlay<V(!new)>(c: Codec<V>, finals: map<Name, Bytes>, state: map<Name, V>, parts: seq<Name>, n: Name)
    requires Faithful(c) && forall k :: 0 <= k < |parts| ==> parts[k] in state
    ensures PartOf(c, Overlay(c, finals, state, parts), n) == if n in parts then Some(state[n])
            else PartOf(c, finals, n)
  {
  }

  function Members(parts: seq<Name>): set<Name> {
    set n | n in parts
  }

  /** Overlaying some parts and loading mixes the two states. */
  lemma LoadOfOverlay<V(!new)>(c: Codec<V>, finals: map<Name, Bytes>, state: map<Name, V>, parts: seq<Name>)
    requires Faithful(c) && Whole(c, finals) && IsState(state) && forall k :: 0 <= k < |parts| ==> parts[k] in PARTS
    ensures Whole(c, Overlay(c, finals, state, parts))
    ensures LoadOf(c, finals).Some? && IsState(LoadOf(c, finals).value)
    ensures LoadOf(c, Overlay(c, finals, state, parts)) == Some(Mixed(LoadOf(c, finals).value, state, Members(parts)))
  {
    hide PARTS, LoadOf, PartOf, Overlay, Whole, Faithful;
    WholeLoads(c, finals);
    OverlayIsWhole(c, finals, state, parts);
    var next, mixed := Overlay(c, finals, state, parts), Mixed(LoadOf(c, finals).value, state, Members(parts));
    forall n | n in PARTS
      ensures PartOf(c, next, n) == Some(mixed[n])
    {
      PartOfOverlay(c, finals, state, parts, n);
    }
    LoadOfIs(c, next, mixed);
  }

  /** Main result for one write. Whatever the order and the faults, the files stay whole and a later load finds
      each part at its old value on disk or at its new one; after a write that returned nil it finds exactly the
      state in memory; after a closure error it finds what it would have found before. */
  lemma LoadAfterWrite<V(!new)>(c: Codec<V>, finals: map<Name, Bytes>, out: (map<Name, V>, bool), order: seq<Name>,
          faults: seq<Fault>) returns (landed: set<Name>)
    requires Faithful(c) && Whole(c, finals) && IsState(out.0) && IsOrder(order) && |faults| == |order|
    ensures var w := WriteOf(c, finals, out, order, faults);
            && Whole(c, w.0)
            && LoadOf(c, finals).Some? && IsState(LoadOf(c, finals).value)
            && LoadOf(c, w.0) == Some(Mixed(LoadOf(c, finals).value, out.0, landed))
            && (w.1 == Nil ==> LoadOf(c, w.0) == Some(out.0))
            && (w.1 == ClosureError ==> w.0 == finals)
            && (out.1 && (forall i :: 0 <= i < |order| ==> faults[i].NoFault?) ==> w.1 == Nil)
  {
    hide PARTS, Saved, Overlay, LoadOf, Whole;
    forall i | 0 <= i < |order| ensures order[i] in PARTS {
      assert order[i] in order;
    }
    if !out.1 {
      landed := {};
      LoadOfOverlay(c, finals, out.0, []);
      OverlayNothing(c, finals, out.0);
      assert Members([]) == {};
    } else {
      var k, stop := SavedIsPrefix(c, finals, out.0, order, faults);
      LoadOfOverlay(c, finals, out.0, order[..k]);
      landed := Members(order[..k]);
      if k == |order| {
        assert order[..k] == order;
        assert Mixed(LoadOf(c, finals).value, out.0, landed) == out.0;
      }
    }
  }

  /** The converse: there is no more atomicity than that. Every mixture of old and new parts is what a load finds
      after some order, when the call then stops at the next file with this error or crash. */
  lemma EveryMixtureHappens<V(!new)>(c: Codec<V>, finals: map<Name, Bytes>, out: (map<Name, V>, bool),
          landed: set<Name>, stop: Fault)
    returns (order: seq<Name>, faults: seq<Fault>)
    requires Faithful(c) && Whole(c, finals) && IsState(out.0) && out.1 && landed < PARTS
    requires !stop.NoFault? && !stop.Landed()
    ensures IsOrder(order) && |faults| == |order|
    ensures var w := WriteOf(c, finals, out, order, faults);
            && w.1 == (if stop.Crashes? then CrashedInside else PersistError)
            && LoadOf(c, finals).Some? && IsState(LoadOf(c, finals).value)
            && LoadOf(c, w.0) == Some(Mixed(LoadOf(c, finals).value, out.0, landed))
  {
    hide PARTS, Saved, LoadOf, Whole, Overlay;
    var first := ListOf(landed);
    var rest := ListOf(PARTS - landed);
    assert rest != [] by {
      assert rest == [] ==> PARTS - landed == {} && PARTS == landed + (PARTS - landed);
    }
    order := first + rest;
    ConcatIsOrder(first, rest, landed);
    faults := seq(|order|, i => if i < |first| then NoFault else stop);
    forall i | 0 <= i < |first| ensures first[i] in PARTS {
      assert first[i] in first;
    }
    forall i | 0 <= i < |order| ensures order[i] in PARTS {
      assert order[i] in order;
    }
    SavedUpTo(c, finals, out.0, first, rest, faults, stop);
    LoadOfOverlay(c, finals, out.0, first);
    assert landed == Members(first);
  }

  lemma ConcatIsOrder(first: seq<Name>, rest: seq<Name>, landed: set<Name>)
    requires landed <= PARTS
    requires forall n :: n in first <==> n in landed
    requires forall n :: n in rest <==> n in PARTS - landed
    requires forall i, j :: 0 <= i < j < |first| ==> first[i] != first[j]
    requires forall i, j :: 0 <= i < j < |rest| ==> rest[i] != rest[j]
    ensures IsOrder(first + rest)
  {
    hide PARTS;
    var order := first + rest;
    forall i, j | 0 <= i < j < |order| ensures order[i] != order[j] {
      if i < |first| <= j {
        assert order[i] in first && order[j] in rest;
      }
    }
  }

  lemma {:induction false} SavedUpTo<V>(c: Codec<V>, finals: map<Name, Bytes>, state: map<Name, V>, first: seq<Name>,
          rest: seq<Name>, faults: seq<Fault>, stop: Fault)
    requires rest != [] && |faults| == |first + rest| && !stop.NoFault? && !stop.Landed()
    requires forall k :: 0 <= k < |first + rest| ==> (first + rest)[k] in state
    requires forall i :: 0 <= i < |first| ==> first[i] in state
    requires forall i :: 0 <= i < |faults| ==> faults[i] == if i < |first| then NoFault else stop
    ensures Saved(c, finals, state, first + rest, faults) == (Overlay(c, finals, state, first), stop.Result())
    decreases |first|
  {
    if first == [] {
      assert first + rest == rest;
      OverlayNothing(c, finals, state);
    } else {
      var n := first[0];
      var next := finals[n := c.encode(state[n])];
      assert (first + rest)[1..] == first[1..] + rest;
      SavedUpTo(c, next, state, first[1..], rest, faults[1..], stop);
      assert first[..|first|] == first && first[1..][..|first| - 1] == first[1..];
      OverlayHead(c, finals, state, first, |first|);
    }
  }

  /** A list of the members of a set. */
  lemma ListOf(s: set<Name>) returns (list: seq<Name>)
    ensures (forall n :: n in list <==> n in s)
    ensures forall i, j :: 0 <= i < j < |list| ==> list[i] != list[j]
  {
    if s == {} {
      list := [];
    } else {
      var n :| n in s;
      var rest := ListOf(s - {n});
      list := [n] + rest;
    }
  }

  // ---- Runs -----------------------------------------------------------------

  /** A call of `Write`, or the process starting (again) and loading. */
  datatype Event<!V> = Call(fn: Closure<V>, order: seq<Name>, faults: seq<Fault>) | Start

  /** `memory` is absent while the process is down. */
  datatype System<V> = System(memory: Option<map<Name, V>>, finals: map<Name, Bytes>)

  ghost predicate EventOk<V(!new)>(ev: Event<V>) {
    ev.Call? ==> IsOrder(ev.order) && |ev.faults| == |ev.order| && forall s :: IsState(s) ==> IsState(ev.fn(s).0)
  }

  ghost predicate SystemOk<V(!new)>(c: Codec<V>, sys: System<V>) {
    Whole(c, sys.finals) && (sys.memory.Some? ==> IsState(sys.memory.value))
  }

  lemma OrderInState<V>(order: seq<Name>, s: map<Name, V>)
    requires IsOrder(order) && IsState(s)
    ensures forall k :: 0 <= k < |order| ==> order[k] in s
  {
  }

  /** What a call does while the process is up. */
  ghost function CallOf<V(!new)>(c: Codec<V>, sys: System<V>, ev: Event<V>): (w: (map<Name, Bytes>, WriteResult))
    requires SystemOk(c, sys) && EventOk(ev) && ev.Call? && sys.memory.Some?
  {
    OrderInState(ev.order, ev.fn(sys.memory.value).0);
    WriteOf(c, sys.finals, ev.fn(sys.memory.value), ev.order, ev.faults)
  }

  ghost function After<V(!new)>(c: Codec<V>, sys: System<V>, ev: Event<V>): System<V>
    requires SystemOk(c, sys) && EventOk(ev)
  {
    if ev.Start? then System(LoadOf(c, sys.finals), sys.finals)
    else if sys.memory.None? then sys
    else
      var w := CallOf(c, sys, ev);
      System(if w.1 == CrashedInside then None else Some(ev.fn(sys.memory.value).0), w.0)
  }

  /** The event succeeded: the process started, or the call returned nil. */
  ghost predicate Acknowledged<V(!new)>(c: Codec<V>, sys: System<V>, ev: Event<V>)
    requires SystemOk(c, sys) && EventOk(ev)
  {
    ev.Start? || (sys.memory.Some? && CallOf(c, sys, ev).1 == Nil)
  }

  /** The event tries to save the value `v` for part `n`. */
  ghost predicate Tries<V(!new)>(c: Codec<V>, sys: System<V>, ev: Event<V>, n: Name, v: V)
    requires SystemOk(c, sys) && EventOk(ev)
  {
    ev.Call? && sys.memory.Some? && ev.fn(sys.memory.value).1 && n in PARTS && ev.fn(sys.memory.value).0[n] == v
  }

  /** One event keeps the files whole; a part on disk changes only to a value that the event tried to save; and
      an acknowledged event leaves disk and memory equal. */
  lemma EventKeepsWhole<V(!new)>(c: Codec<V>, sys: System<V>, ev: Event<V>)
    requires Faithful(c) && SystemOk(c, sys) && EventOk(ev)
    ensures SystemOk(c, After(c, sys, ev))
    ensures Acknowledged(c, sys, ev) ==>
            After(c, sys, ev).memory.Some? && LoadOf(c, After(c, sys, ev).finals) == After(c, sys, ev).memory
    ensures forall n :: n in PARTS ==>
              var old_, now := PartOf(c, sys.finals, n), PartOf(c, After(c, sys, ev).finals, n);
              old_.Some? && now.Some? && (now == old_ || Tries(c, sys, ev, n, now.value))
  {
    hide PARTS, WriteOf, LoadOf, PartOf, Whole;
    WholeLoads(c, sys.finals);
    if ev.Call? && sys.memory.Some? {
      var out := ev.fn(sys.memory.value);
      OrderInState(ev.order, out.0);
      var landed := LoadAfterWrite(c, sys.finals, out, ev.order, ev.faults);
      var w := CallOf(c, sys, ev);
      WholeLoads(c, w.0);
      WriteWithoutTry(c, sys.finals, out, ev.order, ev.faults);
    }
  }

  lemma WriteWithoutTry<V>(c: Codec<V>, finals: map<Name, Bytes>, out: (map<Name, V>, bool), order: seq<Name>,
          faults: seq<Fault>)
    requires |faults| == |order| && forall k :: 0 <= k < |order| ==> order[k] in out.0
    ensures !out.1 ==> WriteOf(c, finals, out, order, faults) == (finals, ClosureError)
  {
  }

  /** A call may land any of the parts: all of them, or any fewer with this error or crash at the next. */
  lemma SomeCallLands<V(!new)>(c: Codec<V>, sys: System<V>, fn: Closure<V>, landed: set<Name>, stop: Fault)
    returns (ev: Event<V>)
    requires Faithful(c) && SystemOk(c, sys) && sys.memory.Some? && landed <= PARTS
    requires (forall s :: IsState(s) ==> IsState(fn(s).0)) && fn(sys.memory.value).1
    requires !stop.NoFault? && !stop.Landed()
    ensures EventOk(ev) && ev.Call? && ev.fn == fn
    ensures CallOf(c, sys, ev).1
            == if landed == PARTS then Nil else if stop.Crashes? then CrashedInside else PersistError
    ensures var next := After(c, sys, ev);
            && next.memory == (if landed != PARTS && stop.Crashes? then None else Some(fn(sys.memory.value).0))
            && LoadOf(c, sys.finals).Some? && IsState(LoadOf(c, sys.finals).value)
            && LoadOf(c, next.finals) == Some(Mixed(LoadOf(c, sys.finals).value, fn(sys.memory.value).0, landed))
  {
    hide PARTS, WriteOf, LoadOf, Whole, Faithful;
    var out := fn(sys.memory.value);
    if landed == PARTS {
      var order := ListOf(PARTS);
      var faults := seq(|order|, _ => NoFault);
      ev := Call(fn, order, faults);
      OrderInState(order, out.0);
      var all := LoadAfterWrite(c, sys.finals, out, order, faults);
      assert Mixed(LoadOf(c, sys.finals).value, out.0, PARTS) == out.0;
    } else {
      var order, faults := EveryMixtureHappens(c, sys.finals, out, landed, stop);
      ev := Call(fn, order, faults);
    }
  }

  // ---- Every run ------------------------------------------------------------

  ghost predicate EventsOk<V(!new)>(evs: seq<Event<V>>) {
    forall k :: 0 <= k < |evs| ==> EventOk(evs[k])
  }

  /** The system after a run. */
  ghost function Run<V(!new)>(c: Codec<V>, sys: System<V>, evs: seq<Event<V>>): (r: System<V>)
    requires Faithful(c) && SystemOk(c, sys) && EventsOk(evs)
    ensures SystemOk(c, r)
  {
    if evs == [] then sys
    else
      var before := Run(c, sys, evs[..|evs| - 1]);
      EventKeepsWhole(c, before, evs[|evs| - 1]);
      After(c, before, evs[|evs| - 1])
  }

  lemma {:induction false} RunConcat<V(!new)>(c: Codec<V>, sys: System<V>, a: seq<Event<V>>, b: seq<Event<V>>)
    requires Faithful(c) && SystemOk(c, sys) && EventsOk(a) && EventsOk(b)
    ensures EventsOk(a + b) && Run(c, sys, a + b) == Run(c, Run(c, sys, a), b)
    decreases |b|
  {
    hide Faithful, SystemOk, EventOk, After;
    if b == [] {
      assert a + b == a;
    } else {
      var n := |b| - 1;
      assert EventsOk(b[..n]);
      RunConcat(c, sys, a, b[..n]);
      assert (a + b)[..|a + b| - 1] == a + b[..n];
    }
  }

  /** Some event of the run tries to save `v` for part `n`. */
  ghost predicate TriedIn<V(!new)>(c: Codec<V>, sys: System<V>, evs: seq<Event<V>>, n: Name, v: V)
    requires Faithful(c) && SystemOk(c, sys) && EventsOk(evs)
  {
    exists k :: 0 <= k < |evs| && Tries(c, Run(c, sys, evs[..k]), evs[k], n, v)
  }

  /** Main result over runs, with any number of failed and crashed writes: a restart always succeeds, and finds
      for each part either its value at the start of the run or one that some call of the run tried to save. */
  lemma {:induction false} RunsNeverTear<V(!new)>(c: Codec<V>, sys: System<V>, evs: seq<Event<V>>, n: Name)
    requires Faithful(c) && SystemOk(c, sys) && EventsOk(evs) && n in PARTS
    ensures LoadOf(c, Run(c, sys, evs).finals).Some?
    ensures var old_, now := PartOf(c, sys.finals, n), PartOf(c, Run(c, sys, evs).finals, n);
            old_.Some? && now.Some? && (now == old_ || TriedIn(c, sys, evs, n, now.value))
  {
    hide PARTS, LoadOf, PartOf, After, Whole, Tries;
    WholeLoads(c, sys.finals);
    WholeLoads(c, Run(c, sys, evs).finals);
    if evs != [] {
      var m := |evs| - 1;
      RunsNeverTear(c, sys, evs[..m], n);
      var before := Run(c, sys, evs[..m]);
      EventKeepsWhole(c, before, evs[m]);
      var then_, now := PartOf(c, before.finals, n), PartOf(c, Run(c, sys, evs).finals, n);
      if now == then_ {
        if TriedIn(c, sys, evs[..m], n, now.value) {
          var k :| 0 <= k < m && Tries(c, Run(c, sys, evs[..m][..k]), evs[..m][k], n, now.value);
          assert evs[..m][..k] == evs[..k];
          assert Tries(c, Run(c, sys, evs[..k]), evs[k], n, now.value);
        }
      } else {
        assert Tries(c, Run(c, sys, evs[..m]), evs[m], n, now.value);
      }
    }
  }

  /** Main result over runs: right after a call that returned nil, and right after a start, what is on disk loads
      as exactly what is in memory, however many earlier calls failed half-way. */
  lemma AcknowledgedIsDurable<V(!new)>(c: Codec<V>, sys: System<V>, evs: seq<Event<V>>)
    requires Faithful(c) && SystemOk(c, sys) && EventsOk(evs) && evs != []
    requires Acknowledged(c, Run(c, sys, evs[..|evs| - 1]), evs[|evs| - 1])
    ensures Run(c, sys, evs).memory.Some?
    ensures LoadOf(c, Run(c, sys, evs).finals) == Run(c, sys, evs).memory
  {
    hide PARTS, LoadOf, PartOf, After, Whole, Tries, Acknowledged;
    EventKeepsWhole(c, Run(c, sys, evs[..|evs| - 1]), evs[|evs| - 1]);
  }
}
