/** The builder's own identifiers: slugging them loses nothing. */
module GraphRefs {
  import opened MaximalRuns
  import opened Slugs
  import opened Text
  import opened Records
  import opened GraphModel

  /** A timestamp in the layout 20060102T150405: digits and the letter T. */
  predicate StampText(s: string) {
    |s| > 0 && forall k :: 0 <= k < |s| ==> '0' <= s[k] <= '9' || s[k] == 'T'
  }

  /** The stamps that identifiers of this graph contain are such timestamps. */
  predicate StampsAreText(inp: Input) {
    && (forall i :: 0 <= i < |inp.data.reviews| ==> StampText(inp.formats.stamp(inp.data.reviews[i].lastReviewedAt)))
    && (forall i :: 0 <= i < |inp.data.events| ==> StampText(inp.formats.stamp(inp.data.events[i].createdAt)))
  }

  // ---- Words of composite text ----------------------------------------------

  lemma LowerConcat(a: string, b: string)
    ensures Lower(a + b) == Lower(a) + Lower(b)
  {
  }

  lemma RunsAround(a: string, sep: char, b: string)
    requires sep == ':' || sep == '_' || sep == '-'
    ensures RunsOf(a + [sep] + b) == RunsOf(a) + RunsOf(b)
  {
    hide Runs, TrimSpace, RunsOf;
    RunsIgnoreSpace(a);
    RunsIgnoreSpace(b);
    RunsIgnoreSpace(a + [sep] + b);
    LowerConcat(a, [sep]);
    LowerConcat(a + [sep], b);
    assert Lower([sep]) == [sep];
    RunsWithSeparator(Lower(a), sep, Lower(b), Alnum);
  }

  lemma RunsOfSlugged(x: string)
    ensures RunsOf(Slug(x)) == Words(x)
  {
    SlugReadsBack(x);
  }

  lemma TypedWords(typ: string, x: string)
    ensures RunsOf(TypedNodeID(typ, x)) == RunsOf(typ) + Words(x)
    ensures Words(TypedNodeID(typ, x)) == RunsOf(typ) + Words(x)
  {
    hide Slug, RunsOf;
    assert TypedNodeID(typ, x) == typ + [':'] + Slug(x);
    RunsAround(typ, ':', Slug(x));
    RunsOfSlugged(x);
    WordsAreWords(x);
  }

  /** Text that lower-cases to letters and digits only is one word. */
  lemma OneWord(w: string)
    requires IsWord(Lower(w), Alnum)
    ensures RunsOf(w) == [Lower(w)]
  {
    RunsIgnoreSpace(w);
    RunsOfWord(Lower(w), Alnum);
  }

  lemma StampWord(s: string)
    requires StampText(s)
    ensures RunsOf(s) == [Lower(s)]
  {
    assert IsWord(Lower(s), Alnum);
    OneWord(s);
  }

  lemma DecimalWord(i: nat)
    ensures RunsOf(Decimal(i)) == [Decimal(i)]
  {
    hide Decimal;
    var d := Decimal(i);
    forall k | 0 <= k < |d|
      ensures '0' <= d[k] <= '9'
    {
      assert d[k] in d;
    }
    assert Lower(d) == d;
    OneWord(d);
  }

  /** Lower-casing separates two timestamps. */
  lemma StampsSeparate(a: string, b: string)
    requires StampText(a) && StampText(b) && Lower(a) == Lower(b)
    ensures a == b
  {
    forall k | 0 <= k < |a|
      ensures a[k] == b[k]
    {
      assert Lower(a)[k] == Lower(b)[k];
    }
  }

  lemma FirstWordGrows(rs: seq<string>, open: bool, c: char)
    requires |rs| > 0
    ensures var next := RunsStep(rs, open, c, Alnum);
            |next| > 0 && |rs[0]| <= |next[0]| && forall k :: 0 <= k < |rs[0]| ==> next[0][k] == rs[0][k]
  {
  }

  /** The first word begins like the text when the text begins with kept characters. */
  lemma {:induction false} FirstWordPrefix(s: string, n: nat)
    requires 0 < n <= |s| && forall k :: 0 <= k < n ==> Alnum(s[k])
    ensures |Runs(s, Alnum)| > 0 && n <= |Runs(s, Alnum)[0]| && forall k :: 0 <= k < n ==> Runs(s, Alnum)[0][k] == s[k]
    decreases |s|
  {
    if n == |s| {
      RunsOfWord(s, Alnum);
    } else {
      var t := s[..|s| - 1];
      FirstWordPrefix(t, n);
      FirstWordGrows(Runs(t, Alnum), Open(t, Alnum), s[|s| - 1]);
    }
  }

  /** Texts with the same words that begin with kept characters begin alike. */
  lemma SameWordsSameStart(a: string, b: string, n: nat)
    requires Words(a) == Words(b) && 0 < n <= |a| && n <= |b|
    requires forall k :: 0 <= k < n ==> Alnum(LowerChar(a[k])) && Alnum(LowerChar(b[k]))
    ensures forall k :: 0 <= k < n ==> LowerChar(a[k]) == LowerChar(b[k])
  {
    hide Runs, TrimSpace, RunsOf;
    RunsIgnoreSpace(a);
    RunsIgnoreSpace(b);
    FirstWordPrefix(Lower(a), n);
    FirstWordPrefix(Lower(b), n);
    var wa, wb := Words(a)[0], Words(b)[0];
    forall k | 0 <= k < n
      ensures LowerChar(a[k]) == LowerChar(b[k])
    {
      assert wa[k] == Lower(a)[k] && wb[k] == Lower(b)[k];
    }
  }

  // ---- The builder's identifiers --------------------------------------------

  datatype NodeRef =
    | TypedRef(typ: NodeType, text: string)
    | SnapshotRef(t: Instant, i: nat)
    | EventRef(ev: OperationalEvent, i: nat)
    | NarrativeRef(n: Narrative, i: nat)
    | ExportRef(k: nat)
    | NotComparableRef
    | LatestPreviousRef

  datatype NodeType = TENANT | EVIDENCE | OWNER | CONTROL | VENDOR | RISK | PROOFPACK | REPORT | PILOT | ACTION

  function TypeName(typ: NodeType): string {
    match typ
    case TENANT => "tenant"
    case EVIDENCE => "evidence"
    case OWNER => "owner"
    case CONTROL => "control"
    case VENDOR => "vendor"
    case RISK => "risk"
    case PROOFPACK => "proofpack"
    case REPORT => "review_report"
    case PILOT => "pilot_readiness"
    case ACTION => "action"
  }

  function RefID(formats: Formats, r: NodeRef): string
    requires r.ExportRef? ==> r.k < |EXPORT_KINDS|
  {
    match r
    case TypedRef(typ, text) => TypedNodeID(TypeName(typ), text)
    case SnapshotRef(t, i) => SnapshotNodeID(formats, t, i)
    case EventRef(ev, i) => EventNodeID(formats, ev, i)
    case NarrativeRef(n, i) => NarrativeNodeID(n, i)
    case ExportRef(k) => ExportNodeID(EXPORT_KINDS[k])
    case NotComparableRef => NOT_COMPARABLE_ID
    case LatestPreviousRef => LATEST_PREVIOUS_ID
  }

  predicate ValidRef(r: NodeRef) {
    r.ExportRef? ==> r.k < |EXPORT_KINDS|
  }

  /** The stamp in the identifier, if it has one, is a timestamp. */
  predicate StampIsText(formats: Formats, r: NodeRef) {
    match r
    case SnapshotRef(t, _) => StampText(formats.stamp(t))
    case EventRef(ev, _) => StampText(formats.stamp(ev.createdAt))
    case _ => true
  }

  /** The first two characters of an identifier. */
  function Start(r: NodeRef): (char, char) {
    match r
    case TypedRef(typ, _) =>
      (match typ
       case TENANT => ('t', 'e')
       case EVIDENCE => ('e', 'v')
       case OWNER => ('o', 'w')
       case CONTROL => ('c', 'o')
       case VENDOR => ('v', 'e')
       case RISK => ('r', 'i')
       case PROOFPACK => ('p', 'r')
       case REPORT => ('r', 'e')
       case PILOT => ('p', 'i')
       case ACTION => ('a', 'c'))
    case SnapshotRef(_, _) => ('s', 'n')
    case EventRef(_, _) => ('o', 'p')
    case NarrativeRef(_, _) => ('n', 'a')
    case ExportRef(_) => ('e', 'x')
    case NotComparableRef => ('r', 'e')
    case LatestPreviousRef => ('r', 'e')
  }

  lemma TypeStarts(typ: NodeType, text: string)
    ensures |TypeName(typ)| >= 2
    ensures (TypeName(typ)[0], TypeName(typ)[1]) == Start(TypedRef(typ, text))
  {
  }

  lemma RefStarts(formats: Formats, r: NodeRef)
    requires ValidRef(r)
    ensures |RefID(formats, r)| >= 2
    ensures (RefID(formats, r)[0], RefID(formats, r)[1]) == Start(r)
  {
    hide Slug, Decimal, TypeName;
    match r
    case TypedRef(typ, text) => TypeStarts(typ, text);
    case SnapshotRef(t, i) =>
    case EventRef(ev, i) =>
    case NarrativeRef(n, i) =>
    case ExportRef(k) =>
    case NotComparableRef =>
    case LatestPreviousRef =>
  }

  lemma StartIsLower(r: NodeRef)
    ensures Alnum(Start(r).0) && Alnum(Start(r).1)
  {
  }

  lemma StartsAlike(formats: Formats, r: NodeRef, r': NodeRef)
    requires ValidRef(r) && ValidRef(r') && Words(RefID(formats, r)) == Words(RefID(formats, r'))
    ensures Start(r) == Start(r')
  {
    hide RefID, Words, Start;
    RefStarts(formats, r);
    RefStarts(formats, r');
    StartIsLower(r);
    StartIsLower(r');
    SameWordsSameStart(RefID(formats, r), RefID(formats, r'), 2);
  }

  // ---- Words of each kind of identifier -------------------------------------

  lemma SnapshotWords(formats: Formats, t: Instant, i: nat)
    requires StampText(formats.stamp(t))
    ensures Words(SnapshotNodeID(formats, t, i)) == RunsOf("snapshot:review") + [Lower(formats.stamp(t))] + [Decimal(i)]
  {
    hide Decimal, RunsOf, StampText, Lower;
    var s := formats.stamp(t);
    assert SnapshotNodeID(formats, t, i) == ("snapshot:review" + [':'] + s) + [':'] + Decimal(i) by {
      assert "snapshot:review:" == "snapshot:review" + [':'];
    }
    RunsAround("snapshot:review" + [':'] + s, ':', Decimal(i));
    RunsAround("snapshot:review", ':', s);
    StampWord(s);
    DecimalWord(i);
  }

  lemma EventWords(formats: Formats, ev: OperationalEvent, i: nat)
    requires StampText(formats.stamp(ev.createdAt))
    ensures Words(EventNodeID(formats, ev, i))
            == RunsOf("operational_event") + Words(ev.typ) + [Lower(formats.stamp(ev.createdAt))] + [Decimal(i)]
  {
    hide Decimal, RunsOf, StampText, Lower, Slug, Words;
    var s := formats.stamp(ev.createdAt);
    var a := "operational_event" + [':'] + Slug(ev.typ);
    assert EventNodeID(formats, ev, i) == (a + [':'] + s) + [':'] + Decimal(i) by {
      assert "operational_event:" == "operational_event" + [':'];
    }
    RunsAround(a + [':'] + s, ':', Decimal(i));
    RunsAround(a, ':', s);
    RunsAround("operational_event", ':', Slug(ev.typ));
    RunsOfSlugged(ev.typ);
    StampWord(s);
    DecimalWord(i);
    SomeRuns(EventNodeID(formats, ev, i));
  }

  lemma NarrativeWords(n: Narrative, i: nat)
    ensures Words(NarrativeNodeID(n, i)) == RunsOf("narrative") + Words(n.scope) + [Decimal(i)]
  {
    hide Decimal, RunsOf, Slug, Words;
    var a := "narrative" + [':'] + Slug(n.scope);
    assert NarrativeNodeID(n, i) == a + [':'] + Decimal(i) by {
      assert "narrative:" == "narrative" + [':'];
    }
    RunsAround(a, ':', Decimal(i));
    RunsAround("narrative", ':', Slug(n.scope));
    RunsOfSlugged(n.scope);
    DecimalWord(i);
    SomeRuns(NarrativeNodeID(n, i));
  }

  lemma SomeRuns(v: string)
    ensures RunsOf(v) != [] ==> Words(v) == RunsOf(v)
  {
  }

  lemma ExportWords(kind: string)
    requires IsWord(kind, Alnum) && Lower(kind) == kind
    ensures Words(ExportNodeID(kind)) == RunsOf("export:evidence-graph") + [kind]
  {
    hide RunsOf;
    assert ExportNodeID(kind) == "export:evidence-graph" + [':'] + kind by {
      assert "export:evidence-graph:" == "export:evidence-graph" + [':'];
    }
    RunsAround("export:evidence-graph", ':', kind);
    OneWord(kind);
  }

  lemma ExportKindWords(k: nat)
    requires k < |EXPORT_KINDS|
    ensures IsWord(EXPORT_KINDS[k], Alnum) && Lower(EXPORT_KINDS[k]) == EXPORT_KINDS[k]
  {
  }

  lemma PlainWord(w: string)
    requires IsWord(w, Alnum)
    ensures RunsOf(w) == [w]
  {
    assert Lower(w) == w;
    OneWord(w);
  }

  lemma ReportTypeWords()
    ensures RunsOf("review_report") == ["review", "report"]
  {
    hide RunsOf;
    assert "review_report" == "review" + ['_'] + "report";
    RunsAround("review", '_', "report");
    PlainWord("review");
    PlainWord("report");
  }

  lemma NotComparableWords()
    ensures RunsOf(NOT_COMPARABLE_ID) == ["review", "comparison", "not", "comparable"]
  {
    hide RunsOf;
    assert NOT_COMPARABLE_ID == ("review" + ['_'] + "comparison") + [':'] + ("not" + ['_'] + "comparable");
    assert IsWord("not", Alnum) && IsWord("comparable", Alnum);
    PairWords("not", "comparable");
  }

  lemma LatestPreviousWords()
    ensures RunsOf(LATEST_PREVIOUS_ID) == ["review", "comparison", "latest", "previous"]
  {
    hide RunsOf;
    assert LATEST_PREVIOUS_ID == ("review" + ['_'] + "comparison") + [':'] + ("latest" + ['_'] + "previous");
    assert IsWord("latest", Alnum) && IsWord("previous", Alnum);
    PairWords("latest", "previous");
  }

  lemma PairWords(a: string, b: string)
    requires IsWord(a, Alnum) && IsWord(b, Alnum)
    ensures RunsOf(("review" + ['_'] + "comparison") + [':'] + (a + ['_'] + b)) == ["review", "comparison", a, b]
  {
    hide RunsOf;
    RunsAround("review" + ['_'] + "comparison", ':', a + ['_'] + b);
    RunsAround("review", '_', "comparison");
    RunsAround(a, '_', b);
    PlainWord("review");
    PlainWord("comparison");
    PlainWord(a);
    PlainWord(b);
  }

  // ---- Slugs separate the identifiers ---------------------------------------

  lemma CutPrefix<T>(p: seq<T>, a: seq<T>, b: seq<T>)
    requires p + a == p + b
    ensures a == b
  {
    assert a == (p + a)[|p|..] && b == (p + b)[|p|..];
  }

  lemma CutLast<T>(a: seq<T>, x: T, b: seq<T>, y: T)
    requires a + [x] == b + [y]
    ensures a == b && x == y
  {
    assert |a| == |b|;
    assert x == (a + [x])[|a|] && y == (b + [y])[|b|];
    assert a == (a + [x])[..|a|] && b == (b + [y])[..|b|];
  }

  lemma SameKind(r: NodeRef, r': NodeRef)
    requires Start(r) == Start(r')
    ensures match (r, r') {
              case (TypedRef(typ, _), TypedRef(typ', _)) => typ == typ'
              case (SnapshotRef(_, _), SnapshotRef(_, _)) => true
              case (EventRef(_, _), EventRef(_, _)) => true
              case (NarrativeRef(_, _), NarrativeRef(_, _)) => true
              case (ExportRef(_), ExportRef(_)) => true
              case _ => Start(r) == ('r', 'e')
            }
  {
  }

  lemma TypedSeparate(formats: Formats, typ: NodeType, a: string, b: string)
    requires Words(RefID(formats, TypedRef(typ, a))) == Words(RefID(formats, TypedRef(typ, b)))
    ensures RefID(formats, TypedRef(typ, a)) == RefID(formats, TypedRef(typ, b))
  {
    hide Words, RunsOf, Slug, TypeName;
    TypedWords(TypeName(typ), a);
    TypedWords(TypeName(typ), b);
    CutPrefix(RunsOf(TypeName(typ)), Words(a), Words(b));
    SlugCollidesIffSameWords(a, b);
  }

  lemma SnapshotsSeparate(formats: Formats, t: Instant, i: nat, u: Instant, j: nat)
    requires StampText(formats.stamp(t)) && StampText(formats.stamp(u))
    requires Words(SnapshotNodeID(formats, t, i)) == Words(SnapshotNodeID(formats, u, j))
    ensures SnapshotNodeID(formats, t, i) == SnapshotNodeID(formats, u, j)
  {
    hide Words, RunsOf, Decimal, StampText, Lower;
    SnapshotWords(formats, t, i);
    SnapshotWords(formats, u, j);
    var p, a, b := RunsOf("snapshot:review"), Lower(formats.stamp(t)), Lower(formats.stamp(u));
    CutLast(p + [a], Decimal(i), p + [b], Decimal(j));
    CutLast(p, a, p, b);
    StampsSeparate(formats.stamp(t), formats.stamp(u));
  }

  lemma EventsSeparate(formats: Formats, ev: OperationalEvent, i: nat, ew: OperationalEvent, j: nat)
    requires StampText(formats.stamp(ev.createdAt)) && StampText(formats.stamp(ew.createdAt))
    requires Words(EventNodeID(formats, ev, i)) == Words(EventNodeID(formats, ew, j))
    ensures EventNodeID(formats, ev, i) == EventNodeID(formats, ew, j)
  {
    hide Words, RunsOf, Decimal, StampText, Lower, Slug;
    EventWords(formats, ev, i);
    EventWords(formats, ew, j);
    var p, a, b := RunsOf("operational_event"), Lower(formats.stamp(ev.createdAt)), Lower(formats.stamp(ew.createdAt));
    CutLast(p + Words(ev.typ) + [a], Decimal(i), p + Words(ew.typ) + [b], Decimal(j));
    CutLast(p + Words(ev.typ), a, p + Words(ew.typ), b);
    CutPrefix(p, Words(ev.typ), Words(ew.typ));
    StampsSeparate(formats.stamp(ev.createdAt), formats.stamp(ew.createdAt));
    SlugCollidesIffSameWords(ev.typ, ew.typ);
  }

  lemma NarrativesSeparate(n: Narrative, i: nat, m: Narrative, j: nat)
    requires Words(NarrativeNodeID(n, i)) == Words(NarrativeNodeID(m, j))
    ensures NarrativeNodeID(n, i) == NarrativeNodeID(m, j)
  {
    hide Words, RunsOf, Decimal, Slug;
    NarrativeWords(n, i);
    NarrativeWords(m, j);
    var p := RunsOf("narrative");
    CutLast(p + Words(n.scope), Decimal(i), p + Words(m.scope), Decimal(j));
    CutPrefix(p, Words(n.scope), Words(m.scope));
    SlugCollidesIffSameWords(n.scope, m.scope);
  }

  lemma ExportsSeparate(k: nat, m: nat)
    requires k < |EXPORT_KINDS| && m < |EXPORT_KINDS|
    requires Words(ExportNodeID(EXPORT_KINDS[k])) == Words(ExportNodeID(EXPORT_KINDS[m]))
    ensures ExportNodeID(EXPORT_KINDS[k]) == ExportNodeID(EXPORT_KINDS[m])
  {
    hide Words, RunsOf;
    ExportKindWords(k);
    ExportKindWords(m);
    ExportWords(EXPORT_KINDS[k]);
    ExportWords(EXPORT_KINDS[m]);
    CutPrefix(RunsOf("export:evidence-graph"), [EXPORT_KINDS[k]], [EXPORT_KINDS[m]]);
    assert [EXPORT_KINDS[k]][0] == [EXPORT_KINDS[m]][0];
  }

  /** "review_report:…", "review_comparison:not_comparable" and "review_comparison:latest_previous" differ in
      their second or third word. */
  lemma ReviewIDsSeparate(formats: Formats, r: NodeRef, r': NodeRef)
    requires Start(r) == ('r', 'e') && Start(r') == ('r', 'e')
    requires Words(RefID(formats, r)) == Words(RefID(formats, r'))
    ensures RefID(formats, r) == RefID(formats, r')
  {
    hide Words, RunsOf, Slug;
    if r.TypedRef? && r'.TypedRef? {
      TypedSeparate(formats, REPORT, r.text, r'.text);
    } else {
      assert ReviewSecond(r) == ReviewSecond(r') && ReviewThird(r) == ReviewThird(r') by {
        ReviewWords(formats, r);
        ReviewWords(formats, r');
      }
    }
  }

  function ReviewSecond(r: NodeRef): char { if r.TypedRef? then 'r' else 'c' }

  function ReviewThird(r: NodeRef): char { if r.NotComparableRef? then 'n' else if r.LatestPreviousRef? then 'l'
          else '?' }

  lemma ReviewWords(formats: Formats, r: NodeRef)
    requires Start(r) == ('r', 'e')
    ensures |Words(RefID(formats, r))| > 2
    ensures Words(RefID(formats, r))[1] != "" && Words(RefID(formats, r))[1][0] == ReviewSecond(r)
    ensures !r.TypedRef? ==> Words(RefID(formats, r))[2] != "" && Words(RefID(formats, r))[2][0] == ReviewThird(r)
  {
    hide RunsOf, Slug;
    if r.TypedRef? {
      ReportTypeWords();
      TypedWords("review_report", r.text);
      WordsAreWords(r.text);
    } else if r.NotComparableRef? {
      NotComparableWords();
    } else {
      LatestPreviousWords();
    }
  }

  /** Main result: on the builder's own identifiers a slug collides with no other. */
  lemma SlugSeparatesNodeIDs(formats: Formats, r: NodeRef, r': NodeRef)
    requires ValidRef(r) && ValidRef(r') && StampIsText(formats, r) && StampIsText(formats, r')
    requires Slug(RefID(formats, r)) == Slug(RefID(formats, r'))
    ensures RefID(formats, r) == RefID(formats, r')
  {
    hide Words, RunsOf, Slug, StampText, Lower, SnapshotNodeID, EventNodeID, NarrativeNodeID, ExportNodeID,
      TypedNodeID;
    SlugCollidesIffSameWords(RefID(formats, r), RefID(formats, r'));
    StartsAlike(formats, r, r');
    SameKind(r, r');
    match (r, r') {
      case (TypedRef(typ, a), TypedRef(_, b)) => TypedSeparate(formats, typ, a, b);
      case (SnapshotRef(t, i), SnapshotRef(u, j)) => SnapshotsSeparate(formats, t, i, u, j);
      case (EventRef(ev, i), EventRef(ew, j)) => EventsSeparate(formats, ev, i, ew, j);
      case (NarrativeRef(n, i), NarrativeRef(m, j)) => NarrativesSeparate(n, i, m, j);
      case (ExportRef(k), ExportRef(m)) => ExportsSeparate(k, m);
      case _ => ReviewIDsSeparate(formats, r, r');
    }
  }

  // ---- Edge types -----------------------------------------------------------

  datatype EdgeType =
    | OWNS | SUPPORTS_CONTROL | RELATES_TO_VENDOR | MITIGATES_RISK | EXPIRED_BECAUSE | OWNERLESS_BECAUSE | STALE_BECAUSE
    | INCLUDED_IN_PROOFPACK | APPEARS_IN_SNAPSHOT | GENERATED_EVENT | REVIEWED_IN | COMPARED_WITH | READY_FOR_EXPORT
    | PRODUCED_NARRATIVE | REQUIRES_ACTION

  function EdgeName(e: EdgeType): string {
    match e
    case OWNS => "OWNS"
    case SUPPORTS_CONTROL => "SUPPORTS_CONTROL"
    case RELATES_TO_VENDOR => "RELATES_TO_VENDOR"
    case MITIGATES_RISK => "MITIGATES_RISK"
    case EXPIRED_BECAUSE => "EXPIRED_BECAUSE"
    case OWNERLESS_BECAUSE => "OWNERLESS_BECAUSE"
    case STALE_BECAUSE => "STALE_BECAUSE"
    case INCLUDED_IN_PROOFPACK => "INCLUDED_IN_PROOFPACK"
    case APPEARS_IN_SNAPSHOT => "APPEARS_IN_SNAPSHOT"
    case GENERATED_EVENT => "GENERATED_EVENT"
    case REVIEWED_IN => "REVIEWED_IN"
    case COMPARED_WITH => "COMPARED_WITH"
    case READY_FOR_EXPORT => "READY_FOR_EXPORT"
    case PRODUCED_NARRATIVE => "PRODUCED_NARRATIVE"
    case REQUIRES_ACTION => "REQUIRES_ACTION"
  }

  /** The second, third and fourth character tell the edge types apart, given the first. */
  function EdgeStart(e: EdgeType): (char, char, char, char) {
    match e
    case OWNS => ('O', 'W', 'N', 'S')
    case SUPPORTS_CONTROL => ('S', 'U', 'P', 'P')
    case RELATES_TO_VENDOR => ('R', 'E', 'L', 'A')
    case MITIGATES_RISK => ('M', 'I', 'T', 'I')
    case EXPIRED_BECAUSE => ('E', 'X', 'P', 'I')
    case OWNERLESS_BECAUSE => ('O', 'W', 'N', 'E')
    case STALE_BECAUSE => ('S', 'T', 'A', 'L')
    case INCLUDED_IN_PROOFPACK => ('I', 'N', 'C', 'L')
    case APPEARS_IN_SNAPSHOT => ('A', 'P', 'P', 'E')
    case GENERATED_EVENT => ('G', 'E', 'N', 'E')
    case REVIEWED_IN => ('R', 'E', 'V', 'I')
    case COMPARED_WITH => ('C', 'O', 'M', 'P')
    case READY_FOR_EXPORT => ('R', 'E', 'A', 'D')
    case PRODUCED_NARRATIVE => ('P', 'R', 'O', 'D')
    case REQUIRES_ACTION => ('R', 'E', 'Q', 'U')
  }

  lemma EdgeNameStarts(e: EdgeType)
    ensures |EdgeName(e)| >= 4
    ensures (EdgeName(e)[0], EdgeName(e)[1], EdgeName(e)[2], EdgeName(e)[3]) == EdgeStart(e)
  {
  }

  lemma EdgeStartIsCapital(e: EdgeType)
    ensures 'A' <= EdgeStart(e).0 <= 'Z' && 'A' <= EdgeStart(e).1 <= 'Z'
    ensures 'A' <= EdgeStart(e).2 <= 'Z' && 'A' <= EdgeStart(e).3 <= 'Z'
  {
  }

  lemma EdgeStartsSeparate(e: EdgeType, e': EdgeType)
    requires EdgeStart(e) == EdgeStart(e')
    ensures e == e'
  {
  }

  lemma EdgeTypesSeparate(e: EdgeType, e': EdgeType)
    requires Slug(EdgeName(e)) == Slug(EdgeName(e'))
    ensures e == e'
  {
    hide EdgeName, EdgeStart, Slug, Words;
    SlugCollidesIffSameWords(EdgeName(e), EdgeName(e'));
    EdgeNameStarts(e);
    EdgeNameStarts(e');
    EdgeStartIsCapital(e);
    EdgeStartIsCapital(e');
    SameWordsSameStart(EdgeName(e), EdgeName(e'), 4);
    EdgeStartsSeparate(e, e');
  }
}
