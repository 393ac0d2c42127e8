/** The mapping references of an evidence item: the form parser `splitRefs`, the store's
    `normalizeRefs`, and the mapping editor that prints every reference followed by ", ". */
module References {
  import opened Text
  import opened MaximalRuns

  /** `strings.ToLower` on a reference; nothing is assumed about it. */
  type Fold = string -> string

  predicate NotSpace(c: char) {
    !IsSpace(c)
  }

  // ---- Library calls of splitRefs -------------------------------------------

  /** `strings.ReplaceAll(raw, "\r\n", "\n")`. */
  function UnixLines(s: string): string {
    if |s| == 0 then ""
    else if |s| >= 2 && s[0] == '\r' && s[1] == '\n' then "\n" + UnixLines(s[2..])
    else [s[0]] + UnixLines(s[1..])
  }

  /** `strings.ReplaceAll(raw, "\n", ",")`. */
  function CommaLines(s: string): string {
    seq(|s|, i requires 0 <= i < |s| => if s[i] == '\n' then ',' else s[i])
  }

  function SplitStep(before: seq<string>, c: char): (parts: seq<string>)
    requires |before| > 0
    ensures |parts| > 0
  {
    if c == ',' then before + [""] else before[..|before| - 1] + [before[|before| - 1] + [c]]
  }

  /** `strings.Split(raw, ",")`. */
  function SplitComma(s: string): (parts: seq<string>)
    ensures |parts| > 0
  {
    if s == "" then [""] else SplitStep(SplitComma(s[..|s| - 1]), s[|s| - 1])
  }

  /** `strings.Join(strings.Fields(p), " ")`. */
  function Collapse(p: string): string {
    Join(Runs(p, NotSpace), " ")
  }

  function Parts(raw: string): seq<string> {
    SplitComma(CommaLines(UnixLines(raw)))
  }

  // ---- The two loops --------------------------------------------------------

  predicate HasKey(refs: seq<string>, key: string, fold: Fold) {
    exists k :: 0 <= k < |refs| && fold(refs[k]) == key
  }

  /** What either loop has collected after the cleaned candidates `cs`: blanks and repeats are passed over. */
  function Distinct(cs: seq<string>, fold: Fold): seq<string> {
    if cs == [] then []
    else
      var out := Distinct(cs[..|cs| - 1], fold);
      var c := cs[|cs| - 1];
      if c == "" || HasKey(out, fold(c), fold) then out else out + [c]
  }

  function CollapseAll(parts: seq<string>): seq<string> {
    seq(|parts|, i requires 0 <= i < |parts| => Collapse(parts[i]))
  }

  function TrimAll(refs: seq<string>): seq<string> {
    seq(|refs|, i requires 0 <= i < |refs| => TrimSpace(refs[i]))
  }

  function SplitRefs(raw: string, fold: Fold): seq<string> {
    Distinct(CollapseAll(Parts(raw)), fold)
  }

  function NormalizeRefs(refs: seq<string>, fold: Fold): seq<string> {
    Distinct(TrimAll(refs), fold)
  }

  ghost predicate SeenIs(seen: set<string>, out: seq<string>, fold: Fold) {
    forall key :: key in seen <==> HasKey(out, key, fold)
  }

  lemma SeenStep(seen: set<string>, out: seq<string>, c: string, fold: Fold)
    requires SeenIs(seen, out, fold)
    ensures SeenIs(seen + {fold(c)}, out + [c], fold)
  {
    forall key
      ensures key in seen + {fold(c)} <==> HasKey(out + [c], key, fold)
    {
      if HasKey(out, key, fold) {
        var k :| 0 <= k < |out| && fold(out[k]) == key;
        assert fold((out + [c])[k]) == key;
      }
      assert fold((out + [c])[|out|]) == fold(c);
    }
  }

  method SplitRefsLoop(raw: string, fold: Fold) returns (out: seq<string>)
    ensures out == SplitRefs(raw, fold)
  {
    var parts := SplitComma(CommaLines(UnixLines(raw)));
    ghost var cleaned := CollapseAll(parts);
    out := [];
    var seen: set<string> := {};
    for i := 0 to |parts|
      invariant out == Distinct(cleaned[..i], fold)
      invariant SeenIs(seen, out, fold)
    {
      assert cleaned[..i + 1][..i] == cleaned[..i];
      var clean := Join(Runs(parts[i], NotSpace), " ");
      if clean == "" {
        continue;
      }
      var key := fold(clean);
      if key in seen {
        continue;
      }
      SeenStep(seen, out, clean, fold);
      seen := seen + {key};
      out := out + [clean];
    }
    assert cleaned[..|parts|] == cleaned;
  }

  method NormalizeRefsLoop(refs: seq<string>, fold: Fold) returns (out: seq<string>)
    ensures out == NormalizeRefs(refs, fold)
  {
    ghost var cleaned := TrimAll(refs);
    out := [];
    var seen: set<string> := {};
    for i := 0 to |refs|
      invariant out == Distinct(cleaned[..i], fold)
      invariant SeenIs(seen, out, fold)
    {
      assert cleaned[..i + 1][..i] == cleaned[..i];
      var clean := TrimSpace(refs[i]);
      if clean == "" {
        continue;
      }
      var key := fold(clean);
      if key in seen {
        continue;
      }
      SeenStep(seen, out, clean, fold);
      seen := seen + {key};
      out := out + [clean];
    }
    assert cleaned[..|refs|] == cleaned;
  }

  /** The textarea of the mapping editor: each reference followed by ", ". */
  function Render(refs: seq<string>): string {
    if refs == [] then "" else refs[0] + ", " + Render(refs[1..])
  }

  // ---- What Distinct keeps --------------------------------------------------

  /** Case-insensitively distinct. */
  predicate DistinctKeys(refs: seq<string>, fold: Fold) {
    forall i, j :: 0 <= i < j < |refs| ==> fold(refs[i]) != fold(refs[j])
  }

  predicate NoBlanks(refs: seq<string>) {
    forall i :: 0 <= i < |refs| ==> refs[i] != ""
  }

  /** The collected list has no blanks and no repeated key, comes from the candidates, and speaks for
      every non-blank candidate. */
  lemma {:induction false} DistinctKeepsOnePerKey(cs: seq<string>, fold: Fold)
    ensures DistinctKeys(Distinct(cs, fold), fold) && NoBlanks(Distinct(cs, fold))
    ensures forall i :: 0 <= i < |Distinct(cs, fold)| ==> Distinct(cs, fold)[i] in cs
    ensures forall i :: 0 <= i < |cs| && cs[i] != "" ==> HasKey(Distinct(cs, fold), fold(cs[i]), fold)
  {
    if cs != [] {
      var front, c := cs[..|cs| - 1], cs[|cs| - 1];
      DistinctKeepsOnePerKey(front, fold);
      var out, next := Distinct(front, fold), Distinct(cs, fold);
      forall i | 0 <= i < |cs| && cs[i] != ""
        ensures HasKey(next, fold(cs[i]), fold)
      {
        if i < |front| {
          assert front[i] == cs[i];
          var k :| 0 <= k < |out| && fold(out[k]) == fold(cs[i]);
          assert fold(next[k]) == fold(cs[i]);
        } else if next != out {
          assert next[|out|] == c;
        }
      }
      forall i | 0 <= i < |next|
        ensures next[i] in cs
      {
        if i < |out| {
          assert next[i] == out[i] && out[i] in front;
        }
      }
    }
  }

  /** Nothing is dropped exactly when there is nothing to drop. */
  lemma {:induction false} DistinctFixes(cs: seq<string>, fold: Fold)
    ensures |Distinct(cs, fold)| <= |cs|
    ensures Distinct(cs, fold) == cs <==> DistinctKeys(cs, fold) && NoBlanks(cs)
  {
    if cs != [] {
      var front, c := cs[..|cs| - 1], cs[|cs| - 1];
      DistinctFixes(front, fold);
      assert cs == front + [c];
      DistinctKeepsOnePerKey(cs, fold);
      if DistinctKeys(cs, fold) && NoBlanks(cs) {
        assert DistinctKeys(front, fold) && NoBlanks(front);
        assert !HasKey(front, fold(c), fold);
      }
    }
  }

  /** Trailing blanks make no difference. */
  lemma DistinctIgnoresBlank(cs: seq<string>, fold: Fold)
    ensures Distinct(cs + [""], fold) == Distinct(cs, fold)
  {
  }

  // ---- Clean references -----------------------------------------------------

  /** White space occurs only as a single blank between two other characters. */
  predicate SingleSpaced(r: string) {
    forall i :: 0 <= i < |r| && IsSpace(r[i]) ==> r[i] == ' ' && 0 < i < |r| - 1 && !IsSpace(r[i + 1])
  }

  predicate NoComma(r: string) {
    forall i :: 0 <= i < |r| ==> r[i] != ','
  }

  /** A reference the form can carry unchanged. */
  predicate Clean(r: string) {
    r != "" && NoComma(r) && SingleSpaced(r)
  }

  predicate AllClean(refs: seq<string>) {
    forall k :: 0 <= k < |refs| ==> Clean(refs[k])
  }

  lemma {:induction false} JoinIsSingleSpaced(rs: seq<string>)
    requires AreWords(rs, NotSpace)
    ensures SingleSpaced(Join(rs, " "))
  {
    JoinEnds(rs, " ", NotSpace);
    if |rs| == 1 {
      assert IsWord(rs[0], NotSpace);
    } else if |rs| > 1 {
      var front, last := rs[..|rs| - 1], rs[|rs| - 1];
      JoinIsSingleSpaced(front);
      JoinEnds(front, " ", NotSpace);
      assert IsWord(last, NotSpace);
      BlankBetween(Join(front, " "), last);
    }
  }

  lemma BlankBetween(a: string, b: string)
    requires SingleSpaced(a) && AllKept(b, NotSpace) && a != "" && b != "" && !IsSpace(a[|a| - 1])
    ensures SingleSpaced(a + " " + b)
  {
  }

  /** Up to one blank that is still waiting for its next field, a single-spaced prefix is the join of its fields. */
  lemma {:induction false} SingleSpacedIsJoin(r: string, n: nat)
    requires SingleSpaced(r) && n <= |r|
    ensures r[..n] == Join(Runs(r[..n], NotSpace), " ") + (if n > 0 && IsSpace(r[n - 1]) then " " else "")
    ensures n > 0 ==> Runs(r[..n], NotSpace) != []
  {
    if n > 0 {
      SingleSpacedIsJoin(r, n - 1);
      var p, c := r[..n - 1], r[n - 1];
      assert r[..n] == p + [c];
      RunsSnoc(p, c, NotSpace);
      if !IsSpace(c) {
        JoinStep(Runs(p, NotSpace), Open(p, NotSpace), c, " ", NotSpace);
      }
    }
  }

  /** Collapsing leaves exactly the single-spaced strings alone, and always yields one. */
  lemma CollapseFixes(r: string)
    ensures SingleSpaced(Collapse(r))
    ensures Collapse(r) == r <==> SingleSpaced(r)
  {
    RunsAreWords(r, NotSpace);
    JoinIsSingleSpaced(Runs(r, NotSpace));
    if SingleSpaced(r) {
      SingleSpacedIsJoin(r, |r|);
      assert r[..|r|] == r;
    }
  }

  lemma SingleSpacedIsTrimmed(r: string)
    requires SingleSpaced(r)
    ensures TrimSpace(r) == r
  {
  }

  // ---- Commas ---------------------------------------------------------------

  lemma SplitStepAppend(a: seq<string>, b: seq<string>, c: char)
    requires |b| > 0
    ensures SplitStep(a + b, c) == a + SplitStep(b, c)
  {
  }

  lemma SplitSnoc(s: string, c: char)
    ensures SplitComma(s + [c]) == SplitStep(SplitComma(s), c)
  {
  }

  lemma {:induction false} SplitAtComma(x: string, y: string)
    ensures SplitComma(x + "," + y) == SplitComma(x) + SplitComma(y)
    decreases |y|
  {
    if y == "" {
      assert x + "," + y == x + [','];
      SplitSnoc(x, ',');
    } else {
      var t, c := y[..|y| - 1], y[|y| - 1];
      SplitAtComma(x, t);
      assert x + "," + y == (x + "," + t) + [c];
      SplitSnoc(x + "," + t, c);
      SplitStepAppend(SplitComma(x), SplitComma(t), c);
    }
  }

  lemma {:induction false} SplitWithoutComma(x: string)
    requires NoComma(x)
    ensures SplitComma(x) == [x]
  {
    if x != "" {
      SplitWithoutComma(x[..|x| - 1]);
      assert x == x[..|x| - 1] + [x[|x| - 1]];
    }
  }

  lemma {:induction false} SplitPartsHaveNoComma(s: string)
    ensures forall k :: 0 <= k < |SplitComma(s)| ==> NoComma(SplitComma(s)[k])
  {
    if s != "" {
      SplitPartsHaveNoComma(s[..|s| - 1]);
    }
  }

  /** Joining fields adds blanks only. */
  lemma {:induction false} JoinHasNoComma(rs: seq<string>)
    requires forall k :: 0 <= k < |rs| ==> NoComma(rs[k])
    ensures NoComma(Join(rs, " "))
  {
    if |rs| > 1 {
      JoinHasNoComma(rs[..|rs| - 1]);
    }
  }

  lemma CollapseHasNoComma(p: string)
    requires NoComma(p)
    ensures NoComma(Collapse(p))
  {
    var rs := Runs(p, NotSpace);
    var at := RunsAreMaximal(p, NotSpace);
    forall k | 0 <= k < |rs|
      ensures NoComma(rs[k])
    {
      assert IsRun(p, rs[k], at[k].0, at[k].1, NotSpace);
    }
    JoinHasNoComma(rs);
  }

  // ---- Printing and parsing again -------------------------------------------

  /** What the parser sees of a rendered list: the references, all but the first behind a blank, and
      whatever stood in front of an empty rendering. */
  function Pieces(pre: string, refs: seq<string>): seq<string>
    decreases |refs|
  {
    if refs == [] then [pre] else [pre + refs[0]] + Pieces(" ", refs[1..])
  }

  predicate OneLine(s: string) {
    forall i :: 0 <= i < |s| ==> s[i] != '\n'
  }

  lemma {:induction false} OneLineUnchanged(s: string)
    requires OneLine(s)
    ensures UnixLines(s) == s && CommaLines(s) == s
  {
    if |s| > 0 {
      OneLineUnchanged(s[1..]);
    }
  }

  lemma {:induction false} RenderIsOneLine(refs: seq<string>)
    requires AllClean(refs)
    ensures OneLine(Render(refs))
  {
    if refs != [] {
      RenderIsOneLine(refs[1..]);
      assert Clean(refs[0]);
    }
  }

  lemma {:induction false} SplitOfRender(pre: string, refs: seq<string>)
    requires NoComma(pre) && AllClean(refs)
    ensures SplitComma(pre + Render(refs)) == Pieces(pre, refs)
    decreases |refs|
  {
    if refs == [] {
      assert pre + Render(refs) == pre;
      SplitWithoutComma(pre);
    } else {
      assert Clean(refs[0]);
      var head, rest := pre + refs[0], " " + Render(refs[1..]);
      assert ", " == "," + " ";
      assert pre + Render(refs) == head + "," + rest;
      SplitAtComma(head, rest);
      SplitWithoutComma(head);
      SplitOfRender(" ", refs[1..]);
    }
  }

  lemma CollapseLeadingBlank(r: string)
    requires SingleSpaced(r)
    ensures Collapse(" " + r) == r
  {
    RunsWithSeparator("", ' ', r, NotSpace);
    assert "" + [' '] + r == " " + r;
    assert [] + Runs(r, NotSpace) == Runs(r, NotSpace);
    CollapseFixes(r);
  }

  lemma CollapseCons(p: string, rest: seq<string>)
    ensures CollapseAll([p] + rest) == [Collapse(p)] + CollapseAll(rest)
  {
  }

  lemma CollapseAfter(pre: string, r: string)
    requires pre == "" || pre == " "
    requires SingleSpaced(r)
    ensures Collapse(pre + r) == r
  {
    if pre == "" {
      assert pre + r == r;
      CollapseFixes(r);
    } else {
      CollapseLeadingBlank(r);
    }
  }

  lemma {:induction false} CollapsedPieces(pre: string, refs: seq<string>)
    requires pre == "" || pre == " "
    requires AllClean(refs)
    ensures CollapseAll(Pieces(pre, refs)) == refs + [""]
    decreases |refs|
  {
    if refs == [] {
      CollapseAfter(pre, "");
      assert pre + "" == pre;
    } else {
      var head, tail := refs[0], refs[1..];
      assert Clean(head);
      assert AllClean(tail);
      CollapsedPieces(" ", tail);
      CollapseAfter(pre, head);
      CollapseCons(pre + head, Pieces(" ", tail));
      assert refs + [""] == [head] + (tail + [""]);
    }
  }

  /** Parsing what the editor printed gives the clean references back, less the repeated ones. */
  lemma ParseOfRender(refs: seq<string>, fold: Fold)
    requires AllClean(refs)
    ensures SplitRefs(Render(refs), fold) == Distinct(refs, fold)
  {
    RenderIsOneLine(refs);
    OneLineUnchanged(Render(refs));
    assert "" + Render(refs) == Render(refs);
    SplitOfRender("", refs);
    CollapsedPieces("", refs);
    DistinctIgnoresBlank(refs, fold);
  }

  /** Every list the parser returns is clean and case-insensitively distinct. */
  lemma ParsedIsClean(raw: string, fold: Fold)
    ensures AllClean(SplitRefs(raw, fold)) && DistinctKeys(SplitRefs(raw, fold), fold)
  {
    var s := CommaLines(UnixLines(raw));
    var parts := SplitComma(s);
    var cleaned := CollapseAll(parts);
    SplitPartsHaveNoComma(s);
    DistinctKeepsOnePerKey(cleaned, fold);
    var out := SplitRefs(raw, fold);
    forall k | 0 <= k < |out|
      ensures Clean(out[k])
    {
      assert out[k] in cleaned;
      var i :| 0 <= i < |cleaned| && cleaned[i] == out[k];
      CollapseFixes(parts[i]);
      CollapseHasNoComma(parts[i]);
    }
  }

  /** Main result: a list that came from the form survives being printed and parsed again. */
  lemma EditorRoundTrip(raw: string, fold: Fold)
    ensures SplitRefs(Render(SplitRefs(raw, fold)), fold) == SplitRefs(raw, fold)
  {
    var refs := SplitRefs(raw, fold);
    ParsedIsClean(raw, fold);
    ParseOfRender(refs, fold);
    DistinctFixes(refs, fold);
  }

  /** Main result: an arbitrary stored list survives a save without edits exactly when all its references
      are clean and distinct. */
  lemma EditorKeepsExactlyCleanLists(refs: seq<string>, fold: Fold)
    ensures SplitRefs(Render(refs), fold) == refs <==> AllClean(refs) && DistinctKeys(refs, fold)
  {
    if AllClean(refs) && DistinctKeys(refs, fold) {
      ParseOfRender(refs, fold);
      assert NoBlanks(refs) by {
        forall i | 0 <= i < |refs|
          ensures refs[i] != ""
        {
          assert Clean(refs[i]);
        }
      }
      DistinctFixes(refs, fold);
    }
    ParsedIsClean(Render(refs), fold);
  }

  // ---- The store's own normal form ------------------------------------------

  /** What the store guarantees of a reference list. */
  predicate Normal(refs: seq<string>, fold: Fold) {
    NoBlanks(refs) && DistinctKeys(refs, fold) && forall i :: 0 <= i < |refs| ==> TrimSpace(refs[i]) == refs[i]
  }

  lemma TrimSpaceIsIdempotent(s: string)
    ensures TrimSpace(TrimSpace(s)) == TrimSpace(s)
  {
    var left, right := TrimSplits(s, IsSpace);
    TrimFixes(TrimSpace(s), IsSpace);
  }

  lemma NormalizedIsNormal(refs: seq<string>, fold: Fold)
    ensures Normal(NormalizeRefs(refs, fold), fold)
  {
    var cleaned := TrimAll(refs);
    DistinctKeepsOnePerKey(cleaned, fold);
    var out := NormalizeRefs(refs, fold);
    forall k | 0 <= k < |out|
      ensures TrimSpace(out[k]) == out[k]
    {
      assert out[k] in cleaned;
      var i :| 0 <= i < |cleaned| && cleaned[i] == out[k];
      TrimSpaceIsIdempotent(refs[i]);
    }
  }

  /** `normalizeRefs` leaves exactly the normal lists alone. */
  lemma NormalizeFixes(refs: seq<string>, fold: Fold)
    ensures NormalizeRefs(refs, fold) == refs <==> Normal(refs, fold)
  {
    if Normal(refs, fold) {
      assert TrimAll(refs) == refs;
      DistinctFixes(refs, fold);
    }
    NormalizedIsNormal(refs, fold);
  }

  /** Parser output passes through the store unchanged. */
  lemma NormalizeKeepsParsed(raw: string, fold: Fold)
    ensures NormalizeRefs(SplitRefs(raw, fold), fold) == SplitRefs(raw, fold)
  {
    var refs := SplitRefs(raw, fold);
    ParsedIsClean(raw, fold);
    forall i | 0 <= i < |refs|
      ensures refs[i] != "" && TrimSpace(refs[i]) == refs[i]
    {
      assert Clean(refs[i]);
      SingleSpacedIsTrimmed(refs[i]);
    }
    NormalizeFixes(refs, fold);
  }

  /** A save without edits of a stored (normal) list: print, parse, normalize. It changes nothing exactly
      when no reference has a comma or white space other than single blanks. */
  lemma SaveWithoutEdits(refs: seq<string>, fold: Fold)
    requires Normal(refs, fold)
    ensures NormalizeRefs(SplitRefs(Render(refs), fold), fold) == refs <==>
            forall k :: 0 <= k < |refs| ==> NoComma(refs[k]) && SingleSpaced(refs[k])
  {
    NormalizeKeepsParsed(Render(refs), fold);
    EditorKeepsExactlyCleanLists(refs, fold);
    if forall k :: 0 <= k < |refs| ==> NoComma(refs[k]) && SingleSpaced(refs[k]) {
      assert AllClean(refs);
    }
    if AllClean(refs) {
      forall k | 0 <= k < |refs|
        ensures NoComma(refs[k]) && SingleSpaced(refs[k])
      {
        assert Clean(refs[k]);
      }
    }
  }

  /** A stored reference with a comma is one the editor does change. */
  lemma CommaIsSplitBySave(fold: Fold)
    ensures Normal(["a,b"], fold)
    ensures NormalizeRefs(SplitRefs(Render(["a,b"]), fold), fold) != ["a,b"]
  {
    TrimFixes("a,b", IsSpace);
    SaveWithoutEdits(["a,b"], fold);
    assert ["a,b"][0][1] == ',';
  }

  // ---- What separates references --------------------------------------------

  lemma DistinctSnoc(cs: seq<string>, c: string, fold: Fold)
    ensures Distinct(cs + [c], fold)
            == var out := Distinct(cs, fold); if c == "" || HasKey(out, fold(c), fold) then out else out + [c]
  {
  }

  lemma DistinctAfterStep(a: seq<string>, d: seq<string>, front: seq<string>, c: string, fold: Fold)
    requires Distinct(a + front, fold) == Distinct(d + front, fold)
    ensures Distinct(a + (front + [c]), fold) == Distinct(d + (front + [c]), fold)
  {
    hide Distinct, HasKey;
    DistinctSnoc(a + front, c, fold);
    DistinctSnoc(d + front, c, fold);
    assert a + (front + [c]) == a + front + [c];
    assert d + (front + [c]) == d + front + [c];
  }

  lemma {:induction false} DistinctAfter(a: seq<string>, cs: seq<string>, fold: Fold)
    ensures Distinct(a + cs, fold) == Distinct(Distinct(a, fold) + cs, fold)
    decreases |cs|
  {
    hide Distinct;
    var d := Distinct(a, fold);
    if cs == [] {
      assert a + cs == a && d + cs == d;
      DistinctKeepsOnePerKey(a, fold);
      DistinctFixes(d, fold);
    } else {
      var front, c := cs[..|cs| - 1], cs[|cs| - 1];
      DistinctAfter(a, front, fold);
      DistinctAfterStep(a, d, front, c, fold);
      assert cs == front + [c];
    }
  }

  /** What a later list adds depends only on what is kept of it. */
  lemma {:induction false} DistinctOfKept(a: seq<string>, b: seq<string>, fold: Fold)
    ensures Distinct(a + Distinct(b, fold), fold) == Distinct(a + b, fold)
    decreases |b|
  {
    hide Distinct, HasKey;
    if b == [] {
      NothingKept(fold);
    } else {
      var front, c := b[..|b| - 1], b[|b| - 1];
      DistinctOfKept(a, front, fold);
      KeptStep(a, front, c, fold);
      assert b == front + [c];
    }
  }

  lemma NothingKept(fold: Fold)
    ensures Distinct([], fold) == []
  {
  }

  lemma KeptStep(a: seq<string>, front: seq<string>, c: string, fold: Fold)
    requires Distinct(a + Distinct(front, fold), fold) == Distinct(a + front, fold)
    ensures Distinct(a + Distinct(front + [c], fold), fold) == Distinct(a + (front + [c]), fold)
  {
    hide Distinct, HasKey;
    var d := Distinct(front, fold);
    DistinctSnoc(front, c, fold);
    DistinctSnoc(a + front, c, fold);
    DistinctSnoc(a + d, c, fold);
    assert a + (front + [c]) == a + front + [c];
    assert a + (d + [c]) == a + d + [c];
    if c != "" && HasKey(d, fold(c), fold) {
      KeptSpeaksFor(a, front, fold(c), fold);
    }
  }

  lemma KeptSpeaksFor(a: seq<string>, b: seq<string>, key: string, fold: Fold)
    requires HasKey(Distinct(b, fold), key, fold)
    ensures HasKey(Distinct(a + b, fold), key, fold)
  {
    var d := Distinct(b, fold);
    DistinctKeepsOnePerKey(b, fold);
    DistinctKeepsOnePerKey(a + b, fold);
    var k :| 0 <= k < |d| && fold(d[k]) == key;
    assert d[k] in b;
    var i :| 0 <= i < |b| && b[i] == d[k];
    assert (a + b)[|a| + i] == d[k];
  }

  lemma DistinctJoins(a: seq<string>, b: seq<string>, fold: Fold)
    ensures Distinct(a + b, fold) == Distinct(Distinct(a, fold) + Distinct(b, fold), fold)
  {
    DistinctAfter(a, b, fold);
    DistinctOfKept(Distinct(a, fold), b, fold);
  }

  lemma CollapseConcat(a: seq<string>, b: seq<string>)
    ensures CollapseAll(a + b) == CollapseAll(a) + CollapseAll(b)
  {
  }

  /** What is parsed from a text whose line ends are commas already. */
  function Cut(s: string, fold: Fold): seq<string> {
    Distinct(CollapseAll(SplitComma(s)), fold)
  }

  lemma CutAtComma(x: string, y: string, fold: Fold)
    ensures Cut(x + "," + y, fold) == Distinct(Cut(x, fold) + Cut(y, fold), fold)
  {
    SplitAtComma(x, y);
    CollapseConcat(SplitComma(x), SplitComma(y));
    DistinctJoins(CollapseAll(SplitComma(x)), CollapseAll(SplitComma(y)), fold);
  }

  lemma UnixStep(c: char, rest: string)
    requires c != '\r' || rest == "" || rest[0] != '\n'
    ensures UnixLines([c] + rest) == [c] + UnixLines(rest)
  {
    assert ([c] + rest)[1..] == rest;
  }

  lemma UnixPair(rest: string)
    ensures UnixLines("\r\n" + rest) == "\n" + UnixLines(rest)
  {
    assert ("\r\n" + rest)[2..] == rest;
  }

  lemma UnixConcatStep(c: char, rest: string, y: string)
    requires c != '\r' || (rest != "" && rest[0] != '\n') || (rest == "" && (y == "" || y[0] != '\n'))
    requires UnixLines(rest + y) == UnixLines(rest) + UnixLines(y)
    ensures UnixLines([c] + rest + y) == UnixLines([c] + rest) + UnixLines(y)
  {
    hide UnixLines;
    UnixStep(c, rest);
    assert rest != "" ==> (rest + y)[0] == rest[0];
    assert rest == "" ==> rest + y == y;
    UnixStep(c, rest + y);
    assert [c] + rest + y == [c] + (rest + y);
  }

  lemma UnixConcatPair(rest: string, y: string)
    requires UnixLines(rest + y) == UnixLines(rest) + UnixLines(y)
    ensures UnixLines("\r\n" + rest + y) == UnixLines("\r\n" + rest) + UnixLines(y)
  {
    hide UnixLines;
    UnixPair(rest);
    UnixPair(rest + y);
    assert "\r\n" + rest + y == "\r\n" + (rest + y);
  }

  lemma {:induction false} UnixConcat(x: string, y: string)
    requires x == "" || x[|x| - 1] != '\r' || y == "" || y[0] != '\n'
    ensures UnixLines(x + y) == UnixLines(x) + UnixLines(y)
    decreases |x|
  {
    if x == "" {
      assert x + y == y;
    } else {
      hide UnixLines;
      if |x| >= 2 && x[0] == '\r' && x[1] == '\n' {
        UnixConcat(x[2..], y);
        UnixConcatPair(x[2..], y);
        assert x == "\r\n" + x[2..];
      } else {
        UnixConcat(x[1..], y);
        UnixConcatStep(x[0], x[1..], y);
        assert x == [x[0]] + x[1..];
      }
    }
  }

  lemma CommaConcat(x: string, y: string)
    ensures CommaLines(x + y) == CommaLines(x) + CommaLines(y)
  {
  }

  lemma TrailingBlank(x: string, c: char, fold: Fold)
    requires IsSpace(c) && c != ','
    ensures Cut(x + [c], fold) == Cut(x, fold)
  {
    hide Distinct, SplitComma;
    SplitSnoc(x, c);
    var parts := SplitComma(x);
    var front, last := parts[..|parts| - 1], parts[|parts| - 1];
    RunsSnoc(last, c, NotSpace);
    CollapseConcat(front, [last]);
    CollapseConcat(front, [last + [c]]);
    assert parts == front + [last];
    assert CollapseAll([last]) == [Collapse(last)] == CollapseAll([last + [c]]);
  }

  /** A carriage return at the end of a line is white space. */
  lemma ReturnIsBlank(a: string, fold: Fold)
    ensures SplitRefs(a + "\r", fold) == SplitRefs(a, fold)
  {
    hide Cut, Distinct, SplitComma, CollapseAll;
    UnixConcat(a, "\r");
    UnixStep('\r', "");
    assert ['\r'] + "" == "\r" && UnixLines("") == "";
    CommaConcat(UnixLines(a), "\r");
    assert CommaLines("\r") == ['\r'];
    CutIsParse(a, fold);
    CutIsParse(a + "\r", fold);
    TrailingBlank(CommaLines(UnixLines(a)), '\r', fold);
  }

  lemma NewlineCuts(a: string, b: string, fold: Fold)
    requires a == "" || a[|a| - 1] != '\r'
    ensures SplitRefs(a + "\n" + b, fold) == Distinct(SplitRefs(a, fold) + SplitRefs(b, fold), fold)
  {
    hide Distinct, Cut, SplitComma, CollapseAll;
    UnixConcat(a + "\n", b);
    UnixConcat(a, "\n");
    assert UnixLines("\n") == "\n" by { assert "\n"[1..] == ""; }
    CommaConcat(UnixLines(a) + "\n", UnixLines(b));
    CommaConcat(UnixLines(a), "\n");
    assert CommaLines("\n") == ",";
    CutIsParse(a, fold);
    CutIsParse(b, fold);
    CutIsParse(a + "\n" + b, fold);
    CutAtComma(CommaLines(UnixLines(a)), CommaLines(UnixLines(b)), fold);
  }

  lemma CutIsParse(raw: string, fold: Fold)
    ensures SplitRefs(raw, fold) == Cut(CommaLines(UnixLines(raw)), fold)
  {
  }

  lemma CommaCuts(a: string, b: string, fold: Fold)
    ensures SplitRefs(a + "," + b, fold) == Distinct(SplitRefs(a, fold) + SplitRefs(b, fold), fold)
  {
    hide Distinct, Cut, SplitComma, CollapseAll;
    UnixConcat(a + ",", b);
    UnixConcat(a, ",");
    assert UnixLines(",") == "," by { assert ","[1..] == ""; }
    CommaConcat(UnixLines(a) + ",", UnixLines(b));
    CommaConcat(UnixLines(a), ",");
    assert CommaLines(",") == ",";
    CutIsParse(a, fold);
    CutIsParse(b, fold);
    CutIsParse(a + "," + b, fold);
    CutAtComma(CommaLines(UnixLines(a)), CommaLines(UnixLines(b)), fold);
  }

  /** Main result: a comma and a line end of either kind separate references. The whole is the references of the first
      text and then those of the second, less repeated ones. */
  lemma SeparatorsCut(a: string, sep: string, b: string, fold: Fold)
    requires sep == "," || sep == "\n" || sep == "\r\n"
    ensures SplitRefs(a + sep + b, fold) == Distinct(SplitRefs(a, fold) + SplitRefs(b, fold), fold)
    ensures SplitRefs(a + sep + b, fold) == SplitRefs(a + "," + b, fold)
  {
    hide SplitRefs, Distinct;
    CommaCuts(a, b, fold);
    if sep == "\n" {
      NewlineAlwaysCuts(a, b, fold);
    } else if sep == "\r\n" {
      assert a + sep + b == (a + "\r") + "\n" + b;
      NewlineAlwaysCuts(a + "\r", b, fold);
      ReturnIsBlank(a, fold);
    }
  }

  lemma {:induction false} NewlineAlwaysCuts(a: string, b: string, fold: Fold)
    ensures SplitRefs(a + "\n" + b, fold) == Distinct(SplitRefs(a, fold) + SplitRefs(b, fold), fold)
  {
    hide SplitRefs, Distinct;
    if a != "" && a[|a| - 1] == '\r' {
      var t := a[..|a| - 1];
      assert a == t + "\r";
      ReturnIsBlank(t, fold);
      CarriageNewline(t, b, fold);
      assert a + "\n" + b == t + "\r\n" + b;
    } else {
      NewlineCuts(a, b, fold);
    }
  }

  lemma CarriageNewline(t: string, b: string, fold: Fold)
    ensures SplitRefs(t + "\r\n" + b, fold) == Distinct(SplitRefs(t, fold) + SplitRefs(b, fold), fold)
  {
    hide Distinct, Cut, SplitComma, CollapseAll;
    UnixConcat(t + "\r\n", b);
    UnixConcat(t, "\r\n");
    assert UnixLines("\r\n") == "\n" by { assert "\r\n"[2..] == ""; }
    CommaConcat(UnixLines(t) + "\n", UnixLines(b));
    CommaConcat(UnixLines(t), "\n");
    assert CommaLines("\n") == ",";
    CutIsParse(t, fold);
    CutIsParse(b, fold);
    CutIsParse(t + "\r\n" + b, fold);
    CutAtComma(CommaLines(UnixLines(t)), CommaLines(UnixLines(b)), fold);
  }

  /** Main result: nothing else does. A text with neither comma nor line end is one reference with the same words and
      single blanks between them, or none if it has no words. */
  lemma OneReference(raw: string, fold: Fold)
    requires NoComma(raw) && OneLine(raw)
    ensures |SplitRefs(raw, fold)| <= 1
    ensures SplitRefs(raw, fold) == [] <==> forall i :: 0 <= i < |raw| ==> IsSpace(raw[i])
    ensures SplitRefs(raw, fold) != [] ==>
              var r := SplitRefs(raw, fold)[0]; SingleSpaced(r) && Runs(r, NotSpace) == Runs(raw, NotSpace)
  {
    OneLineUnchanged(raw);
    SplitWithoutComma(raw);
    var r := Collapse(raw);
    assert CollapseAll([raw]) == [r];
    assert [r][..0] == [];
    assert Distinct([r], fold) == if r == "" then [] else [r];
    CollapseFixes(raw);
    RunsAreWords(raw, NotSpace);
    RunsOfJoin(Runs(raw, NotSpace), ' ', NotSpace);
    JoinEnds(Runs(raw, NotSpace), " ", NotSpace);
    NoRunsNothingKept(raw, NotSpace);
  }

  // ---- Which of several is kept ---------------------------------------------

  /** The candidate is not blank, and the first of its key. */
  predicate FirstOfKey(cs: seq<string>, i: nat, fold: Fold)
    requires i < |cs|
  {
    cs[i] != "" && forall j :: 0 <= j < i && cs[j] != "" ==> fold(cs[j]) != fold(cs[i])
  }

  predicate Picks(cs: seq<string>, out: seq<string>, at: seq<nat>) {
    |at| == |out| && forall k :: 0 <= k < |at| ==> at[k] < |cs| && out[k] == cs[at[k]]
  }

  predicate Increasing(at: seq<nat>) {
    forall k, m :: 0 <= k < m < |at| ==> at[k] < at[m]
  }

  ghost predicate AreFirsts(cs: seq<string>, at: seq<nat>, fold: Fold) {
    forall i :: 0 <= i < |cs| ==> (i in at <==> FirstOfKey(cs, i, fold))
  }

  /** The kept references are the first ones of their keys, in order. */
  lemma {:induction false} FirstsAreKept(cs: seq<string>, fold: Fold) returns (at: seq<nat>)
    ensures Picks(cs, Distinct(cs, fold), at) && Increasing(at) && AreFirsts(cs, at, fold)
  {
    hide Distinct, FirstOfKey, Picks, Increasing, AreFirsts;
    if cs == [] {
      at := [];
      NothingPicked(fold);
    } else {
      var front, c := cs[..|cs| - 1], cs[|cs| - 1];
      at := FirstsAreKept(front, fold);
      assert cs == front + [c];
      at := NextFirst(front, c, at, fold);
    }
  }

  lemma NothingPicked(fold: Fold)
    ensures Picks([], Distinct([], fold), []) && Increasing([]) && AreFirsts([], [], fold)
  {
  }

  lemma KeyIsTaken(front: seq<string>, c: string, fold: Fold)
    ensures c != "" ==>
              (HasKey(Distinct(front, fold), fold(c), fold) <==> !FirstOfKey(front + [c], |front|, fold))
  {
    hide Distinct;
    var out, cs := Distinct(front, fold), front + [c];
    DistinctKeepsOnePerKey(front, fold);
    if c != "" && HasKey(out, fold(c), fold) {
      var k :| 0 <= k < |out| && fold(out[k]) == fold(c);
      assert out[k] in front;
      var j :| 0 <= j < |front| && front[j] == out[k];
      assert cs[j] == front[j];
    }
    if c != "" && !FirstOfKey(cs, |front|, fold) {
      var j :| 0 <= j < |front| && cs[j] != "" && fold(cs[j]) == fold(c);
      assert front[j] == cs[j];
    }
  }

  lemma NextFirst(front: seq<string>, c: string, before: seq<nat>, fold: Fold) returns (at: seq<nat>)
    requires Picks(front, Distinct(front, fold), before) && Increasing(before) && AreFirsts(front, before, fold)
    ensures Picks(front + [c], Distinct(front + [c], fold), at) && Increasing(at) && AreFirsts(front + [c], at, fold)
  {
    hide Distinct, HasKey, Picks, Increasing, AreFirsts;
    var first := FirstOfKey(front + [c], |front|, fold);
    at := if first then before + [|front|] else before;
    KeyIsTaken(front, c, fold);
    DistinctSnoc(front, c, fold);
    PicksNext(front, c, Distinct(front, fold), before);
    PicksAreBelow(front, Distinct(front, fold), before);
    FirstsNext(front, c, before, at, fold);
  }

  lemma PicksAreBelow(cs: seq<string>, out: seq<string>, at: seq<nat>)
    requires Picks(cs, out, at)
    ensures forall k :: 0 <= k < |at| ==> at[k] < |cs|
  {
  }

  lemma PicksNext(front: seq<string>, c: string, out: seq<string>, at: seq<nat>)
    requires Picks(front, out, at) && Increasing(at)
    ensures Picks(front + [c], out, at) && Picks(front + [c], out + [c], at + [|front|]) && Increasing(at + [|front|])
  {
  }

  lemma FirstsNext(front: seq<string>, c: string, before: seq<nat>, at: seq<nat>, fold: Fold)
    requires AreFirsts(front, before, fold) && forall k :: 0 <= k < |before| ==> before[k] < |front|
    requires at == if FirstOfKey(front + [c], |front|, fold) then before + [|front|] else before
    ensures AreFirsts(front + [c], at, fold)
  {
    hide FirstOfKey;
    forall i | 0 <= i < |front + [c]| ensures i in at <==> FirstOfKey(front + [c], i, fold) {
      if i < |front| {
        FirstInPrefix(front, c, i, fold);
      }
    }
  }

  lemma FirstInPrefix(front: seq<string>, c: string, i: nat, fold: Fold)
    requires i < |front|
    ensures FirstOfKey(front + [c], i, fold) <==> FirstOfKey(front, i, fold)
  {
    assert forall j :: 0 <= j <= i ==> (front + [c])[j] == front[j];
  }

  /** The reference has more than white space, and is the first with its trimmed key. */
  predicate FirstTrimmed(refs: seq<string>, i: nat, fold: Fold)
    requires i < |refs|
  {
    && TrimSpace(refs[i]) != ""
    && forall j :: 0 <= j < i && TrimSpace(refs[j]) != "" ==> fold(TrimSpace(refs[j])) != fold(TrimSpace(refs[i]))
  }

  lemma FirstTrimmedIs(refs: seq<string>, i: nat, fold: Fold)
    requires i < |refs|
    ensures FirstOfKey(TrimAll(refs), i, fold) <==> FirstTrimmed(refs, i, fold)
  {
    hide TrimSpace;
    assert TrimAll(refs)[i] == TrimSpace(refs[i]);
    assert forall j :: 0 <= j < i ==> TrimAll(refs)[j] == TrimSpace(refs[j]);
  }

  /** Normalising trims every reference, and keeps the first of each key that is not blank. */
  lemma NormalizeKeepsFirsts(refs: seq<string>, fold: Fold) returns (at: seq<nat>)
    ensures |at| == |NormalizeRefs(refs, fold)|
    ensures forall k :: 0 <= k < |at| ==> at[k] < |refs| && NormalizeRefs(refs, fold)[k] == TrimSpace(refs[at[k]])
    ensures forall k, m :: 0 <= k < m < |at| ==> at[k] < at[m]
    ensures forall i :: 0 <= i < |refs| ==> (i in at <==> FirstTrimmed(refs, i, fold))
  {
    hide TrimSpace, Distinct, FirstOfKey, FirstTrimmed;
    at := FirstsAreKept(TrimAll(refs), fold);
    assert |TrimAll(refs)| == |refs|;
    forall i | 0 <= i < |refs| ensures i in at <==> FirstTrimmed(refs, i, fold) {
      FirstTrimmedIs(refs, i, fold);
    }
  }

  /** The textarea shows every reference followed by a comma and a blank. */
  lemma {:induction false} RenderConcat(a: seq<string>, b: seq<string>, r: string)
    ensures Render(a + b) == Render(a) + Render(b)
    ensures Render([r]) == r + ", "
    ensures Render([]) == ""
  {
    assert [r][1..] == [];
    if a == [] {
      assert a + b == b;
    } else {
      RenderConcat(a[1..], b, r);
      assert (a + b)[1..] == a[1..] + b;
    }
  }
}
