/** The `slug` loop behind every node, edge and action identifier. */
module Slugs {
  import opened Text
  import opened MaximalRuns

  // ---- Characters -----------------------------------------------------------

  /** `unicode.ToLower`, as far as a slug can see it: besides the ASCII capitals only
      U+0130 and the Kelvin sign U+212A have an ASCII lower case; whatever the other
      characters become, it is not in [a-z0-9] and so turns into a dash. */
  function LowerChar(c: char): char {
    if 'A' <= c <= 'Z' then (c as int + 32) as char
    else if c == '\U{0130}' then 'i'
    else if c == '\U{212A}' then 'k'
    else c
  }

  function Lower(s: string): (r: string)
    ensures |r| == |s|
  {
    seq(|s|, i requires 0 <= i < |s| => LowerChar(s[i]))
  }

  predicate Alnum(c: char) {
    'a' <= c <= 'z' || '0' <= c <= '9'
  }

  const LETTERS := "abcdefghijklmnopqrstuvwxyz"
  const CAPITALS := "ABCDEFGHIJKLMNOPQRSTUVWXYZ"
  const DIGITS := "0123456789"

  lemma LettersInOrder()
    ensures |LETTERS| == |CAPITALS| == 26
    ensures forall i :: 0 <= i < 26 ==> LETTERS[i] as int == 'a' as int + i && CAPITALS[i] as int == 'A' as int + i
  {
  }

  lemma DigitsInOrder()
    ensures |DIGITS| == 10 && forall i :: 0 <= i < 10 ==> DIGITS[i] as int == '0' as int + i
  {
  }

  /** The kept characters are the small letters and the digits. */
  lemma KeptCharacters(c: char)
    ensures Alnum(c) <==> c in LETTERS || c in DIGITS
  {
    hide LETTERS, DIGITS;
    LettersInOrder();
    DigitsInOrder();
    if 'a' <= c <= 'z' {
      assert LETTERS[c as int - 'a' as int] == c;
    }
    if '0' <= c <= '9' {
      assert DIGITS[c as int - '0' as int] == c;
    }
  }

  /** Lower-casing maps the capitals to the small letters in order, two more characters to letters, and no other. */
  lemma LoweredCharacters(c: char)
    ensures |CAPITALS| == |LETTERS| == 26 && forall i :: 0 <= i < 26 ==> LowerChar(CAPITALS[i]) == LETTERS[i]
    ensures LowerChar('\U{0130}') == 'i' && LowerChar('\U{212A}') == 'k'
    ensures c !in CAPITALS && c != '\U{0130}' && c != '\U{212A}' ==> LowerChar(c) == c
  {
    hide LETTERS, CAPITALS;
    LettersInOrder();
    if 'A' <= c <= 'Z' {
      assert CAPITALS[c as int - 'A' as int] == c;
    }
  }

  // ---- The slug -------------------------------------------------------------

  function RunsOf(v: string): seq<string> {
    Runs(Lower(TrimSpace(v)), Alnum)
  }

  /** No run counts as the single run "unknown". */
  function Words(v: string): seq<string> {
    if RunsOf(v) == [] then ["unknown"] else RunsOf(v)
  }

  lemma WordsAreWords(v: string)
    ensures |Words(v)| > 0 && AreWords(Words(v), Alnum)
  {
    RunsAreWords(Lower(TrimSpace(v)), Alnum);
    assert IsWord("unknown", Alnum);
  }

  function Slug(v: string): string {
    Join(Words(v), "-")
  }

  /** What the builder `b` holds after a non-empty prefix with these runs; `kept0` says that its first
      character was kept, `open` that its last one was. */
  function Framed(kept0: bool, rs: seq<string>, open: bool): string {
    if rs == [] then "-"
    else (if kept0 then "" else "-") + Join(rs, "-") + (if open then "" else "-")
  }

  /** What the builder `b` holds after the prefix `p` has been scanned. */
  function Scanned(p: string): string {
    if p == "" then "" else Framed(Alnum(p[0]), Runs(p, Alnum), Open(p, Alnum))
  }

  /** The loop of `slug`: keep [a-z0-9], write one dash for any stretch of other characters. */
  method SlugLoop(v: string) returns (out: string)
    ensures out == Slug(v)
  {
    var s := Lower(TrimSpace(v));
    var b := "";
    var lastDash := false;
    var i := 0;
    while i < |s|
      invariant 0 <= i <= |s|
      invariant b == Scanned(s[..i])
      invariant lastDash == (i > 0 && !Open(s[..i], Alnum))
    {
      assert s[..i + 1] == s[..i] + [s[i]];
      if Alnum(s[i]) {
        KeepStep(s[..i], s[i]);
        b := b + [s[i]];
        lastDash := false;
      } else {
        DropStep(s[..i], s[i]);
        if !lastDash {
          b := b + ['-'];
          lastDash := true;
        }
      }
      i := i + 1;
    }
    assert s[..i] == s;
    ScannedTrims(s);
    out := Trim(b, IsDash);
    if out == "" {
      out := "unknown";
    }
    RunsAreWords(s, Alnum);
    JoinEnds(Runs(s, Alnum), "-", Alnum);
  }

  /** An iteration that keeps its character. */
  lemma KeepStep(p: string, c: char)
    requires Alnum(c)
    ensures Scanned(p + [c]) == Scanned(p) + [c]
  {
    RunsSnoc(p, c, Alnum);
    if p == "" {
      assert RunsStep([], false, c, Alnum) == [[c]];
      assert Join([[c]], "-") == [c];
      assert "" + [c] + "" == [c];
    } else {
      assert (p + [c])[0] == p[0];
      FirstKeptHasRuns(p);
      RunsAreWords(p, Alnum);
      FrameStep(Alnum(p[0]), Runs(p, Alnum), Open(p, Alnum), c);
    }
  }

  lemma FrameStep(kept0: bool, rs: seq<string>, open: bool, c: char)
    requires Alnum(c)
    requires rs == [] ==> !kept0 && !open
    ensures Framed(kept0, RunsStep(rs, open, c, Alnum), true) == Framed(kept0, rs, open) + [c]
  {
  }

  /** An iteration that drops its character, writing a dash unless one was just written. */
  lemma DropStep(p: string, c: char)
    requires !Alnum(c)
    ensures Scanned(p + [c]) == if p != "" && !Open(p, Alnum) then Scanned(p) else Scanned(p) + ['-']
  {
    RunsSnoc(p, c, Alnum);
    if p != "" {
      assert (p + [c])[0] == p[0];
      RunsAreWords(p, Alnum);
    }
  }

  lemma FirstKeptHasRuns(p: string)
    ensures p != "" && Alnum(p[0]) ==> Runs(p, Alnum) != []
  {
  }

  lemma TrimDashes(pre: string, j: string, post: string)
    requires pre == "" || pre == "-"
    requires post == "" || post == "-"
    requires j != "" && j[0] != '-' && j[|j| - 1] != '-'
    ensures Trim(pre + j + post, IsDash) == j
  {
    var s := pre + j + post;
    if pre == "-" {
      assert s[1..] == j + post;
    } else {
      assert s == j + post;
    }
    assert TrimLeft(s, IsDash) == j + post;
    if post == "-" {
      assert (j + post)[..|j + post| - 1] == j;
    } else {
      assert j + post == j;
    }
    assert TrimRight(j, IsDash) == j;
  }

  lemma ScannedTrims(s: string)
    ensures Trim(Scanned(s), IsDash) == Join(Runs(s, Alnum), "-")
  {
    RunsAreWords(s, Alnum);
    JoinEnds(Runs(s, Alnum), "-", Alnum);
    if s != "" && Runs(s, Alnum) != [] {
      TrimDashes(if Alnum(s[0]) then "" else "-", Join(Runs(s, Alnum), "-"), if Open(s, Alnum) then "" else "-");
    } else if s != "" {
      assert "-"[1..] == "";
    }
  }

  // ---- Reading a slug back --------------------------------------------------

  /** Trimming white space never changes the runs. */
  lemma RunsIgnoreSpace(v: string)
    ensures RunsOf(v) == Runs(Lower(v), Alnum)
  {
    var left, right := TrimSplits(v, IsSpace);
    var m := TrimSpace(v);
    var a, b, c := Lower(left), Lower(m), Lower(right);
    assert Lower(v) == a + (b + c);
    SpacesHaveNoRuns(left);
    SpacesHaveNoRuns(right);
    RunsAppend(b, c, Alnum);
    RunsAppend(a, b + c, Alnum);
  }

  lemma SpacesHaveNoRuns(s: string)
    requires forall c :: c in s ==> IsSpace(c)
    ensures Runs(Lower(s), Alnum) == []
    ensures forall i :: 0 <= i < |s| ==> !Alnum(Lower(s)[i])
  {
    forall i | 0 <= i < |s|
      ensures !Alnum(Lower(s)[i])
    {
      assert IsSpace(s[i]);
    }
    NoRunsNothingKept(Lower(s), Alnum);
  }

  /** Only characters of a slug. */
  predicate SlugText(s: string) {
    forall i :: 0 <= i < |s| ==> Alnum(s[i]) || s[i] == '-'
  }

  lemma {:induction false} JoinChars(rs: seq<string>)
    requires AreWords(rs, Alnum)
    ensures SlugText(Join(rs, "-"))
  {
    if |rs| == 1 {
      assert IsWord(rs[0], Alnum);
    } else if |rs| > 1 {
      JoinChars(rs[..|rs| - 1]);
      assert IsWord(rs[|rs| - 1], Alnum);
    }
  }

  /** Main facts about one slug: it is never empty, its alphabet is [a-z0-9-], lower-casing leaves it
      alone, and its runs are the words it was made of. */
  lemma SlugReadsBack(v: string)
    ensures Slug(v) != "" && SlugText(Slug(v))
    ensures Lower(Slug(v)) == Slug(v)
    ensures Runs(Slug(v), Alnum) == RunsOf(Slug(v)) == Words(v)
    ensures Words(v) != []
  {
    WordsAreWords(v);
    JoinEnds(Words(v), "-", Alnum);
    JoinChars(Words(v));
    RunsOfJoin(Words(v), '-', Alnum);
    RunsIgnoreSpace(Slug(v));
  }

  /** Dashes stand alone, between two kept characters. */
  predicate SingleDashes(s: string) {
    forall i :: 0 <= i < |s| && s[i] == '-' ==> 0 < i < |s| - 1 && s[i + 1] != '-'
  }

  lemma DashBetween(a: string, b: string)
    requires SingleDashes(a) && a != "" && b != "" && forall i :: 0 <= i < |b| ==> b[i] != '-'
    ensures SingleDashes(a + "-" + b)
  {
  }

  lemma {:induction false} JoinHasSingleDashes(rs: seq<string>)
    requires AreWords(rs, Alnum)
    ensures SingleDashes(Join(rs, "-"))
  {
    if |rs| == 1 {
      assert IsWord(rs[0], Alnum);
    } else if |rs| > 1 {
      var front, last := rs[..|rs| - 1], rs[|rs| - 1];
      JoinHasSingleDashes(front);
      JoinEnds(front, "-", Alnum);
      assert IsWord(last, Alnum);
      DashBetween(Join(front, "-"), last);
    }
  }

  /** The slug of a text: its words with single dashes between them, or "unknown" if it has none. */
  lemma SlugShape(v: string)
    ensures SingleDashes(Slug(v))
    ensures (forall i :: 0 <= i < |v| ==> !Alnum(LowerChar(v[i]))) ==> Slug(v) == "unknown"
    ensures (exists i :: 0 <= i < |v| && Alnum(LowerChar(v[i]))) ==> Runs(Slug(v), Alnum) == Runs(Lower(v), Alnum)
  {
    WordsAreWords(v);
    JoinHasSingleDashes(Words(v));
    SlugReadsBack(v);
    RunsIgnoreSpace(v);
    NoRunsNothingKept(Lower(v), Alnum);
    if i :| 0 <= i < |v| && Alnum(LowerChar(v[i])) {
      assert Alnum(Lower(v)[i]);
    }
  }

  lemma SlugIsIdempotent(v: string)
    ensures Slug(Slug(v)) == Slug(v)
  {
    SlugReadsBack(v);
  }

  /** Two inputs share a slug exactly when they have the same runs, an input without runs counting as "unknown". */
  lemma SlugCollidesIffSameWords(a: string, b: string)
    ensures Slug(a) == Slug(b) <==> Words(a) == Words(b)
  {
    SlugReadsBack(a);
    SlugReadsBack(b);
  }

  // ---- Composite identifiers ------------------------------------------------

  function EdgeID(typ: string, source: string, target: string): string {
    "edge:" + Slug(typ) + ":" + Slug(source) + ":" + Slug(target)
  }

  predicate NoColon(s: string) {
    forall i :: 0 <= i < |s| ==> s[i] != ':'
  }

  /** Text up to the first ':' determines both halves. */
  lemma ColonSplits(a: string, b: string, c: string, d: string)
    requires NoColon(a) && NoColon(c)
    requires a + ":" + b == c + ":" + d
    ensures a == c && b == d
  {
    var s := a + ":" + b;
    assert |a| == |c| by {
      assert s[|a|] == ':' && s[|c|] == ':';
      assert forall i :: 0 <= i < |a| ==> s[i] == a[i];
      assert forall i :: 0 <= i < |c| ==> s[i] == c[i];
    }
    assert a == s[..|a|] && c == s[..|c|];
    assert b == s[|a| + 1..] && d == s[|c| + 1..];
  }

  /** An edge identifier decodes uniquely: it is shared exactly by edges whose type, source and
      target have the same slugs. */
  lemma EdgeIDDecodes(t: string, a: string, b: string, t': string, a': string, b': string)
    ensures EdgeID(t, a, b) == EdgeID(t', a', b') <==> Slug(t) == Slug(t') && Slug(a) == Slug(a') && Slug(b) == Slug(b')
  {
    if EdgeID(t, a, b) == EdgeID(t', a', b') {
      SlugReadsBack(t); SlugReadsBack(a);
      SlugReadsBack(t'); SlugReadsBack(a');
      ThreeParts(Slug(t), Slug(a), Slug(b), Slug(t'), Slug(a'), Slug(b'));
    }
  }

  lemma ThreeParts(t: string, a: string, b: string, t': string, a': string, b': string)
    requires NoColon(t) && NoColon(t') && NoColon(a) && NoColon(a')
    requires "edge:" + t + ":" + a + ":" + b == "edge:" + t' + ":" + a' + ":" + b'
    ensures t == t' && a == a' && b == b'
  {
    var x, x' := t + ":" + (a + ":" + b), t' + ":" + (a' + ":" + b');
    assert "edge:" + x == "edge:" + t + ":" + a + ":" + b;
    assert "edge:" + x' == "edge:" + t' + ":" + a' + ":" + b';
    assert x == ("edge:" + x)[5..] && x' == ("edge:" + x')[5..];
    ColonSplits(t, a + ":" + b, t', a' + ":" + b');
    ColonSplits(a, b, a', b');
  }
}
