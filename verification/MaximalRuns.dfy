/** The maximal runs of a character class in a string: the words a slug is made of, and the fields
    that `strings.Fields` returns. */
module MaximalRuns {
  import Text

  predicate AllKept(s: string, keep: char -> bool) {
    forall i :: 0 <= i < |s| ==> keep(s[i])
  }

  predicate IsWord(s: string, keep: char -> bool) {
    s != "" && AllKept(s, keep)
  }

  predicate AreWords(ws: seq<string>, keep: char -> bool) {
    forall k :: 0 <= k < |ws| ==> IsWord(ws[k], keep)
  }

  /** Scanning `c` after the runs `before`; `open` says that the character before `c` was kept. */
  function RunsStep(before: seq<string>, open: bool, c: char, keep: char -> bool): seq<string> {
    if !keep(c) then before
    else if open && |before| > 0 then before[..|before| - 1] + [before[|before| - 1] + [c]]
    else before + [[c]]
  }

  predicate Open(s: string, keep: char -> bool) {
    |s| > 0 && keep(s[|s| - 1])
  }

  /** The maximal runs of kept characters in `s`, left to right. */
  function Runs(s: string, keep: char -> bool): seq<string> {
    if s == "" then []
    else RunsStep(Runs(s[..|s| - 1], keep), Open(s[..|s| - 1], keep), s[|s| - 1], keep)
  }

  lemma {:induction false} RunsAreWords(s: string, keep: char -> bool)
    ensures AreWords(Runs(s, keep), keep)
    ensures Open(s, keep) ==> |Runs(s, keep)| > 0
  {
    if s != "" {
      RunsAreWords(s[..|s| - 1], keep);
    }
  }

  lemma RunsSnoc(s: string, c: char, keep: char -> bool)
    ensures Runs(s + [c], keep) == RunsStep(Runs(s, keep), Open(s, keep), c, keep)
  {
  }

  // ---- What the runs mean ---------------------------------------------------

  /** `w` is the maximal stretch `s[i..j]` of kept characters. */
  predicate IsRun(s: string, w: string, i: int, j: int, keep: char -> bool) {
    && 0 <= i < j <= |s|
    && w == s[i..j]
    && (forall k :: i <= k < j ==> keep(s[k]))
    && (i > 0 ==> !keep(s[i - 1]))
    && (j < |s| ==> !keep(s[j]))
  }

  predicate Covered(at: seq<(int, int)>, p: int) {
    exists k :: 0 <= k < |at| && at[k].0 <= p < at[k].1
  }

  /** Independent reading of `Runs`: the k-th run is the k-th maximal stretch, and every kept
      character lies in one of them. */
  predicate RunsAre(s: string, rs: seq<string>, at: seq<(int, int)>, keep: char -> bool) {
    && |at| == |rs|
    && (forall k :: 0 <= k < |at| ==> IsRun(s, rs[k], at[k].0, at[k].1, keep))
    && (forall k, m :: 0 <= k < m < |at| ==> at[k].1 < at[m].0)
    && (forall p :: 0 <= p < |s| && keep(s[p]) ==> Covered(at, p))
  }

  lemma {:induction false} RunsAreMaximal(s: string, keep: char -> bool) returns (at: seq<(int, int)>)
    ensures RunsAre(s, Runs(s, keep), at, keep)
  {
    if s == "" {
      at := [];
    } else {
      var t := s[..|s| - 1];
      var before := RunsAreMaximal(t, keep);
      at := MaximalStep(t, Runs(t, keep), before, s[|s| - 1], keep);
      assert s == t + [s[|s| - 1]];
    }
  }

  lemma MaximalStep(t: string, rs: seq<string>, before: seq<(int, int)>, c: char, keep: char -> bool)
    returns (at: seq<(int, int)>)
    requires RunsAre(t, rs, before, keep)
    ensures RunsAre(t + [c], RunsStep(rs, Open(t, keep), c, keep), at, keep)
  {
    var s := t + [c];
    if !keep(c) {
      at := before;
      RunsKept(t, c, rs, before, keep);
    } else if Open(t, keep) {
      at := MaximalExtend(t, rs, before, c, keep);
    } else {
      at := before + [(|t|, |t| + 1)];
      RunsKept(t, c, rs, before, keep);
      CoverStep(s, before, at, keep);
      assert s[|t|..|t| + 1] == [c];
    }
  }

  lemma MaximalExtend(t: string, rs: seq<string>, before: seq<(int, int)>, c: char, keep: char -> bool)
    returns (at: seq<(int, int)>)
    requires RunsAre(t, rs, before, keep) && keep(c) && Open(t, keep)
    ensures RunsAre(t + [c], RunsStep(rs, true, c, keep), at, keep)
  {
    var s := t + [c];
    LastRunReachesEnd(t, rs, before, keep);
    var m := |before| - 1;
    at := before[..m] + [(before[m].0, |s|)];
    RunsKept(t, c, rs[..m], before[..m], keep);
    CoverStep(s, before, at, keep);
    LastRunGrows(t, c, rs[m], before[m].0, keep);
    var next := RunsStep(rs, true, c, keep);
    forall k | 0 <= k < |at|
      ensures IsRun(s, next[k], at[k].0, at[k].1, keep)
    {
      assert k < m ==> next[k] == rs[..m][k] && at[k] == before[..m][k];
    }
  }

  lemma LastRunReachesEnd(t: string, rs: seq<string>, at: seq<(int, int)>, keep: char -> bool)
    requires RunsAre(t, rs, at, keep) && Open(t, keep)
    ensures |at| > 0 && at[|at| - 1].1 == |t|
    ensures forall k :: 0 <= k < |at| - 1 ==> at[k].1 < |t|
  {
  }

  lemma LastRunGrows(t: string, c: char, w: string, i: int, keep: char -> bool)
    requires IsRun(t, w, i, |t|, keep) && keep(c)
    ensures IsRun(t + [c], w + [c], i, |t| + 1, keep)
  {
  }

  /** A stretch that is closed off stays maximal when a character is appended. */
  lemma RunsKept(t: string, c: char, rs: seq<string>, at: seq<(int, int)>, keep: char -> bool)
    requires |at| == |rs|
    requires forall k :: 0 <= k < |at| ==> IsRun(t, rs[k], at[k].0, at[k].1, keep)
    requires forall k :: 0 <= k < |at| && keep(c) ==> at[k].1 < |t|
    ensures forall k :: 0 <= k < |at| ==> IsRun(t + [c], rs[k], at[k].0, at[k].1, keep)
  {
  }

  lemma CoverStep(s: string, before: seq<(int, int)>, at: seq<(int, int)>, keep: char -> bool)
    requires |s| > 0 && |at| > 0 && |before| <= |at|
    requires forall p :: 0 <= p < |s| - 1 && keep(s[p]) ==> Covered(before, p)
    requires forall k :: 0 <= k < |before| ==> at[k].0 == before[k].0 && before[k].1 <= at[k].1
    requires at[|at| - 1].0 <= |s| - 1 < at[|at| - 1].1
    ensures forall p :: 0 <= p < |s| && keep(s[p]) ==> Covered(at, p)
  {
  }

  lemma NoRunsNothingKept(p: string, keep: char -> bool)
    ensures Runs(p, keep) == [] <==> forall i :: 0 <= i < |p| ==> !keep(p[i])
  {
    var at := RunsAreMaximal(p, keep);
    if Runs(p, keep) != [] {
      assert IsRun(p, Runs(p, keep)[0], at[0].0, at[0].1, keep);
    }
  }

  // ---- Runs of joined text --------------------------------------------------

  lemma RunsStepAppend(a: seq<string>, b: seq<string>, open: bool, c: char, keep: char -> bool)
    requires |b| > 0 || !open || !keep(c)
    ensures RunsStep(a + b, open, c, keep) == a + RunsStep(b, open, c, keep)
  {
  }

  lemma {:induction false} RunsAppend(x: string, y: string, keep: char -> bool)
    requires x == "" || y == "" || !keep(x[|x| - 1]) || !keep(y[0])
    ensures Runs(x + y, keep) == Runs(x, keep) + Runs(y, keep)
    decreases |y|
  {
    if y == "" {
      assert x + y == x;
    } else {
      var t, c := y[..|y| - 1], y[|y| - 1];
      RunsAppend(x, t, keep);
      assert x + y == (x + t) + [c];
      RunsSnoc(x + t, c, keep);
      RunsAreWords(t, keep);
      if t == "" {
        assert x + t == x;
      } else {
        assert Open(x + t, keep) == Open(t, keep);
      }
      RunsStepAppend(Runs(x, keep), Runs(t, keep), Open(t, keep), c, keep);
    }
  }

  lemma {:induction false} RunsOfWord(w: string, keep: char -> bool)
    requires IsWord(w, keep)
    ensures Runs(w, keep) == [w]
  {
    var t := w[..|w| - 1];
    RunsSnoc(t, w[|w| - 1], keep);
    assert w == t + [w[|w| - 1]];
    if t != "" {
      RunsOfWord(t, keep);
    }
  }

  lemma RunsWithSeparator(x: string, sep: char, y: string, keep: char -> bool)
    requires !keep(sep)
    ensures Runs(x + [sep] + y, keep) == Runs(x, keep) + Runs(y, keep)
  {
    RunsSnoc(x, sep, keep);
    RunsAppend(x + [sep], y, keep);
  }

  /** Joining words with a separator loses nothing. */
  lemma {:induction false} RunsOfJoin(rs: seq<string>, sep: char, keep: char -> bool)
    requires AreWords(rs, keep) && !keep(sep)
    ensures Runs(Text.Join(rs, [sep]), keep) == rs
  {
    if |rs| == 1 {
      RunsOfWord(rs[0], keep);
    } else if |rs| > 1 {
      var front, last := rs[..|rs| - 1], rs[|rs| - 1];
      RunsOfJoin(front, sep, keep);
      RunsOfWord(last, keep);
      RunsWithSeparator(Text.Join(front, [sep]), sep, last, keep);
      assert rs == front + [last];
    }
  }

  /** A join of words is empty only when there are none; otherwise it starts and ends with a kept character. */
  lemma {:induction false} JoinEnds(rs: seq<string>, sep: string, keep: char -> bool)
    requires AreWords(rs, keep)
    ensures Text.Join(rs, sep) == "" <==> rs == []
    ensures rs != [] ==> keep(Text.Join(rs, sep)[0]) && keep(Text.Join(rs, sep)[|Text.Join(rs, sep)| - 1])
  {
    if |rs| > 1 {
      JoinEnds(rs[..|rs| - 1], sep, keep);
      assert IsWord(rs[|rs| - 1], keep);
    } else if |rs| == 1 {
      assert IsWord(rs[0], keep);
    }
  }

  lemma JoinStep(rs: seq<string>, open: bool, c: char, sep: string, keep: char -> bool)
    requires keep(c)
    ensures Text.Join(RunsStep(rs, open, c, keep), sep) ==
            if rs == [] then [c] else if open then Text.Join(rs, sep) + [c] else Text.Join(rs, sep) + sep + [c]
  {
  }
}
