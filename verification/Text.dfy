/** Strings as the Go library sees them: white space, trimming, joining, the
    byte-wise order of `<` on strings, and decimal numerals. */
module Text {

  // ---- White space ----------------------------------------------------------

  /** `unicode.IsSpace`, the class used by `strings.TrimSpace` and `strings.Fields`. */
  predicate IsSpace(c: char) {
    || '\t' <= c <= '\r'
    || c == ' '
    || c == '\U{0085}' || c == '\U{00A0}' || c == '\U{1680}'
    || '\U{2000}' <= c <= '\U{200A}'
    || c == '\U{2028}' || c == '\U{2029}' || c == '\U{202F}' || c == '\U{205F}' || c == '\U{3000}'
  }

  /** The same characters one by one. */
  const SPACES: string := "\t\n\U{000B}\U{000C}\r \U{0085}\U{00A0}\U{1680}" +
                          "\U{2000}\U{2001}\U{2002}\U{2003}\U{2004}\U{2005}" +
                          "\U{2006}\U{2007}\U{2008}\U{2009}\U{200A}" +
                          "\U{2028}\U{2029}\U{202F}\U{205F}\U{3000}"

  lemma SpaceCharacters(c: char)
    ensures IsSpace(c) <==> c in SPACES
  {
    if IsSpace(c) {
      SpaceIsListed(c);
    }
  }

  lemma SpaceIsListed(c: char)
    requires IsSpace(c)
    ensures c in SPACES
  {
    var s := SPACES;
    assert |s| == 25;
    if c <= '\r' {
      assert s[c as int - 9] == c;
    } else if '\U{2000}' <= c <= '\U{200A}' {
      assert s[c as int - 0x2000 + 9] == c;
    } else {
      assert s[5] == ' ' && s[6] == '\U{0085}' && s[7] == '\U{00A0}' && s[8] == '\U{1680}';
      assert s[20] == '\U{2028}' && s[21] == '\U{2029}' && s[22] == '\U{202F}';
      assert s[23] == '\U{205F}' && s[24] == '\U{3000}';
    }
  }

  predicate IsDash(c: char) {
    c == '-'
  }

  function TrimLeft(s: string, cut: char -> bool): string {
    if |s| > 0 && cut(s[0]) then TrimLeft(s[1..], cut) else s
  }

  function TrimRight(s: string, cut: char -> bool): string {
    if |s| > 0 && cut(s[|s| - 1]) then TrimRight(s[..|s| - 1], cut) else s
  }

  /** `strings.Trim` for a character class. */
  function Trim(s: string, cut: char -> bool): string {
    TrimRight(TrimLeft(s, cut), cut)
  }

  function TrimSpace(s: string): string {
    Trim(s, IsSpace)
  }

  /** Neither end of `s` belongs to the class. */
  predicate Trimmed(s: string, cut: char -> bool) {
    |s| > 0 ==> !cut(s[0]) && !cut(s[|s| - 1])
  }

  /** A trimmed string is what is left between two stretches of the class; it has no such end itself. */
  lemma {:induction false} TrimSplits(s: string, cut: char -> bool) returns (left: string, right: string)
    ensures s == left + Trim(s, cut) + right
    ensures forall c :: c in left || c in right ==> cut(c)
    ensures Trimmed(Trim(s, cut), cut)
  {
    left := TrimLeftSplits(s, cut);
    var t := TrimLeft(s, cut);
    right := TrimRightSplits(t, cut);
    assert s == left + (Trim(s, cut) + right);
    if |Trim(s, cut)| > 0 {
      assert Trim(s, cut)[0] == t[0];
    }
  }

  lemma {:induction false} TrimLeftSplits(s: string, cut: char -> bool) returns (left: string)
    ensures s == left + TrimLeft(s, cut)
    ensures forall c :: c in left ==> cut(c)
    ensures TrimLeft(s, cut) != "" ==> !cut(TrimLeft(s, cut)[0])
  {
    if |s| > 0 && cut(s[0]) {
      left := TrimLeftSplits(s[1..], cut);
      left := [s[0]] + left;
      assert s == [s[0]] + s[1..];
    } else {
      left := "";
    }
  }

  lemma {:induction false} TrimRightSplits(s: string, cut: char -> bool) returns (right: string)
    ensures s == TrimRight(s, cut) + right
    ensures forall c :: c in right ==> cut(c)
    ensures TrimRight(s, cut) != "" ==> !cut(TrimRight(s, cut)[|TrimRight(s, cut)| - 1])
  {
    if |s| > 0 && cut(s[|s| - 1]) {
      right := TrimRightSplits(s[..|s| - 1], cut);
      right := right + [s[|s| - 1]];
      assert s == s[..|s| - 1] + [s[|s| - 1]];
    } else {
      right := "";
    }
  }

  /** Trimming leaves exactly the trimmed strings alone. */
  lemma TrimFixes(s: string, cut: char -> bool)
    ensures Trim(s, cut) == s <==> Trimmed(s, cut)
  {
    var left, right := TrimSplits(s, cut);
  }

  predicate AllSpace(s: string) {
    forall i :: 0 <= i < |s| ==> IsSpace(s[i])
  }

  /** Nothing is left of white space only. */
  lemma TrimmedAway(s: string)
    ensures TrimSpace(s) == "" <==> AllSpace(s)
  {
    var left, right := TrimSplits(s, IsSpace);
    var m := TrimSpace(s);
    if m != "" {
      assert s[|left|] == m[0];
    } else {
      forall i | 0 <= i < |s| ensures IsSpace(s[i]) {
        assert s == left + right;
        assert s[i] in left || s[i] in right;
      }
    }
  }

  // ---- Joining --------------------------------------------------------------

  /** `strings.Join`. */
  function Join(parts: seq<string>, sep: string): string {
    if |parts| == 0 then ""
    else if |parts| == 1 then parts[0]
    else Join(parts[..|parts| - 1], sep) + sep + parts[|parts| - 1]
  }

  // ---- The order of strings -------------------------------------------------

  /** Go's `<` on strings. Comparing UTF-8 bytes and comparing code points give the same order. */
  predicate Less(a: string, b: string) {
    |b| > 0 && (|a| == 0 || a[0] < b[0] || (a[0] == b[0] && Less(a[1..], b[1..])))
  }

  lemma {:induction false} LessIsTotal(a: string, b: string)
    ensures a != b ==> Less(a, b) || Less(b, a)
  {
    if |a| > 0 && |b| > 0 && a[0] == b[0] {
      LessIsTotal(a[1..], b[1..]);
      assert a == [a[0]] + a[1..] && b == [b[0]] + b[1..];
    }
  }

  lemma {:induction false} LessIsStrict(a: string, b: string)
    ensures !(Less(a, b) && Less(b, a))
  {
    if |a| > 0 && |b| > 0 && a[0] == b[0] {
      LessIsStrict(a[1..], b[1..]);
    }
  }

  lemma {:induction false} LessIsTransitive(a: string, b: string, c: string)
    requires Less(a, b) && Less(b, c)
    ensures Less(a, c)
  {
    if |a| > 0 && a[0] == b[0] && b[0] == c[0] {
      LessIsTransitive(a[1..], b[1..], c[1..]);
    }
  }

  /** After a common beginning of length `i`, `a` ends or has the smaller character. */
  predicate SmallerAt(a: string, b: string, i: nat) {
    i <= |a| && i < |b| && a[..i] == b[..i] && (i == |a| || a[i] < b[i])
  }

  lemma CommonHead(a: string, b: string, i: nat)
    requires SmallerAt(a, b, i)
    ensures i > 0 ==> |a| > 0 && |b| > 0 && a[0] == b[0]
  {
    if i > 0 {
      assert a[..i][0] == b[..i][0];
    }
  }

  /** The order is lexicographic. */
  lemma {:induction false} LessIsLexicographic(a: string, b: string)
    ensures Less(a, b) <==> exists i: nat :: SmallerAt(a, b, i)
  {
    if |a| == 0 || |b| == 0 || a[0] != b[0] {
      assert Less(a, b) ==> SmallerAt(a, b, 0);
      if i: nat :| SmallerAt(a, b, i) {
        CommonHead(a, b, i);
      }
    } else {
      LessIsLexicographic(a[1..], b[1..]);
      if i: nat :| SmallerAt(a[1..], b[1..], i) {
        assert a[..i + 1] == [a[0]] + a[1..][..i] && b[..i + 1] == [b[0]] + b[1..][..i];
        assert SmallerAt(a, b, i + 1);
      }
      if i: nat :| SmallerAt(a, b, i) {
        assert i > 0;
        assert a[1..][..i - 1] == a[..i][1..] && b[1..][..i - 1] == b[..i][1..];
        assert SmallerAt(a[1..], b[1..], i - 1);
      }
    }
  }

  // ---- Decimal numerals -----------------------------------------------------

  /** `%d` for an index. */
  function Decimal(n: nat): (s: string)
    ensures |s| > 0 && forall c :: c in s ==> '0' <= c <= '9'
  {
    var digit := [('0' as int + n % 10) as char];
    if n < 10 then digit else Decimal(n / 10) + digit
  }

  /** The number that a string of digits reads as. */
  function Value(s: string): int {
    if s == "" then 0 else 10 * Value(s[..|s| - 1]) + (s[|s| - 1] as int - '0' as int)
  }

  /** The numeral reads as its number, and starts with a zero only for zero. */
  lemma {:induction false} DecimalReads(n: nat)
    ensures Value(Decimal(n)) == n
    ensures n > 0 ==> Decimal(n)[0] != '0'
  {
    var digit := [('0' as int + n % 10) as char];
    if n < 10 {
      assert digit[..0] == "";
    } else {
      DecimalReads(n / 10);
      var front := Decimal(n / 10);
      assert Decimal(n) == front + digit;
      assert (front + digit)[..|front + digit| - 1] == front;
    }
  }
}
