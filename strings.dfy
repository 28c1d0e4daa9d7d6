/** Byte-string helpers of Go's standard library that the session code relies on:
    `strings.Index`, `strings.HasSuffix`, `strings.Join` and `fmt`'s `%d` rendering of
    an `int`. A Go string is a sequence of bytes; here each `char` stands for one byte,
    and every operation below works element by element, as Go's do. */
module Strings {

  datatype Option<T> = None | Some(value: T)

  /** `pat` occurs in `s` at offset `i`. */
  predicate OccursAt(s: string, pat: string, i: int) {
    0 <= i && i + |pat| <= |s| && s[i..i + |pat|] == pat
  }

  predicate Contains(s: string, pat: string) {
    exists i :: 0 <= i <= |s| && OccursAt(s, pat, i)
  }

  /** `i` is the leftmost offset at which `pat` occurs in `s`. */
  predicate FirstOccurrence(s: string, pat: string, i: int) {
    OccursAt(s, pat, i) && forall j :: 0 <= j < i ==> !OccursAt(s, pat, j)
  }

  predicate HasPrefix(s: string, p: string) {
    |p| <= |s| && s[..|p|] == p
  }

  /** `strings.HasSuffix`. */
  predicate HasSuffix(s: string, sfx: string) {
    |sfx| <= |s| && s[|s| - |sfx|..] == sfx
  }

  lemma OccursAtShift(s: string, pat: string)
    requires |s| > 0
    ensures forall j :: 0 <= j ==> (OccursAt(s[1..], pat, j) <==> OccursAt(s, pat, j + 1))
  {
    forall j | 0 <= j ensures OccursAt(s[1..], pat, j) <==> OccursAt(s, pat, j + 1) {
      if 0 <= j && j + |pat| <= |s| - 1 {
        assert s[1..][j..j + |pat|] == s[j + 1..j + 1 + |pat|];
      }
    }
  }

  /** When `pat` does not start `s`, a search of `s` is a search of `s[1..]` shifted by one. */
  lemma SearchPastFirst(s: string, pat: string, k: int)
    requires |pat| <= |s| && s[..|pat|] != pat
    requires k == -1 <==> !Contains(s[1..], pat)
    requires k != -1 ==> FirstOccurrence(s[1..], pat, k)
    ensures k == -1 ==> !Contains(s, pat)
    ensures k != -1 ==> Contains(s, pat) && FirstOccurrence(s, pat, k + 1)
  {
    OccursAtShift(s, pat);
    assert !OccursAt(s, pat, 0);
    if k == -1 {
      forall i | 0 <= i <= |s| ensures !OccursAt(s, pat, i) {
        if i > 0 {
          assert !OccursAt(s[1..], pat, i - 1);
        }
      }
    } else {
      assert OccursAt(s, pat, k + 1);
      forall j | 0 <= j < k + 1 ensures !OccursAt(s, pat, j) {
        if j > 0 {
          assert !OccursAt(s[1..], pat, j - 1);
        }
      }
    }
  }

  /** `strings.Index`: the offset of the first occurrence of `pat` in `s`, or -1 when
      there is none (characterised by `IndexOfSpec`). */
  function IndexOf(s: string, pat: string): (r: int)
    ensures r == -1 || 0 <= r <= |s| - |pat|
    decreases |s|
  {
    if |s| < |pat| then -1
    else if s[..|pat|] == pat then 0
    else
      var k := IndexOf(s[1..], pat);
      if k == -1 then -1 else k + 1
  }

  /** `IndexOf` is -1 exactly when `pat` does not occur, and otherwise the leftmost
      offset at which it occurs. */
  lemma {:induction false} IndexOfSpec(s: string, pat: string)
    ensures IndexOf(s, pat) == -1 <==> !Contains(s, pat)
    ensures IndexOf(s, pat) != -1 ==> FirstOccurrence(s, pat, IndexOf(s, pat))
    decreases |s|
  {
    if |s| < |pat| {
    } else if s[..|pat|] == pat {
      assert OccursAt(s, pat, 0);
    } else {
      IndexOfSpec(s[1..], pat);
      SearchPastFirst(s, pat, IndexOf(s[1..], pat));
    }
  }

  /** The first occurrence is unique, so it is what `IndexOf` finds. */
  lemma IndexOfFirst(s: string, pat: string, i: int)
    requires FirstOccurrence(s, pat, i)
    ensures IndexOf(s, pat) == i
  {
    IndexOfSpec(s, pat);
    assert i <= |s| && OccursAt(s, pat, i);
  }

  /** A one-byte pattern occurs exactly where that byte is. */
  lemma OccursAtByte(s: string, c: char, i: int)
    ensures OccursAt(s, [c], i) <==> 0 <= i < |s| && s[i] == c
  {
    if 0 <= i < |s| {
      assert s[i..i + 1] == [s[i]];
    }
  }

  /** In `x + [c] + y`, with `c` not in `x`, the first `c` is the one after `x`. */
  lemma IndexOfAfter(x: string, c: char, y: string)
    requires c !in x
    ensures IndexOf(x + [c] + y, [c]) == |x|
  {
    var s := x + [c] + y;
    IndexOfSpec(s, [c]);
    OccursAtByte(s, c, |x|);
    forall j | 0 <= j < |x| ensures !OccursAt(s, [c], j) {
      OccursAtByte(s, c, j);
      assert s[j] == x[j];
    }
    IndexOfFirst(s, [c], |x|);
  }

  /** Where `IndexOf` finds a one-byte pattern, that byte is. */
  lemma IndexOfByte(s: string, c: char)
    requires IndexOf(s, [c]) != -1
    ensures 0 <= IndexOf(s, [c]) < |s| && s[IndexOf(s, [c])] == c
  {
    IndexOfSpec(s, [c]);
    OccursAtByte(s, c, IndexOf(s, [c]));
  }

  /** A byte that does not occur in `x` is not found there. */
  lemma IndexOfAbsent(x: string, c: char)
    requires c !in x
    ensures IndexOf(x, [c]) == -1
  {
    IndexOfSpec(x, [c]);
    forall j ensures !OccursAt(x, [c], j) {
      OccursAtByte(x, c, j);
    }
  }

  /** An occurrence inside a prefix of `s` is an occurrence in `s`. */
  lemma OccursInPrefix(s: string, k: nat, pat: string)
    requires k <= |s|
    ensures forall i :: OccursAt(s[..k], pat, i) ==> OccursAt(s, pat, i)
  {
    forall i | OccursAt(s[..k], pat, i) ensures OccursAt(s, pat, i) {
      assert s[..k][i..i + |pat|] == s[i..i + |pat|];
    }
  }

  /** A pattern missing from `s` is missing from every suffix of `s`. */
  lemma AbsentFromSuffix(s: string, k: nat, pat: string)
    requires k <= |s| && !Contains(s, pat)
    ensures !Contains(s[k..], pat)
  {
    forall i | 0 <= i <= |s| - k && OccursAt(s[k..], pat, i) ensures false {
      assert s[k..][i..i + |pat|] == s[k + i..k + i + |pat|];
      assert OccursAt(s, pat, k + i);
    }
  }

  /** A pattern `IndexOf` does not find in `s` it does not find in a suffix of `s`. */
  lemma IndexOfAbsentFromSuffix(s: string, k: nat, pat: string)
    requires k <= |s| && IndexOf(s, pat) == -1
    ensures IndexOf(s[k..], pat) == -1
  {
    IndexOfSpec(s, pat);
    AbsentFromSuffix(s, k, pat);
    IndexOfSpec(s[k..], pat);
  }

  /** Appending bytes keeps the first occurrence where it was. */
  lemma FirstOccurrenceAppend(s: string, pat: string, i: int, t: string)
    requires FirstOccurrence(s, pat, i)
    ensures FirstOccurrence(s + t, pat, i)
  {
    assert (s + t)[i..i + |pat|] == s[i..i + |pat|];
    forall j | 0 <= j < i ensures !OccursAt(s + t, pat, j) {
      assert !OccursAt(s, pat, j);
      assert (s + t)[j..j + |pat|] == s[j..j + |pat|];
    }
  }

  /** A suffix of a suffix is a suffix. */
  /** `strings.HasSuffix(s, sfx)` holds exactly when `s` is some string followed by `sfx`. */
  lemma HasSuffixSpec(s: string, sfx: string)
    ensures HasSuffix(s, sfx) <==> exists u :: s == u + sfx
  {
    if HasSuffix(s, sfx) {
      assert s == s[..|s| - |sfx|] + sfx;
    }
    forall u | s == u + sfx ensures HasSuffix(s, sfx) {
      assert s[|s| - |sfx|..] == sfx;
    }
  }

  lemma SuffixOfSuffix(s: string, k: nat, r: string)
    requires k <= |s| && |r| <= |s| - k && r == s[k..][|s| - k - |r|..]
    ensures r == s[|s| - |r|..]
  {
    assert s[k..][|s| - k - |r|..] == s[|s| - |r|..];
  }

  /** A string that ends with `pat` contains it. */
  lemma SuffixOccurs(s: string, pat: string)
    requires HasSuffix(s, pat)
    ensures Contains(s, pat)
  {
    assert OccursAt(s, pat, |s| - |pat|);
  }

  /** `strings.Join`. */
  function Join(elems: seq<string>, sep: string): string {
    if |elems| == 0 then ""
    else if |elems| == 1 then elems[0]
    else elems[0] + sep + Join(elems[1..], sep)
  }

  // ---------------------------------------------------------------------------
  // `fmt.Sprintf("%d", n)` for an `int`

  predicate IsDigit(c: char) {
    '0' <= c <= '9'
  }

  predicate AllDigits(s: string) {
    forall i :: 0 <= i < |s| ==> IsDigit(s[i])
  }

  function DigitChar(d: nat): char
    requires d < 10
  {
    (48 + d) as char
  }

  function DigitValue(c: char): nat
    requires IsDigit(c)
  {
    c as int - 48
  }

  /** Base-ten digits of `n`, most significant first, no leading zero. */
  function Digits(n: nat): string
    decreases n
  {
    if n < 10 then [DigitChar(n)] else Digits(n / 10) + [DigitChar(n % 10)]
  }

  /** `%d`: a minus sign for a negative value, then the digits of its magnitude. */
  function Decimal(n: int): string {
    if n < 0 then "-" + Digits(-n) else Digits(n)
  }

  /** Reads a non-empty run of digits, most significant first. */
  function ParseDigits(s: string): nat
    requires |s| > 0 && AllDigits(s)
    decreases |s|
  {
    if |s| == 1 then DigitValue(s[0])
    else ParseDigits(s[..|s| - 1]) * 10 + DigitValue(s[|s| - 1])
  }

  /** Reads an optionally negative decimal numeral; the inverse of `Decimal`. */
  function ParseDecimal(s: string): Option<int> {
    if |s| > 1 && s[0] == '-' && AllDigits(s[1..]) then Some(-(ParseDigits(s[1..]) as int))
    else if |s| > 0 && AllDigits(s) then Some(ParseDigits(s))
    else None
  }

  lemma {:induction false} DigitsRoundTrip(n: nat)
    ensures |Digits(n)| > 0 && AllDigits(Digits(n))
    ensures ParseDigits(Digits(n)) == n
  {
    if n >= 10 {
      DigitsRoundTrip(n / 10);
      var s := Digits(n);
      assert s[..|s| - 1] == Digits(n / 10);
    }
  }

  /** `%d` is read back exactly, and its rendering holds only digits and a leading sign. */
  lemma DecimalRoundTrip(n: int)
    ensures ParseDecimal(Decimal(n)) == Some(n)
    ensures ' ' !in Decimal(n) && '\n' !in Decimal(n)
  {
    if n < 0 {
      NegativeRoundTrip(n);
    } else {
      DigitsRoundTrip(n);
      var d := Digits(n);
      assert IsDigit(d[0]);
      DigitsHaveNoSpace(d);
    }
  }

  /** The digits of `n` never start with a zero unless `n` is zero. */
  lemma {:induction false} DigitsNoLeadingZero(n: nat)
    ensures |Digits(n)| > 0 && (Digits(n)[0] == '0' <==> n == 0)
    decreases n
  {
    if n >= 10 {
      DigitsNoLeadingZero(n / 10);
      assert Digits(n)[0] == Digits(n / 10)[0];
    }
  }

  /** `%d` writes the canonical numeral: a minus sign exactly for a negative value,
      then digits with no leading zero; zero is the single digit `0`. */
  lemma DecimalCanonical(n: int)
    ensures var s := Decimal(n);
            |s| > 0 && (s[0] == '-' <==> n < 0) &&
            var d := if n < 0 then s[1..] else s;
            |d| > 0 && AllDigits(d) && (d[0] == '0' <==> n == 0)
    ensures n == 0 ==> Decimal(n) == "0"
  {
    var m := if n < 0 then -n else n;
    DigitsNoLeadingZero(m);
    DigitsRoundTrip(m);
    if n < 0 {
      assert Decimal(n)[1..] == Digits(m);
    } else {
      assert IsDigit(Digits(m)[0]);
    }
  }

  lemma NegativeRoundTrip(n: int)
    requires n < 0
    ensures ParseDecimal(Decimal(n)) == Some(n)
    ensures ' ' !in Decimal(n) && '\n' !in Decimal(n)
  {
    DigitsRoundTrip(-n);
    var d := Digits(-n);
    var s := "-" + d;
    assert Decimal(n) == s;
    assert s[0] == '-' && s[1..] == d;
    DigitsHaveNoSpace(d);
  }

  lemma DigitsHaveNoSpace(d: string)
    requires AllDigits(d)
    ensures ' ' !in d && '\n' !in d
  {
  }
}
