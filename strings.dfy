/** The two `System.String` operations the mod relies on: `Contains` and `Replace`. */
module Strings {

  /** `s.Contains(pat)`: `pat` occurs in `s` at some position. */
  predicate Contains(s: string, pat: string)
    decreases |s|
  {
    pat <= s || (|s| > 0 && Contains(s[1..], pat))
  }

  /** `s.Replace(pat, rep)`: every occurrence of `pat`, scanning left to right
      without overlaps, is replaced by `rep`. */
  function ReplaceAll(s: string, pat: string, rep: string): (r: string)
    requires |pat| > 0
    ensures Occurrences(s, pat) == 0 ==> r == s
    ensures rep == pat ==> r == s
    decreases |s|
  {
    if |s| < |pat| then s
    else if pat <= s then rep + ReplaceAll(s[|pat|..], pat, rep)
    else [s[0]] + ReplaceAll(s[1..], pat, rep)
  }

  /** The number of occurrences ReplaceAll replaces. */
  function Occurrences(s: string, pat: string): nat
    requires |pat| > 0
    decreases |s|
  {
    if |s| < |pat| then 0
    else if pat <= s then 1 + Occurrences(s[|pat|..], pat)
    else Occurrences(s[1..], pat)
  }

  /** How often character `c` appears in `s`. */
  function CountChar(s: string, c: char): nat
    decreases |s|
  {
    if |s| == 0 then 0 else (if s[0] == c then 1 else 0) + CountChar(s[1..], c)
  }

  lemma {:induction false} CountCharAppend(a: string, b: string, c: char)
    ensures CountChar(a + b, c) == CountChar(a, c) + CountChar(b, c)
    decreases |a|
  {
    if |a| == 0 {
      assert a + b == b;
    } else {
      assert (a + b)[0] == a[0];
      assert (a + b)[1..] == a[1..] + b;
      CountCharAppend(a[1..], b, c);
    }
  }

  /** Replacement changes the length by the length difference once per occurrence. */
  lemma {:induction false} ReplaceAllLength(s: string, pat: string, rep: string)
    requires |pat| > 0
    ensures |ReplaceAll(s, pat, rep)| == |s| + Occurrences(s, pat) * (|rep| - |pat|)
    decreases |s|
  {
    if |s| >= |pat| {
      if pat <= s {
        var rest := s[|pat|..];
        ReplaceAllLength(rest, pat, rep);
        assert ReplaceAll(s, pat, rep) == rep + ReplaceAll(rest, pat, rep);
        assert Occurrences(s, pat) == 1 + Occurrences(rest, pat);
        OneMoreOccurrence(|s|, |pat|, |rep|, |rest|, |ReplaceAll(rest, pat, rep)|, Occurrences(rest, pat));
      } else {
        var rest := s[1..];
        ReplaceAllLength(rest, pat, rep);
        assert ReplaceAll(s, pat, rep) == [s[0]] + ReplaceAll(rest, pat, rep);
        assert Occurrences(s, pat) == Occurrences(rest, pat);
      }
    }
  }

  /** The length arithmetic of one replaced occurrence. */
  lemma OneMoreOccurrence(lenS: int, lenPat: int, lenRep: int, lenRest: int, lenOut: int, o: int)
    requires lenS == lenPat + lenRest && lenOut == lenRest + o * (lenRep - lenPat)
    ensures lenRep + lenOut == lenS + (1 + o) * (lenRep - lenPat)
  {
  }

  /** Each replaced occurrence trades the character count of `pat` for that of `rep`. */
  lemma {:induction false} ReplaceAllCountChar(s: string, pat: string, rep: string, c: char)
    requires |pat| > 0
    ensures CountChar(ReplaceAll(s, pat, rep), c) + Occurrences(s, pat) * CountChar(pat, c)
            == CountChar(s, c) + Occurrences(s, pat) * CountChar(rep, c)
    decreases |s|
  {
    if |s| >= |pat| {
      if pat <= s {
        var rest := s[|pat|..];
        ReplaceAllCountChar(rest, pat, rep, c);
        CountCharAppend(rep, ReplaceAll(rest, pat, rep), c);
        assert s == pat + rest;
        CountCharAppend(pat, rest, c);
        var o := Occurrences(rest, pat);
        assert Occurrences(s, pat) == 1 + o;
        assert (1 + o) * CountChar(pat, c) == CountChar(pat, c) + o * CountChar(pat, c);
        assert (1 + o) * CountChar(rep, c) == CountChar(rep, c) + o * CountChar(rep, c);
      } else {
        ReplaceAllCountChar(s[1..], pat, rep, c);
        CountCharAppend([s[0]], ReplaceAll(s[1..], pat, rep), c);
        assert s == [s[0]] + s[1..];
        CountCharAppend([s[0]], s[1..], c);
      }
    }
  }

  /** A string with no occurrence of `c` cannot contain a pattern that holds `c`. */
  lemma {:induction false} NoCharNoContains(s: string, pat: string, c: char)
    requires c in pat && CountChar(s, c) == 0
    ensures !Contains(s, pat)
    decreases |s|
  {
    if pat <= s {
      var k :| 0 <= k < |pat| && pat[k] == c;
      CountCharPositive(s, k, c);
    }
    if |s| > 0 {
      assert CountChar(s[1..], c) == 0;
      NoCharNoContains(s[1..], pat, c);
    }
  }

  lemma {:induction false} CountCharPositive(s: string, k: nat, c: char)
    requires k < |s| && s[k] == c
    ensures CountChar(s, c) > 0
    decreases k
  {
    if k > 0 {
      CountCharPositive(s[1..], k - 1, c);
    }
  }
}
