/** The string operations the core applies to symbols: `upper`, `in`, and `replace(p, "")`. */
module Text {

  /** `str.upper` on one character (ASCII letters only). */
  function UpperChar(ch: char): char {
    if 'a' <= ch <= 'z' then (ch as int - 'a' as int + 'A' as int) as char else ch
  }

  predicate IsLower(ch: char) { 'a' <= ch <= 'z' }

  /** `s.upper()`. */
  function Upper(s: string): (r: string)
    ensures |r| == |s|
    ensures forall i :: 0 <= i < |s| ==> !IsLower(r[i])
    ensures forall i :: 0 <= i < |s| && !IsLower(s[i]) ==> r[i] == s[i]
    ensures forall i :: 0 <= i < |s| && IsLower(s[i]) ==> r[i] as int == s[i] as int - 32
  {
    seq(|s|, i requires 0 <= i < |s| => UpperChar(s[i]))
  }

  /** `pat` occurs in s starting at index i. */
  predicate OccursAt(s: string, pat: string, i: nat) {
    i + |pat| <= |s| && s[i..i + |pat|] == pat
  }

  /** `pat in s`. */
  predicate Contains(s: string, pat: string) {
    exists i: nat :: i <= |s| && OccursAt(s, pat, i)
  }

  /** pat cannot occur where its first character never appears. */
  lemma AbsentWithoutFirstChar(s: string, pat: string)
    requires |pat| > 0
    requires forall j :: 0 <= j < |s| ==> s[j] != pat[0]
    ensures !Contains(s, pat)
  {
    forall i: nat | i <= |s| ensures !OccursAt(s, pat, i) {
      if i + |pat| <= |s| {
        assert s[i..i + |pat|][0] == s[i];
      }
    }
  }

  /**
   * `s.replace(pat, "")`: scan left to right, drop every occurrence of pat
   * that starts where the previous one ended or later.
   */
  function RemoveAll(s: string, pat: string): (r: string)
    requires |pat| > 0
    ensures |r| <= |s|
    decreases |s|
  {
    if |s| == 0 then ""
    else if OccursAt(s, pat, 0) then RemoveAll(s[|pat|..], pat)
    else [s[0]] + RemoveAll(s[1..], pat)
  }

  /** Text without pat is left as it is. */
  lemma {:induction false} RemoveAllAbsent(s: string, pat: string)
    requires |pat| > 0 && !Contains(s, pat)
    ensures RemoveAll(s, pat) == s
    decreases |s|
  {
    if |s| > 0 {
      assert !OccursAt(s, pat, 0);
      NotContainsTail(s, pat);
      RemoveAllAbsent(s[1..], pat);
    }
  }

  lemma NotContainsTail(s: string, pat: string)
    requires |s| > 0 && !Contains(s, pat)
    ensures !Contains(s[1..], pat)
  {
    forall i: nat | i <= |s[1..]| && OccursAt(s[1..], pat, i) ensures false {
      assert s[i + 1..i + 1 + |pat|] == s[1..][i..i + |pat|];
      assert OccursAt(s, pat, i + 1);
    }
  }

  /** Text that holds pat is shortened: `replace` changes s exactly when pat occurs in it. */
  lemma {:induction false} RemoveAllPresent(s: string, pat: string)
    requires |pat| > 0 && Contains(s, pat)
    ensures |RemoveAll(s, pat)| < |s|
    decreases |s|
  {
    var i: nat :| i <= |s| && OccursAt(s, pat, i);
    if !OccursAt(s, pat, 0) {
      assert i > 0;
      assert s[1..][i - 1..i - 1 + |pat|] == s[i..i + |pat|];
      assert OccursAt(s[1..], pat, i - 1);
      RemoveAllPresent(s[1..], pat);
    }
  }

  /** A trading pair "XUSD" is shown as X with its own "USD"s removed. */
  lemma {:induction false} RemoveUsdSuffix(a: string)
    ensures RemoveAll(a + "USD", "USD") == RemoveAll(a, "USD")
    decreases |a|
  {
    var t := a + "USD";
    if |a| == 0 {
      assert t == "USD";
      assert OccursAt(t, "USD", 0);
      assert t[3..] == "";
    } else if OccursAt(a, "USD", 0) {
      assert OccursAt(t, "USD", 0);
      assert t[3..] == a[3..] + "USD";
      RemoveUsdSuffix(a[3..]);
    } else {
      assert !OccursAt(t, "USD", 0) by {
        if |a| == 1 { assert t[1] == 'U'; }
        else if |a| == 2 { assert t[2] == 'U'; }
        else { assert t[..3] == a[..3]; }
      }
      assert t[1..] == a[1..] + "USD";
      RemoveUsdSuffix(a[1..]);
    }
  }
}
