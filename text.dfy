/** The few Python string operations the scripts rely on: `startswith`,
    substring `in`, `lower()` and `strip()`. */
module Text {

  /** `s.startswith(prefix)` */
  predicate StartsWith(s: string, prefix: string)
  {
    |prefix| <= |s| && s[..|prefix|] == prefix
  }

  /** `pat in s`: the pattern occurs somewhere in `s` (scanned left to right). */
  predicate Contains(s: string, pat: string)
    decreases |s|
  {
    if StartsWith(s, pat) then true
    else if |s| == 0 then false
    else Contains(s[1..], pat)
  }

  /** An occurrence of `pat` at position `i` of `s`. */
  predicate OccursAt(s: string, pat: string, i: int)
  {
    0 <= i && i + |pat| <= |s| && s[i..i + |pat|] == pat
  }

  /** Substring search finds the pattern exactly when it occurs at some position. */
  lemma {:induction false} ContainsIffOccurs(s: string, pat: string)
    ensures Contains(s, pat) <==> exists i :: OccursAt(s, pat, i)
    decreases |s|
  {
    if StartsWith(s, pat) {
      assert OccursAt(s, pat, 0);
    } else if |s| == 0 {
    } else {
      ContainsIffOccurs(s[1..], pat);
      if exists i :: OccursAt(s[1..], pat, i) {
        var i :| OccursAt(s[1..], pat, i);
        assert s[i + 1..i + 1 + |pat|] == s[1..][i..i + |pat|];
        assert OccursAt(s, pat, i + 1);
      }
      if exists i :: OccursAt(s, pat, i) {
        var i :| OccursAt(s, pat, i);
        assert s[1..][i - 1..i - 1 + |pat|] == s[i..i + |pat|];
        assert OccursAt(s[1..], pat, i - 1);
      }
    }
  }

  /** Characters Python's `str.isspace()` accepts, within the Latin-1 range. */
  predicate IsSpace(c: char)
  {
    c == ' ' || ('\t' <= c <= '\r') || ('\U{1c}' <= c <= '\U{1f}') || c == '\U{85}' || c == '\U{a0}'
  }

  /** `str.lower()` on a single character (ASCII letters). */
  function LowerChar(c: char): char
  {
    if 'A' <= c <= 'Z' then (c as int + 32) as char else c
  }

  /** `s.lower()` */
  function Lower(s: string): string
  {
    seq(|s|, i requires 0 <= i < |s| => LowerChar(s[i]))
  }

  predicate IsLowerCase(s: string)
  {
    forall i :: 0 <= i < |s| ==> !('A' <= s[i] <= 'Z')
  }

  /** Lower-casing leaves no upper-case letter and is idempotent. */
  lemma LowerIsLowerCase(s: string)
    ensures |Lower(s)| == |s|
    ensures forall i :: 0 <= i < |s| ==>
      if 'A' <= s[i] <= 'Z' then Lower(s)[i] as int == s[i] as int + 32 else Lower(s)[i] == s[i]
    ensures IsLowerCase(Lower(s))
    ensures Lower(Lower(s)) == Lower(s)
  {
  }

  function TrimStart(s: string): (r: string)
    decreases |s|
  {
    if |s| > 0 && IsSpace(s[0]) then TrimStart(s[1..]) else s
  }

  function TrimEnd(s: string): (r: string)
    decreases |s|
  {
    if |s| > 0 && IsSpace(s[|s| - 1]) then TrimEnd(s[..|s| - 1]) else s
  }

  /** `s.strip()` */
  function Strip(s: string): string
  {
    TrimEnd(TrimStart(s))
  }

  predicate AllSpace(s: string)
  {
    forall k :: 0 <= k < |s| ==> IsSpace(s[k])
  }

  /** `s[i..j]` is `s` with only white space cut from its two ends, and
      neither end of it is white space any more. */
  predicate IsStripOf(s: string, i: int, j: int)
  {
    0 <= i <= j <= |s| && AllSpace(s[..i]) && AllSpace(s[j..]) &&
    (i < j ==> !IsSpace(s[i]) && !IsSpace(s[j - 1]))
  }

  lemma {:induction false} TrimStartSpec(s: string)
    ensures exists i :: 0 <= i <= |s| && TrimStart(s) == s[i..] && AllSpace(s[..i]) &&
                        (i < |s| ==> !IsSpace(s[i]))
    decreases |s|
  {
    if |s| > 0 && IsSpace(s[0]) {
      TrimStartSpec(s[1..]);
      var i :| 0 <= i <= |s[1..]| && TrimStart(s[1..]) == s[1..][i..] && AllSpace(s[1..][..i]) &&
               (i < |s[1..]| ==> !IsSpace(s[1..][i]));
      assert s[1..][i..] == s[i + 1..];
      assert forall k :: 1 <= k < i + 1 ==> s[k] == s[1..][..i][k - 1];
      assert AllSpace(s[..i + 1]);
    } else {
      assert s[0..] == s;
    }
  }

  lemma {:induction false} TrimEndSpec(s: string)
    ensures exists j :: 0 <= j <= |s| && TrimEnd(s) == s[..j] && AllSpace(s[j..]) &&
                        (0 < j ==> !IsSpace(s[j - 1]))
    decreases |s|
  {
    if |s| > 0 && IsSpace(s[|s| - 1]) {
      var t := s[..|s| - 1];
      TrimEndSpec(t);
      var j :| 0 <= j <= |t| && TrimEnd(t) == t[..j] && AllSpace(t[j..]) && (0 < j ==> !IsSpace(t[j - 1]));
      assert t[..j] == s[..j];
      assert forall k :: j <= k < |s| - 1 ==> s[k] == t[j..][k - j];
      assert AllSpace(s[j..]);
    } else {
      assert s[..|s|] == s;
    }
  }

  /** Cutting white space from the front of `s` and then from the end of
      the rest cuts only white space from the two ends of `s`. */
  lemma StripOfParts(s: string, i: nat, j: nat)
    requires i <= |s| && AllSpace(s[..i]) && (i < |s| ==> !IsSpace(s[i]))
    requires j <= |s| - i && AllSpace(s[i..][j..]) && (0 < j ==> !IsSpace(s[i..][j - 1]))
    ensures IsStripOf(s, i, i + j) && s[i..][..j] == s[i..i + j]
  {
    var t := s[i..];
    assert AllSpace(s[i + j..]) by {
      forall k | i + j <= k < |s|
        ensures IsSpace(s[k])
      {
        assert s[k] == t[j..][k - i - j];
      }
    }
    if 0 < j {
      assert s[i + j - 1] == t[j - 1];
    }
  }

  /** `strip()` keeps a contiguous middle part of the text and removes
      exactly the white space around it. */
  lemma StripSpec(s: string)
    ensures exists i, j :: IsStripOf(s, i, j) && Strip(s) == s[i..j]
  {
    TrimStartSpec(s);
    var i :| 0 <= i <= |s| && TrimStart(s) == s[i..] && AllSpace(s[..i]) && (i < |s| ==> !IsSpace(s[i]));
    TrimEndSpec(s[i..]);
    var j :| 0 <= j <= |s[i..]| && TrimEnd(s[i..]) == s[i..][..j] && AllSpace(s[i..][j..]) &&
             (0 < j ==> !IsSpace(s[i..][j - 1]));
    StripOfParts(s, i, j);
  }
}
