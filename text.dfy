/** Text operations the drivers rely on: Python's `in` on strings, `str.replace(old, "")`,
    `str.strip()`, string repetition and the concatenation of a list of strings. */
module Text {

  /** `pat` occurs in `s` starting at index `i`. */
  predicate OccursAt(s: string, pat: string, i: nat)
  {
    i + |pat| <= |s| && s[i..i + |pat|] == pat
  }

  /** Python's `pat in s`: true when `pat` is a substring of `s` (always, for an empty `pat`). */
  function Contains(s: string, pat: string): (b: bool)
    ensures b <==> exists i: nat :: OccursAt(s, pat, i)
    decreases |s|
  {
    if |pat| > |s| then
      false
    else if s[..|pat|] == pat then
      assert OccursAt(s, pat, 0);
      true
    else
      var rest := Contains(s[1..], pat);
      assert forall i: nat :: OccursAt(s[1..], pat, i) <==> OccursAt(s, pat, i + 1) by {
        forall i: nat ensures OccursAt(s[1..], pat, i) <==> OccursAt(s, pat, i + 1) {
          if i + |pat| <= |s[1..]| {
            assert s[1..][i..i + |pat|] == s[i + 1..i + 1 + |pat|];
          }
        }
      }
      assert !OccursAt(s, pat, 0);
      assert (exists i: nat :: OccursAt(s, pat, i)) ==> exists i: nat :: OccursAt(s[1..], pat, i) by {
        if exists i: nat :: OccursAt(s, pat, i) {
          var i: nat :| OccursAt(s, pat, i);
          assert i != 0;
          assert OccursAt(s[1..], pat, i - 1);
        }
      }
      rest
  }

  /** Python's `s.replace(pat, "")`: every non-overlapping occurrence of `pat`, found left to
      right, is removed. Replacing the empty string by the empty string leaves `s` as it is. */
  function RemoveAll(s: string, pat: string): string
    decreases |s|
  {
    if pat == [] || |s| < |pat| then
      s
    else if s[..|pat|] == pat then
      RemoveAll(s[|pat|..], pat)
    else
      [s[0]] + RemoveAll(s[1..], pat)
  }

  /** `c` repeated `n` times: Python's `c * n`. */
  function Repeat(c: char, n: nat): (r: string)
    ensures |r| == n
    ensures forall i :: 0 <= i < |r| ==> r[i] == c
  {
    if n == 0 then [] else [c] + Repeat(c, n - 1)
  }

  /** The strings appended one after another with `+=`, starting from the empty string,
      in order. */
  function Concat(parts: seq<string>): string
  {
    if parts == [] then [] else Concat(parts[..|parts| - 1]) + parts[|parts| - 1]
  }

  lemma {:induction false} ConcatAppend(a: seq<string>, b: seq<string>)
    ensures Concat(a + b) == Concat(a) + Concat(b)
    decreases |b|
  {
    if b == [] {
      assert a + b == a;
    } else {
      var init := b[..|b| - 1];
      assert (a + b)[..|a + b| - 1] == a + init;
      assert (a + b)[|a + b| - 1] == b[|b| - 1];
      ConcatAppend(a, init);
    }
  }

  /** The characters Python's `str.isspace` accepts, which is what `str.strip()` removes. */
  predicate IsSpace(c: char)
  {
    || '\t' <= c <= '\r'
    || '\U{1C}' <= c <= '\U{20}'
    || c == '\U{85}' || c == '\U{A0}' || c == '\U{1680}'
    || '\U{2000}' <= c <= '\U{200A}'
    || c == '\U{2028}' || c == '\U{2029}' || c == '\U{202F}' || c == '\U{205F}'
    || c == '\U{3000}'
  }

  /** Every character of `s` from index `lo` up to (not including) `hi` is whitespace. */
  predicate SpaceBetween(s: string, lo: nat, hi: nat)
    requires lo <= hi <= |s|
  {
    forall i :: lo <= i < hi ==> IsSpace(s[i])
  }

  /** Python's `s.lstrip()`: the suffix of `s` left after dropping its leading whitespace. */
  function TrimStart(s: string): (r: string)
    ensures |r| <= |s| && r == s[|s| - |r|..] && SpaceBetween(s, 0, |s| - |r|)
    ensures r == [] || !IsSpace(r[0])
    decreases |s|
  {
    if s != [] && IsSpace(s[0]) then
      var t := s[1..];
      var r := TrimStart(t);
      assert t[|t| - |r|..] == s[|s| - |r|..];
      assert forall i :: 1 <= i < |s| - |r| ==> s[i] == t[i - 1];
      r
    else
      s
  }

  /** Python's `s.rstrip()`: the prefix of `s` left after dropping its trailing whitespace. */
  function TrimEnd(s: string): (r: string)
    ensures |r| <= |s| && r == s[..|r|] && SpaceBetween(s, |r|, |s|)
    ensures r == [] || !IsSpace(r[|r| - 1])
    decreases |s|
  {
    if s != [] && IsSpace(s[|s| - 1]) then
      var t := s[..|s| - 1];
      var r := TrimEnd(t);
      assert t[..|r|] == s[..|r|];
      assert forall i :: |r| <= i < |t| ==> s[i] == t[i];
      r
    else
      s
  }

  /** Python's `s.strip()`: `s` without its leading and trailing whitespace. The result is
      the piece of `s` between two all-whitespace ends, and it neither starts nor ends with
      whitespace. */
  function Strip(s: string): (r: string)
    ensures r == [] || (!IsSpace(r[0]) && !IsSpace(r[|r| - 1]))
    ensures exists i: nat :: OccursAt(s, r, i) && SpaceBetween(s, 0, i) && SpaceBetween(s, i + |r|, |s|)
  {
    var t := TrimStart(s);
    var r := TrimEnd(t);
    StripPiece(s, t, r);
    r
  }

  /** The piece `TrimEnd(TrimStart(s))` sits in `s` between two all-whitespace ends. */
  lemma StripPiece(s: string, t: string, r: string)
    requires |t| <= |s| && t == s[|s| - |t|..] && SpaceBetween(s, 0, |s| - |t|)
    requires t == [] || !IsSpace(t[0])
    requires |r| <= |t| && r == t[..|r|] && SpaceBetween(t, |r|, |t|)
    requires r == [] || !IsSpace(r[|r| - 1])
    ensures r == [] || (!IsSpace(r[0]) && !IsSpace(r[|r| - 1]))
    ensures exists i: nat :: OccursAt(s, r, i) && SpaceBetween(s, 0, i) && SpaceBetween(s, i + |r|, |s|)
  {
    var i := |s| - |t|;
    assert forall j :: 0 <= j < |t| ==> t[j] == s[i + j];
    assert s[i..i + |r|] == r;
    assert SpaceBetween(s, i + |r|, |s|);
    assert OccursAt(s, r, i) && SpaceBetween(s, 0, i);
  }

  lemma StripIdempotent(s: string)
    ensures Strip(Strip(s)) == Strip(s)
  {
  }

  /** An occurrence inside a piece of a text is an occurrence in the text. */
  lemma ContainsPiece(s: string, r: string, i: nat, pat: string)
    requires OccursAt(s, r, i)
    ensures Contains(r, pat) ==> Contains(s, pat)
  {
    if Contains(r, pat) {
      var j: nat :| OccursAt(r, pat, j);
      assert forall k :: 0 <= k < |r| ==> r[k] == s[i + k];
      assert s[i + j..i + j + |pat|] == r[j..j + |pat|];
      assert OccursAt(s, pat, i + j);
    }
  }

  lemma {:induction false} StripKeepsAbsence(s: string, pat: string)
    requires !Contains(s, pat)
    ensures !Contains(Strip(s), pat)
  {
    var r := Strip(s);
    var i: nat :| OccursAt(s, r, i) && SpaceBetween(s, 0, i) && SpaceBetween(s, i + |r|, |s|);
    ContainsPiece(s, r, i, pat);
  }

  /** A text lacking some character of a pattern does not contain the pattern. */
  lemma MissingCharNotContained(s: string, pat: string, c: char)
    requires c in pat && c !in s
    ensures !Contains(s, pat)
  {
    forall i: nat ensures !OccursAt(s, pat, i) {
      if i + |pat| <= |s| {
        var j :| 0 <= j < |pat| && pat[j] == c;
        assert s[i..i + |pat|][j] == s[i + j];
      }
    }
  }

  /** A prefix that lacks the first character of the pattern passes through the removal
      untouched. */
  lemma {:induction false} RemoveAllSkips(x: string, y: string, pat: string)
    requires pat != [] && pat[0] !in x
    ensures RemoveAll(x + y, pat) == x + RemoveAll(y, pat)
    decreases |x|
  {
    if x != [] {
      var s := x + y;
      if |s| >= |pat| {
        assert s[..|pat|][0] == x[0] != pat[0];
        assert RemoveAll(s, pat) == [x[0]] + RemoveAll(s[1..], pat);
        RemoveAllSkips(x[1..], y, pat);
        assert s[1..] == x[1..] + y;
        assert x == [x[0]] + x[1..];
      } else {
        RemoveAllShort(y, pat);
      }
    } else {
      assert x + y == y;
    }
  }

  lemma RemoveAllShort(y: string, pat: string)
    requires |y| < |pat|
    ensures RemoveAll(y, pat) == y
  {
  }

  /** Removing a pattern that does not occur changes nothing. */
  lemma {:induction false} RemoveAllAbsent(s: string, pat: string)
    requires !Contains(s, pat)
    ensures RemoveAll(s, pat) == s
    decreases |s|
  {
    if pat == [] || |s| < |pat| {
    } else {
      RemoveAllAbsent(s[1..], pat);
      assert s == [s[0]] + s[1..];
    }
  }

  /** The number of copies of `c` that `s` starts with. */
  function LeadRun(s: string, c: char): (n: nat)
    ensures n <= |s|
  {
    if s != [] && s[0] == c then 1 + LeadRun(s[1..], c) else 0
  }

  lemma {:induction false} StartsWithRun(s: string, c: char, m: nat)
    ensures (m <= |s| && s[..m] == Repeat(c, m)) <==> LeadRun(s, c) >= m
    decreases m
  {
    if m > 0 && s != [] {
      StartsWithRun(s[1..], c, m - 1);
      if m <= |s| && s[0] == c {
        assert s[..m] == [s[0]] + s[1..][..m - 1];
      }
    }
  }

  /** After the removal, a text never starts with a full run of `m` copies of `c`, and a
      shorter leading run is kept as it was. */
  lemma {:induction false} RemoveRunLeadRun(s: string, c: char, m: nat)
    requires m > 0
    ensures LeadRun(RemoveAll(s, Repeat(c, m)), c) < m
    ensures LeadRun(s, c) < m ==> LeadRun(RemoveAll(s, Repeat(c, m)), c) == LeadRun(s, c)
    decreases |s|
  {
    var pat := Repeat(c, m);
    if |s| < m {
    } else if s[..m] == pat {
      StartsWithRun(s, c, m);
      RemoveRunLeadRun(s[m..], c, m);
    } else {
      StartsWithRun(s, c, m);
      RemoveRunLeadRun(s[1..], c, m);
      var r := RemoveAll(s, pat);
      assert r == [s[0]] + RemoveAll(s[1..], pat);
      assert r[1..] == RemoveAll(s[1..], pat);
    }
  }

  /** For a marker that is one character repeated, nothing of the marker survives
      `replace(marker, "")`: the runs of that character left over are all shorter. */
  lemma {:induction false} RemoveRunLeavesNone(s: string, c: char, m: nat)
    requires m > 0
    ensures !Contains(RemoveAll(s, Repeat(c, m)), Repeat(c, m))
    decreases |s|
  {
    var pat := Repeat(c, m);
    var r := RemoveAll(s, pat);
    if |s| < m {
    } else if s[..m] == pat {
      RemoveRunLeavesNone(s[m..], c, m);
    } else {
      RemoveRunLeavesNone(s[1..], c, m);
      RemoveRunLeadRun(s, c, m);
      StartsWithRun(r, c, m);
      assert r[1..] == RemoveAll(s[1..], pat);
    }
  }

  /** For a marker of two different characters the removal can glue a new occurrence
      together: removing "ab" from "aabb" leaves "ab". */
  lemma RemoveMayLeaveMarker()
    ensures RemoveAll("aabb", "ab") == "ab"
    ensures Contains(RemoveAll("aabb", "ab"), "ab")
  {
    assert "aabb"[1] != "ab"[1];
    assert "aabb"[1..] == "abb";
    assert "abb"[..2] == "ab";
    assert "abb"[2..] == "b";
    assert OccursAt("ab", "ab", 0);
  }
}
