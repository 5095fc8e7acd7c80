/**
 * The handful of Python string operations the core relies on, written out:
 * `str.isspace`, `strip`/`rstrip`, `sep.join(parts)`, the left-to-right
 * search behind `str.split(sep, maxsplit)`, and ASCII upper-casing.
 */
module Text {
  import opened Wrappers

  /** The characters Python's `str.isspace()` (and so argument-less `strip()`) treats as whitespace. */
  predicate IsSpace(c: char) {
    var n := c as int;
    (9 <= n <= 13) || (28 <= n <= 32) || n == 0x85 || n == 0xA0 || n == 0x1680
    || (0x2000 <= n <= 0x200A) || n == 0x2028 || n == 0x2029 || n == 0x202F
    || n == 0x205F || n == 0x3000
  }

  predicate IsBlank(s: string) {
    forall i :: 0 <= i < |s| ==> IsSpace(s[i])
  }

  /** `s.rstrip()` */
  function RStrip(s: string): (r: string)
    ensures |r| <= |s| && r == s[..|r|]
    ensures r == [] || !IsSpace(r[|r| - 1])
    ensures IsBlank(s[|r|..])
  {
    if s != [] && IsSpace(s[|s| - 1]) then
      var t := s[..|s| - 1];
      var r := RStrip(t);
      assert r == s[..|r|] by {
        assert t[..|r|] == s[..|r|];
      }
      forall k | |r| <= k < |s| ensures IsSpace(s[k]) {
        if k < |t| {
          assert t[|r|..][k - |r|] == s[k];
        }
      }
      r
    else
      s
  }

  /**
   * `s.strip()`: whitespace is cut off the front, then off the back, until
   * neither end is whitespace.
   */
  function Strip(s: string): (r: string)
    ensures (r == []) == IsBlank(s)
    ensures r != [] ==> !IsSpace(r[0]) && !IsSpace(r[|r| - 1])
  {
    if s != [] && IsSpace(s[0]) then
      var r := Strip(s[1..]);
      assert IsBlank(s[1..]) ==> IsBlank(s) by {
        if IsBlank(s[1..]) {
          forall k | 1 <= k < |s| ensures IsSpace(s[k]) {
            assert s[1..][k - 1] == s[k];
          }
        }
      }
      r
    else if s != [] && IsSpace(s[|s| - 1]) then
      assert s[..|s| - 1][0] == s[0];
      Strip(s[..|s| - 1])
    else
      s
  }

  /** `r` sits in `s` at `i`, with only whitespace before and after it. */
  ghost predicate BlankAround(s: string, r: string, i: int) {
    0 <= i <= |s| - |r| && r == s[i..i + |r|] && IsBlank(s[..i]) && IsBlank(s[i + |r|..])
  }

  /** What `strip` keeps is one slice of `s`, with only whitespace cut off either side. */
  lemma {:induction false} StripIsSlice(s: string)
    ensures exists i :: BlankAround(s, Strip(s), i)
  {
    var r := Strip(s);
    if s != [] && IsSpace(s[0]) {
      StripIsSlice(s[1..]);
      var j :| BlankAround(s[1..], r, j);
      LeadingSpaceShifts(s, r, j);
    } else if s != [] && IsSpace(s[|s| - 1]) {
      StripIsSlice(s[..|s| - 1]);
      var j :| BlankAround(s[..|s| - 1], r, j);
      TrailingSpaceExtends(s, r, j);
    } else {
      assert BlankAround(s, r, 0);
    }
  }

  lemma LeadingSpaceShifts(s: string, r: string, j: int)
    requires s != [] && IsSpace(s[0]) && BlankAround(s[1..], r, j)
    ensures BlankAround(s, r, j + 1)
  {
    var t := s[1..];
    assert r == s[j + 1..j + 1 + |r|];
    forall k | 0 <= k < j + 1 ensures IsSpace(s[k]) {
      if k > 0 {
        assert t[..j][k - 1] == s[k];
      }
    }
    assert s[j + 1 + |r|..] == t[j + |r|..];
  }

  lemma TrailingSpaceExtends(s: string, r: string, j: int)
    requires s != [] && IsSpace(s[|s| - 1]) && BlankAround(s[..|s| - 1], r, j)
    ensures BlankAround(s, r, j)
  {
    var t := s[..|s| - 1];
    assert r == s[j..j + |r|];
    assert s[..j] == t[..j];
    forall k | j + |r| <= k < |s| ensures IsSpace(s[k]) {
      if k < |s| - 1 {
        assert t[j + |r|..][k - j - |r|] == s[k];
      }
    }
  }

  /** `sep.join(parts)` */
  function Join(parts: seq<string>, sep: string): (r: string)
  {
    if parts == [] then ""
    else if |parts| == 1 then parts[0]
    else parts[0] + sep + Join(parts[1..], sep)
  }

  /** Joining two non-empty lists puts one separator between the two joins. */
  lemma {:induction false} JoinAppend(xs: seq<string>, ys: seq<string>, sep: string)
    requires xs != [] && ys != []
    ensures Join(xs + ys, sep) == Join(xs, sep) + sep + Join(ys, sep)
  {
    if |xs| == 1 {
      assert (xs + ys)[1..] == ys;
    } else {
      assert (xs + ys)[1..] == xs[1..] + ys;
      JoinAppend(xs[1..], ys, sep);
    }
  }

  /** A join of a non-empty list ends with its last part. */
  lemma {:induction false} JoinEndsWithLast(parts: seq<string>, sep: string)
    requires parts != []
    ensures var j := Join(parts, sep); var l := parts[|parts| - 1];
            |l| <= |j| && j[|j| - |l|..] == l
  {
    if |parts| > 1 {
      JoinEndsWithLast(parts[1..], sep);
    }
  }

  predicate OccursAt(s: string, pat: string, k: int) {
    0 <= k && k + |pat| <= |s| && s[k..k + |pat|] == pat
  }

  /** The leftmost occurrence of `pat` in `s` at or after `start`, as `str.find` scans. */
  function FindFrom(s: string, pat: string, start: nat): (r: Option<nat>)
    decreases |s| - start
    ensures r.Some? ==> start <= r.value && OccursAt(s, pat, r.value)
    ensures forall k :: start <= k && (r.None? || k < r.value) ==> !OccursAt(s, pat, k)
  {
    if start + |pat| > |s| then None
    else if s[start..start + |pat|] == pat then Some(start)
    else FindFrom(s, pat, start + 1)
  }

  /** Whatever occurrence exists at `j`, with none between `start` and `j`, is the one found. */
  lemma FindFromLocates(s: string, pat: string, start: nat, j: nat)
    requires start <= j && OccursAt(s, pat, j)
    requires forall k :: start <= k < j ==> !OccursAt(s, pat, k)
    ensures FindFrom(s, pat, start) == Some(j)
  {
  }

  /** ASCII upper-casing, as `str.upper()` does for the role names `user` and `assistant`. */
  function Upper(s: string): (r: string)
    ensures |r| == |s|
    ensures forall i :: 0 <= i < |s| ==>
              r[i] == if 'a' <= s[i] <= 'z' then (s[i] as int - 32) as char else s[i]
  {
    if s == [] then ""
    else [if 'a' <= s[0] <= 'z' then (s[0] as int - 32) as char else s[0]] + Upper(s[1..])
  }
}
