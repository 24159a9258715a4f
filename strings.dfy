/** The Python string slicing and suffix tests that the scripts use on file names. */
module Strings {

  function Max0(n: int): (r: nat)
    ensures r >= n && (n >= 0 ==> r == n)
  {
    if n < 0 then 0 else n
  }

  /** `s.endswith(suffix)` */
  predicate EndsWith(s: string, suffix: string): (r: bool)
    ensures r <==> exists front :: s == front + suffix
  {
    var r := |suffix| <= |s| && s[|s| - |suffix|..] == suffix;
    assert forall front :: s == front + suffix ==> r by {
      forall front | s == front + suffix
        ensures r
      {
        assert s[|front|..] == suffix;
      }
    }
    assert r ==> s == s[..|s| - |suffix|] + suffix;
    r
  }

  /** The extension filter shared by both cubemap scripts: `name.endswith(".jpg")`. */
  predicate IsJpg(name: string): (r: bool)
    ensures r <==> |name| >= 4 && name[|name| - 4..] == ".jpg"
  {
    EndsWith(name, ".jpg")
  }

  /** `s[:-n]` for n > 0: everything but the last n characters, or "" when s is shorter. */
  function DropLast(s: string, n: nat): (r: string)
    requires n > 0
    ensures |r| == Max0(|s| - n)
    ensures r == s[..|r|]
  {
    s[..Max0(|s| - n)]
  }

  /** `s[-a:-b]` for a >= b > 0, with Python's clamping of negative bounds to 0. */
  function SliceFromEnd(s: string, a: nat, b: nat): (r: string)
    requires a >= b > 0
    ensures |r| == Max0(|s| - b) - Max0(|s| - a)
    ensures |s| >= a ==> r == s[|s| - a..|s| - b] && |r| == a - b
  {
    s[Max0(|s| - a)..Max0(|s| - b)]
  }

  /** Removing a suffix from a concatenation recovers the front part. */
  lemma DropLastOfConcat(p: string, q: string, n: nat)
    requires 0 < n && |q| == n
    ensures DropLast(p + q, n) == p
  {
    assert (p + q)[..|p|] == p;
  }

  /** A slice taken from the end depends only on the tail that is long enough to hold it. */
  lemma SliceFromEndOfConcat(p: string, q: string, a: nat, b: nat)
    requires a >= b > 0 && |q| >= a
    ensures SliceFromEnd(p + q, a, b) == SliceFromEnd(q, a, b)
  {
    var s := p + q;
    assert s[|s| - a..] == q[|q| - a..];
    assert s[|s| - a..|s| - b] == s[|s| - a..][..a - b];
    assert q[|q| - a..|q| - b] == q[|q| - a..][..a - b];
  }
}
