/**
 * Normalisation of the package path given after "class://" or "classpath:":
 * every leading '/' is removed and exactly one is put back.
 */
module PackagePath {

  /** A normalised package path: starts with '/' and has no second leading '/'. */
  predicate IsAbsolutePackagePath(p: string) {
    |p| >= 1 && p[0] == '/' && (|p| == 1 || p[1] != '/')
  }

  function Slashes(k: nat): (r: string)
    ensures |r| == k && forall i :: 0 <= i < k ==> r[i] == '/'
  {
    seq(k, _ => '/')
  }

  /** The path without its run of leading slashes. */
  function StripLeadingSlashes(p: string): (r: string)
    ensures r == [] || r[0] != '/'
    ensures |r| <= |p| && p == Slashes(|p| - |r|) + r
  {
    if |p| > 0 && p[0] == '/' then
      var r := StripLeadingSlashes(p[1..]);
      assert p == [p[0]] + p[1..];
      r
    else p
  }

  /** What normalizeToAbsolutePackagePath returns. */
  function Normalized(p: string): string {
    "/" + StripLeadingSlashes(p)
  }

  /** normalizeToAbsolutePackagePath: the loop drops one leading '/' at a time. */
  method NormalizeToAbsolutePackagePath(path: string) returns (r: string)
    ensures r == Normalized(path)
    ensures IsAbsolutePackagePath(r)
  {
    var p := path;
    while |p| > 0 && p[0] == '/'
      invariant StripLeadingSlashes(p) == StripLeadingSlashes(path)
      decreases |p|
    {
      p := p[1..];
    }
    r := "/" + p;
  }

  /** The result is absolute, and it is the input with its k leading slashes
      replaced by one. */
  lemma NormalizedShape(p: string) returns (k: nat)
    ensures IsAbsolutePackagePath(Normalized(p))
    ensures p == Slashes(k) + Normalized(p)[1..]
  {
    var rest := StripLeadingSlashes(p);
    k := |p| - |rest|;
    assert Normalized(p)[1..] == rest;
  }

  /** Normalising twice is normalising once. */
  lemma NormalizeIdempotent(p: string)
    ensures Normalized(Normalized(p)) == Normalized(p)
  {
    var n := Normalized(p);
    assert n[1..] == StripLeadingSlashes(p);
    NormalizedFixpoint(n);
  }

  /** The paths that normalisation leaves alone are exactly the normalised ones. */
  lemma NormalizedFixpoint(p: string)
    ensures Normalized(p) == p <==> IsAbsolutePackagePath(p)
  {
    if IsAbsolutePackagePath(p) {
      assert |p| == 1 || p[1..][0] == p[1];
      assert StripLeadingSlashes(p[1..]) == p[1..];
      assert p == "/" + p[1..];
    }
  }
}
