/** Virtual mount paths (internal/browserpath/path.go) and the routing that rests on them. */
module BrowserPaths {

  predicate HasPrefix(s: string, prefix: string) {
    |prefix| <= |s| && s[..|prefix|] == prefix
  }

  function TrimSuffix(s: string, suffix: string): string {
    if |suffix| <= |s| && s[|s| - |suffix|..] == suffix then s[..|s| - |suffix|] else s
  }

  function Join(base: string, mount: string): string {
    TrimSuffix(base, "/") + mount
  }

  predicate Overlap(a: string, b: string) {
    a == b || HasPrefix(a, b + "/") || HasPrefix(b, a + "/")
  }

  /** A request path belongs to a mount: it is the mount itself or lies below it. */
  predicate Serves(mount: string, path: string) {
    path == mount || HasPrefix(path, mount + "/")
  }

  /** Paths share a request only if they overlap, and only overlapping ones can share one. */
  lemma OverlapIffShared(a: string, b: string)
    ensures Overlap(a, b) <==> exists path :: Serves(a, path) && Serves(b, path)
  {
    if Overlap(a, b) {
      var path := if HasPrefix(b, a + "/") then b else a;
      assert Serves(a, path) && Serves(b, path);
    }
    forall path | Serves(a, path) && Serves(b, path)
      ensures Overlap(a, b)
    {
      SharedOverlap(a, b, path);
    }
  }

  lemma SharedOverlap(a: string, b: string, path: string)
    requires Serves(a, path) && Serves(b, path)
    ensures Overlap(a, b)
  {
    assert path[..|a|] == a by { if path != a { assert path[..|a| + 1] == a + "/"; assert (a + "/")[..|a|] == a; } }
    assert path[..|b|] == b by { if path != b { assert path[..|b| + 1] == b + "/"; assert (b + "/")[..|b|] == b; } }
    if |a| == |b| {
      assert a == b;
    } else if |a| < |b| {
      assert path[..|a| + 1] == a + "/";
      assert b[..|a| + 1] == path[..|b|][..|a| + 1] == path[..|a| + 1];
    } else {
      assert path[..|b| + 1] == b + "/";
      assert a[..|b| + 1] == path[..|a|][..|b| + 1] == path[..|b| + 1];
    }
  }

  /** A base path counts without its last slash; a root base adds nothing. */
  lemma JoinUnder(base: string, mount: string)
    ensures base == "" || base[|base| - 1] != '/' ==> Join(base, mount) == base + mount
    ensures Join(base + "/", mount) == base + mount
  {
    assert (base + "/")[..|base|] == base;
    assert base != "" ==> base[|base| - 1..] == [base[|base| - 1]];
  }

  /** Joining to a base path keeps mounts apart that were apart. */
  lemma JoinKeepsApart(base: string, a: string, b: string)
    ensures Overlap(Join(base, a), Join(base, b)) <==> Overlap(a, b)
  {
    var t := TrimSuffix(base, "/");
    PrefixUnderBase(t, a, b);
    PrefixUnderBase(t, b, a);
  }

  lemma PrefixUnderBase(t: string, a: string, b: string)
    ensures HasPrefix(t + a, t + b + "/") <==> HasPrefix(a, b + "/")
    ensures t + a == t + b <==> a == b
  {
    assert (t + a)[|t|..] == a && (t + b)[|t|..] == b;
    if |b| + 1 <= |a| {
      assert (t + a)[..|t + b| + 1] == t + a[..|b| + 1];
      assert t + b + "/" == t + (b + "/");
      assert (t + a[..|b| + 1])[|t|..] == a[..|b| + 1] && (t + (b + "/"))[|t|..] == b + "/";
    }
  }
}
