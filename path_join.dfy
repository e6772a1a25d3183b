/**
 * The path of a route nested under a prefix, the rule axum's
 * `path_for_nested_route` applies. The core router
 * (galvyn-core/src/router/mod.rs) and the swaggapi context
 * (swaggapi/src/context.rs) both carry a copy of it.
 */
module PathJoin {
  import opened Text

  /**
   * A prefix ending in `/` is followed by the route path without its
   * leading slashes; the route path `/` stands for the prefix itself;
   * otherwise the two are concatenated. Either way the nested path starts
   * with the prefix, no second slash follows a prefix's trailing slash,
   * and a prefix without one is followed by the route path unchanged.
   */
  function NestedPath(prefix: string, path: string): (r: string)
    ensures StartsWith(r, prefix)
    ensures EndsWith(prefix, "/") && |r| > |prefix| ==> r[|prefix|] != '/'
    ensures !EndsWith(prefix, "/") && path != "/" ==> r[|prefix|..] == path
  {
    if EndsWith(prefix, "/") then
      var r := prefix + TrimLeadingSlashes(path);
      assert r[..|prefix|] == prefix;
      assert r[|prefix|..] == TrimLeadingSlashes(path);
      r
    else if path == "/" then prefix
    else
      var r := prefix + path;
      assert r[..|prefix|] == prefix;
      r
  }

  /**
   * Nesting is compositional: a route nested under `b`, and the result
   * nested under `a`, ends up where nesting it once under `a + b` puts
   * it, for prefixes that start with a slash and do not end with one.
   */
  lemma NestTwice(a: string, b: string, path: string)
    requires StartsWith(a, "/") && !EndsWith(a, "/")
    requires StartsWith(b, "/") && !EndsWith(b, "/")
    ensures NestedPath(a, NestedPath(b, path)) == NestedPath(a + b, path)
  {
    assert b[0] == '/' && b[|b| - 1] != '/' by {
      assert b[..1] == "/";
      assert b[|b| - 1..] != "/";
    }
    assert (a + b)[|a + b| - 1..] == b[|b| - 1..];
    if path == "/" {
      assert NestedPath(b, path) == b;
    } else {
      assert NestedPath(b, path) == b + path;
      assert |b + path| >= 2;
      assert a + (b + path) == (a + b) + path;
    }
  }

  /**
   * Under a prefix without a trailing slash, routes whose paths start
   * with a slash and differ keep differing paths.
   */
  lemma NestKeepsDistinct(prefix: string, p1: string, p2: string)
    requires !EndsWith(prefix, "/")
    requires StartsWith(p1, "/") && StartsWith(p2, "/") && p1 != p2
    ensures NestedPath(prefix, p1) != NestedPath(prefix, p2)
  {
    if p1 != "/" && p2 != "/" {
      assert NestedPath(prefix, p1)[|prefix|..] == p1;
      assert NestedPath(prefix, p2)[|prefix|..] == p2;
    } else if p1 == "/" {
      assert |p2| > 1;
      assert |NestedPath(prefix, p2)| > |prefix|;
    } else {
      assert |p1| > 1;
      assert |NestedPath(prefix, p1)| > |prefix|;
    }
  }

  /**
   * Under a prefix with a trailing slash, an extra leading slash on the
   * route path makes no difference: `/x` and `//x` land on the same path.
   */
  lemma TrailingSlashMergesPaths(prefix: string, path: string)
    requires EndsWith(prefix, "/")
    ensures NestedPath(prefix, "/" + path) == NestedPath(prefix, path)
  {
    assert ("/" + path)[1..] == path;
  }
}
