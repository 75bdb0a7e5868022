// Path strings: the byte order they are sorted in, and containment
// (internal/core/paths.go).
module Paths {
  /** Go's string order. */
  predicate Before(a: string, b: string) {
    b != "" && (a == "" || a[0] < b[0] || (a[0] == b[0] && Before(a[1..], b[1..])))
  }

  lemma {:induction false} BeforeIsTotal(a: string, b: string)
    ensures a == b || Before(a, b) || Before(b, a)
    ensures !(Before(a, b) && Before(b, a)) && !Before(a, a)
  {
    if a != "" && b != "" {
      BeforeIsTotal(a[1..], b[1..]);
      assert a == [a[0]] + a[1..] && b == [b[0]] + b[1..];
    }
    if a != "" {
      BeforeIsTotal(a[1..], a[1..]);
    }
  }

  lemma {:induction false} BeforeIsTransitive(a: string, b: string, c: string)
    requires Before(a, b) && Before(b, c)
    ensures Before(a, c)
  {
    if a != "" && b != "" && c != "" && a[0] == b[0] == c[0] {
      BeforeIsTransitive(a[1..], b[1..], c[1..]);
    }
  }

  /** PathWithin for absolute, cleaned paths. */
  predicate Within(path: string, target: string) {
    path != "" && target != ""
    && (path == target || (target == "/" && path[0] == '/') || target + "/" <= path)
  }

  /** A path is within another if it is that path or continues it after a separator: a longer name is not within a
      shorter one, and every absolute path is within the root. */
  lemma WithinExactlyWhen(path: string, target: string, rest: string)
    ensures target != "" ==> Within(target, target) && Within(target + "/" + rest, target)
    ensures Within(path, target) && path != target && target != "/" ==>
              |path| > |target| && path == target + "/" + path[|target| + 1..]
    ensures Within("/" + rest, "/") && (Within(path, "/") ==> path[..1] == "/")
    ensures !Within("", target) && !Within(path, "")
  {
    assert target + "/" <= target + "/" + rest;
    if Within(path, target) && path != target && target != "/" {
      assert path == path[..|target| + 1] + path[|target| + 1..];
    }
  }
}
