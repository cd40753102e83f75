/** Absolute paths as component sequences, ordered the way Python orders the joined text. */
module Paths {
  import opened Basics

  type Component = s: string | s != "" && '/' !in s witness "x"
  type Path = seq<Component>

  function Text(p: Path): string {
    if p == [] then "" else if |p| == 1 then p[0] else p[0] + "/" + Text(p[1..])
  }

  predicate TextLE(a: string, b: string) {
    a == "" || (b != "" && (a[0] < b[0] || (a[0] == b[0] && TextLE(a[1..], b[1..]))))
  }

  /** The order sorted() uses on path strings. */
  predicate Before(a: Path, b: Path) { TextLE(Text(a), Text(b)) }

  function Leaf(p: Path): Component
    requires p != []
  {
    p[|p| - 1]
  }

  function Parent(p: Path): Path
    requires p != []
  {
    p[..|p| - 1]
  }

  /** `p` lies strictly below `root`. */
  predicate Under(root: Path, p: Path) { root < p }

  /** os.listdir: the first component of every file below the directory. */
  function ListDir(files: set<Path>, dir: Path): set<Component> {
    set p | p in files && dir < p :: p[|dir|]
  }

  // ---- the order is total and separates distinct paths ----

  lemma {:induction false} TextTotal(a: string, b: string)
    ensures TextLE(a, b) || TextLE(b, a)
  {
    if a != "" && b != "" && a[0] == b[0] { TextTotal(a[1..], b[1..]); }
  }

  lemma {:induction false} TextTransitive(a: string, b: string, c: string)
    requires TextLE(a, b) && TextLE(b, c)
    ensures TextLE(a, c)
  {
    if a != "" && a[0] == b[0] && b[0] == c[0] { TextTransitive(a[1..], b[1..], c[1..]); }
  }

  lemma {:induction false} TextAntisymmetric(a: string, b: string)
    requires TextLE(a, b) && TextLE(b, a)
    ensures a == b
  {
    if a != "" && b != "" {
      TextAntisymmetric(a[1..], b[1..]);
      assert a == [a[0]] + a[1..] && b == [b[0]] + b[1..];
    }
  }

  lemma {:induction false} TextHead(p: Path)
    requires p != []
    ensures p[0] <= Text(p)
    ensures |p| > 1 ==> |Text(p)| > |p[0]| && Text(p)[|p[0]|] == '/' && Text(p)[|p[0]| + 1..] == Text(p[1..])
    ensures |p| == 1 ==> Text(p) == p[0]
  {
  }

  /** A component at the front of a joined text ends no later than the first separator. */
  lemma {:induction false} FrontComponent(p: Path, c: Component)
    requires p != [] && c <= Text(p)
    ensures |c| <= |p[0]|
  {
    TextHead(p);
    assert forall i :: 0 <= i < |c| ==> c[i] == Text(p)[i];
    assert forall i :: 0 <= i < |c| ==> c[i] != '/';
  }

  /** Joining with '/' loses nothing, because no component contains one. */
  lemma {:induction false} TextInjective(p: Path, q: Path)
    requires Text(p) == Text(q)
    ensures p == q
  {
    if p != [] { TextHead(p); }
    if q != [] { TextHead(q); }
    if p != [] && q != [] {
      FrontComponent(p, q[0]);
      FrontComponent(q, p[0]);
      assert p[0] == Text(p)[..|p[0]|] && q[0] == Text(q)[..|q[0]|];
      if |p| > 1 && |q| > 1 {
        TextInjective(p[1..], q[1..]);
      }
      assert p == [p[0]] + p[1..] && q == [q[0]] + q[1..];
    }
  }

  lemma {:induction false} BeforeIsOrder()
    ensures TotalOrder(Before) && Antisymmetric(Before)
  {
    forall a, b ensures Before(a, b) || Before(b, a) { TextTotal(Text(a), Text(b)); }
    forall a, b, c | Before(a, b) && Before(b, c) ensures Before(a, c) {
      TextTransitive(Text(a), Text(b), Text(c));
    }
    forall a, b | Before(a, b) && Before(b, a) ensures a == b {
      TextAntisymmetric(Text(a), Text(b));
      TextInjective(a, b);
    }
  }
}
