/** When a subtree is rebuilt, the weight balance this maintains, and the depth it implies. */
module Balance {
  import opened TreeModel
  import opened TreeOps

  const MINIMAL_UNBALANCED_TREE_SIZE := 10

  /** Tuning parameters; the two criteria are the fractions del and bal. */
  datatype Config = Config(delNum: nat, delDen: nat, balNum: nat, balDen: nat, rebuildThreshold: nat) {
    predicate Valid() {
      delDen > 0 && balDen > 0 && rebuildThreshold > 0
    }

    /** The balance fraction admits every even split of more than ten points. */
    predicate Fair() {
      Valid() && 11 * balNum >= 6 * balDen
    }
  }

  /** Criterion_Check: the subtree is mostly dead or leans too far to one side. */
  predicate NeedsRebuild(t: Tree, cfg: Config)
    requires t.Node?
  {
    && t.d.size > MINIMAL_UNBALANCED_TREE_SIZE
    && var son := if t.left.Node? then t.left else t.right;
       || t.d.invalid * cfg.delDen > cfg.delNum * t.d.size
       || Size(son) * cfg.balDen > cfg.balNum * (t.d.size - 1)
       || Size(son) * cfg.balDen < (cfg.balDen - cfg.balNum) * (t.d.size - 1)
  }

  /** The check in exact ratios: the share of deleted points, and the share of the son that is looked at. */
  lemma {:induction false} CriterionAsRatios(t: Tree, cfg: Config)
    requires t.Node? && cfg.delDen > 0 && cfg.balDen > 0
    ensures var son := (if t.left.Node? then Size(t.left) else Size(t.right)) as real;
            var bal := cfg.balNum as real / cfg.balDen as real;
            NeedsRebuild(t, cfg) <==>
              && t.d.size > 10
              && (|| t.d.invalid as real / t.d.size as real > cfg.delNum as real / cfg.delDen as real
                  || son / (t.d.size - 1) as real > bal
                  || son / (t.d.size - 1) as real < 1.0 - bal)
  {
    if t.d.size > 10 {
      var son := if t.left.Node? then Size(t.left) else Size(t.right);
      RatioAbove(t.d.invalid, t.d.size, cfg.delNum, cfg.delDen);
      RatioAbove(son, t.d.size - 1, cfg.balNum, cfg.balDen);
      RatioAbove(cfg.balDen - cfg.balNum, cfg.balDen, son, t.d.size - 1);
      RatioRest(cfg.balNum, cfg.balDen);
    }
  }

  lemma {:induction false} RatioAbove(a: int, b: int, n: int, d: int)
    requires b > 0 && d > 0
    ensures a as real / b as real > n as real / d as real <==> a * d > n * b
  {
    var x, y := a as real / b as real, n as real / d as real;
    var bd := b as real * d as real;
    assert x * bd == (x * b as real) * d as real == a as real * d as real;
    assert y * bd == (y * d as real) * b as real == n as real * b as real;
    assert (a * d) as real == a as real * d as real && (n * b) as real == n as real * b as real;
    assert x > y <==> x * bd > y * bd;
  }

  lemma {:induction false} Cancel(x: real, y: real, c: real)
    requires c > 0.0 && x * c == y * c
    ensures x == y
  {
    assert x < y ==> x * c < y * c;
    assert x > y ==> x * c > y * c;
  }

  lemma {:induction false} RatioRest(n: int, d: int)
    requires d > 0
    ensures (d - n) as real / d as real == 1.0 - n as real / d as real
  {
    var x, y := n as real / d as real, (d - n) as real / d as real;
    assert x * d as real == n as real && y * d as real == d as real - n as real;
    Cancel(x + y, 1.0, d as real);
  }

  predicate WithinFraction(part: int, whole: int, cfg: Config) {
    part * cfg.balDen <= cfg.balNum * (whole - 1)
  }

  /** Every node of more than ten points has both sons within the balance fraction. */
  predicate Balanced(t: Tree, cfg: Config) {
    t.Node? ==>
      && Balanced(t.left, cfg) && Balanced(t.right, cfg)
      && t.d.size == 1 + Size(t.left) + Size(t.right)
      && (t.d.size > MINIMAL_UNBALANCED_TREE_SIZE ==>
            WithinFraction(Size(t.left), t.d.size, cfg) && WithinFraction(Size(t.right), t.d.size, cfg))
  }

  /** Every node of more than ten points that is not wholly deleted holds at most the delete fraction of dead points. */
  predicate Lean(t: Tree, cfg: Config)
    decreases Nodes(t)
  {
    t.Node? ==>
      && (!t.d.treeDeleted && t.d.size > MINIMAL_UNBALANCED_TREE_SIZE ==>
            t.d.invalid * cfg.delDen <= cfg.delNum * t.d.size)
      && Lean(EffLeft(t), cfg) && Lean(EffRight(t), cfg)
  }

  /** Each node splits its points as evenly as the middle index does. */
  predicate Halved(t: Tree) {
    t.Node? ==>
      && Halved(t.left) && Halved(t.right)
      && t.d.size == 1 + Size(t.left) + Size(t.right)
      && Size(t.left) == (t.d.size - 1) / 2
  }

  lemma {:induction false} Complement(a: int, b: int, w: int, num: int, den: int)
    requires a + b == w && a * den >= (den - num) * w
    ensures b * den <= num * w
  {
    assert b == w - a;
    assert b * den == w * den - a * den;
    assert (den - num) * w == den * w - num * w;
  }

  /** A node that passes the check over balanced sons is balanced. */
  lemma {:induction false} PassedCheckBalanced(t: Tree, cfg: Config)
    requires t.Node? && !NeedsRebuild(t, cfg) && Balanced(t.left, cfg) && Balanced(t.right, cfg)
    requires t.d.size == 1 + Size(t.left) + Size(t.right)
    ensures Balanced(t, cfg)
  {
    if t.d.size > MINIMAL_UNBALANCED_TREE_SIZE {
      if t.left.Node? {
        Complement(Size(t.left), Size(t.right), t.d.size - 1, cfg.balNum, cfg.balDen);
      } else {
        Complement(Size(t.right), 0, t.d.size - 1, cfg.balNum, cfg.balDen);
      }
    }
  }

  lemma {:induction false} HalfWithin(part: int, n: int, num: int, den: int)
    requires n > 10 && part <= n / 2 && num >= 0 && den > 0 && 11 * num >= 6 * den
    ensures part * den <= num * (n - 1)
  {
    assert 11 * part <= 6 * (n - 1);
    assert (11 * part) * den <= (6 * (n - 1)) * den;
    assert (6 * den) * (n - 1) <= (11 * num) * (n - 1);
    assert (11 * part) * den == 11 * (part * den);
    assert (6 * (n - 1)) * den == (6 * den) * (n - 1);
    assert (11 * num) * (n - 1) == 11 * (num * (n - 1));
  }

  /** An evenly split tree is balanced at every node once the fraction is at least 6/11. */
  lemma {:induction false} HalvedBalanced(t: Tree, cfg: Config)
    requires Halved(t) && cfg.Fair()
    ensures Balanced(t, cfg)
  {
    if t.Node? {
      HalvedBalanced(t.left, cfg);
      HalvedBalanced(t.right, cfg);
      if t.d.size > MINIMAL_UNBALANCED_TREE_SIZE {
        HalfWithin(Size(t.left), t.d.size, cfg.balNum, cfg.balDen);
        HalfWithin(Size(t.right), t.d.size, cfg.balNum, cfg.balDen);
      }
    }
  }

  /** The bound 6/11 is exact: below it a freshly built tree of twelve points already leans too far. */
  lemma {:induction false} HalvedUnbalancedBelow(t: Tree, cfg: Config)
    requires Halved(t) && t.Node? && t.d.size == 12
    ensures Balanced(t, cfg) ==> 11 * cfg.balNum >= 6 * cfg.balDen
  {
    assert Size(t.right) == 6;
  }

  lemma {:induction false} PushDownBalanced(t: Tree, cfg: Config)
    requires Balanced(t, cfg)
    ensures Balanced(PushDown(t), cfg)
    ensures t.Node? ==> Balanced(EffLeft(t), cfg) && Balanced(EffRight(t), cfg)
  {
    if t.Node? {
      PushedBalanced(t.d, t.left, cfg);
      PushedBalanced(t.d, t.right, cfg);
    }
  }

  lemma {:induction false} PushedBalanced(p: Data, t: Tree, cfg: Config)
    requires Balanced(t, cfg)
    ensures Balanced(Pushed(p, t), cfg)
  {
  }

  lemma {:induction false} KillBalanced(t: Tree, down: bool, cfg: Config)
    requires t.Node? && Balanced(t, cfg)
    ensures Balanced(t.(d := Kill(t.d, down)), cfg)
  {
  }

  // ---- The share of deleted points ----

  /** A node that passes the check over sons with few deleted points has few itself. */
  lemma {:induction false} PassedCheckLean(t: Tree, cfg: Config)
    requires t.Node? && !NeedsRebuild(t, cfg) && Lean(EffLeft(t), cfg) && Lean(EffRight(t), cfg)
    ensures Lean(t, cfg)
  {
  }

  lemma {:induction false} PushDownLean(t: Tree, cfg: Config)
    requires Lean(t, cfg)
    ensures Lean(PushDown(t), cfg)
  {
    if t.Node? {
      EffSons(t);
    }
  }

  /** Below a whole-subtree delete there is nothing to count. */
  lemma {:induction false} PushedDeadLean(p: Data, t: Tree, cfg: Config)
    requires p.treeDeleted
    ensures Lean(Pushed(p, t), cfg)
    decreases Nodes(t)
  {
    if t.Node? {
      var u := Pushed(p, t);
      PushedDeadLean(u.d, t.left, cfg);
      PushedDeadLean(u.d, t.right, cfg);
    }
  }

  lemma {:induction false} KillLean(t: Tree, down: bool, cfg: Config)
    requires t.Node?
    ensures Lean(t.(d := Kill(t.d, down)), cfg)
  {
    var d := Kill(t.d, down);
    PushedDeadLean(d, t.left, cfg);
    PushedDeadLean(d, t.right, cfg);
  }

  lemma {:induction false} LoneLiveLean(t: Tree, cfg: Config)
    requires LoneLive(t)
    ensures Lean(t, cfg)
  {
    LeanNothing(cfg);
  }

  lemma {:induction false} LeanNothing(cfg: Config)
    ensures Lean(Nil, cfg)
  {
  }

  // ---- Depth ----

  /** The subtree reached by a path of left (true) and right (false) turns. */
  function Subtree(t: Tree, path: seq<bool>): Tree {
    if path == [] || t.Nil? then t
    else if path[0] then Subtree(t.left, path[1..])
    else Subtree(t.right, path[1..])
  }

  function Pow(b: nat, e: nat): nat {
    if e == 0 then 1 else b * Pow(b, e - 1)
  }

  lemma {:induction false} SubtreeSize(t: Tree, path: seq<bool>, cfg: Config)
    requires Balanced(t, cfg)
    ensures Balanced(Subtree(t, path), cfg)
    ensures Size(t) >= 0 && Size(Subtree(t, path)) >= 0
    ensures Subtree(t, path).Node? ==> Size(t) >= Size(Subtree(t, path)) + |path|
  {
    if t.Node? {
      SubtreeSize(t.left, if path == [] then [] else path[1..], cfg);
      SubtreeSize(t.right, if path == [] then [] else path[1..], cfg);
    }
  }

  /** Sizes fall geometrically: den^d * size at depth d <= num^d * size at the root, down to size ten. */
  lemma {:induction false} GeometricDecay(t: Tree, path: seq<bool>, cfg: Config)
    requires Balanced(t, cfg) && Size(Subtree(t, path)) >= MINIMAL_UNBALANCED_TREE_SIZE
    ensures Pow(cfg.balDen, |path|) * Size(Subtree(t, path)) <= Pow(cfg.balNum, |path|) * Size(t)
  {
    if path != [] && t.Node? {
      var son := if path[0] then t.left else t.right;
      GeometricDecay(son, path[1..], cfg);
      SubtreeSize(t, path, cfg);
      SubtreeSize(t.left, path[1..], cfg);
      SubtreeSize(t.right, path[1..], cfg);
      assert WithinFraction(Size(son), t.d.size, cfg);
      DecayStep(Pow(cfg.balDen, |path| - 1), Size(Subtree(t, path)), Pow(cfg.balNum, |path| - 1),
                Size(son), t.d.size, cfg.balDen, cfg.balNum);
    }
  }

  lemma {:induction false} DecayStep(p: nat, s: nat, q: nat, m: nat, n: nat, den: nat, num: nat)
    requires p * s <= q * m && m * den <= num * (n - 1)
    ensures (den * p) * s <= (num * q) * n
  {
    assert (den * p) * s == den * (p * s);
    assert den * (p * s) <= den * (q * m);
    assert den * (q * m) == q * (m * den);
    assert num * (n - 1) <= num * n;
    assert q * (m * den) <= q * (num * n);
    assert q * (num * n) == (num * q) * n;
  }

  /** Depth is logarithmic: once num^d * n < 10 * den^d, no node lies d + 10 or more levels below the root. */
  lemma {:induction false} DepthBound(t: Tree, path: seq<bool>, depth: nat, cfg: Config)
    requires Balanced(t, cfg) && Subtree(t, path).Node?
    requires Pow(cfg.balNum, depth) * Size(t) < 10 * Pow(cfg.balDen, depth)
    ensures |path| < depth + 10
  {
    if |path| >= depth + 10 {
      var top, rest := path[..depth], path[depth..];
      SubtreeConcat(t, top, rest);
      assert top + rest == path;
      SubtreeSize(t, top, cfg);
      SubtreeSize(Subtree(t, top), rest, cfg);
      SubtreePositive(t, path, cfg);
      GeometricDecay(t, top, cfg);
      TooDeep(Pow(cfg.balDen, depth), Size(Subtree(t, top)), Pow(cfg.balNum, depth) * Size(t));
    }
  }

  lemma {:induction false} TooDeep(p: nat, s: int, bound: int)
    requires p * s <= bound < 10 * p
    ensures s < 10
  {
    assert p * (10 - s) == 10 * p - p * s > 0;
  }

  lemma {:induction false} SubtreePositive(t: Tree, path: seq<bool>, cfg: Config)
    requires Balanced(t, cfg) && Subtree(t, path).Node?
    ensures Size(Subtree(t, path)) >= 1
  {
    SubtreeSize(t, path, cfg);
    var s := Subtree(t, path);
    SubtreeSize(s.left, [], cfg);
    SubtreeSize(s.right, [], cfg);
  }

  lemma {:induction false} SubtreeConcat(t: Tree, a: seq<bool>, b: seq<bool>)
    ensures Subtree(t, a + b) == Subtree(Subtree(t, a), b)
  {
    if a == [] {
      assert a + b == b;
    } else if t.Node? {
      assert (a + b)[1..] == a[1..] + b && (a + b)[0] == a[0];
      SubtreeConcat(if a[0] then t.left else t.right, a[1..], b);
    }
  }
}
