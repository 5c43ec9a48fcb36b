/** Binary trees of guest nodes: shapes, in-order sequences, and the tree rebuilt from a sorted
    array. Nothing here touches memory. */
module AvlTree {
  import opened Bits

  datatype Tree = Leaf | Node(left: Tree, addr: nat, right: Tree)

  function Root(t: Tree): nat
  {
    if t.Leaf? then 0 else t.addr
  }

  function InOrder(t: Tree): seq<nat>
  {
    if t.Leaf? then [] else InOrder(t.left) + [t.addr] + InOrder(t.right)
  }

  function Height(t: Tree): nat
  {
    if t.Leaf? then 0 else 1 + Max(Height(t.left), Height(t.right))
  }

  function Max(a: int, b: int): int
  {
    if a > b then a else b
  }

  /** Right height minus left height, the value stored in a node. */
  function Balance(t: Tree): int
  {
    if t.Leaf? then 0 else Height(t.right) - Height(t.left)
  }

  // ---- the tree a rebuild makes --------------------------------------------------------

  /** The middle of the range on top, each half below. */
  function Build(ns: seq<nat>, lo: nat, hi: nat): Tree
    requires lo <= hi <= |ns|
    decreases hi - lo
  {
    if lo == hi then Leaf
    else
      var mid := lo + (hi - lo) / 2;
      Node(Build(ns, lo, mid), ns[mid], Build(ns, mid + 1, hi))
  }

  lemma {:induction false} BuildInOrder(ns: seq<nat>, lo: nat, hi: nat)
    requires lo <= hi <= |ns|
    ensures InOrder(Build(ns, lo, hi)) == ns[lo..hi]
    decreases hi - lo
  {
    hide Build, InOrder;
    if lo == hi {
      NothingBuilt(ns, lo);
    } else {
      var mid := lo + (hi - lo) / 2;
      BuildInOrder(ns, lo, mid);
      BuildInOrder(ns, mid + 1, hi);
      HalvesInOrder(ns, lo, mid, hi);
    }
  }

  lemma NothingBuilt(ns: seq<nat>, lo: nat)
    requires lo <= |ns|
    ensures InOrder(Build(ns, lo, lo)) == ns[lo..lo]
    ensures Height(Build(ns, lo, lo)) == BitLength(0) && LeftLeaning(Build(ns, lo, lo))
  {
  }

  lemma HalvesInOrder(ns: seq<nat>, lo: nat, mid: nat, hi: nat)
    requires lo < hi <= |ns| && mid == lo + (hi - lo) / 2
    requires InOrder(Build(ns, lo, mid)) == ns[lo..mid] && InOrder(Build(ns, mid + 1, hi)) == ns[mid + 1..hi]
    ensures InOrder(Build(ns, lo, hi)) == ns[lo..hi]
  {
    hide Build, Height, InOrder;
    BuildNode(ns, lo, hi);
    Around(ns, lo, mid, hi);
  }

  lemma BuildNode(ns: seq<nat>, lo: nat, hi: nat)
    requires lo < hi <= |ns|
    ensures var mid, t := lo + (hi - lo) / 2, Build(ns, lo, hi);
            && t == Node(Build(ns, lo, mid), ns[mid], Build(ns, mid + 1, hi))
            && InOrder(t) == InOrder(t.left) + [t.addr] + InOrder(t.right)
            && Height(t) == 1 + Max(Height(t.left), Height(t.right))
  {
  }

  lemma Around(ns: seq<nat>, lo: nat, mid: nat, hi: nat)
    requires lo <= mid < hi <= |ns|
    ensures ns[lo..mid] + [ns[mid]] + ns[mid + 1..hi] == ns[lo..hi]
  {
  }

  /** Every node of the tree has balance -1 or 0. */
  ghost predicate LeftLeaning(t: Tree)
  {
    t.Leaf? || (-1 <= Balance(t) <= 0 && LeftLeaning(t.left) && LeftLeaning(t.right))
  }

  /** floor(log2 n) + 1, the number of bits of n. */
  function BitLength(n: nat): nat
  {
    if n == 0 then 0 else 1 + BitLength(n / 2)
  }

  /** BitLength(n) is the one height h with 2^(h-1) <= n < 2^h. */
  lemma {:induction false} BitLengthIsLog(n: nat)
    requires 0 < n
    ensures 0 < BitLength(n) && Pow2(BitLength(n) - 1) <= n < Pow2(BitLength(n))
  {
    if n > 1 { BitLengthIsLog(n / 2); }
  }

  lemma {:induction false} BitLengthMono(a: nat, b: nat)
    requires a <= b
    ensures BitLength(a) <= BitLength(b)
  {
    if a > 0 { BitLengthMono(a / 2, b / 2); }
  }

  /** A rebuilt tree is as low as any tree of its size, and leans left by at most one level at
      every node. */
  lemma {:induction false} BuildBalanced(ns: seq<nat>, lo: nat, hi: nat)
    requires lo <= hi <= |ns|
    ensures Height(Build(ns, lo, hi)) == BitLength(hi - lo)
    ensures LeftLeaning(Build(ns, lo, hi))
    decreases hi - lo
  {
    hide Build, Height, InOrder, BitLength, LeftLeaning;
    if lo == hi {
      NothingBuilt(ns, lo);
    } else {
      var mid := lo + (hi - lo) / 2;
      BuildBalanced(ns, lo, mid);
      BuildBalanced(ns, mid + 1, hi);
      HalvesBalanced(ns, lo, hi);
    }
  }

  lemma HalvesBalanced(ns: seq<nat>, lo: nat, hi: nat)
    requires lo < hi <= |ns|
    requires var mid := lo + (hi - lo) / 2;
             var l, r := Build(ns, lo, mid), Build(ns, mid + 1, hi);
             && Height(l) == BitLength(mid - lo) && Height(r) == BitLength(hi - (mid + 1))
             && LeftLeaning(l) && LeftLeaning(r)
    ensures Height(Build(ns, lo, hi)) == BitLength(hi - lo) && LeftLeaning(Build(ns, lo, hi))
  {
    hide Build, Height, InOrder, BitLength;
    BuildNode(ns, lo, hi);
    LengthOfHalves(hi - lo);
    assert hi - (lo + (hi - lo) / 2 + 1) == hi - lo - 1 - (hi - lo) / 2;
  }

  lemma LengthOfHalves(n: nat)
    requires n > 0
    ensures var l, r := n / 2, n - 1 - n / 2;
            BitLength(n) == 1 + BitLength(l) && BitLength(r) <= BitLength(l) <= BitLength(r) + 1
  {
    var r := n - 1 - n / 2;
    BitLengthMono(r, n / 2);
    BitLengthStep(r);
    BitLengthMono(n / 2, r + 1);
  }

  lemma {:induction false} BitLengthStep(n: nat)
    ensures BitLength(n + 1) <= BitLength(n) + 1
  {
    if n > 0 {
      if n % 2 == 1 { BitLengthStep(n / 2); assert (n + 1) / 2 == n / 2 + 1; } else { assert (n + 1) / 2 == n / 2; }
    }
  }

  /** No tree of this size is lower. */
  lemma {:induction false} HeightIsLeast(t: Tree)
    ensures |InOrder(t)| < Pow2(Height(t))
    ensures BitLength(|InOrder(t)|) <= Height(t)
  {
    SizeBelowPow2(t);
    var n := |InOrder(t)|;
    if n > 0 {
      BitLengthIsLog(n);
      if BitLength(n) > Height(t) { Pow2Mono(Height(t), BitLength(n) - 1); }
    }
  }

  lemma {:induction false} SizeBelowPow2(t: Tree)
    ensures |InOrder(t)| < Pow2(Height(t))
  {
    if t.Node? {
      SizeBelowPow2(t.left);
      SizeBelowPow2(t.right);
      Pow2Mono(Height(t.left), Height(t) - 1);
      Pow2Mono(Height(t.right), Height(t) - 1);
    }
  }

  lemma {:induction false} HeightBelowSize(t: Tree)
    ensures Height(t) <= |InOrder(t)|
  {
    if t.Node? {
      HeightBelowSize(t.left);
      HeightBelowSize(t.right);
    }
  }

  // ---- the path from a node up to the root ---------------------------------------------

  /** What surrounds a subtree: it hangs left or right below a node, or is the whole tree. */
  datatype Ctx = Top | Below(up: Ctx, addr: nat, onLeft: bool, other: Tree)

  function Plug(c: Ctx, t: Tree): Tree
  {
    match c
    case Top => t
    case Below(up, a, onLeft, o) => Plug(up, if onLeft then Node(t, a, o) else Node(o, a, t))
  }

  function Up(c: Ctx): nat
  {
    if c.Top? then 0 else c.addr
  }

  function Depth(c: Ctx): nat
  {
    if c.Top? then 0 else 1 + Depth(c.up)
  }

  /** The ancestors passed on the way up to the first one entered from the other side, or off the
      root. */
  function Climb(c: Ctx, next: bool): (n: nat)
    ensures n <= Depth(c)
  {
    if c.Top? || c.onLeft == next then 0 else 1 + Climb(c.up, next)
  }

  /** The nodes in order before and after the subtree. */
  function Pre(c: Ctx): seq<nat>
  {
    match c
    case Top => []
    case Below(up, a, onLeft, o) => if onLeft then Pre(up) else Pre(up) + InOrder(o) + [a]
  }

  function Post(c: Ctx): seq<nat>
  {
    match c
    case Top => []
    case Below(up, a, onLeft, o) => if onLeft then [a] + InOrder(o) + Post(up) else Post(up)
  }

  lemma {:induction false} PlugInOrder(c: Ctx, t: Tree)
    ensures InOrder(Plug(c, t)) == Pre(c) + InOrder(t) + Post(c)
    decreases c
  {
    match c
    case Top =>
    case Below(up, a, onLeft, o) =>
      PlugInOrder(up, if onLeft then Node(t, a, o) else Node(o, a, t));
      Regroup(Pre(up), InOrder(t), [a], InOrder(o), Post(up));
  }

  lemma Regroup(p: seq<nat>, t: seq<nat>, x: seq<nat>, o: seq<nat>, q: seq<nat>)
    ensures p + (t + x + o) + q == p + t + (x + o + q)
    ensures p + (o + x + t) + q == p + o + x + t + q
  {
  }

  /** The first element in a direction, and the last; 0 when there is none. */
  function First(s: seq<nat>): nat
  {
    if s == [] then 0 else s[0]
  }

  function Last(s: seq<nat>): nat
  {
    if s == [] then 0 else s[|s| - 1]
  }

  /** The nearest ancestor reached from the left (for the next node) or the right. */
  function Above(c: Ctx, next: bool): nat
  {
    match c
    case Top => 0
    case Below(up, a, onLeft, o) => if onLeft == next then a else Above(up, next)
  }

  lemma {:induction false} AboveIsNeighbour(c: Ctx)
    ensures Above(c, true) == First(Post(c)) && Above(c, false) == Last(Pre(c))
  {
    match c
    case Top =>
    case Below(up, a, onLeft, o) => AboveIsNeighbour(up);
  }

  /** The end of the tree in a direction. */
  function Extreme(t: Tree, right: bool): nat
  {
    if t.Leaf? then 0
    else
      var child := if right then t.right else t.left;
      if child.Leaf? then t.addr else Extreme(child, right)
  }

  lemma {:induction false} ExtremeIsEnd(t: Tree)
    ensures Extreme(t, false) == First(InOrder(t)) && Extreme(t, true) == Last(InOrder(t))
  {
    if t.Node? {
      ExtremeIsEnd(t.left);
      ExtremeIsEnd(t.right);
      if t.left.Node? { assert InOrder(t.left) != []; }
      if t.right.Node? { assert InOrder(t.right) != []; }
    }
  }

  /** The number of nodes down the edge of the tree. */
  function Spine(t: Tree, right: bool): nat
  {
    if t.Leaf? then 0 else 1 + Spine(if right then t.right else t.left, right)
  }

  lemma {:induction false} SpineBelowHeight(t: Tree, right: bool)
    ensures Spine(t, right) <= Height(t)
  {
    if t.Node? { SpineBelowHeight(if right then t.right else t.left, right); }
  }

  /** The context and subtree of the node at in-order position i. */
  function Locate(c: Ctx, t: Tree, i: nat): (r: (Ctx, Tree))
    requires i < |InOrder(t)|
    ensures Plug(r.0, r.1) == Plug(c, t)
    ensures r.1.Node? && r.1.addr == InOrder(t)[i]
    ensures |Pre(r.0)| + |InOrder(r.1.left)| == |Pre(c)| + i
    decreases t
  {
    var k := |InOrder(t.left)|;
    if i < k then Locate(Below(c, t.addr, true, t.right), t.left, i)
    else if i == k then (c, t)
    else Locate(Below(c, t.addr, false, t.left), t.right, i - k - 1)
  }

  lemma {:induction false} DepthBelowSize(c: Ctx, t: Tree)
    ensures Depth(c) + Height(t) <= |InOrder(Plug(c, t))|
    decreases c
  {
    match c
    case Top => HeightBelowSize(t);
    case Below(up, a, onLeft, o) => DepthBelowSize(up, if onLeft then Node(t, a, o) else Node(o, a, t));
  }
}
