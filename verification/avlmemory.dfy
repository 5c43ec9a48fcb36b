/** AVL trees as guest memory holds them, and the read-only walks over them. */
module AvlMemory {
  import opened Bits
  import opened GuestMemory
  import opened AvlTree
  import opened Types

  const LEFT: nat := 0
  const RIGHT: nat := 4
  const PARENT: nat := 8
  const BALANCE: nat := 12
  const AVLNODE: nat := 16
  const LIMIT: nat := 65536     // the guard of every walk

  /** What a query returns: a node address, 0 for none, or a refusal. */
  datatype Walk = At(node: nat) | Refused

  /** Left, right and parent words agree with the tree. */
  ghost predicate Linked(m: Memory, t: Tree, parent: nat)
  {
    t.Leaf? ||
    (&& NodeLinks(m, t.addr, Root(t.left), Root(t.right), parent)
     && Linked(m, t.left, t.addr) && Linked(m, t.right, t.addr))
  }

  ghost predicate NodeLinks(m: Memory, a: nat, l: nat, r: nat, parent: nat)
  {
    0 < a && a + AVLNODE <= WORD32 && Get(m, a + LEFT) == l && Get(m, a + RIGHT) == r && Get(m, a + PARENT) == parent
  }

  /** Every node's left subtree is as high as its right one, with balance word 0, or one higher, with
      balance word -1. */
  ghost predicate Balances(m: Memory, t: Tree)
  {
    t.Leaf? ||
    (&& Get(m, t.addr + BALANCE) == (if Height(t.left) == Height(t.right) then 0 else 0xFFFF_FFFF)
     && Height(t.right) <= Height(t.left) <= Height(t.right) + 1
     && Balances(m, t.left) && Balances(m, t.right))
  }

  /** The links around a subtree whose root is child. */
  ghost predicate LinkedCtx(m: Memory, c: Ctx, child: nat)
  {
    match c
    case Top => true
    case Below(up, a, onLeft, o) =>
      && NodeLinks(m, a, if onLeft then child else Root(o), if onLeft then Root(o) else child, Up(up))
      && Linked(m, o, a) && LinkedCtx(m, up, a)
  }

  lemma {:induction false} PlugLinked(m: Memory, c: Ctx, s: Tree)
    requires Linked(m, Plug(c, s), 0)
    ensures Linked(m, s, Up(c)) && LinkedCtx(m, c, Root(s))
    decreases c
  {
    hide NodeLinks;
    match c
    case Top =>
    case Below(up, a, onLeft, o) => PlugLinked(m, up, if onLeft then Node(s, a, o) else Node(o, a, s));
  }

  predicate Off(a: nat, b: nat)
  {
    a + AVLNODE <= b || b + AVLNODE <= a
  }

  /** No two nodes overlap. */
  ghost predicate Spread(ns: seq<nat>)
  {
    forall i, j | 0 <= i < j < |ns| :: Off(ns[i], ns[j])
  }

  ghost predicate InSpan(g: Guest, ns: seq<nat>)
  {
    forall i | 0 <= i < |ns| :: g.Span(ns[i], AVLNODE)
  }

  /** The words of a node inside guest memory. */
  lemma NodeWords(g: Guest, n: nat)
    requires g.Span(n, AVLNODE)
    ensures g.Span(n + LEFT, 4) && g.Span(n + RIGHT, 4) && g.Span(n + PARENT, 4) && g.Span(n + BALANCE, 4)
  {
  }

  lemma SpreadApart(a: seq<nat>, b: seq<nat>, x: nat, y: nat)
    requires Spread(a + b) && x in a && y in b
    ensures Off(x, y)
  {
    var i :| 0 <= i < |a| && a[i] == x;
    var j :| 0 <= j < |b| && b[j] == y;
    assert (a + b)[i] == x && (a + b)[|a| + j] == y;
  }

  lemma RootInOrder(t: Tree)
    requires t.Node?
    ensures t.addr in InOrder(t)
  {
    assert InOrder(t)[|InOrder(t.left)|] == t.addr;
  }

  /** A node and its sibling have different addresses. */
  lemma SiblingDiffers(c: Ctx, f: Tree)
    requires Spread(InOrder(Plug(c, f))) && f.Node? && c.Below?
    ensures Root(c.other) != f.addr || c.other.Leaf?
  {
    if c.other.Node? {
      hide InOrder, Spread, Plug, Pre, Post;
      RootInOrder(f);
      RootInOrder(c.other);
      PlugInOrder(c, f);
      OtherOutside(c);
      assert InOrder(Plug(c, f)) == Pre(c) + (InOrder(f) + Post(c));
      if c.onLeft {
        SpreadApart(Pre(c) + InOrder(f), Post(c), f.addr, c.other.addr);
      } else {
        SpreadApart(Pre(c), InOrder(f) + Post(c), c.other.addr, f.addr);
      }
    }
  }

  lemma OtherOutside(c: Ctx)
    requires c.Below?
    ensures forall n | n in InOrder(c.other) :: n in if c.onLeft then Post(c) else Pre(c)
  {
    hide InOrder;
  }

  /** The parts of a tree inside its in-order sequence. */
  lemma PlugMembers(c: Ctx, s: Tree)
    ensures forall n | n in InOrder(s) :: n in InOrder(Plug(c, s))
    ensures c.Below? ==> c.addr in InOrder(Plug(c, s))
  {
    PlugInOrder(c, s);
    if c.Below? {
      if c.onLeft { assert Post(c)[0] == c.addr; } else { assert Pre(c)[|Pre(c)| - 1] == c.addr; }
    }
  }

  /** avl_extreme: down one edge of the tree. It ends on any memory, well linked or not. */
  method AvlExtreme(g: Guest, root: nat, right: bool, ghost t: Tree, ghost parent: nat) returns (r: Walk)
    ensures root != 0 && !g.Span(root, AVLNODE) ==> r.Refused?
    ensures Linked(g.ram, t, parent) && Root(t) == root ==>
              && (r.At? ==> r.node == Extreme(t, right))
              && (InSpan(g, InOrder(t)) ==> (r.At? <==> Spine(t, right) <= LIMIT + 1))
  {
    hide Get, Guest.Span;
    var node: nat, guard: nat := root, 0;
    ghost var good := Linked(g.ram, t, parent) && Root(t) == root;
    ghost var s, up := t, parent;
    while node != 0
      invariant guard <= LIMIT
      invariant root != 0 && guard == 0 ==> node == root
      invariant root != 0 && guard != 0 ==> g.Span(root, AVLNODE)
      invariant guard > 0 ==> node != 0
      invariant good ==> Linked(g.ram, s, up) && Root(s) == node && Extreme(s, right) == Extreme(t, right)
      invariant good ==> Spine(t, right) == guard + Spine(s, right)
      invariant good && InSpan(g, InOrder(t)) ==> InSpan(g, InOrder(s))
      decreases LIMIT - guard
    {
      if !g.Span(node, AVLNODE) {
        if good && InSpan(g, InOrder(s)) { RootInOrder(s); }
        return Refused;
      }
      NodeWords(g, node);
      var next: nat := g.Read(node + if right then RIGHT else LEFT);
      if next == 0 {
        return At(node);
      }
      node := next;
      if good {
        ChildInSpan(g, s, right);
        up := s.addr;
        s := if right then s.right else s.left;
      }
      guard := guard + 1;
      if guard > LIMIT {
        return Refused;
      }
    }
    return At(0);
  }

  lemma ChildInSpan(g: Guest, s: Tree, right: bool)
    requires s.Node?
    ensures InSpan(g, InOrder(s)) ==> InSpan(g, InOrder(if right then s.right else s.left))
  {
    if InSpan(g, InOrder(s)) {
      var k, c := |InOrder(s.left)|, if right then s.right else s.left;
      forall i | 0 <= i < |InOrder(c)| ensures g.Span(InOrder(c)[i], AVLNODE) {
        assert InOrder(c)[i] == InOrder(s)[if right then k + 1 + i else i];
      }
    }
  }

  /** A tree with a node picked out: its links, and no two nodes overlapping. */
  ghost predicate Focus(m: Memory, c: Ctx, s: Tree)
  {
    s.Node? && Linked(m, s, Up(c)) && LinkedCtx(m, c, s.addr) && Spread(InOrder(Plug(c, s)))
  }

  /** The node in order after the focus, or before it; 0 at the end. */
  function Neighbour(c: Ctx, s: Tree, next: bool): nat
    requires s.Node?
  {
    if next then First(InOrder(s.right) + Post(c)) else Last(Pre(c) + InOrder(s.left))
  }

  /** The focus moved to its parent. */
  function Parent(c: Ctx, s: Tree): Tree
    requires c.Below?
  {
    if c.onLeft then Node(s, c.addr, c.other) else Node(c.other, c.addr, s)
  }

  lemma FocusUp(m: Memory, c: Ctx, s: Tree, next: bool)
    requires Focus(m, c, s) && c.Below?
    ensures Focus(m, c.up, Parent(c, s)) && Plug(c.up, Parent(c, s)) == Plug(c, s)
    ensures Get(m, c.addr + if next then LEFT else RIGHT) == s.addr <==> c.onLeft == next
    ensures Get(m, c.addr + PARENT) == Up(c.up)
  {
    hide Get, Spread;
    SiblingDiffers(c, s);
  }

  /** avl_adjacent: into the subtree on that side, or up to the first ancestor entered from the
      other side. It ends on any memory. */
  method AvlAdjacent(g: Guest, node: nat, next: bool, ghost c: Ctx, ghost s: Tree) returns (r: Walk)
    ensures node == 0 ==> r == At(0)
    ensures node != 0 && !g.Span(node, AVLNODE) ==> r.Refused?
    ensures s.Node? && s.addr == node && Focus(g.ram, c, s) ==>
              && (r.At? ==> r.node == Neighbour(c, s, next))
              && (InSpan(g, InOrder(Plug(c, s))) ==>
                    && (r.At? <==> Reachable(c, s, next))
                    && (|InOrder(Plug(c, s))| <= LIMIT ==> r.At?))
  {
    hide Get, Guest.Span, Focus, InSpan, InOrder, Plug;
    ghost var good := s.Node? && s.addr == node && Focus(g.ram, c, s);
    if good {
      FocusParent(g.ram, c, s);
      NodesInSpan(g, c, s);
      DepthBelowSize(c, s);
    }
    if node == 0 {
      return At(0);
    }
    if !g.Span(node, AVLNODE) {
      return Refused;
    }
    NodeWords(g, node);
    var branch: nat := g.Read(node + if next then RIGHT else LEFT);
    if branch != 0 {
      ghost var side := if !good then Leaf else if next then s.right else s.left;
      r := AvlExtreme(g, branch, !next, side, node);
      if good {
        NeighbourIs(c, s, next);
        SpineInTree(g, c, s, next);
      }
      return r;
    }
    r := AvlClimb(g, node, next, c, s);
    if good {
      NeighbourIs(c, s, next);
    }
  }

  /** The walk to the neighbour stays within its guard: an edge of at most 65537 nodes, or at most
      65536 ancestors passed. */
  predicate Reachable(c: Ctx, s: Tree, next: bool)
    requires s.Node?
  {
    var side := if next then s.right else s.left;
    if side.Leaf? then Climb(c, next) <= LIMIT else Spine(side, !next) <= LIMIT + 1
  }

  lemma NeighbourIs(c: Ctx, s: Tree, next: bool)
    requires s.Node?
    ensures var side := if next then s.right else s.left;
            Neighbour(c, s, next) == if side.Leaf? then Above(c, next) else Extreme(side, !next)
  {
    var side := if next then s.right else s.left;
    AboveIsNeighbour(c);
    ExtremeIsEnd(side);
    if side.Node? { RootInOrder(side); }
  }

  /** The second half of avl_adjacent. */
  method AvlClimb(g: Guest, node: nat, next: bool, ghost c: Ctx, ghost s: Tree) returns (r: Walk)
    requires g.Span(node, AVLNODE)
    ensures s.Node? && s.addr == node && Focus(g.ram, c, s) ==>
              && (r.At? ==> r.node == Above(c, next))
              && (InSpan(g, InOrder(Plug(c, s))) ==> (r.At? <==> Climb(c, next) <= LIMIT))
  {
    hide Get, Guest.Span, Focus, InSpan, InOrder, Plug;
    ghost var good := s.Node? && s.addr == node && Focus(g.ram, c, s);
    var child: nat, guard: nat := node, 0;
    NodeWords(g, node);
    var parent: nat := g.Read(node + PARENT);
    ghost var d, f := c, s;
    if good { FocusParent(g.ram, c, s); }
    while parent != 0
      invariant guard <= LIMIT
      invariant good ==> Focus(g.ram, d, f) && f.Node? && f.addr == child && parent == Up(d)
      invariant good ==> Plug(d, f) == Plug(c, s) && Above(d, next) == Above(c, next)
      invariant good ==> Climb(d, next) + guard == Climb(c, next)
      decreases LIMIT - guard
    {
      if !g.Span(parent, AVLNODE) {
        if good { NodesInSpan(g, d, f); }
        return Refused;
      }
      NodeWords(g, parent);
      var link := g.Read(parent + if next then LEFT else RIGHT);
      if good { FocusUp(g.ram, d, f, next); }
      if link == child {
        return At(parent);
      }
      child := parent;
      parent := g.Read(parent + PARENT);
      if good {
        d, f := d.up, Parent(d, f);
      }
      guard := guard + 1;
      if guard > LIMIT {
        return Refused;
      }
    }
    if good { FocusParent(g.ram, d, f); }
    return At(0);
  }

  lemma FocusParent(m: Memory, c: Ctx, s: Tree)
    requires Focus(m, c, s)
    ensures s.Node? && Get(m, s.addr + PARENT) == Up(c) && s.addr > 0 && (c.Below? ==> c.addr > 0)
    ensures Get(m, s.addr + LEFT) == Root(s.left) && Get(m, s.addr + RIGHT) == Root(s.right)
    ensures Linked(m, s.left, s.addr) && Linked(m, s.right, s.addr)
    ensures (Root(s.left) == 0 ==> s.left.Leaf?) && (Root(s.right) == 0 ==> s.right.Leaf?)
  {
    hide Get;
    assert Linked(m, s.left, s.addr) && Linked(m, s.right, s.addr);
  }

  lemma NodesInSpan(g: Guest, c: Ctx, s: Tree)
    requires s.Node?
    ensures InSpan(g, InOrder(Plug(c, s))) ==> g.Span(s.addr, AVLNODE) && (c.Below? ==> g.Span(c.addr, AVLNODE))
  {
    hide Guest.Span;
    RootInOrder(s);
    PlugMembers(c, s);
  }

  /** Each side of the focus is in span with the tree, and no longer than it. */
  lemma SpineInTree(g: Guest, c: Ctx, s: Tree, next: bool)
    requires s.Node?
    ensures var side := if next then s.right else s.left;
            && (InSpan(g, InOrder(Plug(c, s))) ==> InSpan(g, InOrder(side)))
            && Spine(side, !next) <= |InOrder(Plug(c, s))|
  {
    hide Guest.Span;
    var side := if next then s.right else s.left;
    SpineBelowHeight(side, !next);
    DepthBelowSize(c, s);
    if InSpan(g, InOrder(Plug(c, s))) {
      PlugMembers(c, s);
      forall i | 0 <= i < |InOrder(s)| ensures g.Span(InOrder(s)[i], AVLNODE) {
        assert InOrder(s)[i] in InOrder(Plug(c, s));
      }
      ChildInSpan(g, s, next);
    }
  }

  /** A whole tree in memory: its links, and no two nodes overlapping. */
  ghost predicate IsTree(m: Memory, root: nat, t: Tree)
  {
    Linked(m, t, 0) && root == Root(t) && Spread(InOrder(t))
  }

  // ---- flattening ----------------------------------------------------------------------

  /** Capacities of the growing array: 32, doubled up to the limit. */
  predicate Capacity(n: nat)
  {
    n in {0, 32, 64, 128, 256, 512, 1024, 2048, 4096, 8192, 16384, 32768, 65536}
  }

  lemma CapacityDoubles(n: nat)
    requires Capacity(n)
    ensures var d := if n != 0 then n * 2 else 32; n < d && (d <= LIMIT ==> Capacity(d)) && (d > LIMIT <==> n == LIMIT)
  {
  }

  /** The node at position i, in focus, and its successor. */
  lemma FocusAt(g: Guest, root: nat, t: Tree, i: nat)
    requires IsTree(g.ram, root, t) && i < |InOrder(t)|
    ensures var (c, s) := Locate(Top, t, i);
            && Focus(g.ram, c, s) && s.addr == InOrder(t)[i] && Plug(c, s) == t
            && Neighbour(c, s, true) == (if i + 1 < |InOrder(t)| then InOrder(t)[i + 1] else 0)
            && Neighbour(c, s, false) == (if i > 0 then InOrder(t)[i - 1] else 0)
  {
    hide Get, Spread, NodeLinks;
    var (c, s) := Locate(Top, t, i);
    PlugLinked(g.ram, c, s);
    PlugInOrder(c, s);
    NeighbourAt(Pre(c), InOrder(s.left), [s.addr], InOrder(s.right), Post(c), i);
  }

  lemma NeighbourAt(p: seq<nat>, l: seq<nat>, x: seq<nat>, r: seq<nat>, q: seq<nat>, i: nat)
    requires i == |p| + |l| && |x| == 1
    ensures var s := p + (l + x + r) + q;
            && First(r + q) == (if i + 1 < |s| then s[i + 1] else 0)
            && Last(p + l) == (if i > 0 then s[i - 1] else 0)
  {
    var s := p + (l + x + r) + q;
    assert s[..i] == p + l;
    assert s[i + 1..] == r + q;
  }

  /** avl_collect: the nodes in order. It ends on any memory, and on a well-linked tree refuses
      exactly when there are more than 65536 nodes or one lies outside guest memory. */
  method AvlCollect(g: Guest, root: nat, ghost t: Tree) returns (r: Option<seq<nat>>)
    ensures r.Some? ==> |r.value| <= LIMIT
    ensures IsTree(g.ram, root, t) ==>
              && (r.Some? <==> |InOrder(t)| <= LIMIT && InSpan(g, InOrder(t)))
              && (r.Some? ==> r.value == InOrder(t))
  {
    hide Get, Guest.Span, IsTree, Focus, Linked, Spread, Locate, InOrder, Capacity;
    ghost var good := IsTree(g.ram, root, t);
    ghost var ns := InOrder(t);
    if good { EdgeInTree(g.ram, root, t); }
    var w := AvlExtreme(g, root, false, t, 0);
    if w.Refused? {
      return None;
    }
    var nodes: seq<nat>, node: nat, cap: nat := [], w.node, 0;
    assert Capacity(0) by { CapacityOfNothing(); }
    while node != 0
      invariant |nodes| <= cap <= LIMIT && Capacity(cap)
      invariant good ==> |nodes| <= |ns| && nodes == ns[..|nodes|]
      invariant good ==> node == (if |nodes| < |ns| then ns[|nodes|] else 0) && (node == 0 <==> |nodes| == |ns|)
      invariant forall i | 0 <= i < |nodes| :: g.Span(nodes[i], AVLNODE)
      decreases LIMIT - |nodes|
    {
      if |nodes| == cap {
        var newcap := if cap != 0 then cap * 2 else 32;
        CapacityDoubles(cap);
        if newcap > LIMIT {
          return None;
        }
        cap := newcap;
      }
      ghost var n := |nodes|;
      ghost var c, s := Top, Leaf;
      if good {
        c, s := Locate(Top, t, n).0, Locate(Top, t, n).1;
        FocusAt(g, root, t, n);
        NodesPositive(g.ram, t, 0);
      }
      nodes := nodes + [node];
      var next := AvlAdjacent(g, node, true, c, s);
      if next.Refused? {
        return None;
      }
      if next.node == node {
        if good { SuccessorDiffers(g.ram, root, t, n); }
        return None;
      }
      node := next.node;
    }
    return Some(nodes);
  }

  lemma CapacityOfNothing()
    ensures Capacity(0)
  {
  }

  lemma EdgeInTree(m: Memory, root: nat, t: Tree)
    requires IsTree(m, root, t)
    ensures Linked(m, t, 0) && Root(t) == root
    ensures Extreme(t, false) == (if |InOrder(t)| > 0 then InOrder(t)[0] else 0)
    ensures (Extreme(t, false) == 0 <==> InOrder(t) == []) && Spine(t, false) <= |InOrder(t)|
  {
    hide Get, Spread;
    ExtremeIsEnd(t);
    SpineBelowHeight(t, false);
    HeightBelowSize(t);
    NodesPositive(m, t, 0);
  }

  lemma {:induction false} NodesPositive(m: Memory, t: Tree, parent: nat)
    requires Linked(m, t, parent)
    ensures forall i | 0 <= i < |InOrder(t)| :: 0 < InOrder(t)[i] && InOrder(t)[i] + AVLNODE <= WORD32
  {
    hide Get;
    if t.Node? {
      NodesPositive(m, t.left, t.addr);
      NodesPositive(m, t.right, t.addr);
    }
  }

  lemma SuccessorDiffers(m: Memory, root: nat, t: Tree, i: nat)
    requires IsTree(m, root, t) && i < |InOrder(t)|
    ensures InOrder(t)[i] != if i + 1 < |InOrder(t)| then InOrder(t)[i + 1] else 0
  {
    NodesPositive(m, t, 0);
    if i + 1 < |InOrder(t)| { assert Off(InOrder(t)[i], InOrder(t)[i + 1]); }
  }

  // ---- queries by key ------------------------------------------------------------------

  datatype Query = Exact | Prev | Next

  /** The guest's comparison callback: the sign of node against key. */
  type Comparison = (nat, nat) -> int

  /** Along the nodes the comparison with the key goes from negative through at most one zero to
      positive. */
  ghost predicate Increasing(cmp: Comparison, ns: seq<nat>, key: nat)
  {
    forall i, j | 0 <= i < j < |ns| :: cmp(ns[i], key) >= 0 ==> cmp(ns[j], key) > 0
  }

  /** The number of leading nodes below the key. */
  function Place(cmp: Comparison, ns: seq<nat>, key: nat): (k: nat)
    ensures k <= |ns|
    ensures forall i | 0 <= i < k :: cmp(ns[i], key) < 0
    ensures k < |ns| ==> cmp(ns[k], key) >= 0
  {
    if ns == [] || cmp(ns[0], key) >= 0 then 0 else 1 + Place(cmp, ns[1..], key)
  }

  lemma PlaceUnique(cmp: Comparison, ns: seq<nat>, key: nat, k: nat)
    requires k <= |ns| && (forall i | 0 <= i < k :: cmp(ns[i], key) < 0) && (k < |ns| ==> cmp(ns[k], key) >= 0)
    ensures Place(cmp, ns, key) == k
  {
    var p := Place(cmp, ns, key);
    assert p < |ns| ==> cmp(ns[p], key) >= 0;
  }

  /** What a query by key must return: the equal node, else the nearest on the side asked for. */
  function Answer(cmp: Comparison, ns: seq<nat>, key: nat, q: Query): nat
  {
    var k := Place(cmp, ns, key);
    if k < |ns| && cmp(ns[k], key) == 0 then ns[k]
    else match q
      case Exact => 0
      case Prev => if k > 0 then ns[k - 1] else 0
      case Next => if k < |ns| then ns[k] else 0
  }

  /** Answer is the greatest node not above the key, the least not below it, or the equal one. */
  lemma AnswerIsNearest(cmp: Comparison, ns: seq<nat>, key: nat, q: Query)
    requires Increasing(cmp, ns, key) && forall i | 0 <= i < |ns| :: ns[i] != 0
    ensures var a := Answer(cmp, ns, key, q);
            match q
            case Exact =>
              && (a != 0 ==> a in ns && cmp(a, key) == 0)
              && (a == 0 ==> forall n | n in ns :: cmp(n, key) != 0)
            case Prev => if a == 0 then forall n | n in ns :: cmp(n, key) > 0
                         else exists i | 0 <= i < |ns| ::
                           a == ns[i] && cmp(a, key) <= 0
                           && forall j | 0 <= j < |ns| :: cmp(ns[j], key) <= 0 <==> j <= i
            case Next => if a == 0 then forall n | n in ns :: cmp(n, key) < 0
                         else exists i | 0 <= i < |ns| ::
                           a == ns[i] && cmp(a, key) >= 0
                           && forall j | 0 <= j < |ns| :: cmp(ns[j], key) >= 0 <==> i <= j
  {
    var k := Place(cmp, ns, key);
    if k < |ns| {
      forall j | k < j < |ns| ensures cmp(ns[j], key) > 0 {}
    }
  }

  /** Nodes before the focus are below the key, and nodes after it above. */
  ghost predicate Bracket(cmp: Comparison, key: nat, c: Ctx)
  {
    && (forall i | 0 <= i < |Pre(c)| :: cmp(Pre(c)[i], key) < 0)
    && (forall i | 0 <= i < |Post(c)| :: cmp(Post(c)[i], key) > 0)
  }

  lemma BracketDown(cmp: Comparison, key: nat, c: Ctx, s: Tree)
    requires s.Node? && Bracket(cmp, key, c) && Increasing(cmp, InOrder(Plug(c, s)), key)
    ensures cmp(s.addr, key) < 0 ==> Bracket(cmp, key, Below(c, s.addr, false, s.left))
    ensures cmp(s.addr, key) > 0 ==> Bracket(cmp, key, Below(c, s.addr, true, s.right))
    ensures cmp(s.addr, key) == 0 ==> forall q :: Answer(cmp, InOrder(Plug(c, s)), key, q) == s.addr
  {
    hide Increasing, Answer, Place, Plug, Bracket;
    PlugInOrder(c, s);
    var l, r := InOrder(s.left), InOrder(s.right);
    assert InOrder(s) == l + [s.addr] + r;
    SidesOf(cmp, key, Pre(c), l, s.addr, r, Post(c));
    if cmp(s.addr, key) < 0 { BracketRight(cmp, key, c, s); }
    else if cmp(s.addr, key) > 0 { BracketLeft(cmp, key, c, s); }
    else { BracketHit(cmp, key, Pre(c), l, s.addr, r, Post(c), c); }
  }

  lemma BracketRight(cmp: Comparison, key: nat, c: Ctx, s: Tree)
    requires s.Node? && Bracket(cmp, key, c) && cmp(s.addr, key) < 0
    requires forall i | 0 <= i < |InOrder(s.left)| :: cmp(InOrder(s.left)[i], key) < 0
    ensures Bracket(cmp, key, Below(c, s.addr, false, s.left))
  {
    var p, l := Pre(c), InOrder(s.left);
    var p' := Pre(Below(c, s.addr, false, s.left));
    assert p' == p + l + [s.addr];
    forall i | 0 <= i < |p'| ensures cmp(p'[i], key) < 0 {
      assert p'[i] == if i < |p| then p[i] else if i < |p| + |l| then l[i - |p|] else s.addr;
    }
  }

  lemma BracketLeft(cmp: Comparison, key: nat, c: Ctx, s: Tree)
    requires s.Node? && Bracket(cmp, key, c) && cmp(s.addr, key) > 0
    requires forall i | 0 <= i < |InOrder(s.right)| :: cmp(InOrder(s.right)[i], key) > 0
    ensures Bracket(cmp, key, Below(c, s.addr, true, s.right))
  {
    var q, r := Post(c), InOrder(s.right);
    var q' := Post(Below(c, s.addr, true, s.right));
    assert q' == [s.addr] + r + q;
    forall i | 0 <= i < |q'| ensures cmp(q'[i], key) > 0 {
      assert q'[i] == if i == 0 then s.addr else if i <= |r| then r[i - 1] else q[i - 1 - |r|];
    }
  }

  lemma BracketHit(cmp: Comparison, key: nat, p: seq<nat>, l: seq<nat>, x: nat, r: seq<nat>, q: seq<nat>, c: Ctx)
    requires Bracket(cmp, key, c) && p == Pre(c) && cmp(x, key) == 0
    requires forall i | 0 <= i < |l| :: cmp(l[i], key) < 0
    ensures forall a :: Answer(cmp, p + (l + [x] + r) + q, key, a) == x
  {
    hide Place, Pre, Post;
    var s, k := p + (l + [x] + r) + q, |p| + |l|;
    assert s[k] == x && s[..k] == p + l;
    forall i | 0 <= i < k ensures cmp(s[i], key) < 0 {
      assert s[i] == s[..k][i];
    }
    PlaceUnique(cmp, s, key, k);
  }

  lemma SidesOf(cmp: Comparison, key: nat, p: seq<nat>, l: seq<nat>, x: nat, r: seq<nat>, q: seq<nat>)
    requires Increasing(cmp, p + (l + [x] + r) + q, key)
    ensures cmp(x, key) <= 0 ==> forall i | 0 <= i < |l| :: cmp(l[i], key) < 0
    ensures cmp(x, key) >= 0 ==> forall i | 0 <= i < |r| :: cmp(r[i], key) > 0
  {
    var s, k := p + (l + [x] + r) + q, |p| + |l|;
    assert s[k] == x;
    forall i | 0 <= i < |l| ensures cmp(x, key) <= 0 ==> cmp(l[i], key) < 0 { assert s[|p| + i] == l[i]; }
    forall i | 0 <= i < |r| ensures cmp(x, key) >= 0 ==> cmp(r[i], key) > 0 { assert s[k + 1 + i] == r[i]; }
  }

  lemma BracketEnd(cmp: Comparison, key: nat, c: Ctx, q: Query)
    requires Bracket(cmp, key, c)
    ensures Answer(cmp, InOrder(Plug(c, Leaf)), key, q) ==
            match q case Exact => 0 case Prev => Above(c, false) case Next => Above(c, true)
  {
    hide Answer, Plug;
    PlugInOrder(c, Leaf);
    assert InOrder(Plug(c, Leaf)) == Pre(c) + Post(c);
    AboveIsNeighbour(c);
    AnswerBetween(cmp, key, Pre(c), Post(c), q);
  }

  lemma AnswerBetween(cmp: Comparison, key: nat, a: seq<nat>, b: seq<nat>, q: Query)
    requires forall i | 0 <= i < |a| :: cmp(a[i], key) < 0
    requires forall i | 0 <= i < |b| :: cmp(b[i], key) > 0
    ensures Answer(cmp, a + b, key, q) == match q case Exact => 0 case Prev => Last(a) case Next => First(b)
  {
    PlaceUnique(cmp, a + b, key, |a|);
  }

  /** AVL_FindNode, AVL_FindPrevNodeByKey and AVL_FindNextNodeByKey. */
  method AvlFind(g: Guest, root: nat, key: nat, callback: nat, cmp: Comparison, q: Query, ghost t: Tree)
      returns (r: Walk)
    ensures IsTree(g.ram, root, t) && Increasing(cmp, InOrder(t), key) ==>
              && (r.At? ==> r.node == Answer(cmp, InOrder(t), key, q))
              && (InSpan(g, InOrder(t)) && |InOrder(t)| <= LIMIT ==> (r.At? <==> callback != 0 || root == 0))
  {
    hide Get, Guest.Span, Spread, InSpan, InOrder, Increasing, Answer, Bracket, Plug;
    var node: nat, candidate: nat, guard: nat := root, 0, 0;
    ghost var good := IsTree(g.ram, root, t) && Increasing(cmp, InOrder(t), key);
    ghost var c, s := Top, t;
    if good { BracketTop(cmp, key, t); }
    while node != 0
      invariant guard <= LIMIT
      invariant guard == 0 ==> node == root
      invariant good ==> Plug(c, s) == t && Linked(g.ram, s, Up(c)) && Root(s) == node && Bracket(cmp, key, c)
      invariant good ==> candidate == match q case Exact => 0 case Prev => Above(c, false) case Next => Above(c, true)
      invariant good ==> guard == Depth(c) && (guard > 0 ==> root != 0 && callback != 0)
      decreases LIMIT - guard
    {
      if good { NodesInSpan(g, c, s); BracketDown(cmp, key, c, s); DepthBelowSize(c, s); }
      if !g.Span(node, AVLNODE) {
        return Refused;
      }
      if callback == 0 {
        return Refused;
      }
      var sign := cmp(node, key);
      if sign == 0 {
        return At(node);
      }
      if q == Prev && sign < 0 { candidate := node; }
      if q == Next && sign > 0 { candidate := node; }
      NodeWords(g, node);
      node := g.Read(node + if sign < 0 then RIGHT else LEFT);
      if good {
        c, s := Descend(g.ram, c, s, sign < 0);
      }
      guard := guard + 1;
      if guard > LIMIT {
        return Refused;
      }
    }
    if good { BracketEnd(cmp, key, c, q); }
    return At(candidate);
  }

  lemma BracketTop(cmp: Comparison, key: nat, t: Tree)
    ensures Bracket(cmp, key, Top) && Plug(Top, t) == t
  {
  }

  /** The focus moved to a child. */
  lemma Descend(m: Memory, c: Ctx, s: Tree, right: bool) returns (c': Ctx, s': Tree)
    requires s.Node? && Linked(m, s, Up(c))
    ensures c' == Below(c, s.addr, !right, if right then s.left else s.right)
    ensures s' == (if right then s.right else s.left)
    ensures Plug(c', s') == Plug(c, s) && Linked(m, s', Up(c'))
    ensures Get(m, s.addr + if right then RIGHT else LEFT) == Root(s')
    ensures forall next :: Above(c', next) == if next != right then s.addr else Above(c, next)
  {
    c' := Below(c, s.addr, !right, if right then s.left else s.right);
    s' := if right then s.right else s.left;
  }
}
