/** AVL_AddNode and AVL_RemNode: flatten the tree, edit the array, rebuild the links in place. */
module Avl {
  import opened Bits
  import opened GuestMemory
  import opened AvlTree
  import opened AvlMemory

  /** The bytes of the nodes ns[lo..hi]. */
  ghost predicate InNodes(ns: seq<nat>, lo: nat, hi: nat, a: int)
    requires lo <= hi <= |ns|
  {
    exists i | lo <= i < hi :: ns[i] <= a < ns[i] + AVLNODE
  }

  ghost predicate SameElsewhere(m: Memory, m': Memory, ns: seq<nat>, lo: nat, hi: nat)
    requires lo <= hi <= |ns|
  {
    forall a | !InNodes(ns, lo, hi, a) :: Byte(m', a) == Byte(m, a)
  }

  /** Nodes that can carry a tree: real addresses, none overlapping. */
  ghost predicate Usable(ns: seq<nat>)
  {
    Spread(ns) && forall i | 0 <= i < |ns| :: 0 < ns[i] && ns[i] + AVLNODE <= WORD32
  }

  ghost predicate SameNode(m: Memory, m': Memory, n: nat)
  {
    && Get(m', n + LEFT) == Get(m, n + LEFT) && Get(m', n + RIGHT) == Get(m, n + RIGHT)
    && Get(m', n + PARENT) == Get(m, n + PARENT) && Get(m', n + BALANCE) == Get(m, n + BALANCE)
  }

  /** A tree is its nodes' words. */
  lemma {:induction false} KeptTree(m: Memory, m': Memory, t: Tree, parent: nat)
    requires Linked(m, t, parent) && forall n | n in InOrder(t) :: SameNode(m, m', n)
    ensures Linked(m', t, parent) && (Balances(m, t) ==> Balances(m', t))
  {
    hide Get, Height;
    if t.Node? {
      RootInOrder(t);
      assert SameNode(m, m', t.addr);
      KeptTree(m, m', t.left, t.addr);
      KeptTree(m, m', t.right, t.addr);
    }
  }

  /** Writing the nodes of one range keeps the nodes of a disjoint one. */
  lemma KeptNodes(m: Memory, m': Memory, ns: seq<nat>, lo: nat, hi: nat, lo': nat, hi': nat)
    requires lo <= hi <= |ns| && lo' <= hi' <= |ns| && (hi <= lo' || hi' <= lo)
    requires Usable(ns) && SameElsewhere(m, m', ns, lo', hi')
    ensures forall n | n in ns[lo..hi] :: SameNode(m, m', n)
  {
    hide Get, Byte;
    forall n | n in ns[lo..hi] ensures SameNode(m, m', n) {
      var i :| lo <= i < hi && ns[i] == n;
      forall a: int | n <= a < n + AVLNODE ensures Byte(m', a) == Byte(m, a) {
        NotInNodes(ns, lo', hi', i, a);
      }
      GetOfBytes(m, m', n + LEFT);
      GetOfBytes(m, m', n + RIGHT);
      GetOfBytes(m, m', n + PARENT);
      GetOfBytes(m, m', n + BALANCE);
    }
  }

  lemma NotInNodes(ns: seq<nat>, lo: nat, hi: nat, i: nat, a: int)
    requires lo <= hi <= |ns| && i < |ns| && !(lo <= i < hi) && Spread(ns) && ns[i] <= a < ns[i] + AVLNODE
    ensures !InNodes(ns, lo, hi, a)
  {
    forall j | lo <= j < hi ensures !(ns[j] <= a < ns[j] + AVLNODE) {
      if j < i { assert Off(ns[j], ns[i]); } else { assert Off(ns[i], ns[j]); }
    }
  }

  /** Memory holds the rebuilt range, hanging below parent. */
  ghost predicate Rebuilt(m: Memory, ns: seq<nat>, lo: nat, hi: nat, parent: nat)
    requires lo <= hi <= |ns|
  {
    Linked(m, Build(ns, lo, hi), parent) && Balances(m, Build(ns, lo, hi))
  }

  lemma KeptRange(m: Memory, m': Memory, ns: seq<nat>, lo: nat, hi: nat, parent: nat, lo': nat, hi': nat)
    requires lo <= hi <= |ns| && lo' <= hi' <= |ns| && (hi <= lo' || hi' <= lo)
    requires Usable(ns) && SameElsewhere(m, m', ns, lo', hi') && Rebuilt(m, ns, lo, hi, parent)
    ensures Rebuilt(m', ns, lo, hi, parent)
  {
    KeptNodes(m, m', ns, lo, hi, lo', hi');
    BuildInOrder(ns, lo, hi);
    KeptTree(m, m', Build(ns, lo, hi), parent);
  }

  lemma WidenElsewhere(m: Memory, m': Memory, m'': Memory, ns: seq<nat>, lo: nat, hi: nat, lo': nat, hi': nat,
      lo'': nat, hi'': nat)
    requires lo'' <= lo <= hi <= hi'' <= |ns| && lo'' <= lo' <= hi' <= hi''
    requires SameElsewhere(m, m', ns, lo, hi) && SameElsewhere(m', m'', ns, lo', hi')
    ensures SameElsewhere(m, m'', ns, lo'', hi'')
  {
    hide Byte;
    forall a | !InNodes(ns, lo'', hi'', a) ensures Byte(m'', a) == Byte(m, a) {
      assert !InNodes(ns, lo, hi, a) && !InNodes(ns, lo', hi', a);
    }
  }

  /** avl_rebuild_range: the middle node on top, its halves rebuilt below it first. */
  method RebuildRange(g: Guest, ns: seq<nat>, lo: nat, hi: nat, parent: nat) returns (root: nat, height: int)
    requires lo <= hi <= |ns| && Usable(ns) && InSpan(g, ns) && parent < WORD32
    modifies g`ram
    ensures root == Root(Build(ns, lo, hi)) && height == Height(Build(ns, lo, hi))
    ensures Rebuilt(g.ram, ns, lo, hi, parent)
    ensures SameElsewhere(old(g.ram), g.ram, ns, lo, hi)
    decreases hi - lo
  {
    hide Get, Byte, Put, Usable, Rebuilt, Build, InNodes, Guest.Span;
    if lo >= hi {
      NothingRebuilt(g.ram, ns, lo, parent);
      return 0, 0;
    }
    var mid := lo + (hi - lo) / 2;
    var node := ns[mid];
    UsableAt(ns, mid);
    var left, lh := RebuildRange(g, ns, lo, mid, node);
    ghost var m1 := g.ram;
    var right, rh := RebuildRange(g, ns, mid + 1, hi, node);
    ghost var m2 := g.ram;
    KeptRange(m1, m2, ns, lo, mid, node, mid + 1, hi);
    BalanceFits(ns, lo, hi);
    var balance: int := rh - lh;
    UnsignedIs(balance);
    WriteNode(g, node, left, right, parent, Unsigned(balance));
    OneNode(m2, g.ram, ns, mid);
    KeptRange(m2, g.ram, ns, lo, mid, node, mid, mid + 1);
    KeptRange(m2, g.ram, ns, mid + 1, hi, node, mid, mid + 1);
    WidenElsewhere(old(g.ram), m1, m2, ns, lo, mid, mid + 1, hi, lo, hi);
    WidenElsewhere(old(g.ram), m2, g.ram, ns, lo, hi, mid, mid + 1, lo, hi);
    NodeRebuilt(g.ram, ns, lo, hi, parent);
    root, height := node, (if lh > rh then lh else rh) + 1;
  }

  /** The four writes to a node, in the order the source makes them. */
  method WriteNode(g: Guest, node: nat, left: nat, right: nat, parent: nat, balance: nat)
    requires left < WORD32 && right < WORD32 && parent < WORD32 && balance < WORD32 && g.Span(node, AVLNODE)
    modifies g`ram
    ensures Get(g.ram, node + LEFT) == left && Get(g.ram, node + RIGHT) == right
    ensures Get(g.ram, node + PARENT) == parent && Get(g.ram, node + BALANCE) == balance
    ensures forall a: int | a < node || node + AVLNODE <= a :: Byte(g.ram, a) == Byte(old(g.ram), a)
  {
    hide Get, Byte, Put, Guest.Span;
    NodeWords(g, node);
    g.Write(node + LEFT, left);
    g.Write(node + RIGHT, right);
    g.Write(node + PARENT, parent);
    g.Write(node + BALANCE, balance);
  }

  lemma UsableAt(ns: seq<nat>, i: nat)
    requires Usable(ns) && i < |ns|
    ensures 0 < ns[i] && ns[i] + AVLNODE <= WORD32
  {
  }

  lemma NothingRebuilt(m: Memory, ns: seq<nat>, lo: nat, parent: nat)
    requires lo <= |ns|
    ensures Rebuilt(m, ns, lo, lo, parent) && Build(ns, lo, lo) == Leaf && SameElsewhere(m, m, ns, lo, lo)
  {
  }

  /** Below the middle node: its halves, and the balance they give it. */
  lemma BalanceFits(ns: seq<nat>, lo: nat, hi: nat)
    requires lo < hi <= |ns| && Usable(ns)
    ensures var mid, t := lo + (hi - lo) / 2, Build(ns, lo, hi);
            && t == Node(Build(ns, lo, mid), ns[mid], Build(ns, mid + 1, hi))
            && -1 <= Balance(t) <= 0 && Root(t.left) < WORD32 && Root(t.right) < WORD32
            && Balance(t) == Height(t.right) - Height(t.left) && Height(t) == 1 + Max(Height(t.left), Height(t.right))
  {
    var mid := lo + (hi - lo) / 2;
    BuildBalanced(ns, lo, hi);
    RootBelow(ns, lo, mid);
    RootBelow(ns, mid + 1, hi);
  }

  lemma RootBelow(ns: seq<nat>, lo: nat, hi: nat)
    requires lo <= hi <= |ns| && Usable(ns)
    ensures Root(Build(ns, lo, hi)) < WORD32
  {
    if lo < hi { UsableAt(ns, lo + (hi - lo) / 2); }
  }

  lemma OneNode(m: Memory, m': Memory, ns: seq<nat>, i: nat)
    requires i < |ns| && forall a: int | a < ns[i] || ns[i] + AVLNODE <= a :: Byte(m', a) == Byte(m, a)
    ensures SameElsewhere(m, m', ns, i, i + 1)
  {
    forall a ensures Byte(m', a) == Byte(m, a) || InNodes(ns, i, i + 1, a) {
      if ns[i] <= a < ns[i] + AVLNODE { assert InNodes(ns, i, i + 1, a); }
    }
  }

  lemma NodeRebuilt(m: Memory, ns: seq<nat>, lo: nat, hi: nat, parent: nat)
    requires lo < hi <= |ns| && Usable(ns)
    requires var mid, node := lo + (hi - lo) / 2, ns[lo + (hi - lo) / 2];
             && Rebuilt(m, ns, lo, mid, node) && Rebuilt(m, ns, mid + 1, hi, node)
             && Get(m, node + LEFT) == Root(Build(ns, lo, mid)) && Get(m, node + RIGHT) == Root(Build(ns, mid + 1, hi))
             && Get(m, node + PARENT) == parent && -1 <= Balance(Build(ns, lo, hi)) <= 0
             && Get(m, node + BALANCE) == (if Balance(Build(ns, lo, hi)) == 0 then 0 else 0xFFFF_FFFF)
    ensures Rebuilt(m, ns, lo, hi, parent)
  {
    hide Get, Height;
    UsableAt(ns, lo + (hi - lo) / 2);
  }

  // ---- whole trees, reached through a root pointer -------------------------------------

  function Whole(ns: seq<nat>): Tree
  {
    Build(ns, 0, |ns|)
  }

  /** A root pointer and the tree below it, the pointer itself lying outside every node. */
  ghost predicate Rooted(m: Memory, rootp: nat, t: Tree)
  {
    IsTree(m, Get(m, rootp), t) && PointerApart(rootp, InOrder(t))
  }

  ghost predicate PointerApart(rootp: nat, ns: seq<nat>)
  {
    forall i | 0 <= i < |ns| :: rootp + 4 <= ns[i] || ns[i] + AVLNODE <= rootp
  }

  /** A freshly rebuilt tree: these nodes in this order, balances stored and -1 or 0, and as low
      as a tree of that many nodes can be. */
  ghost predicate RebuiltAs(m: Memory, rootp: nat, ns: seq<nat>)
  {
    && Rooted(m, rootp, Whole(ns)) && Balances(m, Whole(ns)) && InOrder(Whole(ns)) == ns
    && Height(Whole(ns)) == BitLength(|ns|)
  }

  ghost predicate SameOutside(m: Memory, m': Memory, rootp: nat, ns: seq<nat>)
  {
    forall a: int | !(rootp <= a < rootp + 4) && !InNodes(ns, 0, |ns|, a) :: Byte(m', a) == Byte(m, a)
  }

  /** avl_rebuild */
  method AvlRebuild(g: Guest, rootp: nat, ns: seq<nat>)
    requires Usable(ns) && InSpan(g, ns) && PointerApart(rootp, ns) && g.Span(rootp, 4)
    modifies g`ram
    ensures RebuiltAs(g.ram, rootp, ns)
    ensures SameOutside(old(g.ram), g.ram, rootp, ns)
  {
    hide Get, Byte, Put, InNodes, Usable, Linked, Balances, Build, Rebuilt, PointerApart;
    BuildInOrder(ns, 0, |ns|);
    assert ns[0..|ns|] == ns;
    BuildBalanced(ns, 0, |ns|);
    RootBelow(ns, 0, |ns|);
    var root, height := RebuildRange(g, ns, 0, |ns|, 0);
    ghost var m := g.ram;
    g.Write(rootp, root);
    PointerWrite(m, g.ram, rootp, ns);
  }

  lemma PointerWrite(m: Memory, m': Memory, rootp: nat, ns: seq<nat>)
    requires Usable(ns) && PointerApart(rootp, ns) && Rebuilt(m, ns, 0, |ns|, 0)
    requires forall b: int | Clear(rootp, b) :: Get(m', b) == Get(m, b)
    ensures Linked(m', Whole(ns), 0) && Balances(m', Whole(ns)) && Spread(ns)
  {
    hide Get;
    BuildInOrder(ns, 0, |ns|);
    assert ns[0..|ns|] == ns;
    forall n | n in InOrder(Whole(ns)) ensures SameNode(m, m', n) {
      var i :| 0 <= i < |ns| && ns[i] == n;
    }
    KeptTree(m, m', Whole(ns), 0);
  }

  // ---- AVL_AddNode ---------------------------------------------------------------------

  function Inserted(ns: seq<nat>, k: nat, n: nat): seq<nat>
    requires k <= |ns|
  {
    ns[..k] + [n] + ns[k..]
  }

  function Deleted(ns: seq<nat>, k: nat): seq<nat>
    requires k < |ns|
  {
    ns[..k] + ns[k + 1..]
  }

  /** A node that may join the tree: outside every node of it and the root pointer. */
  ghost predicate Joins(rootp: nat, ns: seq<nat>, n: nat)
  {
    && 0 < n && n + AVLNODE <= WORD32 && (rootp + 4 <= n || n + AVLNODE <= rootp)
    && forall i | 0 <= i < |ns| :: Off(n, ns[i])
  }

  /** The equal node met first, if any. */
  predicate Equal(cmp: Comparison, ns: seq<nat>, key: nat)
  {
    Place(cmp, ns, key) < |ns| && cmp(ns[Place(cmp, ns, key)], key) == 0
  }

  /** What every tree operation checks before it looks at a key. */
  ghost predicate Walkable(g: Guest, rootp: nat, ns: seq<nat>)
  {
    g.Span(rootp, 4) && |ns| <= LIMIT && InSpan(g, ns)
  }

  method AvlAddNode(g: Guest, rootp: nat, node: nat, callback: nat, cmp: Comparison, ghost t: Tree) returns (r: Walk)
    requires Rooted(g.ram, rootp, t)
    requires Equal(cmp, InOrder(t), node) || Joins(rootp, InOrder(t), node)
    modifies g`ram
    ensures var ns := InOrder(t);
            && (r.Refused? <==> !(Walkable(g, rootp, ns) && g.Span(node, AVLNODE) && (callback != 0 || ns == [])))
            && (r.Refused? || Equal(cmp, ns, node) ==> g.ram == old(g.ram))
            && (r.At? && Equal(cmp, ns, node) ==> r.node == ns[Place(cmp, ns, node)])
            && (r.At? && !Equal(cmp, ns, node) ==>
                  var ns' := Inserted(ns, Place(cmp, ns, node), node);
                  r.node == 0 && RebuiltAs(g.ram, rootp, ns') && SameOutside(old(g.ram), g.ram, rootp, ns'))
  {
    hide Get, Guest.Span, IsTree, InSpan, InOrder, RebuiltAs, SameOutside, Joins, PointerApart, Usable;
    ghost var ns := InOrder(t);
    if !g.Span(rootp, 4) || !g.Span(node, AVLNODE) {
      return Refused;
    }
    var collected := AvlCollect(g, g.Read(rootp), t);
    if collected.None? {
      return Refused;
    }
    var nodes, at: nat := collected.value, 0;
    while at < |nodes|
      invariant at <= |nodes| && forall i | 0 <= i < at :: cmp(nodes[i], node) < 0
      invariant at > 0 ==> callback != 0
    {
      if callback == 0 {
        return Refused;
      }
      var sign := cmp(nodes[at], node);
      if sign == 0 {
        PlaceUnique(cmp, ns, node, at);
        return At(nodes[at]);
      }
      if sign > 0 {
        break;
      }
      at := at + 1;
    }
    PlaceUnique(cmp, ns, node, at);
    JoinsUsable(g.ram, rootp, t, at, node);
    EditsInSpan(g, nodes, at, node);
    AvlRebuild(g, rootp, nodes[..at] + [node] + nodes[at..]);
    return At(0);
  }

  lemma EditsInSpan(g: Guest, ns: seq<nat>, k: nat, n: nat)
    requires InSpan(g, ns) && k <= |ns| && g.Span(n, AVLNODE)
    ensures InSpan(g, Inserted(ns, k, n))
  {
    hide Guest.Span;
    var s := Inserted(ns, k, n);
    forall i | 0 <= i < |s| ensures g.Span(s[i], AVLNODE) {
      assert i != k ==> s[i] == ns[if i < k then i else i - 1];
    }
  }

  lemma RestInSpan(g: Guest, ns: seq<nat>, k: nat)
    requires InSpan(g, ns) && k < |ns|
    ensures InSpan(g, Deleted(ns, k)) && g.Span(ns[k], AVLNODE)
  {
    hide Guest.Span;
    var s := Deleted(ns, k);
    forall i | 0 <= i < |s| ensures g.Span(s[i], AVLNODE) {
      assert s[i] == ns[if i < k then i else i + 1];
    }
  }

  lemma JoinsUsable(m: Memory, rootp: nat, t: Tree, k: nat, n: nat)
    requires Rooted(m, rootp, t) && k <= |InOrder(t)| && Joins(rootp, InOrder(t), n)
    ensures Usable(Inserted(InOrder(t), k, n)) && PointerApart(rootp, Inserted(InOrder(t), k, n))
  {
    hide Get, Linked, InOrder;
    var ns := InOrder(t);
    NodesPositive(m, t, 0);
    var s := Inserted(ns, k, n);
    forall i | 0 <= i < |s| ensures i != k ==> s[i] == ns[if i < k then i else i - 1] {}
    forall i, j | 0 <= i < j < |s| ensures Off(s[i], s[j]) {
      if i != k && j != k { assert Off(ns[if i < k then i else i - 1], ns[if j < k then j else j - 1]); }
    }
  }

  // ---- AVL_RemNodeByAddress, AVL_RemNodeByKey ------------------------------------------

  /** The position removed, or the length when nothing matches. */
  function Target(byAddress: bool, cmp: Comparison, ns: seq<nat>, wanted: nat): (k: nat)
    ensures k <= |ns|
  {
    if byAddress then IndexOf(ns, wanted) else if Equal(cmp, ns, wanted) then Place(cmp, ns, wanted) else |ns|
  }

  function IndexOf(ns: seq<nat>, x: nat): (k: nat)
    ensures k <= |ns| && (k < |ns| ==> ns[k] == x) && forall i | 0 <= i < k :: ns[i] != x
  {
    if ns == [] || ns[0] == x then 0 else 1 + IndexOf(ns[1..], x)
  }

  lemma IndexOfUnique(ns: seq<nat>, x: nat, k: nat)
    requires k <= |ns| && (k < |ns| ==> ns[k] == x) && forall i | 0 <= i < k :: ns[i] != x
    ensures IndexOf(ns, x) == k
  {
    var p := IndexOf(ns, x);
    assert p < |ns| ==> ns[p] == x;
  }

  /** The search both removals share. */
  method FindTarget(nodes: seq<nat>, wanted: nat, byAddress: bool, callback: nat, cmp: Comparison)
    returns (ok: bool, at: nat, found: bool)
    ensures ok <==> byAddress || callback != 0 || nodes == []
    ensures ok ==> (found <==> Target(byAddress, cmp, nodes, wanted) < |nodes|)
    ensures ok && found ==> at == Target(byAddress, cmp, nodes, wanted)
  {
    at := 0;
    while at < |nodes|
      invariant at <= |nodes|
      invariant byAddress ==> forall i | 0 <= i < at :: nodes[i] != wanted
      invariant !byAddress ==> forall i | 0 <= i < at :: cmp(nodes[i], wanted) < 0
      invariant !byAddress && at > 0 ==> callback != 0
    {
      if byAddress {
        if nodes[at] == wanted {
          IndexOfUnique(nodes, wanted, at);
          return true, at, true;
        }
      } else {
        if callback == 0 {
          return false, at, false;
        }
        var sign := cmp(nodes[at], wanted);
        if sign >= 0 {
          PlaceUnique(cmp, nodes, wanted, at);
          return true, at, sign == 0;
        }
      }
      at := at + 1;
    }
    if byAddress { IndexOfUnique(nodes, wanted, at); } else { PlaceUnique(cmp, nodes, wanted, at); }
    return true, at, false;
  }

  method AvlRemNode(g: Guest, rootp: nat, wanted: nat, byAddress: bool, callback: nat, cmp: Comparison, ghost t: Tree)
    returns (r: Walk)
    requires Rooted(g.ram, rootp, t)
    modifies g`ram
    ensures var ns, k := InOrder(t), Target(byAddress, cmp, InOrder(t), wanted);
            && (r.Refused? <==> !(Walkable(g, rootp, ns) && (byAddress || callback != 0 || ns == [])))
            && (r.Refused? || k == |ns| ==> g.ram == old(g.ram) && (r.At? ==> r.node == 0))
            && (r.At? && k < |ns| ==>
                  && r.node == ns[k] && RebuiltAs(g.ram, rootp, Deleted(ns, k)) && Cleared(g.ram, ns[k])
                  && SameOutside(old(g.ram), g.ram, rootp, ns))
  {
    hide Get, Byte, Put, Guest.Span, IsTree, InSpan, InOrder, RebuiltAs, SameOutside, Usable, PointerApart, Target;
    ghost var ns := InOrder(t);
    if !g.Span(rootp, 4) {
      return Refused;
    }
    var collected := AvlCollect(g, g.Read(rootp), t);
    if collected.None? {
      return Refused;
    }
    var nodes := collected.value;
    var ok, at, found := FindTarget(nodes, wanted, byAddress, callback, cmp);
    if !ok {
      return Refused;
    }
    if !found {
      return At(0);
    }
    var removed := nodes[at];
    RestUsable(g.ram, rootp, t, at);
    RestInSpan(g, nodes, at);
    AvlRebuild(g, rootp, nodes[..at] + nodes[at + 1..]);
    ghost var m := g.ram;
    WriteNode(g, removed, 0, 0, 0, 0);
    ClearedKeeps(old(g.ram), m, g.ram, rootp, ns, at);
    return At(removed);
  }

  predicate Cleared(m: Memory, n: nat)
  {
    Get(m, n + LEFT) == 0 && Get(m, n + RIGHT) == 0 && Get(m, n + PARENT) == 0 && Get(m, n + BALANCE) == 0
  }

  lemma RestUsable(m: Memory, rootp: nat, t: Tree, k: nat)
    requires Rooted(m, rootp, t) && k < |InOrder(t)|
    ensures Usable(InOrder(t)) && PointerApart(rootp, InOrder(t))
    ensures Usable(Deleted(InOrder(t), k)) && PointerApart(rootp, Deleted(InOrder(t), k))
  {
    hide Get, Linked, InOrder;
    var ns := InOrder(t);
    NodesPositive(m, t, 0);
    var s := Deleted(ns, k);
    forall i | 0 <= i < |s| ensures s[i] == ns[if i < k then i else i + 1] {}
    forall i, j | 0 <= i < j < |s| ensures Off(s[i], s[j]) {
      assert Off(ns[if i < k then i else i + 1], ns[if j < k then j else j + 1]);
    }
  }

  /** Clearing the removed node's words touches neither the root pointer nor the tree. */
  lemma ClearedKeeps(m0: Memory, m: Memory, m': Memory, rootp: nat, ns: seq<nat>, k: nat)
    requires k < |ns| && Usable(ns) && PointerApart(rootp, ns)
    requires RebuiltAs(m, rootp, Deleted(ns, k)) && SameOutside(m0, m, rootp, Deleted(ns, k))
    requires forall a: int | a < ns[k] || ns[k] + AVLNODE <= a :: Byte(m', a) == Byte(m, a)
    ensures RebuiltAs(m', rootp, Deleted(ns, k)) && SameOutside(m0, m', rootp, ns)
  {
    hide Get, Linked, Balances, Height, Build;
    var s := Deleted(ns, k);
    forall i | 0 <= i < |s| ensures s[i] == ns[if i < k then i else i + 1] {}
    OneNode(m, m', ns, k);
    KeptNodes(m, m', ns, 0, k, k, k + 1);
    KeptNodes(m, m', ns, k + 1, |ns|, k, k + 1);
    assert forall n | n in s :: SameNode(m, m', n);
    KeptTree(m, m', Whole(s), 0);
    GetOfBytes(m, m', rootp);
    forall a: int | !(rootp <= a < rootp + 4) && !InNodes(ns, 0, |ns|, a) ensures Byte(m', a) == Byte(m0, a) {
      assert !InNodes(s, 0, |s|, a);
      assert !(ns[k] <= a < ns[k] + AVLNODE);
    }
  }
}
