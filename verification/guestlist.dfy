/** exec lists in guest memory. The header's three words double as two overlapping sentinel nodes:
    one at the header, one four bytes above it. */
module GuestList {
  import opened Bits
  import opened GuestMemory
  import opened PriList

  const NODE: nat := 14         // ln_Succ 0, ln_Pred 4, ln_Type 8, ln_Pri 9, ln_Name 10
  const HEADER: nat := 12       // lh_Head 0, lh_Tail 4, lh_TailPred 8

  /** Sentinel, nodes, sentinel. */
  function Path(list: nat, ns: seq<nat>): (p: seq<nat>)
    ensures |p| == |ns| + 2 && p[0] == list && p[|ns| + 1] == list + 4
    ensures forall i | 0 <= i < |ns| :: p[i + 1] == ns[i]
  {
    [list] + ns + [list + 4]
  }

  /** A node and the header, or two nodes, do not overlap, and all lie in the 32-bit space. */
  ghost predicate Apart(list: nat, ns: seq<nat>)
  {
    && 0 < list && list + HEADER <= WORD32
    && (forall i | 0 <= i < |ns| :: OffHeader(list, ns[i]))
    && (forall i, j | 0 <= i < j < |ns| :: OffNode(ns[i], ns[j]))
  }

  predicate OffHeader(list: nat, n: nat)
  {
    0 < n && n + NODE <= WORD32 && (n + NODE <= list || list + HEADER <= n)
  }

  predicate OffNode(a: nat, b: nat)
  {
    a + NODE <= b || b + NODE <= a
  }

  /** b follows a: ln_Succ of a and ln_Pred of b agree. */
  predicate Link(m: Memory, a: nat, b: nat)
  {
    Get(m, a) == b && Get(m, b + 4) == a
  }

  /** Guest memory holds the list of exactly these nodes. */
  ghost predicate IsList(m: Memory, list: nat, ns: seq<nat>)
  {
    && Apart(list, ns)
    && Get(m, list + 4) == 0
    && (forall i | 0 <= i <= |ns| :: Link(m, Path(list, ns)[i], Path(list, ns)[i + 1]))
  }

  /** The bytes list operations may write: the header and the two link words of each node. */
  ghost predicate Footprint(list: nat, ns: seq<nat>, a: int)
  {
    list <= a < list + HEADER || exists i | 0 <= i < |ns| :: ns[i] <= a < ns[i] + 8
  }

  ghost predicate SameOutside(m: Memory, m': Memory, list: nat, ns: seq<nat>)
  {
    forall a | !Footprint(list, ns, a) :: Byte(m', a) == Byte(m, a)
  }

  function Without1(ns: seq<nat>, k: nat): seq<nat>
    requires k < |ns|
  {
    ns[..k] + ns[k + 1..]
  }

  function With1(ns: seq<nat>, k: nat, n: nat): seq<nat>
    requires k <= |ns|
  {
    ns[..k] + [n] + ns[k..]
  }

  /** The successor words of different path nodes, and the predecessor words, share no byte; nor
      does any successor word with a predecessor word, or either with lh_Tail. */
  lemma WordsApart(list: nat, ns: seq<nat>, i: nat, j: nat)
    requires Apart(list, ns) && i <= |ns| && j <= |ns|
    ensures var p := Path(list, ns);
            && (i != j ==> Clear(p[i], p[j]) && Clear(p[i + 1] + 4, p[j + 1] + 4))
            && Clear(p[i], p[j + 1] + 4)
            && Clear(p[i], list + 4) && Clear(p[i + 1] + 4, list + 4)
  {
    if 0 < i { assert OffHeader(list, ns[i - 1]); }
    if i < |ns| { assert OffHeader(list, ns[i]); }
    if 0 < j { assert OffHeader(list, ns[j - 1]); }
    if j < |ns| { assert OffHeader(list, ns[j]); }
    if 0 < i < j { assert OffNode(ns[i - 1], ns[j - 1]); }
    if 0 < j < i { assert OffNode(ns[j - 1], ns[i - 1]); }
    if i < j < |ns| { assert OffNode(ns[i], ns[j]); }
    if j < i < |ns| { assert OffNode(ns[j], ns[i]); }
    if 0 < i && j < |ns| && i - 1 != j { assert OffNode(ns[i - 1], ns[j]) || OffNode(ns[j], ns[i - 1]); }
  }

  /** What the four writes of an insertion between path nodes k and k + 1 leave. */
  ghost predicate Inserted(m: Memory, m': Memory, pred: nat, n: nat, succ: nat)
  {
    && Link(m', pred, n) && Link(m', n, succ)
    && (forall a | Clear(a, n) && Clear(a, n + 4) && Clear(a, pred) && Clear(a, succ + 4) :: Get(m', a) == Get(m, a))
  }

  lemma InsertedKeeps(m: Memory, m': Memory, list: nat, ns: seq<nat>, k: nat, i: nat)
    requires k + 1 <= |ns| && i <= |ns| && i != k && i != k + 1 && Apart(list, ns)
    requires var p := Path(list, ns); Inserted(m, m', p[k], p[k + 1], p[k + 2])
    ensures var p := Path(list, ns); Get(m', p[i]) == Get(m, p[i]) && Get(m', p[i + 1] + 4) == Get(m, p[i + 1] + 4)
  {
    hide Get, Apart, Path;
    WordsApart(list, ns, i, k);
    WordsApart(list, ns, i, k + 1);
    WordsApart(list, ns, k, i);
    WordsApart(list, ns, k + 1, i);
  }

  lemma InsertedIsList(m: Memory, m': Memory, list: nat, ns: seq<nat>, k: nat, n: nat)
    requires IsList(m, list, ns) && k <= |ns| && Apart(list, With1(ns, k, n))
    requires Inserted(m, m', Path(list, ns)[k], n, Path(list, ns)[k + 1])
    ensures IsList(m', list, With1(ns, k, n))
  {
    hide Get, Apart, Inserted;
    var p, ns', p' := Path(list, ns), With1(ns, k, n), Path(list, With1(ns, k, n));
    assert p'[k] == p[k] && p'[k + 1] == n && p'[k + 2] == p[k + 1];
    forall i | 0 <= i <= |ns'| ensures Link(m', p'[i], p'[i + 1]) {
      if i != k && i != k + 1 {
        var j := if i < k then i else i - 1;
        assert p'[i] == p[j] && p'[i + 1] == p[j + 1];
        assert Link(m, p[j], p[j + 1]);
        InsertedKeeps(m, m', list, ns', k, i);
      } else {
        assert Link(m', p[k], n) && Link(m', n, p[k + 1]) by { InsertedLinks(m, m', p[k], n, p[k + 1]); }
      }
    }
    InsertedTail(m, m', list, ns', k);
  }

  lemma InsertedLinks(m: Memory, m': Memory, pred: nat, n: nat, succ: nat)
    requires Inserted(m, m', pred, n, succ)
    ensures Link(m', pred, n) && Link(m', n, succ)
  {
  }

  lemma InsertedTail(m: Memory, m': Memory, list: nat, ns: seq<nat>, k: nat)
    requires k + 1 <= |ns| && Apart(list, ns)
    requires var p := Path(list, ns); Inserted(m, m', p[k], p[k + 1], p[k + 2])
    ensures Get(m', list + 4) == Get(m, list + 4)
  {
    hide Get, Apart, Path;
    WordsApart(list, ns, k, k);
    WordsApart(list, ns, k + 1, k + 1);
  }

  /** What the two writes of a removal leave. */
  ghost predicate Removed(m: Memory, m': Memory, pred: nat, succ: nat)
  {
    && Link(m', pred, succ)
    && (forall a | Clear(a, pred) && Clear(a, succ + 4) :: Get(m', a) == Get(m, a))
  }

  lemma RemovedKeeps(m: Memory, m': Memory, list: nat, ns: seq<nat>, k: nat, i: nat)
    requires k <= |ns| && i <= |ns| && Apart(list, ns)
    requires var p := Path(list, ns); Removed(m, m', p[k], p[k + 1])
    ensures var p := Path(list, ns);
            i != k ==> Get(m', p[i]) == Get(m, p[i]) && Get(m', p[i + 1] + 4) == Get(m, p[i + 1] + 4)
    ensures Get(m', list + 4) == Get(m, list + 4)
  {
    hide Get, Apart, Path;
    WordsApart(list, ns, i, k);
    WordsApart(list, ns, k, i);
    WordsApart(list, ns, k, k);
  }

  lemma RemovedIsList(m: Memory, m': Memory, list: nat, ns: seq<nat>, k: nat)
    requires IsList(m, list, ns) && k < |ns|
    requires Removed(m, m', Path(list, ns)[k], Path(list, ns)[k + 2])
    ensures IsList(m', list, Without1(ns, k))
  {
    hide Get, Apart;
    var p, ns', p' := Path(list, ns), Without1(ns, k), Path(list, Without1(ns, k));
    ApartWithout(list, ns, k);
    assert p'[k] == p[k] && p'[k + 1] == p[k + 2];
    forall i | 0 <= i <= |ns'| ensures Link(m', p'[i], p'[i + 1]) {
      if i != k {
        var j := if i < k then i else i + 1;
        assert p'[i] == p[j] && p'[i + 1] == p[j + 1];
        assert Link(m, p[j], p[j + 1]);
        RemovedKeeps(m, m', list, ns', k, i);
      }
    }
    RemovedKeeps(m, m', list, ns', k, k);
  }

  lemma ApartWithout(list: nat, ns: seq<nat>, k: nat)
    requires Apart(list, ns) && k < |ns|
    ensures Apart(list, Without1(ns, k))
  {
    var r := Without1(ns, k);
    forall i | 0 <= i < |r| ensures OffHeader(list, r[i]) {
      assert r[i] == ns[if i < k then i else i + 1];
    }
    forall i, j | 0 <= i < j < |r| ensures OffNode(r[i], r[j]) {
      assert r[i] == ns[if i < k then i else i + 1] && r[j] == ns[if j < k then j else j + 1];
    }
  }

  /** A node that overlaps neither the header nor a listed node can go anywhere in the list. */
  ghost predicate Fresh(list: nat, ns: seq<nat>, n: nat)
  {
    OffHeader(list, n) && forall i | 0 <= i < |ns| :: OffNode(n, ns[i])
  }

  lemma ApartWith(list: nat, ns: seq<nat>, k: nat, n: nat)
    requires Apart(list, ns) && Fresh(list, ns, n) && k <= |ns|
    ensures Apart(list, With1(ns, k, n))
  {
    var r := With1(ns, k, n);
    forall i | 0 <= i < |r| ensures OffHeader(list, r[i]) {
      assert i != k ==> r[i] == ns[if i < k then i else i - 1];
    }
    forall i, j | 0 <= i < j < |r| ensures OffNode(r[i], r[j]) {
      assert i != k ==> r[i] == ns[if i < k then i else i - 1];
      assert j != k ==> r[j] == ns[if j < k then j else j - 1];
    }
  }

  /** The links at path node k. */
  lemma LinkAt(m: Memory, list: nat, ns: seq<nat>, k: nat)
    requires IsList(m, list, ns) && k <= |ns|
    ensures Get(m, Path(list, ns)[k]) == Path(list, ns)[k + 1]
    ensures Get(m, Path(list, ns)[k + 1] + 4) == Path(list, ns)[k]
    ensures 0 < Path(list, ns)[k] && Path(list, ns)[k] + 8 <= WORD32 && Path(list, ns)[k + 1] + 8 <= WORD32
  {
    hide Get;
    assert Link(m, Path(list, ns)[k], Path(list, ns)[k + 1]);
    if 0 < k { assert OffHeader(list, ns[k - 1]); }
    if k < |ns| { assert OffHeader(list, ns[k]); }
  }

  lemma InFootprint(list: nat, ns: seq<nat>, k: nat)
    requires k <= |ns|
    ensures forall a | Path(list, ns)[k] <= a < Path(list, ns)[k] + 4 :: Footprint(list, ns, a)
    ensures forall a | Path(list, ns)[k + 1] + 4 <= a < Path(list, ns)[k + 1] + 8 :: Footprint(list, ns, a)
    ensures 0 < k ==> forall a | Path(list, ns)[k] <= a < Path(list, ns)[k] + 8 :: Footprint(list, ns, a)
  {
    if 0 < k { assert Path(list, ns)[k] == ns[k - 1]; }
    if k < |ns| { assert Path(list, ns)[k + 1] == ns[k]; }
  }

  /** The four words an insertion writes are pairwise distinct and all in the footprint. */
  lemma InsertionWords(list: nat, ns: seq<nat>, k: nat, n: nat)
    requires Apart(list, ns) && Fresh(list, ns, n) && k <= |ns|
    ensures var pred, succ := Path(list, ns)[k], Path(list, ns)[k + 1];
            && Clear(n, n + 4) && Clear(pred, n) && Clear(pred, n + 4)
            && Clear(succ + 4, n) && Clear(succ + 4, n + 4) && Clear(pred, succ + 4)
            && n + 8 <= WORD32 && pred + 4 <= WORD32 && succ + 8 <= WORD32
    ensures Apart(list, With1(ns, k, n))
  {
    hide Apart;
    ApartWith(list, ns, k, n);
    var ns' := With1(ns, k, n);
    var p, p' := Path(list, ns), Path(list, ns');
    assert p'[k] == p[k] && p'[k + 1] == n && p'[k + 2] == p[k + 1];
    WordsApart(list, ns', k, k + 1);
    WordsApart(list, ns', k, k);
    WordsApart(list, ns', k + 1, k);
    WordsApart(list, ns', k + 1, k + 1);
    InRange(list, ns, k);
  }

  lemma InRange(list: nat, ns: seq<nat>, k: nat)
    requires Apart(list, ns) && k <= |ns|
    ensures Path(list, ns)[k] + 4 <= WORD32 && Path(list, ns)[k + 1] + 8 <= WORD32
  {
    if 0 < k { assert OffHeader(list, ns[k - 1]); }
    if k < |ns| { assert OffHeader(list, ns[k]); }
  }

  lemma InsertionFootprint(list: nat, ns: seq<nat>, k: nat, n: nat)
    requires k <= |ns|
    ensures var pred, succ := Path(list, ns)[k], Path(list, ns)[k + 1];
            forall a | n <= a < n + 8 || pred <= a < pred + 4 || succ + 4 <= a < succ + 8 ::
              Footprint(list, With1(ns, k, n), a)
  {
    var ns' := With1(ns, k, n);
    var p, p' := Path(list, ns), Path(list, ns');
    assert p'[k] == p[k] && p'[k + 1] == n && p'[k + 2] == p[k + 1];
    InFootprint(list, ns', k);
    InFootprint(list, ns', k + 1);
  }

  /** Header and nodes lie in guest memory. */
  ghost predicate InGuest(g: Guest, list: nat, ns: seq<nat>)
  {
    g.Span(list, HEADER) && forall i | 0 <= i < |ns| :: g.Span(ns[i], NODE)
  }

  lemma PathInGuest(g: Guest, list: nat, ns: seq<nat>, k: nat)
    requires InGuest(g, list, ns) && k <= |ns|
    ensures g.Span(Path(list, ns)[k], 4) && g.Span(Path(list, ns)[k + 1], 4) && g.Span(Path(list, ns)[k + 1] + 4, 4)
    ensures k > 0 ==> g.Span(Path(list, ns)[k] + 4, 4)
    ensures g.Span(list, 4) && g.Span(list + 8, 4)
  {
    hide Guest.Span;
    WordInSpan(g, list, HEADER, 0);
    WordInSpan(g, list, HEADER, 4);
    WordInSpan(g, list, HEADER, 8);
    if k > 0 { WordInSpan(g, ns[k - 1], NODE, 0); WordInSpan(g, ns[k - 1], NODE, 4); }
    if k < |ns| { WordInSpan(g, ns[k], NODE, 0); WordInSpan(g, ns[k], NODE, 4); }
  }

  method AddHead(g: Guest, list: nat, node: nat, ghost ns: seq<nat>)
    requires IsList(g.ram, list, ns) && Fresh(list, ns, node) && InGuest(g, list, ns) && g.Span(node, NODE)
    modifies g`ram
    ensures IsList(g.ram, list, [node] + ns)
    ensures SameOutside(old(g.ram), g.ram, list, [node] + ns)
  {
    hide Get, Put, Byte, Apart, Footprint, Guest.Span, InGuest;
    LinkAt(g.ram, list, ns, 0);
    PathInGuest(g, list, ns, 0);
    WordInSpan(g, node, NODE, 0);
    WordInSpan(g, node, NODE, 4);
    InsertionWords(list, ns, 0, node);
    InsertionFootprint(list, ns, 0, node);
    var head := g.Read(list);
    g.Write(node, head);
    g.Write(node + 4, list);
    g.Write(head + 4, node);
    g.Write(list, node);
    InsertedIsList(old(g.ram), g.ram, list, ns, 0, node);
    assert With1(ns, 0, node) == [node] + ns;
  }

  method AddTail(g: Guest, list: nat, node: nat, ghost ns: seq<nat>)
    requires IsList(g.ram, list, ns) && Fresh(list, ns, node) && InGuest(g, list, ns) && g.Span(node, NODE)
    modifies g`ram
    ensures IsList(g.ram, list, ns + [node])
    ensures SameOutside(old(g.ram), g.ram, list, ns + [node])
  {
    hide Get, Put, Byte, Apart, Footprint, Guest.Span, InGuest;
    LinkAt(g.ram, list, ns, |ns|);
    PathInGuest(g, list, ns, |ns|);
    WordInSpan(g, node, NODE, 0);
    WordInSpan(g, node, NODE, 4);
    InsertionWords(list, ns, |ns|, node);
    InsertionFootprint(list, ns, |ns|, node);
    var tailpred := g.Read(list + 8);
    g.Write(node, list + 4);
    g.Write(node + 4, tailpred);
    g.Write(tailpred, node);
    g.Write(list + 8, node);
    InsertedIsList(old(g.ram), g.ram, list, ns, |ns|, node);
    assert With1(ns, |ns|, node) == ns + [node];
  }

  /** Insert after the given node; a null predecessor or the header means at the head. */
  method Insert(g: Guest, list: nat, node: nat, pred: nat, ghost ns: seq<nat>, ghost k: nat)
    requires IsList(g.ram, list, ns) && Fresh(list, ns, node) && InGuest(g, list, ns) && g.Span(node, NODE) && k <= |ns|
    requires if k == 0 then pred == 0 || pred == list else pred == ns[k - 1]
    modifies g`ram
    ensures IsList(g.ram, list, With1(ns, k, node))
    ensures SameOutside(old(g.ram), g.ram, list, With1(ns, k, node))
  {
    hide Get, Put, Byte, Apart, Footprint, Guest.Span, InGuest;
    LinkAt(g.ram, list, ns, k);
    PathInGuest(g, list, ns, k);
    WordInSpan(g, node, NODE, 0);
    WordInSpan(g, node, NODE, 4);
    InsertionWords(list, ns, k, node);
    InsertionFootprint(list, ns, k, node);
    NotHeader(list, ns, k);
    var succ;
    if pred == 0 || pred == list {
      succ := g.Read(list);
      g.Write(node, succ);
      g.Write(node + 4, list);
      g.Write(succ + 4, node);
      g.Write(list, node);
    } else {
      succ := g.Read(pred);
      g.Write(node, succ);
      g.Write(node + 4, pred);
      g.Write(succ + 4, node);
      g.Write(pred, node);
    }
    InsertedIsList(old(g.ram), g.ram, list, ns, k, node);
  }

  lemma NotHeader(list: nat, ns: seq<nat>, k: nat)
    requires Apart(list, ns) && k <= |ns|
    ensures 0 < k ==> ns[k - 1] != list && ns[k - 1] != 0
    ensures k < |ns| ==> ns[k] != list && ns[k] != 0 && ns[k] != list + 4
  {
    if 0 < k { assert OffHeader(list, ns[k - 1]); }
    if k < |ns| { assert OffHeader(list, ns[k]); }
  }

  /** ln_Pri of each node, as memory holds it. */
  function Pri(m: Memory): nat -> int
  {
    n => Signed(Byte(m, n + 9))
  }

  /** Priority byte b is lower than c: on one side of 0x80 the smaller byte is, and the bytes from
      0x80 on are the negative ones. */
  predicate Lower(b: nat, c: nat)
  {
    if b < 0x80 <==> c < 0x80 then b < c else c < 0x80
  }

  lemma LowerIsSigned(b: nat, c: nat)
    requires b < 256 && c < 256
    ensures Lower(b, c) <==> Signed(b) < Signed(c)
  {
    SignedIs(b);
    SignedIs(c);
  }

  /** The node stands at k: no node ahead of it has a lower priority byte, and the next one has. */
  predicate StandsAt(m: Memory, ns: seq<nat>, node: nat, k: nat)
    requires k <= |ns|
  {
    && (forall i | 0 <= i < k :: !Lower(Byte(m, ns[i] + 9), Byte(m, node + 9)))
    && (k < |ns| ==> Lower(Byte(m, ns[k] + 9), Byte(m, node + 9)))
  }

  /** No node has a lower priority byte than a later one. */
  predicate Descending(m: Memory, ns: seq<nat>)
  {
    forall i, j | 0 <= i < j < |ns| :: !Lower(Byte(m, ns[i] + 9), Byte(m, ns[j] + 9))
  }

  lemma SpotByBytes(m: Memory, ns: seq<nat>, node: nat)
    ensures StandsAt(m, ns, node, Spot(Pri(m), ns, node))
  {
    hide Byte, Lower, Signed;
    forall i | 0 <= i < |ns| { LowerIsSigned(Byte(m, ns[i] + 9), Byte(m, node + 9)); }
  }

  lemma DescendingIsSorted(m: Memory, ns: seq<nat>)
    ensures Descending(m, ns) <==> Sorted(Pri(m), ns)
  {
    hide Byte, Lower, Signed;
    forall i, j | 0 <= i < |ns| && 0 <= j < |ns| { LowerIsSigned(Byte(m, ns[i] + 9), Byte(m, ns[j] + 9)); }
    if Descending(m, ns) {
      forall i, j | 0 <= i < j < |ns| ensures Pri(m)(ns[i]) >= Pri(m)(ns[j]) {
        assert !Lower(Byte(m, ns[i] + 9), Byte(m, ns[j] + 9));
      }
    }
    if Sorted(Pri(m), ns) {
      forall i, j | 0 <= i < j < |ns| ensures !Lower(Byte(m, ns[i] + 9), Byte(m, ns[j] + 9)) {
        assert Pri(m)(ns[i]) >= Pri(m)(ns[j]);
      }
    }
  }

  method Enqueue(g: Guest, list: nat, node: nat, ghost ns: seq<nat>)
    requires IsList(g.ram, list, ns) && Fresh(list, ns, node) && InGuest(g, list, ns) && g.Span(node, NODE)
    modifies g`ram
    ensures IsList(g.ram, list, Enq(Pri(old(g.ram)), ns, node))
    ensures SameOutside(old(g.ram), g.ram, list, Enq(Pri(old(g.ram)), ns, node))
    ensures exists k | 0 <= k <= |ns| :: StandsAt(old(g.ram), ns, node, k) && IsList(g.ram, list, With1(ns, k, node))
  {
    hide Get, Put, Byte, Apart, Footprint, Guest.Span, InGuest, StandsAt;
    ghost var k := Spot(Pri(g.ram), ns, node);
    var next := FindLower(g, list, node, ns);
    LinkAt(g.ram, list, ns, k);
    PathInGuest(g, list, ns, k);
    WordInSpan(g, node, NODE, 0);
    WordInSpan(g, node, NODE, 4);
    InsertionWords(list, ns, k, node);
    InsertionFootprint(list, ns, k, node);
    EnqAtSpot(Pri(g.ram), ns, node);
    SpotByBytes(g.ram, ns, node);
    var pred := g.Read(next + 4);
    g.Write(node, next);
    g.Write(node + 4, pred);
    g.Write(pred, node);
    g.Write(next + 4, node);
    InsertedIsList(old(g.ram), g.ram, list, ns, k, node);
  }

  lemma NonZero(list: nat, ns: seq<nat>, i: nat)
    requires Apart(list, ns) && i < |ns| + 2
    ensures Path(list, ns)[i] != 0
  {
    if 0 < i <= |ns| { assert OffHeader(list, ns[i - 1]); }
  }

  /** What a walk reads at path node i + 1: the next path node, or 0 at the tail sentinel. */
  lemma WalkAt(m: Memory, list: nat, ns: seq<nat>, i: nat)
    requires IsList(m, list, ns) && i <= |ns|
    ensures Get(m, Path(list, ns)[i + 1]) == if i < |ns| then Path(list, ns)[i + 2] else 0
    ensures i < |ns| ==> Path(list, ns)[i + 2] != 0
  {
    if i < |ns| {
      LinkAt(m, list, ns, i + 1);
      NonZero(list, ns, i + 2);
    }
  }

  lemma PathAt(list: nat, ns: seq<nat>, i: nat)
    requires i <= |ns|
    ensures i < |ns| ==> Path(list, ns)[i + 1] == ns[i]
  {
  }

  /** The walk of Enqueue: the first node of lower priority, or the tail sentinel. */
  method FindLower(g: Guest, list: nat, node: nat, ghost ns: seq<nat>) returns (next: nat)
    requires IsList(g.ram, list, ns) && InGuest(g, list, ns)
    ensures next == Path(list, ns)[Spot(Pri(g.ram), ns, node) + 1]
  {
    hide Get, IsList, Signed, Byte, Guest.Span, InGuest, Path, Spot;
    PathInGuest(g, list, ns, 0);
    assert Path(list, ns)[0] == list;
    var pri := Signed(Byte(g.ram, node + 9));
    next := g.Read(list);
    ghost var i := 0;
    LinkAt(g.ram, list, ns, 0);
    WalkAt(g.ram, list, ns, 0);
    var succ := g.Read(next);
    while succ != 0
      invariant i <= |ns| && next == Path(list, ns)[i + 1]
      invariant succ == Get(g.ram, next) && (succ == 0 <==> i == |ns|)
      invariant forall j | 0 <= j < i :: Pri(g.ram)(ns[j]) >= pri
      decreases |ns| - i
    {
      PathAt(list, ns, i);
      if Signed(Byte(g.ram, next + 9)) < pri {
        break;
      }
      WalkAt(g.ram, list, ns, i);
      WalkAt(g.ram, list, ns, i + 1);
      PathInGuest(g, list, ns, i + 1);
      next := succ;
      succ := g.Read(next);
      i := i + 1;
    }
    SpotUnique(Pri(g.ram), ns, node, i);
  }

  lemma RemovalWords(list: nat, ns: seq<nat>, k: nat)
    requires Apart(list, ns) && k < |ns|
    ensures var pred, succ := Path(list, ns)[k], Path(list, ns)[k + 2];
            Clear(pred, succ + 4) && pred + 4 <= WORD32 && succ + 8 <= WORD32
    ensures var pred, succ := Path(list, ns)[k], Path(list, ns)[k + 2];
            forall a | pred <= a < pred + 4 || succ + 4 <= a < succ + 8 :: Footprint(list, Without1(ns, k), a)
  {
    hide Apart;
    InRange(list, ns, k);
    InRange(list, ns, k + 1);
    WordsApart(list, ns, k, k + 1);
    var p, p' := Path(list, ns), Path(list, Without1(ns, k));
    assert p'[k] == p[k] && p'[k + 1] == p[k + 2];
    InFootprint(list, Without1(ns, k), k);
  }

  method Remove(g: Guest, node: nat, ghost list: nat, ghost ns: seq<nat>, ghost k: nat)
    requires IsList(g.ram, list, ns) && InGuest(g, list, ns) && k < |ns| && ns[k] == node
    modifies g`ram
    ensures IsList(g.ram, list, Without1(ns, k))
    ensures SameOutside(old(g.ram), g.ram, list, Without1(ns, k))
  {
    hide Get, Put, Byte, Apart, Footprint, Guest.Span, InGuest;
    PathInGuest(g, list, ns, k);
    PathInGuest(g, list, ns, k + 1);
    LinkAt(g.ram, list, ns, k);
    LinkAt(g.ram, list, ns, k + 1);
    RemovalWords(list, ns, k);
    var succ, pred := g.Read(node), g.Read(node + 4);
    g.Write(pred, succ);
    g.Write(succ + 4, pred);
    RemovedIsList(old(g.ram), g.ram, list, ns, k);
  }

  /** RemHead; `corrupt` is the refusal of a header whose lh_Head is the header itself. */
  method RemHead(g: Guest, list: nat, ghost ns: seq<nat>) returns (corrupt: bool, node: nat)
    requires g.Span(list, HEADER) && list + HEADER <= WORD32
    modifies g`ram
    ensures corrupt <==> Get(old(g.ram), list) == list
    ensures corrupt ==> g.ram == old(g.ram)
    ensures IsList(old(g.ram), list, ns) && InGuest(g, list, ns) ==>
              !corrupt && Popped(old(g.ram), g.ram, list, ns, node, 0)
  {
    hide Get, Put, Byte, Apart, Footprint, Guest.Span, InGuest;
    WordInSpan(g, list, HEADER, 0);
    ghost var good := IsList(g.ram, list, ns) && InGuest(g, list, ns);
    if good {
      PathInGuest(g, list, ns, 0);
      LinkAt(g.ram, list, ns, 0);
      NotHeader(list, ns, 0);
      NonZero(list, ns, 1);
      if |ns| > 0 {
        LinkAt(g.ram, list, ns, 1);
        PathInGuest(g, list, ns, 1);
        NonZero(list, ns, 2);
        RemovalWords(list, ns, 0);
      }
    }
    node := g.Read(list);
    if node == list {
      return true, 0;
    }
    var succ := g.Read(node);
    if succ == 0 {
      return false, 0;
    }
    g.Write(list, succ);
    g.Write(succ + 4, list);
    corrupt := false;
    if good {
      RemovedIsList(old(g.ram), g.ram, list, ns, 0);
    }
  }

  /** The outcome of taking node k off a list: 0 and nothing changed when it is empty. */
  ghost predicate Popped(m: Memory, m': Memory, list: nat, ns: seq<nat>, node: nat, k: nat)
  {
    if k < |ns| then
      node == ns[k] && IsList(m', list, Without1(ns, k)) && SameOutside(m, m', list, Without1(ns, k))
    else
      node == 0 && m' == m
  }

  lemma WordInSpanOfHeader(g: Guest, list: nat, ns: seq<nat>)
    requires InGuest(g, list, ns)
    ensures g.Span(list, 4) && g.Span(list + 4, 4) && g.Span(list + 8, 4)
  {
  }

  method RemTail(g: Guest, list: nat, ghost ns: seq<nat>) returns (node: nat)
    requires IsList(g.ram, list, ns) && InGuest(g, list, ns)
    modifies g`ram
    ensures Popped(old(g.ram), g.ram, list, ns, node, if ns == [] then 0 else |ns| - 1)
  {
    hide Get, Put, Byte, Apart, Footprint, Guest.Span, InGuest;
    PathInGuest(g, list, ns, |ns|);
    WordInSpanOfHeader(g, list, ns);
    LinkAt(g.ram, list, ns, |ns|);
    if |ns| > 0 {
      LinkAt(g.ram, list, ns, |ns| - 1);
      PathInGuest(g, list, ns, |ns| - 1);
      NonZero(list, ns, |ns| - 1);
      RemovalWords(list, ns, |ns| - 1);
    }
    node := g.Read(list + 8);
    var pred := g.Read(node + 4);
    if pred == 0 {
      return 0;
    }
    g.Write(list + 8, pred);
    g.Write(pred, list + 4);
    RemovedIsList(old(g.ram), g.ram, list, ns, |ns| - 1);
  }

  method NewMinList(g: Guest, list: nat)
    requires list + HEADER <= WORD32 && (list != 0 ==> g.Span(list, HEADER))
    modifies g`ram
    ensures list == 0 ==> g.ram == old(g.ram)
    ensures list != 0 ==> IsList(g.ram, list, []) && SameOutside(old(g.ram), g.ram, list, [])
  {
    hide Get, Put, Byte;
    if list == 0 {
      return;
    }
    WordInSpan(g, list, HEADER, 0);
    WordInSpan(g, list, HEADER, 4);
    WordInSpan(g, list, HEADER, 8);
    g.Write(list, list + 4);
    g.Write(list + 4, 0);
    g.Write(list + 8, list);
  }

  /** No list operation touches a priority byte, so Enqueue keeps a list sorted as guest memory
      sees it afterwards. */
  lemma EnqueueKeepsSorted(m: Memory, m': Memory, list: nat, ns: seq<nat>, node: nat)
    requires Descending(m, ns) && Apart(list, Enq(Pri(m), ns, node))
    requires SameOutside(m, m', list, Enq(Pri(m), ns, node))
    ensures Descending(m', Enq(Pri(m), ns, node))
  {
    hide Apart, Byte, Enq, Footprint, Descending;
    DescendingIsSorted(m, ns);
    EnqueueKeepsOrder(Pri(m), ns, node);
    PriKept(m, m', list, Enq(Pri(m), ns, node));
    DescendingIsSorted(m', Enq(Pri(m), ns, node));
  }

  lemma PriKept(m: Memory, m': Memory, list: nat, ns: seq<nat>)
    requires Apart(list, ns) && SameOutside(m, m', list, ns)
    ensures forall i | 0 <= i < |ns| :: Pri(m')(ns[i]) == Pri(m)(ns[i])
  {
    hide Apart, Byte, Footprint;
    forall i | 0 <= i < |ns| ensures Pri(m')(ns[i]) == Pri(m)(ns[i]) {
      PriOutside(list, ns, i);
    }
  }

  lemma PriOutside(list: nat, ns: seq<nat>, i: nat)
    requires Apart(list, ns) && i < |ns|
    ensures !Footprint(list, ns, ns[i] + 9)
  {
    assert OffHeader(list, ns[i]);
    forall j | 0 <= j < |ns| ensures !(ns[j] <= ns[i] + 9 < ns[j] + 8) {
      if j < i { assert OffNode(ns[j], ns[i]); } else if i < j { assert OffNode(ns[i], ns[j]); }
    }
  }

  // ---- message ports in guest memory ---------------------------------------------------

  const MP_SIGBIT: nat := 15
  const MP_SIGTASK: nat := 16
  const MP_MSGLIST: nat := 20
  const TASK_SIGRECVD: nat := 26

  /** The task's signal word shares no byte with the port or with a queued message. */
  ghost predicate TaskApart(m: Memory, port: nat, ns: seq<nat>)
  {
    var s := Get(m, port + MP_SIGTASK) + TASK_SIGRECVD;
    && s + 4 <= WORD32 && (s + 4 <= port || port + MP_MSGLIST + HEADER <= s)
    && forall i | 0 <= i < |ns| :: s + 4 <= ns[i] || ns[i] + NODE <= s
  }

  /** The message does not overlap the port's own fields. */
  predicate OffPort(port: nat, n: nat)
  {
    n + NODE <= port || port + MP_MSGLIST <= n
  }

  ghost predicate IsPort(m: Memory, port: nat, ns: seq<nat>)
  {
    IsList(m, port + MP_MSGLIST, ns) && TaskApart(m, port, ns) && forall i | 0 <= i < |ns| :: OffPort(port, ns[i])
  }

  function SignalWord(m: Memory, port: nat): nat
  {
    Get(m, port + MP_SIGTASK) + TASK_SIGRECVD
  }

  /** PutMsg: the message goes to the end of the queue, then the owner's signal bit is set, and no
      other bit of its signal word changes. */
  method PutMsg(g: Guest, port: nat, msg: nat, ghost ns: seq<nat>)
    requires IsPort(g.ram, port, ns) && InGuest(g, port + MP_MSGLIST, ns) && g.Span(msg, NODE)
               && g.Span(port, MP_MSGLIST)
    requires Fresh(port + MP_MSGLIST, ns, msg) && OffPort(port, msg) && TaskApart(g.ram, port, [msg])
    modifies g`ram
    ensures IsPort(g.ram, port, ns + [msg])
    ensures var task, bit, s := Get(old(g.ram), port + MP_SIGTASK), Byte(old(g.ram), port + MP_SIGBIT),
              SignalWord(old(g.ram), port);
            forall j: nat :: Bit(Get(g.ram, s), j) <==>
                               Bit(Get(old(g.ram), s), j) || (j == bit && task != 0 && bit < 32 && g.Span(s, 4))
    ensures forall a | !Footprint(port + MP_MSGLIST, ns + [msg], a) && !(0 <= a - SignalWord(old(g.ram), port) < 4) ::
              Byte(g.ram, a) == Byte(old(g.ram), a)
  {
    hide Get, Put, Byte, Bit, Apart, Footprint, SetBit, Guest.Span, InGuest;
    WordInSpan(g, port, MP_MSGLIST, MP_SIGTASK);
    AddTail(g, port + MP_MSGLIST, msg, ns);
    ghost var m := g.ram;
    PortApart(old(g.ram), port, ns, msg);
    PortFields(old(g.ram), m, port, ns + [msg]);
    var task := g.Read(port + MP_SIGTASK);
    var bit := Byte(g.ram, port + MP_SIGBIT);
    if task != 0 && bit < 32 {
      SetBit32(g.Read(task + TASK_SIGRECVD), bit);
      forall j: nat { SetBitSets(g.Read(task + TASK_SIGRECVD), bit, j); }
      g.Write(task + TASK_SIGRECVD, SetBit(g.Read(task + TASK_SIGRECVD), bit));
      SignalKeepsPort(m, g.ram, port, ns + [msg]);
    }
  }

  lemma PortApart(m: Memory, port: nat, ns: seq<nat>, msg: nat)
    requires IsPort(m, port, ns) && OffPort(port, msg) && TaskApart(m, port, [msg])
    ensures TaskApart(m, port, ns + [msg]) && forall i | 0 <= i <= |ns| :: OffPort(port, (ns + [msg])[i])
  {
    assert [msg][0] == msg;
  }

  /** Neither the port's own fields nor the task's signal word are in the queue's footprint. */
  lemma PortFields(m: Memory, m': Memory, port: nat, ns: seq<nat>)
    requires TaskApart(m, port, ns) && (forall i | 0 <= i < |ns| :: OffPort(port, ns[i]))
    requires SameOutside(m, m', port + MP_MSGLIST, ns)
    ensures Get(m', port + MP_SIGTASK) == Get(m, port + MP_SIGTASK)
    ensures Byte(m', port + MP_SIGBIT) == Byte(m, port + MP_SIGBIT)
    ensures Get(m', SignalWord(m, port)) == Get(m, SignalWord(m, port)) && TaskApart(m', port, ns)
  {
    hide Byte, Get;
    var l := port + MP_MSGLIST;
    forall a | port + 15 <= a < port + 20 ensures !Footprint(l, ns, a) {
      forall i | 0 <= i < |ns| ensures !(ns[i] <= a < ns[i] + 8) { assert OffPort(port, ns[i]); }
    }
    GetOfBytes(m, m', port + MP_SIGTASK);
    var s := SignalWord(m, port);
    GetOfBytes(m, m', s);
  }

  /** Writing a word that overlaps neither the port nor a message leaves the port as it was. */
  lemma SignalKeepsPort(m: Memory, m': Memory, port: nat, ns: seq<nat>)
    requires IsPort(m, port, ns)
    requires forall b | Clear(SignalWord(m, port), b) :: Get(m', b) == Get(m, b)
    ensures IsPort(m', port, ns)
  {
    hide Get, Apart;
    var l, s := port + MP_MSGLIST, SignalWord(m, port);
    forall i | 0 <= i <= |ns| ensures Link(m', Path(l, ns)[i], Path(l, ns)[i + 1]) {
      assert Link(m, Path(l, ns)[i], Path(l, ns)[i + 1]);
    }
  }

  /** GetMsg: the oldest message, or 0. */
  method GetMsg(g: Guest, port: nat, ghost ns: seq<nat>) returns (msg: nat)
    requires IsPort(g.ram, port, ns) && InGuest(g, port + MP_MSGLIST, ns)
    modifies g`ram
    ensures if ns == [] then msg == 0 && g.ram == old(g.ram)
            else
              && msg == ns[0] && IsPort(g.ram, port, ns[1..])
              && SameOutside(old(g.ram), g.ram, port + MP_MSGLIST, ns[1..])
  {
    hide Get, Put, Byte, Apart, Footprint, Guest.Span, InGuest;
    var list := port + MP_MSGLIST;
    LinkAt(g.ram, list, ns, 0);
    NotHeader(list, ns, 0);
    WalkAt(g.ram, list, ns, 0);
    PathInGuest(g, list, ns, 0);
    if |ns| > 0 { PathInGuest(g, list, ns, 1); }
    if |ns| > 0 { RemovalWords(list, ns, 0); }
    var head := g.Read(list);
    var succ := if head != 0 then g.Read(head) else 0;
    if head == 0 || succ == 0 {
      return 0;
    }
    g.Write(list, succ);
    g.Write(succ + 4, list);
    RemovedIsList(old(g.ram), g.ram, list, ns, 0);
    assert Without1(ns, 0) == ns[1..];
    PortFields(old(g.ram), g.ram, port, ns[1..]);
    return head;
  }

  // ---- histories of a port in guest memory ---------------------------------------------

  datatype PortCall = Sent(msg: nat) | Received

  /** How many messages are queued after the calls. */
  function Depth(n: nat, calls: seq<PortCall>): nat
  {
    if calls == [] then n
    else
      var d := Depth(n, calls[..|calls| - 1]);
      if calls[|calls| - 1].Sent? then d + 1 else if d > 0 then d - 1 else 0
  }

  /** The messages sent, in order. */
  function SentIn(calls: seq<PortCall>): seq<nat>
  {
    if calls == [] then []
    else SentIn(calls[..|calls| - 1]) + (if calls[|calls| - 1].Sent? then [calls[|calls| - 1].msg] else [])
  }

  /** A message that can be put on the port: in guest memory, off the port's fields and the
      signal word w, and overlapping nothing queued. */
  ghost predicate Puttable(g: Guest, port: nat, w: nat, q: seq<nat>, m: nat)
  {
    && g.Span(m, NODE) && OffPort(port, m) && Fresh(port + MP_MSGLIST, q, m)
    && (w + 4 <= m || m + NODE <= w)
  }

  /** Every message is free of the queue when it is sent. */
  ghost predicate Sendable(g: Guest, port: nat, w: nat, q: seq<nat>, calls: seq<PortCall>)
    decreases |calls|
  {
    calls != [] ==>
      match calls[0]
      case Sent(m) => Puttable(g, port, w, q, m) && Sendable(g, port, w, q + [m], calls[1..])
      case Received => Sendable(g, port, w, if q == [] then q else q[1..], calls[1..])
  }

  lemma MoreInGuest(g: Guest, list: nat, ns: seq<nat>, m: nat)
    requires InGuest(g, list, ns) && g.Span(m, NODE)
    ensures InGuest(g, list, ns + [m])
  {
    hide Guest.Span;
  }

  lemma FewerInGuest(g: Guest, list: nat, ns: seq<nat>)
    requires InGuest(g, list, ns) && ns != []
    ensures InGuest(g, list, ns[1..])
  {
    hide Guest.Span;
  }

  /** The port's owner does not change, nor the address of its signal word. */
  lemma OwnerKept(m: Memory, m': Memory, port: nat, ns: seq<nat>)
    requires TaskApart(m, port, ns) && forall i | 0 <= i < |ns| :: OffPort(port, ns[i])
    requires forall a | !Footprint(port + MP_MSGLIST, ns, a) && !(0 <= a - SignalWord(m, port) < 4) ::
               Byte(m', a) == Byte(m, a)
    ensures SignalWord(m', port) == SignalWord(m, port)
  {
    hide Byte, Get;
    var l := port + MP_MSGLIST;
    forall a | port + MP_SIGTASK <= a < port + MP_SIGTASK + 4 ensures !Footprint(l, ns, a) {
      forall i | 0 <= i < |ns| ensures !(ns[i] <= a < ns[i] + 8) { assert OffPort(port, ns[i]); }
    }
    GetOfBytes(m, m', port + MP_SIGTASK);
  }

  /** PutMsg, with what the next call needs. */
  method Send(g: Guest, port: nat, msg: nat, ghost q: seq<nat>)
    requires IsPort(g.ram, port, q) && InGuest(g, port + MP_MSGLIST, q) && g.Span(port, MP_MSGLIST)
    requires Puttable(g, port, SignalWord(g.ram, port), q, msg)
    modifies g`ram
    ensures IsPort(g.ram, port, q + [msg]) && InGuest(g, port + MP_MSGLIST, q + [msg])
    ensures SignalWord(g.ram, port) == SignalWord(old(g.ram), port)
  {
    assert TaskApart(g.ram, port, [msg]);
    PortApart(g.ram, port, q, msg);
    hide Get, Byte, Apart, Footprint, Guest.Span, InGuest, IsList, Fresh;
    MoreInGuest(g, port + MP_MSGLIST, q, msg);
    PutMsg(g, port, msg, q);
    OwnerKept(old(g.ram), g.ram, port, q + [msg]);
  }

  /** GetMsg, with what the next call needs. */
  method Receive(g: Guest, port: nat, ghost q: seq<nat>) returns (msg: nat)
    requires IsPort(g.ram, port, q) && InGuest(g, port + MP_MSGLIST, q)
    modifies g`ram
    ensures msg == (if q == [] then 0 else q[0]) && (msg == 0 <==> q == [])
    ensures var q' := if q == [] then q else q[1..]; IsPort(g.ram, port, q') && InGuest(g, port + MP_MSGLIST, q')
    ensures SignalWord(g.ram, port) == SignalWord(old(g.ram), port)
  {
    if q != [] {
      NotHeader(port + MP_MSGLIST, q, 0);
      FewerInGuest(g, port + MP_MSGLIST, q);
    }
    ghost var m := g.ram;
    msg := GetMsg(g, port, q);
    hide Get, Byte, Apart, Footprint, Guest.Span, InGuest, IsList;
    if q != [] { OwnerKept(m, g.ram, port, q[1..]); }
  }

  /** Any history of PutMsg and GetMsg on a port in guest memory: the messages received, then
      those still queued, are those queued at first, then those sent, in order; and a GetMsg comes
      back empty only when nothing is queued. */
  method PortIsFifo(g: Guest, port: nat, calls: seq<PortCall>, ghost ns: seq<nat>)
      returns (got: seq<nat>, ghost left: seq<nat>)
    requires IsPort(g.ram, port, ns) && InGuest(g, port + MP_MSGLIST, ns) && g.Span(port, MP_MSGLIST)
    requires Sendable(g, port, SignalWord(g.ram, port), ns, calls)
    modifies g`ram
    ensures got + left == ns + SentIn(calls) && |left| == Depth(|ns|, calls)
    ensures IsPort(g.ram, port, left)
  {
    hide IsPort, InGuest, Puttable, SignalWord, Guest.Span;
    ghost var w, q := SignalWord(g.ram, port), ns;
    got := [];
    assert calls[0..] == calls;
    for i := 0 to |calls|
      invariant IsPort(g.ram, port, q) && InGuest(g, port + MP_MSGLIST, q) && SignalWord(g.ram, port) == w
      invariant Sendable(g, port, w, q, calls[i..])
      invariant got + q == ns + SentIn(calls[..i]) && |q| == Depth(|ns|, calls[..i])
    {
      CallsStep(calls, i, |ns|);
      match calls[i] {
        case Sent(m) =>
          Send(g, port, m, q);
          assert got + (q + [m]) == got + q + [m];
          q := q + [m];
        case Received =>
          var msg := Receive(g, port, q);
          if msg != 0 {
            assert q == [msg] + q[1..];
            assert (got + [msg]) + q[1..] == got + ([msg] + q[1..]);
            got := got + [msg];
          }
          q := if q == [] then q else q[1..];
      }
    }
    assert calls[..|calls|] == calls;
    left := q;
  }

  lemma CallsStep(calls: seq<PortCall>, i: nat, n: nat)
    requires i < |calls|
    ensures calls[i..][0] == calls[i] && calls[i..][1..] == calls[i + 1..]
    ensures SentIn(calls[..i + 1]) == SentIn(calls[..i]) + (if calls[i].Sent? then [calls[i].msg] else [])
    ensures Depth(n, calls[..i + 1]) ==
            var d := Depth(n, calls[..i]); if calls[i].Sent? then d + 1 else if d > 0 then d - 1 else 0
  {
    assert calls[..i + 1][..i] == calls[..i];
  }
}
