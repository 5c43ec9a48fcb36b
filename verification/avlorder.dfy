/** What histories of AVL_AddNode and AVL_RemNode do to the set of nodes, when the comparison
    callback is a total order. */
module AvlOrder {
  import opened Bits
  import opened GuestMemory
  import opened AvlTree
  import opened AvlMemory
  import opened Avl

  /** The callback orders nodes and keys alike, a node standing for its own key. */
  ghost predicate TotalOrder(cmp: Comparison)
  {
    && (forall a, b :: cmp(a, b) < 0 <==> cmp(b, a) > 0)
    && (forall a, b, c :: cmp(a, b) <= 0 && cmp(b, c) <= 0 ==> cmp(a, c) <= 0)
  }

  ghost predicate Sorted(cmp: Comparison, ns: seq<nat>)
  {
    forall i, j | 0 <= i < j < |ns| :: cmp(ns[i], ns[j]) < 0
  }

  lemma Strict(cmp: Comparison, a: nat, b: nat, c: nat)
    requires TotalOrder(cmp)
    ensures cmp(a, b) < 0 && cmp(b, c) <= 0 ==> cmp(a, c) < 0
    ensures cmp(a, b) <= 0 && cmp(b, c) < 0 ==> cmp(a, c) < 0
    ensures cmp(a, b) == 0 <==> cmp(b, a) == 0
  {
    assert cmp(c, a) <= 0 && cmp(a, b) <= 0 ==> cmp(c, b) <= 0;
    assert cmp(b, c) <= 0 && cmp(c, a) <= 0 ==> cmp(b, a) <= 0;
  }

  /** On a sorted tree every key splits the nodes: below, at most one equal, above. */
  lemma SortedIncreasing(cmp: Comparison, ns: seq<nat>, key: nat)
    requires TotalOrder(cmp) && Sorted(cmp, ns)
    ensures Increasing(cmp, ns, key)
  {
    forall i, j | 0 <= i < j < |ns| && cmp(ns[i], key) >= 0 ensures cmp(ns[j], key) > 0 {
      Strict(cmp, key, ns[i], ns[j]);
    }
  }

  /** The duplicate test finds an equal node exactly when the tree has one, and it is the only one. */
  lemma EqualIffPresent(cmp: Comparison, ns: seq<nat>, key: nat)
    requires TotalOrder(cmp) && Sorted(cmp, ns)
    ensures Equal(cmp, ns, key) <==> exists n :: n in ns && cmp(n, key) == 0
    ensures Equal(cmp, ns, key) ==> forall n | n in ns && cmp(n, key) == 0 :: n == ns[Place(cmp, ns, key)]
  {
    hide TotalOrder, Sorted;
    SortedIncreasing(cmp, ns, key);
    var k := Place(cmp, ns, key);
    forall n | n in ns && cmp(n, key) == 0 ensures k < |ns| && n == ns[k] {
      var i :| 0 <= i < |ns| && ns[i] == n;
    }
  }

  lemma Flip(cmp: Comparison, a: nat, b: nat)
    requires TotalOrder(cmp) && cmp(a, b) > 0
    ensures cmp(b, a) < 0
  {
  }

  lemma InsertSorted(cmp: Comparison, ns: seq<nat>, n: nat)
    requires TotalOrder(cmp) && Sorted(cmp, ns) && !Equal(cmp, ns, n)
    ensures Sorted(cmp, Inserted(ns, Place(cmp, ns, n), n))
  {
    hide TotalOrder;
    SortedIncreasing(cmp, ns, n);
    var k := Place(cmp, ns, n);
    var s := Inserted(ns, k, n);
    forall i | k <= i < |ns| ensures cmp(n, ns[i]) < 0 {
      assert cmp(ns[i], n) > 0;
      Flip(cmp, ns[i], n);
    }
    assert |s| == |ns| + 1 && s[k] == n;
    forall i | 0 <= i < |s| ensures i != k ==> s[i] == ns[if i < k then i else i - 1] {}
    forall i, j | 0 <= i < j < |s| ensures cmp(s[i], s[j]) < 0 {
      InsertedPair(cmp, ns, k, n, i, j);
    }
  }

  lemma InsertedPair(cmp: Comparison, ns: seq<nat>, k: nat, n: nat, i: nat, j: nat)
    requires Sorted(cmp, ns) && k <= |ns| && i < j <= |ns|
    requires (forall i | 0 <= i < k :: cmp(ns[i], n) < 0) && forall i | k <= i < |ns| :: cmp(n, ns[i]) < 0
    ensures cmp(Inserted(ns, k, n)[i], Inserted(ns, k, n)[j]) < 0
  {
    var s := Inserted(ns, k, n);
    assert i != k ==> s[i] == ns[if i < k then i else i - 1];
    assert j != k ==> s[j] == ns[if j < k then j else j - 1];
  }

  lemma DeleteSorted(cmp: Comparison, ns: seq<nat>, k: nat)
    requires Sorted(cmp, ns) && k < |ns|
    ensures Sorted(cmp, Deleted(ns, k))
  {
    var s := Deleted(ns, k);
    forall i, j | 0 <= i < j < |s| ensures cmp(s[i], s[j]) < 0 {
      assert s[i] == ns[if i < k then i else i + 1] && s[j] == ns[if j < k then j else j + 1];
    }
  }

  lemma SortedDistinct(cmp: Comparison, ns: seq<nat>)
    requires TotalOrder(cmp) && Sorted(cmp, ns)
    ensures forall i, j | 0 <= i < j < |ns| :: ns[i] != ns[j]
  {
    forall i, j | 0 <= i < j < |ns| ensures ns[i] != ns[j] {
      assert cmp(ns[i], ns[i]) < 0 <==> cmp(ns[i], ns[i]) > 0;
    }
  }

  /** A set of nodes has one sorted sequence, and so one rebuilt tree. */
  lemma {:induction false} SortedUnique(cmp: Comparison, a: seq<nat>, b: seq<nat>)
    requires TotalOrder(cmp) && Sorted(cmp, a) && Sorted(cmp, b) && forall n :: n in a <==> n in b
    ensures a == b
    decreases |a|
  {
    if a == [] {
      assert forall i | 0 <= i < |b| :: b[i] in a;
    } else {
      assert a[0] in b && (b != [] ==> b[0] in a);
      HeadsAgree(cmp, a, b);
      TailMembers(cmp, a);
      TailMembers(cmp, b);
      SortedUnique(cmp, a[1..], b[1..]);
    }
  }

  lemma HeadsAgree(cmp: Comparison, a: seq<nat>, b: seq<nat>)
    requires TotalOrder(cmp) && Sorted(cmp, a) && Sorted(cmp, b) && a != [] && b != [] && a[0] in b && b[0] in a
    ensures a[0] == b[0]
  {
    var i :| 0 <= i < |b| && b[i] == a[0];
    var j :| 0 <= j < |a| && a[j] == b[0];
    HeadFirst(cmp, b, i);
    HeadFirst(cmp, a, j);
  }

  lemma HeadFirst(cmp: Comparison, s: seq<nat>, i: nat)
    requires Sorted(cmp, s) && i < |s|
    ensures i == 0 || cmp(s[0], s[i]) < 0
  {
  }

  lemma TailMembers(cmp: Comparison, a: seq<nat>)
    requires TotalOrder(cmp) && Sorted(cmp, a) && a != []
    ensures forall n :: n in a[1..] <==> n in a && n != a[0]
    ensures Sorted(cmp, a[1..])
  {
    hide TotalOrder;
    SortedDistinct(cmp, a);
    assert a == [a[0]] + a[1..];
  }

  // ---- histories -----------------------------------------------------------------------

  datatype Op = Add(node: nat) | RemoveNode(node: nat) | RemoveKey(key: nat)

  /** What every call of a history shares: the guest, the root pointer, the comparison callback
      (0 for none) and what it computes. */
  datatype Setting = Setting(guest: Guest, rootp: nat, callback: nat, cmp: Comparison)

  /** The calls that are not refused, in a tree of this many nodes all inside guest memory. */
  predicate Accepts(c: Setting, size: nat, op: Op)
  {
    && c.guest.Span(c.rootp, 4) && size <= LIMIT
    && match op
       case Add(n) => c.guest.Span(n, AVLNODE) && (c.callback != 0 || size == 0)
       case RemoveNode(_) => true
       case RemoveKey(_) => c.callback != 0 || size == 0
  }

  /** The nodes in order after one call, as the contracts of the two methods give them. */
  function Play(c: Setting, ns: seq<nat>, op: Op): seq<nat>
  {
    if Accepts(c, |ns|, op) then Edit(c.cmp, ns, op) else ns
  }

  function Edit(cmp: Comparison, ns: seq<nat>, op: Op): seq<nat>
  {
    match op
    case Add(n) => if Equal(cmp, ns, n) then ns else Inserted(ns, Place(cmp, ns, n), n)
    case RemoveNode(n) => Drop(ns, Target(true, cmp, ns, n))
    case RemoveKey(key) => Drop(ns, Target(false, cmp, ns, key))
  }

  function Drop(ns: seq<nat>, k: nat): seq<nat>
  {
    if k < |ns| then Deleted(ns, k) else ns
  }

  function History(c: Setting, ops: seq<Op>): seq<nat>
  {
    if ops == [] then [] else Play(c, History(c, ops[..|ops| - 1]), ops[|ops| - 1])
  }

  /** The same history on a set of nodes, with no order and no positions. */
  ghost function Contents(c: Setting, ops: seq<Op>): set<nat>
  {
    if ops == [] then {}
    else
      var s := Contents(c, ops[..|ops| - 1]);
      if !Accepts(c, |s|, ops[|ops| - 1]) then s
      else
        match ops[|ops| - 1]
        case Add(n) => if exists x :: x in s && c.cmp(x, n) == 0 then s else s + {n}
        case RemoveNode(n) => s - {n}
        case RemoveKey(key) => set x | x in s && c.cmp(x, key) != 0
  }

  /** After any history, refused calls included, the tree holds, in order, exactly the nodes of
      the set, all inside guest memory. */
  lemma {:induction false} TreeHoldsSet(c: Setting, ops: seq<Op>)
    requires TotalOrder(c.cmp)
    ensures Sorted(c.cmp, History(c, ops)) && InSpan(c.guest, History(c, ops))
    ensures forall n :: n in History(c, ops) <==> n in Contents(c, ops)
    ensures |History(c, ops)| == |Contents(c, ops)|
  {
    hide TotalOrder, Sorted, Guest.Span, Edit;
    if ops == [] {
      NothingSorted(c.cmp);
    } else {
      var prior, op := ops[..|ops| - 1], ops[|ops| - 1];
      TreeHoldsSet(c, prior);
      PlayHoldsSet(c.cmp, History(c, prior), op);
      PlayInSpan(c, History(c, prior), op);
      CountIsSize(c.cmp, History(c, ops), Contents(c, ops));
    }
  }

  lemma NothingSorted(cmp: Comparison)
    ensures Sorted(cmp, [])
  {
  }

  lemma PlayInSpan(c: Setting, ns: seq<nat>, op: Op)
    requires InSpan(c.guest, ns)
    ensures InSpan(c.guest, Play(c, ns, op))
  {
    hide Guest.Span;
    if Accepts(c, |ns|, op) {
      match op
      case Add(n) => EditsInSpan(c.guest, ns, Place(c.cmp, ns, n), n);
      case RemoveNode(n) =>
        var i := Target(true, c.cmp, ns, n);
        if i < |ns| { RestInSpan(c.guest, ns, i); }
      case RemoveKey(k) =>
        var i := Target(false, c.cmp, ns, k);
        if i < |ns| { RestInSpan(c.guest, ns, i); }
    }
  }

  /** A sorted sequence is as long as the set of its nodes is large. */
  lemma {:induction false} CountIsSize(cmp: Comparison, ns: seq<nat>, s: set<nat>)
    requires TotalOrder(cmp) && Sorted(cmp, ns) && forall n :: n in ns <==> n in s
    ensures |ns| == |s|
  {
    hide TotalOrder, Sorted;
    if ns == [] {
      assert s == {};
    } else {
      TailMembers(cmp, ns);
      CountIsSize(cmp, ns[1..], s - {ns[0]});
      assert ns[0] in s;
    }
  }

  lemma PlayHoldsSet(cmp: Comparison, ns: seq<nat>, op: Op)
    requires TotalOrder(cmp) && Sorted(cmp, ns)
    ensures Sorted(cmp, Edit(cmp, ns, op))
    ensures match op
            case Add(n) =>
              (forall x :: x in Edit(cmp, ns, op) <==> x in ns || (x == n && forall y | y in ns :: cmp(y, n) != 0))
            case RemoveNode(n) => forall x :: x in Edit(cmp, ns, op) <==> x in ns && x != n
            case RemoveKey(key) => forall x :: x in Edit(cmp, ns, op) <==> x in ns && cmp(x, key) != 0
  {
    hide TotalOrder, Sorted;
    match op
    case Add(n) =>
      EqualIffPresent(cmp, ns, n);
      if !Equal(cmp, ns, n) {
        InsertSorted(cmp, ns, n);
        InsertMembers(ns, Place(cmp, ns, n), n);
      }
    case RemoveNode(n) =>
      var k := IndexOf(ns, n);
      if k < |ns| {
        DeleteSorted(cmp, ns, k);
        DeleteMembers(cmp, ns, k);
      }
    case RemoveKey(key) =>
      EqualIffPresent(cmp, ns, key);
      if Equal(cmp, ns, key) {
        DeleteSorted(cmp, ns, Place(cmp, ns, key));
        DeleteMembers(cmp, ns, Place(cmp, ns, key));
      }
  }

  lemma InsertMembers(ns: seq<nat>, k: nat, n: nat)
    requires k <= |ns|
    ensures forall x :: x in Inserted(ns, k, n) <==> x in ns || x == n
  {
    assert ns == ns[..k] + ns[k..];
  }

  lemma DeleteMembers(cmp: Comparison, ns: seq<nat>, k: nat)
    requires TotalOrder(cmp) && Sorted(cmp, ns) && k < |ns|
    ensures forall x :: x in Deleted(ns, k) <==> x in ns && x != ns[k]
  {
    SortedDistinct(cmp, ns);
    assert ns == ns[..k] + [ns[k]] + ns[k + 1..];
  }

  /** Two histories that leave the same set leave the same tree, down to its shape. */
  lemma TreeIsFunctionOfSet(c: Setting, ops: seq<Op>, ops': seq<Op>)
    requires TotalOrder(c.cmp) && Contents(c, ops) == Contents(c, ops')
    ensures Whole(History(c, ops)) == Whole(History(c, ops'))
  {
    hide TotalOrder, Sorted, Build;
    TreeHoldsSet(c, ops);
    TreeHoldsSet(c, ops');
    SortedUnique(c.cmp, History(c, ops), History(c, ops'));
  }

  /** Where the node just added is found again. */
  lemma AddedIsFound(cmp: Comparison, ns: seq<nat>, n: nat)
    requires TotalOrder(cmp) && Sorted(cmp, ns) && !Equal(cmp, ns, n)
    ensures var k := Place(cmp, ns, n);
            var s := Inserted(ns, k, n);
            IndexOf(s, n) == k && Place(cmp, s, n) == k && cmp(s[k], n) == 0 && Deleted(s, k) == ns
  {
    hide TotalOrder, Sorted;
    var k := Place(cmp, ns, n);
    var s := Inserted(ns, k, n);
    SelfEqual(cmp, n);
    forall i | 0 <= i < k ensures cmp(s[i], n) < 0 && s[i] != n { assert s[i] == ns[i]; }
    assert s[k] == n;
    IndexOfUnique(s, n, k);
    PlaceUnique(cmp, s, n, k);
    assert Deleted(s, k) == ns;
  }

  lemma SelfEqual(cmp: Comparison, n: nat)
    requires TotalOrder(cmp)
    ensures cmp(n, n) == 0
  {
    assert cmp(n, n) < 0 <==> cmp(n, n) > 0;
  }

  /** Removing the node just added by an accepted call restores the tree, by address exactly when
      the add did not fill it past what a later call will walk, by key if there is a callback too. */
  lemma RemoveUndoesAdd(c: Setting, ns: seq<nat>, n: nat)
    requires TotalOrder(c.cmp) && Sorted(c.cmp, ns) && Accepts(c, |ns|, Add(n)) && !Equal(c.cmp, ns, n)
    ensures Play(c, Play(c, ns, Add(n)), RemoveNode(n)) == ns <==> |ns| < LIMIT
    ensures Play(c, Play(c, ns, Add(n)), RemoveKey(n)) == ns <==> |ns| < LIMIT && c.callback != 0
  {
    hide TotalOrder, Sorted;
    AddedIsFound(c.cmp, ns, n);
    assert |Play(c, ns, Add(n))| == |ns| + 1;
  }

  // ---- past the guard ------------------------------------------------------------------

  /** A tree past the guard has 65537 nodes, and no later call changes it. */
  lemma {:induction false} OverfullForever(c: Setting, ops: seq<Op>, more: seq<Op>)
    requires |History(c, ops)| > LIMIT
    ensures History(c, ops + more) == History(c, ops) && |History(c, ops)| == LIMIT + 1
    decreases |more|
  {
    SizeBounded(c, ops);
    if more == [] {
      assert ops + more == ops;
    } else {
      var all := ops + more;
      assert all[..|all| - 1] == ops + more[..|more| - 1];
      OverfullForever(c, ops, more[..|more| - 1]);
    }
  }

  lemma {:induction false} SizeBounded(c: Setting, ops: seq<Op>)
    ensures |History(c, ops)| <= LIMIT + 1
  {
    if ops != [] { SizeBounded(c, ops[..|ops| - 1]); }
  }

  /** Nodes one after another, in the order of their addresses. */
  function Rung(i: int): nat
  {
    if i < 0 then 0 else 16 * (i + 1)
  }

  function Ladder(k: nat): seq<Op>
  {
    seq(k, i => Add(Rung(i)))
  }

  function Rungs(k: nat): seq<nat>
  {
    seq(k, i => Rung(i))
  }

  /** A guest of two megabytes, the root pointer at 4, nodes ordered by address. */
  ghost predicate Plain(c: Setting)
  {
    c.guest.origin == 0 && c.guest.size == 0x20_0000 && c.rootp == 4 && c.callback != 0 && c.cmp == ((a, b) => a - b)
  }

  lemma NextRung(k: nat)
    requires k > 0
    ensures Rungs(k) == Rungs(k - 1) + [Rung(k - 1)]
    ensures Ladder(k)[..k - 1] == Ladder(k - 1) && Ladder(k)[k - 1] == Add(Rung(k - 1))
  {
  }

  lemma RungGoesLast(c: Setting, k: nat)
    requires Plain(c) && 0 < k <= LIMIT + 1
    ensures Play(c, Rungs(k - 1), Add(Rung(k - 1))) == Rungs(k - 1) + [Rung(k - 1)]
  {
    var ns, n := Rungs(k - 1), Rung(k - 1);
    assert |ns| == k - 1 && forall i | 0 <= i < |ns| :: ns[i] == Rung(i);
    hide Rungs, Place;
    PlaceUnique(c.cmp, ns, n, k - 1);
  }

  lemma {:induction false} LadderClimbs(c: Setting, k: nat)
    requires Plain(c) && k <= LIMIT + 1
    ensures History(c, Ladder(k)) == Rungs(k)
  {
    hide Play, Rungs, Plain;
    if k == 0 {
      assert Rungs(0) == [] by { NoRungs(); }
    } else {
      LadderClimbs(c, k - 1);
      NextRung(k);
      RungGoesLast(c, k);
    }
  }

  lemma NoRungs()
    ensures Rungs(0) == []
  {
  }

  /** Sixty-five thousand five hundred and thirty-seven adds are all accepted, and then even the
      first node cannot be removed. */
  lemma FullTreeSticks(c: Setting)
    requires Plain(c)
    ensures var ns := History(c, Ladder(LIMIT + 1)); |ns| == LIMIT + 1 && Play(c, ns, RemoveNode(ns[0])) == ns
    ensures forall k | 0 <= k <= LIMIT :: Accepts(c, |History(c, Ladder(k))|, Ladder(LIMIT + 1)[k])
  {
    LadderClimbs(c, LIMIT + 1);
    forall k | 0 <= k <= LIMIT ensures Accepts(c, |History(c, Ladder(k))|, Ladder(LIMIT + 1)[k]) {
      LadderClimbs(c, k);
    }
  }

  // ---- histories in guest memory -------------------------------------------------------

  /** The nodes a history adds do not overlap each other or the root pointer. */
  ghost predicate Named(c: Setting, ops: seq<Op>)
  {
    && (forall n: nat | Add(n) in ops :: 0 < n && n + AVLNODE <= WORD32 && (c.rootp + 4 <= n || n + AVLNODE <= c.rootp))
    && (forall n: nat, m: nat | Add(n) in ops && Add(m) in ops && n != m :: Off(n, m))
  }

  lemma {:induction false} HistoryNamed(c: Setting, ops: seq<Op>)
    requires TotalOrder(c.cmp)
    ensures forall n | n in History(c, ops) :: Add(n) in ops
  {
    hide TotalOrder, Sorted, Guest.Span, Edit;
    if ops != [] {
      var prior, op := ops[..|ops| - 1], ops[|ops| - 1];
      HistoryNamed(c, prior);
      TreeHoldsSet(c, prior);
      PlayHoldsSet(c.cmp, History(c, prior), op);
      assert ops == prior + [op];
    }
  }

  /** A node about to be added is in the tree already, or overlaps nothing of it. */
  lemma AddIsFair(c: Setting, ops: seq<Op>, i: nat, n: nat)
    requires TotalOrder(c.cmp) && Named(c, ops) && i < |ops| && ops[i] == Add(n)
    ensures var ns := History(c, ops[..i]); Equal(c.cmp, ns, n) || Joins(c.rootp, ns, n)
  {
    hide TotalOrder, Sorted, History, Equal, Place;
    var ns := History(c, ops[..i]);
    HistoryNamed(c, ops[..i]);
    TreeHoldsSet(c, ops[..i]);
    EqualIffPresent(c.cmp, ns, n);
    SelfEqual(c.cmp, n);
    if n !in ns { NamedJoins(c, ops, ns, n); }
  }

  lemma NamedJoins(c: Setting, ops: seq<Op>, ns: seq<nat>, n: nat)
    requires Named(c, ops) && Add(n) in ops && n !in ns && forall m | m in ns :: Add(m) in ops
    ensures Joins(c.rootp, ns, n)
  {
    forall j | 0 <= j < |ns| ensures Off(n, ns[j]) {
      assert ns[j] in ns && Add(ns[j]) in ops;
    }
  }

  lemma NoHistory(c: Setting)
    ensures History(c, []) == []
  {
  }

  lemma HistoryStep(c: Setting, ops: seq<Op>, i: nat)
    requires i < |ops|
    ensures History(c, ops[..i + 1]) == Play(c, History(c, ops[..i]), ops[i])
  {
    hide Play;
    assert ops[..i + 1][..i] == ops[..i] && ops[..i + 1][i] == ops[i];
  }

  /** One call on guest memory. */
  method Perform(c: Setting, op: Op, ghost ns: seq<nat>) returns (r: Walk)
    requires RebuiltAs(c.guest.ram, c.rootp, ns) && InSpan(c.guest, ns)
    requires op.Add? ==> Equal(c.cmp, ns, op.node) || Joins(c.rootp, ns, op.node)
    modifies c.guest`ram
    ensures RebuiltAs(c.guest.ram, c.rootp, Play(c, ns, op))
    ensures r.Refused? <==> !Accepts(c, |ns|, op)
  {
    RebuiltIsRooted(c.guest.ram, c.rootp, ns);
    hide RebuiltAs, Equal, Joins, Rooted, Guest.Span, InSpan, Target, Whole, InOrder;
    match op {
      case Add(n) => r := AvlAddNode(c.guest, c.rootp, n, c.callback, c.cmp, Whole(ns));
      case RemoveNode(n) => r := AvlRemNode(c.guest, c.rootp, n, true, c.callback, c.cmp, Whole(ns));
      case RemoveKey(key) => r := AvlRemNode(c.guest, c.rootp, key, false, c.callback, c.cmp, Whole(ns));
    }
  }

  /** The calls themselves, one after another on guest memory: from an empty tree they leave
      exactly the rebuilt tree of the history, and refuse exactly where it says. */
  method Replay(c: Setting, ops: seq<Op>) returns (answers: seq<Walk>)
    requires TotalOrder(c.cmp) && Named(c, ops) && RebuiltAs(c.guest.ram, c.rootp, [])
    modifies c.guest`ram
    ensures RebuiltAs(c.guest.ram, c.rootp, History(c, ops))
    ensures |answers| == |ops|
    ensures forall i | 0 <= i < |ops| :: answers[i].Refused? <==> !Accepts(c, |History(c, ops[..i])|, ops[i])
  {
    hide TotalOrder, RebuiltAs, Equal, Joins, InSpan, Named, Accepts, Sorted, Play, History;
    NoHistory(c);
    answers := [];
    for i := 0 to |ops|
      invariant RebuiltAs(c.guest.ram, c.rootp, History(c, ops[..i]))
      invariant |answers| == i
      invariant forall j | 0 <= j < i :: answers[j].Refused? <==> !Accepts(c, |History(c, ops[..j])|, ops[j])
    {
      TreeHoldsSet(c, ops[..i]);
      if ops[i].Add? { AddIsFair(c, ops, i, ops[i].node); }
      HistoryStep(c, ops, i);
      var r := Perform(c, ops[i], History(c, ops[..i]));
      answers := answers + [r];
    }
    assert ops[..|ops|] == ops;
  }

  lemma RebuiltIsRooted(m: Memory, rootp: nat, ns: seq<nat>)
    requires RebuiltAs(m, rootp, ns)
    ensures Rooted(m, rootp, Whole(ns)) && InOrder(Whole(ns)) == ns
  {
  }
}
