/** exec's priority lists as sequences: Enqueue inserts before the first node of strictly lower
    priority. */
module PriList {

  function Enq(pri: nat -> int, q: seq<nat>, n: nat): (r: seq<nat>)
    ensures |r| == |q| + 1
  {
    if q == [] || pri(q[0]) < pri(n) then [n] + q else [q[0]] + Enq(pri, q[1..], n)
  }

  /** Where Enqueue puts the node: the number of leading nodes of equal or higher priority. */
  function Spot(pri: nat -> int, q: seq<nat>, n: nat): (k: nat)
    ensures k <= |q|
    ensures forall i | 0 <= i < k :: pri(q[i]) >= pri(n)
    ensures k < |q| ==> pri(q[k]) < pri(n)
  {
    if q == [] || pri(q[0]) < pri(n) then 0 else 1 + Spot(pri, q[1..], n)
  }

  lemma EnqAtSpot(pri: nat -> int, q: seq<nat>, n: nat)
    ensures Enq(pri, q, n) == q[..Spot(pri, q, n)] + [n] + q[Spot(pri, q, n)..]
  {
    if q == [] || pri(q[0]) < pri(n) {
    } else {
      EnqAtSpot(pri, q[1..], n);
    }
  }

  lemma SpotUnique(pri: nat -> int, q: seq<nat>, n: nat, k: nat)
    requires k <= |q| && (forall i | 0 <= i < k :: pri(q[i]) >= pri(n)) && (k < |q| ==> pri(q[k]) < pri(n))
    ensures Spot(pri, q, n) == k
  {
    var s := Spot(pri, q, n);
    assert s < |q| ==> pri(q[s]) < pri(n);
  }

  /** Descending priority. */
  ghost predicate Sorted(pri: nat -> int, q: seq<nat>)
  {
    forall i, j | 0 <= i < j < |q| :: pri(q[i]) >= pri(q[j])
  }

  ghost predicate NoDup(q: seq<nat>)
  {
    q == [] || (q[0] !in q[1..] && NoDup(q[1..]))
  }

  function Without(q: seq<nat>, n: nat): (r: seq<nat>)
    ensures |r| <= |q|
  {
    if q == [] then [] else if q[0] == n then q[1..] else [q[0]] + Without(q[1..], n)
  }

  /** Enqueue keeps descending priority, adds exactly the node, and is first-in first-out among
      equals: nodes of equal or higher priority stay ahead, in their order, and every node of
      lower priority comes after. */
  lemma EnqueueKeepsOrder(pri: nat -> int, q: seq<nat>, n: nat)
    requires Sorted(pri, q)
    ensures var k, r := Spot(pri, q, n), Enq(pri, q, n);
            && Sorted(pri, r) && r[k] == n && r[..k] == q[..k] && r[k + 1..] == q[k..]
            && (forall i | 0 <= i < |q| :: i < k <==> pri(q[i]) >= pri(n))
  {
    hide Enq, Spot;
    EnqAtSpot(pri, q, n);
    SplitSorted(pri, q, Spot(pri, q, n), n);
  }

  lemma SplitSorted(pri: nat -> int, q: seq<nat>, k: nat, n: nat)
    requires Sorted(pri, q) && k <= |q| && (forall i | 0 <= i < k :: pri(q[i]) >= pri(n))
               && (k < |q| ==> pri(q[k]) < pri(n))
    ensures var r := q[..k] + [n] + q[k..]; Sorted(pri, r) && r[k] == n && r[..k] == q[..k] && r[k + 1..] == q[k..]
    ensures forall i | 0 <= i < |q| :: i < k <==> pri(q[i]) >= pri(n)
  {
    var r := q[..k] + [n] + q[k..];
    forall i, j | 0 <= i < j < |r| ensures pri(r[i]) >= pri(r[j]) {
      SplitAt(q, k, n, i);
      SplitAt(q, k, n, j);
    }
  }

  lemma SplitAt(q: seq<nat>, k: nat, n: nat, i: nat)
    requires k <= |q| && i <= |q|
    ensures (q[..k] + [n] + q[k..])[i] == if i < k then q[i] else if i == k then n else q[i - 1]
  {
  }

  lemma {:induction false} EnqMembers(pri: nat -> int, q: seq<nat>, n: nat)
    ensures forall x :: x in Enq(pri, q, n) <==> x in q || x == n
    ensures NoDup(q) && n !in q ==> NoDup(Enq(pri, q, n))
  {
    if q == [] {
    } else if pri(q[0]) < pri(n) {
      assert ([n] + q)[1..] == q;
    } else {
      EnqMembers(pri, q[1..], n);
      assert q == [q[0]] + q[1..];
      assert Enq(pri, q, n)[1..] == Enq(pri, q[1..], n);
    }
  }

  lemma {:induction false} WithoutMembers(q: seq<nat>, n: nat)
    requires NoDup(q)
    ensures forall x :: x in Without(q, n) <==> x in q && x != n
    ensures NoDup(Without(q, n))
  {
    if q == [] {
    } else {
      assert q == [q[0]] + q[1..];
      if q[0] != n {
        WithoutMembers(q[1..], n);
        assert Without(q, n)[1..] == Without(q[1..], n);
      }
    }
  }
}
