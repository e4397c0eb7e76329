/** The list of held messages of message_queue.c: what draining does to it, on values and on linked memory. */
module Priorities {
  import opened Chains

  datatype Msg = Msg(prio: nat, data: nat)

  /** Highest priority first. */
  predicate Sorted(q: seq<Msg>) { forall i, j :: 0 <= i < j < |q| ==> q[i].prio >= q[j].prio }

  /** The first message of lower priority than p. */
  function Spot(q: seq<Msg>, p: nat, from: nat := 0): (i: nat)
    requires from <= |q|
    ensures from <= i <= |q|
    ensures forall j :: from <= j < i ==> q[j].prio >= p
    ensures i < |q| ==> q[i].prio < p
    decreases |q| - from
  {
    if from < |q| && q[from].prio >= p then Spot(q, p, from + 1) else from
  }

  function Insert(q: seq<Msg>, m: Msg): seq<Msg> {
    var i := Spot(q, m.prio);
    q[..i] + [m] + q[i..]
  }

  /** A drained batch, newest message first, is inserted message by message. */
  function Merge(held: seq<Msg>, batch: seq<Msg>): seq<Msg>
    decreases |batch|
  {
    if batch == [] then held else Merge(Insert(held, batch[0]), batch[1..])
  }

  /** The messages of one priority, in order. */
  function Only(q: seq<Msg>, p: nat): seq<Msg> {
    if q == [] then [] else (if q[0].prio == p then [q[0]] else []) + Only(q[1..], p)
  }

  lemma InsertSorted(q: seq<Msg>, m: Msg)
    requires Sorted(q)
    ensures Sorted(Insert(q, m))
  {}

  lemma Associative<T>(a: seq<T>, b: seq<T>, c: seq<T>)
    ensures (a + b) + c == a + (b + c)
  {}

  lemma {:induction false} OnlyConcat(a: seq<Msg>, b: seq<Msg>, p: nat)
    ensures Only(a + b, p) == Only(a, p) + Only(b, p)
  {
    if a == [] {
      assert a + b == b;
    } else {
      var t := a + b;
      assert t[0] == a[0] && t[1..] == a[1..] + b;
      OnlyConcat(a[1..], b, p);
      Associative(if a[0].prio == p then [a[0]] else [], Only(a[1..], p), Only(b, p));
    }
  }

  lemma {:induction false} OnlyNone(q: seq<Msg>, p: nat)
    requires forall i :: 0 <= i < |q| ==> q[i].prio != p
    ensures Only(q, p) == []
  {
    if q != [] { OnlyNone(q[1..], p); }
  }

  lemma RestIsLower(q: seq<Msg>, p: nat)
    requires Sorted(q)
    ensures Only(q[Spot(q, p)..], p) == []
  {
    var i := Spot(q, p);
    forall k | i <= k < |q| ensures q[k].prio < p {}
    OnlyNone(q[i..], p);
  }

  /** Among its own priority a message goes last, and it disturbs no other. */
  lemma InsertGoesLast(q: seq<Msg>, m: Msg, p: nat)
    requires Sorted(q)
    ensures Only(Insert(q, m), p) == Only(q, p) + (if m.prio == p then [m] else [])
  {
    var i := Spot(q, m.prio);
    RestIsLower(q, m.prio);
    OnlyOne(m, p);
    GoesBetween(q[..i], m, q[i..], p);
    assert q == q[..i] + q[i..];
    hide Only, Sorted, Spot;
  }

  lemma OnlyOne(m: Msg, p: nat)
    ensures Only([m], p) == if m.prio == p then [m] else []
  {}

  lemma GoesBetween(front: seq<Msg>, m: Msg, back: seq<Msg>, p: nat)
    requires Only([m], p) == [] || Only(back, p) == []
    ensures Only(front + [m] + back, p) == Only(front + back, p) + Only([m], p)
  {
    hide Only;
    OnlyConcat(front, back, p);
    OnlyConcat(front + [m], back, p);
    OnlyConcat(front, [m], p);
    var f, o, b := Only(front, p), Only([m], p), Only(back, p);
    if o == [] { assert f + o == f && f + b + o == f + b; } else { assert f + o + b == f + o && f + b == f; }
  }

  /** The held list stays sorted. */
  lemma {:induction false} MergeSorted(held: seq<Msg>, batch: seq<Msg>)
    requires Sorted(held)
    ensures Sorted(Merge(held, batch))
    decreases |batch|
  {
    if batch != [] {
      InsertSorted(held, batch[0]);
      MergeSorted(Insert(held, batch[0]), batch[1..]);
    }
  }

  lemma InsertKeeps(q: seq<Msg>, m: Msg)
    ensures multiset(Insert(q, m)) == multiset(q) + multiset{m}
  {
    var i := Spot(q, m.prio);
    assert q == q[..i] + q[i..];
  }

  /** No message is lost or made up. */
  lemma {:induction false} MergeKeeps(held: seq<Msg>, batch: seq<Msg>)
    ensures multiset(Merge(held, batch)) == multiset(held) + multiset(batch)
    decreases |batch|
  {
    if batch != [] {
      hide Insert;
      InsertKeeps(held, batch[0]);
      MergeKeeps(Insert(held, batch[0]), batch[1..]);
      assert batch == [batch[0]] + batch[1..];
    }
  }

  /** Within a priority, what was held stays ahead of the batch, and the batch keeps its own order. */
  lemma {:induction false} MergeOrders(held: seq<Msg>, batch: seq<Msg>, p: nat)
    requires Sorted(held)
    ensures Only(Merge(held, batch), p) == Only(held, p) + Only(batch, p)
    decreases |batch|
  {
    if batch != [] {
      InsertSorted(held, batch[0]);
      InsertGoesLast(held, batch[0], p);
      hide Insert, Sorted;
      MergeOrders(Insert(held, batch[0]), batch[1..], p);
      var one := if batch[0].prio == p then [batch[0]] else [];
      assert Only(held, p) + (one + Only(batch[1..], p)) == (Only(held, p) + one) + Only(batch[1..], p);
    }
  }

  lemma {:induction false} OnlyReverse(q: seq<Msg>, p: nat)
    ensures Only(Reverse(q), p) == Reverse(Only(q, p))
  {
    if q != [] {
      OnlyReverse(q[1..], p);
      OnlyConcat(Reverse(q[1..]), [q[0]], p);
      var o := Only(q[1..], p);
      if q[0].prio == p {
        assert ([q[0]] + o)[1..] == o;
      } else {
        assert [] + o == o;
      }
    }
  }

  lemma {:induction false} OnlyMembers(q: seq<Msg>, p: nat)
    ensures forall m :: m in Only(q, p) <==> m in q && m.prio == p
    ensures Distinct(q) ==> Distinct(Only(q, p))
  {
    if q != [] {
      OnlyMembers(q[1..], p);
      assert q == [q[0]] + q[1..];
      if Distinct(q) {
        var o := Only(q[1..], p);
        assert Distinct(q[1..]);
        assert q[0] !in q[1..];
        assert q[0] !in o;
      }
    }
  }

  lemma {:induction false} ReverseEnds(q: seq<Msg>)
    requires q != []
    ensures Reverse(q)[0] == q[|q| - 1]
  {
    if |q| > 1 { ReverseEnds(q[1..]); }
  }

  /** Messages of one priority leave in the order they came exactly when those of the batch read the same from both
      ends; when no two of them are alike, that is when there is at most one. */
  lemma FirstComeFirstIff(held: seq<Msg>, batch: seq<Msg>, p: nat)
    requires Sorted(held)
    ensures Only(Merge(held, batch), p) == Only(held, p) + Only(Reverse(batch), p)
            <==> Only(batch, p) == Reverse(Only(batch, p))
    ensures Distinct(batch) ==> (Only(batch, p) == Reverse(Only(batch, p)) <==> |Only(batch, p)| <= 1)
  {
    MergeOrders(held, batch, p);
    OnlyReverse(batch, p);
    OnlyMembers(batch, p);
    var h, o := Only(held, p), Only(batch, p);
    assert (h + o)[|h|..] == o && (h + Reverse(o))[|h|..] == Reverse(o);
    if |o| > 1 {
      ReverseEnds(o);
    } else if |o| == 1 {
      assert o == [o[0]] && Reverse(o) == Reverse(o[1..]) + [o[0]] && Reverse(o[1..]) == [];
    }
  }

  /** Two messages of one priority sent one after the other and drained together come out the wrong way round. */
  lemma FirstComeFails()
    ensures var first, second := Msg(1, 1), Msg(1, 2);
      Merge([], Reverse([first, second])) == [second, first]
  {
    var first, second := Msg(1, 1), Msg(1, 2);
    var rest: seq<Msg> := [second];
    assert [first, second][1..] == rest && Reverse(rest) == [] + [second];
    assert Reverse([first, second]) == [second, first];
    assert Insert([], second) == [second];
    assert Spot([second], 1, 1) == 1 && Insert([second], first) == [second, first];
    assert [second, first][1..] == [first];
    assert Merge([second], [first]) == [second, first];
  }

  /** What Get returns has the highest priority of everything held or drained. */
  lemma HeadIsMaximal(held: seq<Msg>, batch: seq<Msg>)
    requires Sorted(held) && held + batch != []
    ensures var q := Merge(held, batch);
      q != [] && q[0] in held + batch && forall m :: m in held + batch ==> m.prio <= q[0].prio
  {
    MergeSorted(held, batch);
    MergeKeeps(held, batch);
    var q := Merge(held, batch);
    assert multiset(held + batch) == multiset(q);
    assert |q| == |multiset(q)| == |held + batch|;
    assert q[0] in multiset(q);
    forall m | m in held + batch ensures m.prio <= q[0].prio {
      assert m in multiset(q);
      var i :| 0 <= i < |q| && q[i] == m;
    }
  }
}
