/** Singly linked chains in a memory of `next` fields, as every intrusive list of the kernel uses them. */
module Chains {
  type Addr = nat
  const NULL: Addr := 0

  type Links = map<Addr, Addr>

  /** The nodes met by following `next` from `top` until NULL are exactly `s`, in this order. */
  ghost predicate Chain(next: Links, top: Addr, s: seq<Addr>)
    decreases s
  {
    if s == [] then top == NULL
    else top == s[0] && top != NULL && top in next && Chain(next, next[top], s[1..])
  }

  ghost predicate Distinct<T>(s: seq<T>) {
    forall i, j :: 0 <= i < j < |s| ==> s[i] != s[j]
  }

  function InsertAt<T>(s: seq<T>, i: nat, x: T): (r: seq<T>)
    requires i <= |s|
    ensures |r| == |s| + 1
    ensures r[i] == x
    ensures forall k :: 0 <= k < i ==> r[k] == s[k]
    ensures forall k :: i < k < |r| ==> r[k] == s[k - 1]
  {
    s[..i] + [x] + s[i..]
  }

  lemma {:induction false} ChainIsUnique(next: Links, top: Addr, a: seq<Addr>, b: seq<Addr>)
    requires Chain(next, top, a) && Chain(next, top, b)
    ensures a == b
    decreases a
  {
    if a != [] {
      ChainIsUnique(next, next[top], a[1..], b[1..]);
      assert a == [a[0]] + a[1..] && b == [b[0]] + b[1..];
    }
  }

  lemma {:induction false} ChainSuffix(next: Links, top: Addr, s: seq<Addr>, i: nat)
    requires Chain(next, top, s) && i < |s|
    ensures Chain(next, s[i], s[i..])
    decreases s
  {
    if i > 0 {
      ChainSuffix(next, next[top], s[1..], i - 1);
      assert s[1..][i - 1..] == s[i..];
    }
  }

  /** A chain that reaches NULL never meets a node twice: it is acyclic. */
  lemma {:induction false} ChainIsDistinct(next: Links, top: Addr, s: seq<Addr>)
    requires Chain(next, top, s)
    ensures Distinct(s)
  {
    forall i, j | 0 <= i < j < |s| ensures s[i] != s[j] {
      if s[i] == s[j] {
        ChainSuffix(next, top, s, i);
        ChainSuffix(next, top, s, j);
        ChainIsUnique(next, s[i], s[i..], s[j..]);
        assert false;
      }
    }
  }

  /** A chain does not notice writes to nodes that are not on it. */
  lemma {:induction false} ChainFrame(next: Links, next': Links, top: Addr, s: seq<Addr>)
    requires Chain(next, top, s)
    requires forall a :: a in s ==> a in next' && (a in next ==> next'[a] == next[a])
    ensures Chain(next', top, s)
    decreases s
  {
    if s != [] {
      forall a | a in s[1..] ensures a in s {}
      ChainFrame(next, next', next[top], s[1..]);
    }
  }

  lemma {:induction false} ChainHasNoNull(next: Links, top: Addr, s: seq<Addr>)
    requires Chain(next, top, s)
    ensures forall a :: a in s ==> a != NULL && a in next
    decreases s
  {
    if s != [] {
      ChainHasNoNull(next, next[top], s[1..]);
      assert s == [s[0]] + s[1..];
    }
  }

  lemma ChainPush(next: Links, top: Addr, s: seq<Addr>, b: Addr)
    requires Chain(next, top, s)
    requires b != NULL && b in next && next[b] == top
    ensures Chain(next, b, [b] + s)
  {
    assert ([b] + s)[1..] == s;
  }

  function Reverse<T>(s: seq<T>): (r: seq<T>)
    ensures |r| == |s|
  {
    if s == [] then [] else Reverse(s[1..]) + [s[0]]
  }

  lemma {:induction false} ReverseAppend<T>(s: seq<T>, t: seq<T>)
    ensures Reverse(s + t) == Reverse(t) + Reverse(s)
  {
    if s == [] {
      assert s + t == t;
    } else {
      ReverseAppend(s[1..], t);
      assert (s + t)[1..] == s[1..] + t;
      assert Reverse(t) + (Reverse(s[1..]) + [s[0]]) == (Reverse(t) + Reverse(s[1..])) + [s[0]];
    }
  }
}
