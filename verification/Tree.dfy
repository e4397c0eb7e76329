/** r3_tree.c: a search tree that many threads grow at once, and look up while it grows.

    Keys are compared by the sign of their wrapped 32-bit difference, which is not an order. Each node still
    sends every key below it the same way on every visit, and that is what the proofs rest on. What is handed in may
    be a whole subtree: the memory of the tree stays in order whatever it is, searching exactly if it follows its root.
 */
module Tree {
  import opened Chains
  import opened Exclusive

  type Key = k: nat | k < 0x1_0000_0000

  /** The int32_t difference of two uint32_t keys. */
  function Cmp(k: Key, n: Key): int {
    var d := (k - n) % 0x1_0000_0000;
    if d >= 0x8000_0000 then d - 0x1_0000_0000 else d
  }

  lemma CmpZero(k: Key, n: Key)
    ensures Cmp(k, n) == 0 <==> k == n
  {}

  /** The comparison goes round in a circle. */
  lemma CmpIsNoOrder()
    ensures Cmp(0, 0x6000_0000) < 0 && Cmp(0xC000_0000, 0x6000_0000) > 0 && Cmp(0xC000_0000, 0) < 0
  {}

  /** The words threads load and store exclusively. */
  datatype Cell = Root | Child(of: Addr, left: bool) | Value(of: Addr)

  /** The links of a subtree. */
  type Sub = map<Cell, Addr>

  datatype Pc =
    | Out
    // tree_insert_tree
    | Walk(el: Addr, at: Cell)
    | Loaded(el: Addr, at: Cell, node: Addr)
    | SwapTry(el: Addr, node: Addr)
    | SwapLoaded(el: Addr, node: Addr, v: nat)
    | SwapStore(el: Addr, v: nat)
    // tree_replace_data; `there` says whether the key was in the tree when the walk began
    | Look(k: Key, node: Addr, x: nat, there: bool)
    | ReplaceTry(k: Key, node: Addr, x: nat)
    | ReplaceLoaded(k: Key, node: Addr, x: nat, v: nat)

  /** `links` are the links of the tree, and `subs` those of the subtrees handed to it, by their roots: they are the
      caller's own memory until the one store that links the root in. `free` are the nodes nobody has handed in. */
  datatype State = State(
    links: map<Cell, Addr>,
    subs: map<Addr, Sub>,
    key: map<Addr, Key>,
    value: map<Addr, nat>,
    monitor: Monitor<Cell>,
    pc: map<Tid, Pc>,
    free: set<Addr>)

  // ----- steps

  function Go(s: State, t: Tid, p: Pc): State { s.(pc := s.pc[t := p]) }

  ghost function Nodes(u: Sub): set<Addr> { set c | c in u && c.Child? :: c.of }

  /** The links of el and of the nodes below it. */
  ghost predicate IsSub(el: Addr, u: Sub) {
    && el in Nodes(u) && NULL !in Nodes(u)
    && (forall c :: c in u ==> c.Child? && (u[c] != NULL ==> u[c] in Nodes(u)))
    && (forall x :: x in Nodes(u) && x != el ==> exists c :: c in u && u[c] == x)
    && (forall x :: x in Nodes(u) ==> Child(x, true) in u && Child(x, false) in u)
  }

  /** The call, with a subtree of nodes of one's own. */
  ghost predicate InsertCall(s: State, t: Tid, el: Addr, u: Sub, k: map<Addr, Key>, v: map<Addr, nat>, s': State) {
    && IsSub(el, u) && Nodes(u) <= s.free && k.Keys == Nodes(u) && v.Keys == Nodes(u)
    && s' == Go(s, t, Walk(el, Root)).(
         free := s.free - Nodes(u), key := s.key + k, value := s.value + v, subs := s.subs[el := u])
  }

  /** A node with key k is linked in. */
  ghost predicate Present(s: State, k: Key) {
    exists c :: c in s.links && s.links[c] != NULL && s.links[c] in s.key && s.key[s.links[c]] == k
  }

  ghost predicate LookCall(s: State, t: Tid, k: Key, x: nat, s': State) {
    Root in s.links && s' == Go(s, t, Look(k, s.links[Root], x, Present(s, k)))
  }

  ghost predicate InsertStep(s: State, t: Tid, s': State)
    requires t in s.pc
  {
    match s.pc[t]
    case Out => exists el, u, k, v :: InsertCall(s, t, el, u, k, v, s')
    case Walk(el, at) =>
      at in s.links && s' == Go(s, t, Loaded(el, at, s.links[at])).(monitor := Ldrex(s.monitor, t, at))
    case Loaded(el, at, node) =>
      if node == NULL then
        || (Holds(s.monitor, t, at) && el in s.subs
            && s' == Go(s, t, Out).(links := (s.links + s.subs[el])[at := el], monitor := Stored(s.monitor, at)))
        || s' == Go(s, t, Walk(el, at)).(monitor := Clrex(s.monitor, t))
      else
        && el in s.key && node in s.key
        && var cmp := Cmp(s.key[el], s.key[node]);
        && s' == Go(s, t, if cmp == 0 then SwapTry(el, node) else Walk(el, Child(node, cmp < 0)))
    case SwapTry(el, node) =>
      node in s.value
      && s' == Go(s, t, SwapLoaded(el, node, s.value[node])).(monitor := Ldrex(s.monitor, t, Value(node)))
    case SwapLoaded(el, node, v) =>
      || (Holds(s.monitor, t, Value(node)) && el in s.value
          && s' == Go(s, t, SwapStore(el, v)).(value := s.value[node := s.value[el]],
                                               monitor := Stored(s.monitor, Value(node))))
      || s' == Go(s, t, SwapTry(el, node)).(monitor := Clrex(s.monitor, t))
    case SwapStore(el, v) =>
      el in s.subs && s' == Go(s, t, Out).(value := s.value[el := v], free := s.free + Nodes(s.subs[el]))
    case _ => false
  }

  ghost predicate LookStep(s: State, t: Tid, s': State)
    requires t in s.pc
  {
    match s.pc[t]
    case Out => exists k, x :: LookCall(s, t, k, x, s')
    case Look(k, node, x, there) =>
      if node == NULL then s' == Go(s, t, Out)
      else
        && node in s.key
        && var cmp := Cmp(k, s.key[node]);
        if cmp == 0 then s' == Go(s, t, ReplaceTry(k, node, x))
        else Child(node, cmp < 0) in s.links && s' == Go(s, t, Look(k, s.links[Child(node, cmp < 0)], x, there))
    case ReplaceTry(k, node, x) =>
      node in s.value
      && s' == Go(s, t, ReplaceLoaded(k, node, x, s.value[node])).(monitor := Ldrex(s.monitor, t, Value(node)))
    case ReplaceLoaded(k, node, x, v) =>
      || (Holds(s.monitor, t, Value(node))
          && s' == Go(s, t, Out).(value := s.value[node := x], monitor := Stored(s.monitor, Value(node))))
      || s' == Go(s, t, ReplaceTry(k, node, x)).(monitor := Clrex(s.monitor, t))
    case _ => false
  }

  ghost predicate Next(s: State, s': State) {
    exists t :: t in s.pc && (InsertStep(s, t, s') || LookStep(s, t, s'))
  }

  ghost predicate Init(s: State) {
    && s.links == map[Root := NULL] && s.monitor == map[] && NULL !in s.free
    && forall t :: t in s.pc ==> s.pc[t] == Out
  }

  ghost predicate Run(r: seq<State>) {
    && r != []
    && Init(r[0])
    && forall i :: 0 <= i < |r| - 1 ==> Next(r[i], r[i + 1])
  }

  // ----- the way to a key

  /** p is the way a walk for key k takes from the root: past nodes of other keys, each time to the side they name. */
  ghost predicate Way(s: State, k: Key, p: seq<Cell>) {
    && p != [] && p[0] == Root
    && forall i :: 0 <= i < |p| - 1 ==> Onward(s, k, p[i], p[i + 1])
  }

  /** Node x sends key k on to cell d. */
  ghost predicate Sends(s: State, x: Addr, k: Key, d: Cell) {
    x in s.key && Cmp(k, s.key[x]) != 0 && d == Child(x, Cmp(k, s.key[x]) < 0)
  }

  /** The node behind cell c does. */
  ghost predicate Onward(s: State, k: Key, c: Cell, d: Cell) {
    c in s.links && s.links[c] != NULL && Sends(s, s.links[c], k, d)
  }

  function Last(p: seq<Cell>): Cell requires p != [] { p[|p| - 1] }

  ghost predicate Reaches(s: State, k: Key, c: Cell) { exists p :: Way(s, k, p) && Last(p) == c }

  /** Two ways for one key are one way: the shorter is the beginning of the longer. */
  lemma {:induction false} WaysAgree(s: State, k: Key, p: seq<Cell>, q: seq<Cell>, i: nat)
    requires Way(s, k, p) && Way(s, k, q) && i < |p| && i < |q|
    ensures p[i] == q[i]
  {
    if i > 0 {
      WaysAgree(s, k, p, q, i - 1);
      assert Onward(s, k, p[i - 1], p[i - 1 + 1]) && Onward(s, k, q[i - 1], q[i - 1 + 1]);
    }
  }

  lemma WayBefore(s: State, k: Key, p: seq<Cell>)
    requires Way(s, k, p) && |p| > 1
    ensures Way(s, k, p[..|p| - 1]) && Onward(s, k, p[|p| - 2], Last(p))
  {
    var front := p[..|p| - 1];
    forall i | 0 <= i < |front| - 1 ensures Onward(s, k, front[i], front[i + 1]) {
      assert Onward(s, k, p[i], p[i + 1]);
    }
    var i := |p| - 2;
    assert Onward(s, k, p[i], p[i + 1]);
  }

  lemma WayGoesOn(s: State, k: Key, p: seq<Cell>, d: Cell)
    requires Way(s, k, p) && Onward(s, k, Last(p), d)
    ensures Way(s, k, p + [d]) && Last(p + [d]) == d
  {
    var q := p + [d];
    forall i | 0 <= i < |q| - 1 ensures Onward(s, k, q[i], q[i + 1]) {
      if i < |p| - 1 { assert Onward(s, k, p[i], p[i + 1]); }
    }
  }

  /** Links once set and keys once linked stay. */
  ghost predicate Grows(s: State, s': State) {
    forall c :: c in s.links && s.links[c] != NULL ==>
      && c in s'.links && s'.links[c] == s.links[c]
      && (s.links[c] in s.key ==> s.links[c] in s'.key && s'.key[s.links[c]] == s.key[s.links[c]])
  }

  lemma WayStays(s: State, s': State, k: Key, p: seq<Cell>)
    requires Way(s, k, p) && Grows(s, s')
    ensures Way(s', k, p)
  {
    forall i | 0 <= i < |p| - 1 ensures Onward(s', k, p[i], p[i + 1]) {
      assert Onward(s, k, p[i], p[i + 1]);
    }
  }

  lemma ReachesStays(s: State, s': State, k: Key, c: Cell)
    requires Reaches(s, k, c) && Grows(s, s')
    ensures Reaches(s', k, c)
  {
    var p :| Way(s, k, p) && Last(p) == c;
    WayStays(s, s', k, p);
  }

  // ----- the invariant: the memory

  predicate Linked(s: State, a: Addr) { a != NULL && exists c :: c in s.links && s.links[c] == a }

  /** Inside tree_insert_tree, with an element not yet or no longer in the tree. */
  predicate Inserting(p: Pc) { p.Walk? || p.Loaded? || p.SwapTry? || p.SwapLoaded? || p.SwapStore? }

  predicate Carries(s: State, t: Tid, el: Addr) { t in s.pc && Inserting(s.pc[t]) && s.pc[t].el == el }

  /** Node x is one of the subtree thread t has. */
  ghost predicate Has(s: State, t: Tid, x: Addr) {
    t in s.pc && Inserting(s.pc[t]) && s.pc[t].el in s.subs && x in Nodes(s.subs[s.pc[t].el])
  }

  /** A node outside the tree: nothing points to it. */
  ghost predicate Loose(s: State, x: Addr) {
    x != NULL && !Linked(s, x)
  }

  /** One's own node, ready to be linked in. */
  ghost predicate Ready(s: State, x: Addr) {
    Loose(s, x) && x in s.key && x in s.value && x !in s.free
  }

  ghost predicate Complete(s: State, a: Addr) {
    a in s.key && a in s.value && Child(a, true) in s.links && Child(a, false) in s.links
  }

  /** Whose memory is what: the tree's, that of free nodes, and that of the subtrees the threads have. */
  ghost predicate Owned(s: State) {
    && Root in s.links
    && (forall c :: c in s.links && c != Root ==> c.Child? && Linked(s, c.of))
    && (forall a :: Linked(s, a) ==> Complete(s, a))
    && NULL !in s.free
    && (forall a :: a in s.free ==> Loose(s, a))
    && (forall t, a :: Carries(s, t, a) ==> a in s.subs && IsSub(a, s.subs[a]))
    && (forall t, x :: Has(s, t, x) ==> Ready(s, x))
    && (forall t, u, x :: Has(s, t, x) && Has(s, u, x) ==> t == u)
  }

  /** A node of the tree with key k. */
  ghost predicate Node(s: State, a: Addr, k: Key) {
    Linked(s, a) && a in s.key && s.key[a] == k && a in s.value
  }

  /** What thread t knows of the memory. */
  ghost predicate Stands(s: State, t: Tid)
    requires t in s.pc
  {
    match s.pc[t]
    case Out => true
    case Walk(el, at) => el in s.key && at in s.links
    case Loaded(el, at, node) =>
      && el in s.key && at in s.links
      && (node != NULL ==> s.links[at] == node)
      && (node == NULL && Holds(s.monitor, t, at) ==> s.links[at] == NULL)
    case SwapTry(el, node) => el in s.key && Node(s, node, s.key[el])
    case SwapLoaded(el, node, v) =>
      el in s.key && Node(s, node, s.key[el]) && (Holds(s.monitor, t, Value(node)) ==> s.value[node] == v)
    case SwapStore(el, _) => true
    case Look(_, node, _, _) => node != NULL ==> Linked(s, node)
    case ReplaceTry(k, node, _) => Node(s, node, k)
    case ReplaceLoaded(k, node, _, v) => Node(s, node, k) && (Holds(s.monitor, t, Value(node)) ==> s.value[node] == v)
  }

  ghost predicate Steady(s: State) {
    Owned(s) && forall t :: t in s.pc ==> Stands(s, t)
  }

  // ----- the invariant: searching

  /** Cell c holds a node that the walk for its own key reaches there. */
  ghost predicate InPlace(s: State, c: Cell) {
    c in s.links && s.links[c] in s.key && Reaches(s, s.key[s.links[c]], c)
  }

  /** Every cell of the tree that holds a node does. */
  ghost predicate WellShaped(s: State) {
    forall c :: c in s.links && s.links[c] != NULL ==> InPlace(s, c)
  }

  /** Thread t is where the walk for its key comes, and with a key that was there it is not past it. */
  ghost predicate Reaching(s: State, t: Tid)
    requires t in s.pc
  {
    match s.pc[t]
    case Walk(el, at) => el in s.key && Reaches(s, s.key[el], at)
    case Loaded(el, at, _) => el in s.key && Reaches(s, s.key[el], at)
    case Look(k, node, _, there) =>
      if node == NULL then !there
      else exists c :: c in s.links && s.links[c] == node && Reaches(s, k, c) && (there ==> Present(s, k))
    case _ => true
  }

  ghost predicate Inv(s: State) {
    Steady(s) && WellShaped(s) && forall t :: t in s.pc ==> Reaching(s, t)
  }

  // ----- what the invariant says

  lemma GoesPast(s: State, k: Key, p: seq<Cell>, i: nat)
    requires Way(s, k, p) && i + 1 < |p|
    ensures p[i] in s.links && s.links[p[i]] != NULL && s.links[p[i]] in s.key && s.key[s.links[p[i]]] != k
  {
    assert Onward(s, k, p[i], p[i + 1]);
    CmpZero(k, s.key[s.links[p[i]]]);
  }

  /** A walk for key k ends at the node that has it: no way is longer, and every other way leads on. */
  lemma WaysEnd(s: State, k: Key, p: seq<Cell>, q: seq<Cell>)
    requires Way(s, k, p) && Way(s, k, q) && Last(p) in s.links && Last(q) in s.links
    requires s.links[Last(q)] in s.key && s.key[s.links[Last(q)]] == k && s.links[Last(q)] != NULL
    ensures s.links[Last(p)] != NULL
    ensures s.links[Last(p)] in s.key && s.key[s.links[Last(p)]] == k ==> Last(p) == Last(q)
  {
    if |p| <= |q| {
      WaysAgree(s, k, p, q, |p| - 1);
      if |p| < |q| { GoesPast(s, k, q, |p| - 1); }
    } else {
      WaysAgree(s, k, p, q, |q| - 1);
      GoesPast(s, k, p, |q| - 1);
    }
  }

  /** Each key is in the tree once, and in one place. */
  lemma KeysAreUnique(s: State, c: Cell, d: Cell)
    requires WellShaped(s) && c in s.links && d in s.links && s.links[c] != NULL && s.links[d] != NULL
    requires s.links[c] in s.key && s.links[d] in s.key && s.key[s.links[c]] == s.key[s.links[d]]
    ensures c == d
  {
    assert InPlace(s, c) && InPlace(s, d);
    var k := s.key[s.links[c]];
    var p :| Way(s, k, p) && Last(p) == c;
    var q :| Way(s, k, q) && Last(q) == d;
    WaysEnd(s, k, p, q);
  }

  /** A walk for a key that is in the tree does not run out of the tree. */
  lemma WalkFinds(s: State, k: Key, c: Cell)
    requires WellShaped(s) && Present(s, k) && Reaches(s, k, c) && c in s.links
    ensures s.links[c] != NULL
  {
    var d :| d in s.links && s.links[d] != NULL && s.links[d] in s.key && s.key[s.links[d]] == k;
    assert InPlace(s, d);
    var p :| Way(s, k, p) && Last(p) == c;
    var q :| Way(s, k, q) && Last(q) == d;
    WaysEnd(s, k, p, q);
  }

  // ----- every step keeps the memory in order

  lemma NodeStays(s: State, s': State, a: Addr, k: Key)
    requires Node(s, a, k) && Grows(s, s') && s.value.Keys <= s'.value.Keys
    ensures Node(s', a, k)
  {
    var c :| c in s.links && s.links[c] == a;
    assert s'.links[c] == a;
  }

  lemma LinkedStays(s: State, s': State, a: Addr)
    requires Linked(s, a) && Grows(s, s')
    ensures Linked(s', a)
  {
    var c :| c in s.links && s.links[c] == a;
    assert s'.links[c] == a;
  }

  /** What a step of another thread must leave alone for thread u to stay where it is. */
  lemma OtherStands(s: State, s': State, u: Tid)
    requires u in s.pc && u in s'.pc && s'.pc[u] == s.pc[u] && Stands(s, u) && Grows(s, s')
    requires s.links.Keys <= s'.links.Keys && s.value.Keys <= s'.value.Keys && s.key.Keys <= s'.key.Keys
    requires forall a :: Carries(s, u, a) && a in s.key ==> s'.key[a] == s.key[a]
    requires forall c :: Holds(s'.monitor, u, c) ==> Holds(s.monitor, u, c)
    requires forall c :: c in s.links && Holds(s'.monitor, u, c) ==> s'.links[c] == s.links[c]
    requires forall a :: Linked(s, a) && a in s.value && Holds(s'.monitor, u, Value(a)) ==> s'.value[a] == s.value[a]
    ensures Stands(s', u)
  {
    hide Linked;
    match s.pc[u] {
      case Out =>
      case Walk(el, at) => assert Carries(s, u, el);
      case Loaded(el, at, node) => assert Carries(s, u, el);
      case SwapTry(el, node) => assert Carries(s, u, el); NodeStays(s, s', node, s.key[el]);
      case SwapLoaded(el, node, _) => assert Carries(s, u, el); NodeStays(s, s', node, s.key[el]);
      case SwapStore(_, _) =>
      case Look(_, node, _, _) => if node != NULL { LinkedStays(s, s', node); }
      case ReplaceTry(k, node, _) => NodeStays(s, s', node, k);
      case ReplaceLoaded(k, node, _, _) => NodeStays(s, s', node, k);
    }
  }

  /** A step of t that sets no link. */
  lemma OwnedStays(s: State, s': State, t: Tid)
    requires Owned(s) && s'.links == s.links && t in s.pc && t in s'.pc && s'.pc == s.pc[t := s'.pc[t]]
    requires s.key.Keys <= s'.key.Keys && s.value.Keys <= s'.value.Keys
    requires forall u, a :: u != t && Carries(s, u, a) ==> a in s'.subs && s'.subs[a] == s.subs[a]
    requires forall a :: Carries(s', t, a) ==> a in s'.subs && IsSub(a, s'.subs[a])
    requires forall x :: Has(s', t, x) ==> Ready(s', x) && forall u :: u != t ==> !Has(s, u, x)
    requires forall a :: a in s'.free ==> a in s.free || Has(s, t, a)
    ensures Owned(s')
  {
    assert forall a :: Linked(s', a) <==> Linked(s, a);
    assert forall u, a :: u != t ==> (Carries(s', u, a) <==> Carries(s, u, a));
    forall u, x | u != t ensures Has(s', u, x) <==> Has(s, u, x) {
      if u in s.pc && Inserting(s.pc[u]) { assert Carries(s, u, s.pc[u].el); }
    }
    forall u, x | u != t && Has(s', u, x) ensures Ready(s', x) {
      assert Has(s, u, x) && Ready(s, x);
      assert !Has(s, t, x);
    }
    forall a | a in s'.free ensures Loose(s', a) {
      if a !in s.free { assert Has(s, t, a) && Ready(s, a); }
    }
  }

  /** What the call leaves of the tree, and what is its own. */
  lemma InsertCallGrows(s: State, t: Tid, el: Addr, u: Sub, k: map<Addr, Key>, v: map<Addr, nat>, s': State)
    requires Owned(s) && InsertCall(s, t, el, u, k, v, s')
    ensures Grows(s, s') && s'.links == s.links && Root in s.links
    ensures forall x :: x in Nodes(u) ==> Loose(s, x) && x in s'.key && x in s'.value && x !in s'.free
    ensures forall x :: x !in Nodes(u) && x in s.key ==> x in s'.key && s'.key[x] == s.key[x]
    ensures s.key.Keys <= s'.key.Keys
    ensures forall x :: x !in Nodes(u) && x in s.value ==> x in s'.value && s'.value[x] == s.value[x]
    ensures s.value.Keys <= s'.value.Keys
    ensures forall w, x :: Has(s, w, x) ==> x !in Nodes(u)
  {
    forall x | x in Nodes(u) ensures Loose(s, x) { assert x in s.free; }
    forall w, x | Has(s, w, x) ensures x !in Nodes(u) { assert Ready(s, x); }
    forall c | c in s.links && s.links[c] != NULL ensures s.links[c] !in Nodes(u) { assert Linked(s, s.links[c]); }
  }

  lemma InsertCallStaysOwned(s: State, t: Tid, el: Addr, u: Sub, k: map<Addr, Key>, v: map<Addr, nat>, s': State)
    requires Owned(s) && t in s.pc && s.pc[t] == Out && InsertCall(s, t, el, u, k, v, s')
    ensures Owned(s')
  {
    hide IsSub, Nodes;
    InsertCallGrows(s, t, el, u, k, v, s');
    forall a ensures Linked(s', a) <==> Linked(s, a) {}
    forall w, a | w != t && Carries(s, w, a) ensures a in s'.subs && s'.subs[a] == s.subs[a] {
      CarriesItsRoot(s, w, a);
      CarriedIsNotFree(el, u);
    }
    OwnedStays(s, s', t);
  }

  lemma CarriesItsRoot(s: State, t: Tid, a: Addr)
    requires Owned(s) && Carries(s, t, a)
    ensures Has(s, t, a)
  {}

  lemma CarriedIsNotFree(el: Addr, u: Sub)
    requires IsSub(el, u)
    ensures el in Nodes(u)
  {}

  lemma InsertCallSteady(s: State, t: Tid, el: Addr, u: Sub, k: map<Addr, Key>, v: map<Addr, nat>, s': State)
    requires Steady(s) && t in s.pc && s.pc[t] == Out && InsertCall(s, t, el, u, k, v, s')
    ensures Steady(s')
  {
    hide IsSub, Nodes, Owned, Stands;
    InsertCallGrows(s, t, el, u, k, v, s');
    InsertCallStaysOwned(s, t, el, u, k, v, s');
    forall w | w in s'.pc && w != t ensures Stands(s', w) {
      forall a | Carries(s, w, a) ensures Has(s, w, a) { CarriesItsRoot(s, w, a); }
      OtherStands(s, s', w);
    }
    CarriedIsNotFree(el, u);
    WalkStands(s', t, el);
  }

  lemma WalkStands(s: State, t: Tid, el: Addr)
    requires t in s.pc && s.pc[t] == Walk(el, Root) && el in s.key && Root in s.links
    ensures Stands(s, t)
  {}

  lemma QuietStaysOwned(s: State, t: Tid, s': State)
    requires Owned(s) && t in s.pc && t in s'.pc && s'.pc == s.pc[t := s'.pc[t]]
    requires s'.links == s.links && s'.subs == s.subs && s'.key == s.key && s'.free == s.free
    requires s.value.Keys <= s'.value.Keys
    requires forall a :: Carries(s', t, a) ==> Carries(s, t, a)
    ensures Owned(s')
  {
    if Inserting(s'.pc[t]) { assert Carries(s', t, s'.pc[t].el); }
    forall x | Has(s', t, x) ensures Has(s, t, x) && Ready(s', x) {
      assert Has(s, t, x) && Ready(s, x);
      assert Linked(s', x) ==> Linked(s, x);
    }
    hide IsSub;
    OwnedStays(s, s', t);
  }

  /** Steps of t that set no link: nothing moves but t itself, the reservations and perhaps a value of the tree. */
  lemma QuietSteady(s: State, t: Tid, s': State)
    requires Steady(s) && t in s.pc && t in s'.pc && Stands(s', t)
    requires s' == s.(pc := s.pc[t := s'.pc[t]], monitor := s'.monitor, value := s'.value)
    requires s.value.Keys <= s'.value.Keys
    requires forall u, c :: u != t && Holds(s'.monitor, u, c) ==> Holds(s.monitor, u, c)
    requires forall u, a :: u != t && a in s.value && Holds(s'.monitor, u, Value(a)) ==> s'.value[a] == s.value[a]
    requires forall a :: Carries(s', t, a) ==> Carries(s, t, a)
    ensures Steady(s')
  {
    hide Owned, Stands;
    QuietStaysOwned(s, t, s');
    forall u | u in s'.pc && u != t ensures Stands(s', u) {
      OtherStands(s, s', u);
    }
  }

  lemma CompleteNode(s: State, a: Addr)
    requires Owned(s) && Linked(s, a)
    ensures Complete(s, a)
  {}

  lemma IsLinked(s: State, c: Cell)
    requires c in s.links && s.links[c] != NULL
    ensures Linked(s, s.links[c])
  {}

  /** The steps of a walk and of an exchange, up to the store. */
  lemma WalkSteady(s: State, t: Tid, s': State)
    requires Steady(s) && t in s.pc && (s.pc[t].Walk? || s.pc[t].Loaded?) && InsertStep(s, t, s') && !Links(s, t, s')
    ensures Steady(s')
  {
    assert Stands(s, t);
    match s.pc[t] {
      case Walk(_, _) =>
      case Loaded(el, at, node) =>
        if node != NULL {
          IsLinked(s, at);
          CompleteNode(s, node);
          CmpZero(s.key[el], s.key[node]);
        }
    }
    hide Owned, Linked;
    QuietSteady(s, t, s');
  }

  lemma SwapSteady(s: State, t: Tid, s': State)
    requires Steady(s) && t in s.pc && (s.pc[t].SwapTry? || s.pc[t].SwapLoaded?) && InsertStep(s, t, s')
    ensures Steady(s')
  {
    assert Stands(s, t);
    NodeStays(s, s', s.pc[t].node, s.key[s.pc[t].el]);
    hide Owned, Linked, Node;
    QuietSteady(s, t, s');
  }

  lemma GiveBackSteady(s: State, t: Tid, s': State)
    requires Steady(s) && t in s.pc && s.pc[t].SwapStore? && InsertStep(s, t, s')
    ensures Steady(s')
  {
    var el := s.pc[t].el;
    assert Carries(s, t, el) && Has(s, t, el) && Ready(s, el);
    assert forall x :: x in Nodes(s.subs[el]) ==> Has(s, t, x);
    hide IsSub, Nodes;
    OwnedStays(s, s', t);
    hide Owned;
    forall u | u in s'.pc && u != t ensures Stands(s', u) {
      assert Stands(s, u);
      OtherStands(s, s', u);
    }
  }

  lemma LookStands(s: State, t: Tid, s': State)
    requires Steady(s) && t in s.pc && LookStep(s, t, s')
    ensures t in s'.pc && Stands(s', t)
  {
    hide Present;
    assert Stands(s, t);
    match s.pc[t] {
      case Out => if s.links[Root] != NULL { IsLinked(s, Root); }
      case Look(k, node, _, _) =>
        if node != NULL {
          CompleteNode(s, node);
          CmpZero(k, s.key[node]);
          var d := Child(node, Cmp(k, s.key[node]) < 0);
          if s.links[d] != NULL { IsLinked(s, d); }
        }
      case ReplaceTry(k, node, _) => NodeStays(s, s', node, k);
      case ReplaceLoaded(k, node, _, _) => NodeStays(s, s', node, k);
    }
  }

  lemma LookMovesOnly(s: State, t: Tid, s': State)
    requires t in s.pc && (s.pc[t].Out? || s.pc[t].Look?) && LookStep(s, t, s')
    ensures t in s'.pc && s' == s.(pc := s.pc[t := s'.pc[t]]) && !Inserting(s'.pc[t])
  {
    hide Present, Cmp;
  }

  lemma ReplaceWrites(s: State, t: Tid, s': State)
    requires t in s.pc && (s.pc[t].ReplaceTry? || s.pc[t].ReplaceLoaded?) && Stands(s, t) && LookStep(s, t, s')
    ensures t in s'.pc && s' == s.(pc := s.pc[t := s'.pc[t]], monitor := s'.monitor, value := s'.value)
    ensures s.value.Keys <= s'.value.Keys && !Inserting(s'.pc[t])
    ensures forall u, c :: u != t && Holds(s'.monitor, u, c) ==> Holds(s.monitor, u, c)
    ensures forall u, a :: u != t && a in s.value && Holds(s'.monitor, u, Value(a)) ==> s'.value[a] == s.value[a]
  {
    hide Linked;
  }

  lemma LookSteady(s: State, t: Tid, s': State)
    requires Steady(s) && t in s.pc && LookStep(s, t, s')
    ensures Steady(s')
  {
    LookStands(s, t, s');
    assert Stands(s, t);
    if s.pc[t].Out? || s.pc[t].Look? { LookMovesOnly(s, t, s'); } else { ReplaceWrites(s, t, s'); }
    hide Owned, Stands, LookStep;
    QuietSteady(s, t, s');
  }

  // ----- linking a subtree in

  /** The way of key k inside the subtree u, from its root on. */
  ghost predicate Inside(s: State, el: Addr, u: Sub, k: Key, q: seq<Cell>) {
    && q != [] && Sends(s, el, k, q[0])
    && forall i :: 0 <= i < |q| - 1 ==> q[i] in u && u[q[i]] != NULL && Sends(s, u[q[i]], k, q[i + 1])
  }

  lemma InsideBefore(s: State, el: Addr, u: Sub, k: Key, q: seq<Cell>)
    requires Inside(s, el, u, k, q) && |q| > 1
    ensures Inside(s, el, u, k, q[..|q| - 1])
    ensures var c := q[|q| - 2]; c in u && u[c] != NULL && Sends(s, u[c], k, Last(q))
  {
    var front := q[..|q| - 1];
    forall i | 0 <= i < |front| - 1
      ensures front[i] in u && u[front[i]] != NULL && Sends(s, u[front[i]], k, front[i + 1])
    {
      assert front[i] == q[i] && front[i + 1] == q[i + 1];
    }
    var i := |q| - 2;
    assert Sends(s, u[q[i]], k, q[i + 1]);
  }

  lemma InsideGoesOn(s: State, el: Addr, u: Sub, k: Key, q: seq<Cell>, d: Cell)
    requires Inside(s, el, u, k, q) && Last(q) in u && u[Last(q)] != NULL && Sends(s, u[Last(q)], k, d)
    ensures Inside(s, el, u, k, q + [d]) && Last(q + [d]) == d
  {
    var p := q + [d];
    forall i | 0 <= i < |p| - 1 ensures p[i] in u && u[p[i]] != NULL && Sends(s, u[p[i]], k, p[i + 1]) {
      if i < |q| - 1 { assert p[i] == q[i] && p[i + 1] == q[i + 1]; }
    }
  }

  /** Cell d of the subtree is where the walk for the key of its node comes: by the same cell of the tree as the walk
      for the root of the subtree, and inside from there. */
  ghost predicate FollowsAt(s: State, el: Addr, at: Cell, d: Cell)
    requires el in s.subs
  {
    d in s.subs[el] && s.subs[el][d] in s.key
    && var k := s.key[s.subs[el][d]];
    Reaches(s, k, at) && exists q :: Inside(s, el, s.subs[el], k, q) && Last(q) == d
  }

  /** The subtree is searchable, and every node on the way of its root sends all its keys where it sends the root's. */
  ghost predicate Follows(s: State, el: Addr, at: Cell) {
    el in s.subs && forall d :: d in s.subs[el] && s.subs[el][d] != NULL ==> FollowsAt(s, el, at, d)
  }

  /** Thread t links its subtree in. */
  ghost predicate Links(s: State, t: Tid, s': State) {
    && t in s.pc && s.pc[t].Loaded? && s.pc[t].node == NULL && s.pc[t].el in s.subs && Holds(s.monitor, t, s.pc[t].at)
    && var el, at := s.pc[t].el, s.pc[t].at;
    s' == Go(s, t, Out).(links := (s.links + s.subs[el])[at := el], monitor := Stored(s.monitor, at))
  }

  /** What the store does to the links. */
  lemma LinkGrows(s: State, t: Tid, s': State)
    requires Steady(s) && Links(s, t, s')
    ensures var el, at := s.pc[t].el, s.pc[t].at;
      && at in s.links && s.links[at] == NULL && at !in s.subs[el] && IsSub(el, s.subs[el])
      && el in s.key && el != NULL
      && (forall c :: c in s'.links <==> c in s.links || c in s.subs[el])
      && s'.links[at] == el
      && (forall c :: c in s.links && c != at ==> c !in s.subs[el] && s'.links[c] == s.links[c])
      && (forall c :: c in s.subs[el] ==> s'.links[c] == s.subs[el][c])
    ensures Grows(s, s') && s'.key == s.key && s'.value == s.value
    ensures forall x :: x in Nodes(s.subs[s.pc[t].el]) ==> Has(s, t, x) && Ready(s, x)
    ensures forall c :: c in s.links && s.links[c] != NULL ==> s.links[c] !in Nodes(s.subs[s.pc[t].el])
  {
    var el, at := s.pc[t].el, s.pc[t].at;
    assert Stands(s, t);
    assert Carries(s, t, el);
    forall x | x in Nodes(s.subs[el]) ensures Has(s, t, x) && Ready(s, x) {
      assert Has(s, t, x);
    }
    forall c | c in s.subs[el] ensures c !in s.links {
      assert c.Child? && c.of in Nodes(s.subs[el]) && Ready(s, c.of);
    }
    forall c | c in s.links && s.links[c] != NULL ensures s.links[c] !in Nodes(s.subs[el]) {
      assert Linked(s, s.links[c]);
    }
  }

  /** Up to a cell that was there before, the ways are the old ones. */
  lemma {:induction false} OldWay(s: State, t: Tid, s': State, k: Key, p: seq<Cell>)
    requires Steady(s) && Links(s, t, s') && Way(s', k, p) && Last(p) in s.links
    ensures Way(s, k, p)
  {
    if |p| > 1 {
      LinkGrows(s, t, s');
      WayBefore(s', k, p);
      var c := p[|p| - 2];
      assert Linked(s, s'.links[c]) && !Has(s, t, s'.links[c]);
      hide Steady;
      OldWay(s, t, s', k, p[..|p| - 1]);
      WayGoesOn(s, k, p[..|p| - 1], Last(p));
      assert p[..|p| - 1] + [Last(p)] == p;
    }
  }

  lemma InsideStarts(s: State, el: Addr, u: Sub, k: Key, d: Cell)
    requires Sends(s, el, k, d)
    ensures Inside(s, el, u, k, [d])
  {}

  /** The cell before a cell of the subtree is of the subtree as well, or the one it was linked into. */
  lemma CellBefore(s: State, t: Tid, s': State, k: Key, p: seq<Cell>)
    requires Steady(s) && Links(s, t, s') && Way(s', k, p) && Last(p) in s.subs[s.pc[t].el]
    ensures |p| > 1
    ensures var u, c := s.subs[s.pc[t].el], p[|p| - 2];
      && (if c == s.pc[t].at then Sends(s, s.pc[t].el, k, Last(p)) && c in s.links
          else c in u && u[c] != NULL && Sends(s, u[c], k, Last(p)))
  {
    hide IsSub;
    LinkGrows(s, t, s');
    assert |p| > 1;
    WayBefore(s', k, p);
    InNodes(s.subs[s.pc[t].el], s.pc[t].el, Last(p));
    hide Steady, Way;
  }

  /** And a way to a cell of the subtree comes by the cell it was linked into. */
  lemma {:induction false} NewWay(s: State, t: Tid, s': State, k: Key, p: seq<Cell>) returns (q: seq<Cell>)
    requires Steady(s) && Links(s, t, s') && Way(s', k, p) && Last(p) in s.subs[s.pc[t].el]
    ensures var el, at := s.pc[t].el, s.pc[t].at;
      Reaches(s, k, at) && Inside(s, el, s.subs[el], k, q) && Last(q) == Last(p)
  {
    hide Steady, Links, Way, Inside, Sends;
    var el, at := ElementOf(s, t, s');
    CellBefore(s, t, s', k, p);
    WayBefore(s', k, p);
    var c, front := p[|p| - 2], p[..|p| - 1];
    if c == at {
      OldWay(s, t, s', k, front);
      q := [Last(p)];
      InsideStarts(s, el, s.subs[el], k, Last(p));
    } else {
      var before := NewWay(s, t, s', k, front);
      q := before + [Last(p)];
      InsideGoesOn(s, el, s.subs[el], k, before, Last(p));
    }
  }

  lemma ElementOf(s: State, t: Tid, s': State) returns (el: Addr, at: Cell)
    requires Links(s, t, s')
    ensures t in s.pc && s.pc[t].Loaded? && s.pc[t].el == el && s.pc[t].at == at && el in s.subs
  {
    el, at := s.pc[t].el, s.pc[t].at;
  }

  lemma {:induction false} InsideIsWay(s: State, t: Tid, s': State, k: Key, p: seq<Cell>, q: seq<Cell>)
    requires Steady(s) && Links(s, t, s') && Way(s, k, p) && Last(p) == s.pc[t].at
    requires Inside(s, s.pc[t].el, s.subs[s.pc[t].el], k, q)
    ensures Way(s', k, p + q) && Last(p + q) == Last(q)
    decreases q
  {
    LinkGrows(s, t, s');
    hide Steady, Reaches, Way, IsSub;
    var n := |q| - 1;
    if n == 0 {
      WayStays(s, s', k, p);
      WayGoesOn(s', k, p, q[0]);
      assert p + q == p + [q[0]];
    } else {
      var front := q[..n];
      InsideBefore(s, s.pc[t].el, s.subs[s.pc[t].el], k, q);
      InsideIsWay(s, t, s', k, p, front);
      WayGoesOn(s', k, p + front, q[n]);
      assert p + front + [q[n]] == p + q;
    }
  }

  /** Each new cell is in place exactly if the walk for its key comes there. */
  lemma InPlaceIff(s: State, t: Tid, s': State, d: Cell)
    requires Steady(s) && Links(s, t, s') && d in s.subs[s.pc[t].el] && s.subs[s.pc[t].el][d] != NULL
    ensures InPlace(s', d) <==> FollowsAt(s, s.pc[t].el, s.pc[t].at, d)
  {
    LinkGrows(s, t, s');
    var el, at := s.pc[t].el, s.pc[t].at;
    var x := s.subs[el][d];
    assert x in Nodes(s.subs[el]);
    var k := s.key[x];
    if InPlace(s', d) {
      var p :| Way(s', k, p) && Last(p) == d;
      var q := NewWay(s, t, s', k, p);
    }
    if FollowsAt(s, el, at, d) {
      var p :| Way(s, k, p) && Last(p) == at;
      var q :| Inside(s, el, s.subs[el], k, q) && Last(q) == d;
      InsideIsWay(s, t, s', k, p, q);
    }
  }

  /** The tree with the subtree linked in is well shaped exactly when the subtree follows its root. */
  lemma LinkShapeIff(s: State, t: Tid, s': State)
    requires Inv(s) && Links(s, t, s')
    ensures WellShaped(s') <==> Follows(s, s.pc[t].el, s.pc[t].at)
  {
    LinkGrows(s, t, s');
    var el, at := s.pc[t].el, s.pc[t].at;
    forall d | d in s.subs[el] && s.subs[el][d] != NULL ensures InPlace(s', d) <==> FollowsAt(s, el, at, d) {
      InPlaceIff(s, t, s', d);
    }
    hide FollowsAt;
    forall c | c in s'.links && s'.links[c] != NULL && c !in s.subs[el] ensures InPlace(s', c) {
      if c == at { RootInPlace(s, t, s'); } else { InPlaceStays(s, s', c); }
    }
  }

  lemma RootInPlace(s: State, t: Tid, s': State)
    requires Inv(s) && Links(s, t, s')
    ensures InPlace(s', s.pc[t].at)
  {
    assert Reaching(s, t);
    LinkGrows(s, t, s');
    ReachesStays(s, s', s.key[s.pc[t].el], s.pc[t].at);
  }

  /** The nodes of the tree are the old ones and those of the subtree. */
  lemma LinkedBoth(s: State, t: Tid, s': State, a: Addr)
    requires Steady(s) && Links(s, t, s')
    ensures Linked(s', a) <==> Linked(s, a) || a in Nodes(s.subs[s.pc[t].el])
  {
    LinkGrows(s, t, s');
    var el, at := s.pc[t].el, s.pc[t].at;
    hide Steady, Links;
    assert s'.links[at] == el;
    if Linked(s', a) {
      var c :| c in s'.links && s'.links[c] == a;
      if c != at && c !in s.subs[el] { assert s.links[c] == a; }
    }
    if Linked(s, a) {
      var c :| c in s.links && s.links[c] == a;
      assert s'.links[c] == a;
    } else if a in Nodes(s.subs[el]) && a != el {
      var c :| c in s.subs[el] && s.subs[el][c] == a;
      assert s'.links[c] == a;
    }
  }

  lemma LinkFrees(s: State, t: Tid, s': State)
    requires Links(s, t, s')
    ensures forall u, x :: Has(s', u, x) <==> Has(s, u, x) && u != t
    ensures forall u, a :: Carries(s', u, a) ==> Carries(s, u, a)
    ensures s'.subs == s.subs && s'.free == s.free && s'.key == s.key && s'.value == s.value
  {}

  lemma LinkStaysOwned(s: State, t: Tid, s': State)
    requires Steady(s) && Links(s, t, s')
    ensures Owned(s') && Linked(s', s.pc[t].el)
  {
    hide IsSub, Grows, Nodes, Linked, Complete, Stands, Has, Carries;
    LinkGrows(s, t, s');
    LinkFrees(s, t, s');
    var el := s.pc[t].el;
    forall a ensures Linked(s', a) <==> Linked(s, a) || a in Nodes(s.subs[el]) { LinkedBoth(s, t, s', a); }
    forall c | c in s'.links && c != Root ensures c.Child? && Linked(s', c.of) {
      if c in s.subs[el] { InNodes(s.subs[el], el, c); }
    }
    forall a | Linked(s', a) ensures Complete(s', a) { CompleteBoth(s, t, s', a); }
    forall u, x | Has(s', u, x) ensures Ready(s', x) { assert Ready(s, x) && !Has(s, t, x); }
    forall a | a in s'.free ensures Loose(s', a) {
      assert Loose(s, a);
      assert a in Nodes(s.subs[el]) ==> Ready(s, a);
    }
  }

  lemma CompleteBoth(s: State, t: Tid, s': State, a: Addr)
    requires Steady(s) && Links(s, t, s') && (Linked(s, a) || a in Nodes(s.subs[s.pc[t].el]))
    ensures Complete(s', a)
  {
    LinkGrows(s, t, s');
    if Linked(s, a) { CompleteNode(s, a); } else { assert Ready(s, a); }
    hide Steady, Linked;
  }

  lemma LinkSteady(s: State, t: Tid, s': State)
    requires Steady(s) && Links(s, t, s')
    ensures Steady(s')
  {
    LinkGrows(s, t, s');
    LinkStaysOwned(s, t, s');
    forall u | u in s'.pc && u != t ensures Stands(s', u) {
      assert Stands(s, u);
      hide Owned, IsSub, Nodes;
      OtherStands(s, s', u);
    }
  }

  lemma InNodes(u: Sub, el: Addr, c: Cell)
    requires IsSub(el, u) && c in u
    ensures c.Child? && c.of in Nodes(u)
  {}

  lemma CallMoves(s: State, u: Tid, s': State)
    requires u in s.pc && s.pc[u] == Out && InsertStep(s, u, s')
    ensures u in s'.pc && s'.pc == s.pc[u := s'.pc[u]]
  {
    var el, w, k, v :| InsertCall(s, u, el, w, k, v, s');
    hide IsSub, Nodes;
  }

  lemma InsertMoves(s: State, u: Tid, s': State)
    requires u in s.pc && InsertStep(s, u, s')
    ensures u in s'.pc && s'.pc == s.pc[u := s'.pc[u]]
  {
    hide InsertCall, Nodes, Cmp, Holds;
    match s.pc[u] {
      case Out => CallMoves(s, u, s');
      case Walk(_, _) => case Loaded(_, _, _) =>
      case SwapTry(_, _) => case SwapLoaded(_, _, _) => case SwapStore(_, _) =>
    }
  }

  lemma LookMoves(s: State, u: Tid, s': State)
    requires u in s.pc && LookStep(s, u, s')
    ensures u in s'.pc && s'.pc == s.pc[u := s'.pc[u]]
  {
    hide Present, Cmp, Holds;
    match s.pc[u] {
      case Out => case Look(_, _, _, _) => case ReplaceTry(_, _, _) => case ReplaceLoaded(_, _, _, _) =>
    }
  }

  // ----- every step

  lemma InsertSteady(s: State, t: Tid, s': State)
    requires Steady(s) && t in s.pc && InsertStep(s, t, s')
    ensures Steady(s')
  {
    hide Steady;
    match s.pc[t] {
      case Out =>
        var el, u, k, v :| InsertCall(s, t, el, u, k, v, s');
        InsertCallSteady(s, t, el, u, k, v, s');
      case Walk(_, _) => WalkSteady(s, t, s');
      case Loaded(_, _, _) => if Links(s, t, s') { LinkSteady(s, t, s'); } else { WalkSteady(s, t, s'); }
      case SwapTry(_, _) => SwapSteady(s, t, s');
      case SwapLoaded(_, _, _) => SwapSteady(s, t, s');
      case SwapStore(_, _) => GiveBackSteady(s, t, s');
    }
  }

  lemma CallGrows(s: State, t: Tid, s': State)
    requires Steady(s) && t in s.pc && s.pc[t] == Out && InsertStep(s, t, s')
    ensures Grows(s, s') && s'.links == s.links
    ensures forall u, a :: Carries(s, u, a) && a in s.key ==> a in s'.key && s'.key[a] == s.key[a]
  {
    var el, u, k, v :| InsertCall(s, t, el, u, k, v, s');
    InsertCallGrows(s, t, el, u, k, v, s');
    forall w, a | Carries(s, w, a) ensures Has(s, w, a) { CarriesItsRoot(s, w, a); }
    hide Steady, IsSub, Nodes, Grows, Carries;
  }

  /** A step adds links, and takes none away. */
  lemma InsertGrows(s: State, t: Tid, s': State)
    requires Steady(s) && t in s.pc && InsertStep(s, t, s')
    ensures Grows(s, s')
    ensures !Links(s, t, s') ==> s'.links == s.links
    ensures forall u, a :: u != t && Carries(s, u, a) && a in s.key ==> a in s'.key && s'.key[a] == s.key[a]
  {
    match s.pc[t] {
      case Out => CallGrows(s, t, s');
      case Walk(_, _) =>
      case Loaded(_, _, _) => if Links(s, t, s') { LinkGrows(s, t, s'); }
      case SwapTry(_, _) => case SwapLoaded(_, _, _) => case SwapStore(_, _) =>
    }
  }

  lemma LookGrows(s: State, t: Tid, s': State)
    requires t in s.pc && LookStep(s, t, s')
    ensures Grows(s, s') && s'.links == s.links && s'.key == s.key
  {
    hide Present, Cmp, Holds;
    match s.pc[t] {
      case Out => case Look(_, _, _, _) => case ReplaceTry(_, _, _) => case ReplaceLoaded(_, _, _, _) =>
    }
  }

  lemma InPlaceStays(s: State, s': State, c: Cell)
    requires InPlace(s, c) && s.links[c] != NULL && Grows(s, s')
    ensures InPlace(s', c)
  {
    ReachesStays(s, s', s.key[s.links[c]], c);
  }

  lemma WellShapedStays(s: State, s': State)
    requires WellShaped(s) && Grows(s, s') && s'.links == s.links
    ensures WellShaped(s')
  {
    forall c | c in s'.links && s'.links[c] != NULL ensures InPlace(s', c) {
      InPlaceStays(s, s', c);
    }
  }

  // ----- every step keeps the tree searchable, if what is linked in follows

  lemma PresentStays(s: State, s': State, k: Key)
    requires Present(s, k) && Grows(s, s')
    ensures Present(s', k)
  {
    var c :| c in s.links && s.links[c] != NULL && s.links[c] in s.key && s.key[s.links[c]] == k;
    assert c in s'.links && s'.links[c] != NULL && s'.links[c] in s'.key && s'.key[s'.links[c]] == k;
  }

  /** The other threads stay on their ways. */
  lemma OtherReaches(s: State, s': State, u: Tid)
    requires u in s.pc && u in s'.pc && s'.pc[u] == s.pc[u] && Reaching(s, u) && Grows(s, s')
    requires forall a :: Carries(s, u, a) && a in s.key ==> a in s'.key && s'.key[a] == s.key[a]
    ensures Reaching(s', u)
  {
    match s.pc[u] {
      case Walk(el, at) => assert Carries(s, u, el); ReachesStays(s, s', s.key[el], at);
      case Loaded(el, at, node) => assert Carries(s, u, el); ReachesStays(s, s', s.key[el], at);
      case Look(k, node, _, there) =>
        if node != NULL {
          var c :| c in s.links && s.links[c] == node && Reaches(s, k, c) && (there ==> Present(s, k));
          ReachesStays(s, s', k, c);
          if there { PresentStays(s, s', k); }
        }
      case _ =>
    }
  }

  lemma AtRoot(s: State, k: Key)
    ensures Reaches(s, k, Root)
  {
    assert Way(s, k, [Root]) && Last([Root]) == Root;
  }

  /** From a node of another key the walk goes on to a child. */
  lemma WalkGoesOn(s: State, k: Key, c: Cell)
    requires c in s.links && s.links[c] != NULL && s.links[c] in s.key && Reaches(s, k, c)
    ensures var cmp := Cmp(k, s.key[s.links[c]]); cmp != 0 ==> Reaches(s, k, Child(s.links[c], cmp < 0))
  {
    var cmp := Cmp(k, s.key[s.links[c]]);
    if cmp != 0 {
      var p :| Way(s, k, p) && Last(p) == c;
      WayGoesOn(s, k, p, Child(s.links[c], cmp < 0));
    }
  }

  lemma CallReaches(s: State, t: Tid, s': State)
    requires t in s.pc && s.pc[t] == Out && InsertStep(s, t, s')
    ensures t in s'.pc && Reaching(s', t)
  {
    var el, u, k, v :| InsertCall(s, t, el, u, k, v, s');
    CarriedIsNotFree(el, u);
    hide IsSub, Nodes, Reaches;
    AtRoot(s', s'.key[el]);
  }

  lemma LoadedReaches(s: State, t: Tid, s': State)
    requires Inv(s) && t in s.pc && s.pc[t].Loaded? && InsertStep(s, t, s') && Grows(s, s') && t in s'.pc
    ensures Reaching(s', t)
  {
    assert Reaching(s, t) && Stands(s, t);
    hide Steady, WellShaped, Reaches;
    var k, at, node := s.key[s.pc[t].el], s.pc[t].at, s.pc[t].node;
    if node != NULL {
      WalkGoesOn(s, k, at);
      if s'.pc[t].Walk? { ReachesStays(s, s', k, s'.pc[t].at); }
    } else if s'.pc[t].Walk? {
      ReachesStays(s, s', k, at);
    }
  }

  /** The thread that moves in tree_insert_tree goes on along the way of its key. */
  lemma InsertReaches(s: State, t: Tid, s': State)
    requires Inv(s) && t in s.pc && InsertStep(s, t, s') && Grows(s, s')
    ensures t in s'.pc && Reaching(s', t)
  {
    InsertMoves(s, t, s');
    assert Reaching(s, t);
    match s.pc[t] {
      case Out => CallReaches(s, t, s');
      case Walk(el, at) => ReachesStays(s, s', s.key[el], at);
      case Loaded(_, _, _) => LoadedReaches(s, t, s');
      case SwapTry(_, _) => case SwapLoaded(_, _, _) => case SwapStore(_, _) =>
    }
  }

  /** So does a lookup, and a key that was there is still ahead. */
  lemma LookReaches(s: State, t: Tid, s': State)
    requires Inv(s) && t in s.pc && LookStep(s, t, s') && Grows(s, s') && s'.links == s.links && s'.key == s.key
    ensures t in s'.pc && Reaching(s', t)
  {
    LookMoves(s, t, s');
    assert Reaching(s, t) && Stands(s, t);
    match s.pc[t] {
      case Out =>
        var k, x :| LookCall(s, t, k, x, s');
        AtRoot(s, k);
        AtRoot(s', k);
        if Present(s, k) { WalkFinds(s, k, Root); PresentStays(s, s', k); }
      case Look(k, node, _, there) =>
        if node != NULL {
          var c :| c in s.links && s.links[c] == node && Reaches(s, k, c) && (there ==> Present(s, k));
          CmpZero(k, s.key[node]);
          WalkGoesOn(s, k, c);
          var d := Child(node, Cmp(k, s.key[node]) < 0);
          if Cmp(k, s.key[node]) != 0 {
            ReachesStays(s, s', k, d);
            if there { WalkFinds(s, k, d); PresentStays(s, s', k); }
          }
        }
      case ReplaceTry(_, _, _) => case ReplaceLoaded(_, _, _, _) =>
    }
  }

  /** A step that links a subtree in links one that follows its root. */
  ghost predicate FollowStep(s: State, s': State) {
    forall t :: t in s.pc && Links(s, t, s') ==> Follows(s, s.pc[t].el, s.pc[t].at)
  }

  lemma InsertKeepsShape(s: State, t: Tid, s': State)
    requires Inv(s) && t in s.pc && Grows(s, s') && FollowStep(s, s') && (!Links(s, t, s') ==> s'.links == s.links)
    ensures WellShaped(s')
  {
    hide Links, Follows, Grows, WellShaped, Steady, Reaching;
    if Links(s, t, s') { LinkShapeIff(s, t, s'); } else { WellShapedStays(s, s'); }
  }

  lemma InsertKeepsInv(s: State, t: Tid, s': State)
    requires Inv(s) && t in s.pc && InsertStep(s, t, s') && FollowStep(s, s')
    ensures Inv(s')
  {
    hide Steady, WellShaped, InsertStep, Follows, Links, Reaching, Grows, FollowStep;
    InsertSteady(s, t, s');
    InsertGrows(s, t, s');
    InsertMoves(s, t, s');
    InsertReaches(s, t, s');
    InsertKeepsShape(s, t, s');
    forall u | u in s'.pc && u != t ensures Reaching(s', u) {
      OtherReaches(s, s', u);
    }
  }

  lemma LookKeepsInv(s: State, t: Tid, s': State)
    requires Inv(s) && t in s.pc && LookStep(s, t, s')
    ensures Inv(s')
  {
    hide Steady, WellShaped, LookStep, Reaching, Grows;
    LookSteady(s, t, s');
    LookGrows(s, t, s');
    LookMoves(s, t, s');
    LookReaches(s, t, s');
    WellShapedStays(s, s');
    forall u | u in s'.pc && u != t ensures Reaching(s', u) {
      OtherReaches(s, s', u);
    }
  }

  // ----- main results

  /** Up to state i only subtrees that follow their roots were linked in. */
  ghost predicate Following(r: seq<State>, i: nat)
    requires i < |r|
  {
    forall j :: 0 <= j < i ==> FollowStep(r[j], r[j + 1])
  }

  lemma {:induction false} RunKeepsInv(r: seq<State>, i: nat)
    requires Run(r) && i < |r| && Following(r, i)
    ensures Inv(r[i])
  {
    hide FollowStep, InsertStep, LookStep;
    if i == 0 {
      StartHasInv(r[0]);
    } else {
      RunKeepsInv(r, i - 1);
      var j := i - 1;
      assert FollowStep(r[j], r[j + 1]);
      assert Next(r[j], r[j + 1]);
      var t :| t in r[i - 1].pc && (InsertStep(r[i - 1], t, r[i]) || LookStep(r[i - 1], t, r[i]));
      if InsertStep(r[i - 1], t, r[i]) { InsertKeepsInv(r[i - 1], t, r[i]); } else { LookKeepsInv(r[i - 1], t, r[i]); }
    }
  }

  /** The memory stays in order whatever is handed in. */
  lemma {:induction false} RunIsSteady(r: seq<State>, i: nat)
    requires Run(r) && i < |r|
    ensures Steady(r[i])
  {
    hide Steady, InsertStep, LookStep;
    if i == 0 {
      StartHasInv(r[0]);
      InvIsSteady(r[0]);
    } else {
      RunIsSteady(r, i - 1);
      var j := i - 1;
      assert Next(r[j], r[j + 1]);
      var t :| t in r[j].pc && (InsertStep(r[j], t, r[j + 1]) || LookStep(r[j], t, r[j + 1]));
      if InsertStep(r[j], t, r[j + 1]) { InsertSteady(r[j], t, r[i]); } else { LookSteady(r[j], t, r[i]); }
    }
  }

  lemma InvIsSteady(s: State)
    requires Inv(s)
    ensures Steady(s)
  {}

  lemma StartHasInv(s: State)
    requires Init(s)
    ensures Inv(s)
  {}

  /** The tree is well shaped in every state of a run exactly when each subtree, at the moment of its linking store, is
      searchable and follows its root. */
  lemma WellShapedIff(r: seq<State>)
    requires Run(r)
    ensures (forall i :: 0 <= i < |r| ==> WellShaped(r[i])) <==> Following(r, |r| - 1)
  {
    hide FollowStep, WellShaped, Next;
    if Following(r, |r| - 1) {
      forall i | 0 <= i < |r| ensures WellShaped(r[i]) {
        assert Following(r, i);
        RunKeepsInv(r, i);
      }
    } else {
      var i := FirstAstray(r, |r| - 1);
      RunKeepsInv(r, i);
      AstrayBreaks(r[i], r[i + 1]);
    }
  }

  lemma {:induction false} FirstAstray(r: seq<State>, m: nat) returns (i: nat)
    requires m < |r| && !Following(r, m)
    ensures i < m && Following(r, i) && !FollowStep(r[i], r[i + 1])
  {
    hide FollowStep;
    if m > 0 && !Following(r, m - 1) { i := FirstAstray(r, m - 1); } else { i := m - 1; }
  }

  lemma AstrayBreaks(s: State, s': State)
    requires Inv(s) && !FollowStep(s, s')
    ensures !WellShaped(s')
  {
    var t :| t in s.pc && Links(s, t, s') && !Follows(s, s.pc[t].el, s.pc[t].at);
    hide Links, Follows, Inv;
    LinkShapeIff(s, t, s');
  }

  predicate Single(u: Sub) { forall c :: c in u ==> u[c] == NULL }

  /** Single nodes always follow. */
  lemma SinglesFollow(r: seq<State>)
    requires Run(r) && forall i, el :: 0 <= i < |r| && el in r[i].subs ==> Single(r[i].subs[el])
    ensures Following(r, |r| - 1)
  {
    forall j | 0 <= j < |r| - 1 ensures FollowStep(r[j], r[j + 1]) {
      forall t | t in r[j].pc && Links(r[j], t, r[j + 1]) ensures Follows(r[j], r[j].pc[t].el, r[j].pc[t].at) {
        assert Single(r[j].subs[r[j].pc[t].el]);
      }
    }
  }

  /** In every state of every run each key is in the tree at most once. */
  lemma OnceInTheTree(r: seq<State>, i: nat, c: Cell, d: Cell)
    requires Run(r) && i < |r| && Following(r, i) && c in r[i].links && d in r[i].links
    requires r[i].links[c] != NULL && r[i].links[d] != NULL
    requires r[i].links[c] in r[i].key && r[i].links[d] in r[i].key
    requires r[i].key[r[i].links[c]] == r[i].key[r[i].links[d]]
    ensures c == d
  {
    RunKeepsInv(r, i);
    KeysAreUnique(r[i], c, d);
  }

  lemma StepGrows(s: State, s': State)
    requires Steady(s) && Next(s, s')
    ensures Grows(s, s')
  {
    hide Steady, InsertStep, LookStep;
    var t :| t in s.pc && (InsertStep(s, t, s') || LookStep(s, t, s'));
    if InsertStep(s, t, s') { InsertGrows(s, t, s'); } else { LookGrows(s, t, s'); }
  }

  lemma GrowsFromStart(s: State)
    ensures Grows(s, s)
  {}

  lemma GrowsOn(s: State, s': State, s'': State)
    requires Grows(s, s') && Grows(s', s'')
    ensures Grows(s, s'')
  {
    forall c | c in s.links && s.links[c] != NULL && s.links[c] in s.key
      ensures s.links[c] in s''.key && s''.key[s.links[c]] == s.key[s.links[c]]
    {
      assert s'.links[c] in s'.key;
    }
  }

  lemma NextAt(r: seq<State>, i: nat)
    requires Run(r) && i < |r| - 1
    ensures Next(r[i], r[i + 1])
  {}

  /** Once a link holds a node it holds that node for ever, and the node keeps its key. */
  lemma {:induction false} LinksOnlyGrow(r: seq<State>, i: nat, j: nat)
    requires Run(r) && i <= j < |r|
    ensures Grows(r[i], r[j])
    decreases j
  {
    hide Grows, Steady, Run, Next;
    if i == j {
      GrowsFromStart(r[i]);
    } else {
      LinksOnlyGrow(r, i, j - 1);
      RunIsSteady(r, j - 1);
      NextAt(r, j - 1);
      StepGrows(r[j - 1], r[j]);
      GrowsOn(r[i], r[j - 1], r[j]);
    }
  }

  lemma NowPresent(s: State, t: Tid, s': State)
    requires Steady(s) && t in s.pc && InsertStep(s, t, s') && t in s'.pc
    requires (s.pc[t].Loaded? && s'.pc[t] == Out) || (s.pc[t].SwapLoaded? && s'.pc[t].SwapStore?)
    ensures s.pc[t].el in s.key && Present(s', s.key[s.pc[t].el])
  {
    assert Stands(s, t);
    var el := s.pc[t].el;
    if s.pc[t].Loaded? {
      assert Links(s, t, s');
      LinkGrows(s, t, s');
      hide Steady, IsSub, Nodes;
      assert s'.links[s.pc[t].at] == el;
    } else {
      var c :| c in s.links && s.links[c] == s.pc[t].node;
      hide Steady;
      assert s'.links[c] == s.pc[t].node;
    }
  }

  /** The key of an element that was linked in, or whose value was exchanged, is in the tree from then on. */
  lemma InsertedStays(r: seq<State>, i: nat, j: nat, t: Tid)
    requires Run(r) && i < j < |r| && t in r[i].pc && InsertStep(r[i], t, r[i + 1]) && t in r[i + 1].pc
    requires (r[i].pc[t].Loaded? && r[i + 1].pc[t] == Out) || (r[i].pc[t].SwapLoaded? && r[i + 1].pc[t].SwapStore?)
    ensures r[i].pc[t].el in r[i].key && Present(r[j], r[i].key[r[i].pc[t].el])
  {
    hide InsertStep, LookStep, Next, Steady, Grows, Present;
    RunIsSteady(r, i);
    NowPresent(r[i], t, r[i + 1]);
    LinksOnlyGrow(r, i + 1, j);
    PresentStays(r[i + 1], r[j], r[i].key[r[i].pc[t].el]);
  }

  // ----- a subtree that does not follow

  lemma ThenInsert(r: seq<State>, t: Tid, s': State) returns (r': seq<State>)
    requires Run(r) && var s := r[|r| - 1]; t in s.pc && InsertStep(s, t, s')
    ensures Run(r') && r' != [] && r'[|r'| - 1] == s'
  {
    hide InsertStep;
    r' := r + [s'];
    assert Next(r[|r| - 1], s');
    hide Next, LookStep;
  }

  lemma ThenCall(r: seq<State>, t: Tid, el: Addr, u: Sub, k: map<Addr, Key>, v: map<Addr, nat>)
      returns (r': seq<State>)
    requires Run(r) && var s := r[|r| - 1]; t in s.pc && s.pc[t] == Out && Nodes(u) <= s.free
    requires IsSub(el, u) && k.Keys == Nodes(u) && v.Keys == Nodes(u)
    ensures Run(r') && r' != []
    ensures var s := r[|r| - 1];
      r'[|r'| - 1] == Go(s, t, Walk(el, Root)).(
                        free := s.free - Nodes(u), key := s.key + k, value := s.value + v, subs := s.subs[el := u])
  {
    var s := r[|r| - 1];
    var s' := Go(s, t, Walk(el, Root)).(
                free := s.free - Nodes(u), key := s.key + k, value := s.value + v, subs := s.subs[el := u]);
    assert InsertCall(s, t, el, u, k, v, s');
    hide Run, InsertCall, IsSub, Nodes;
    r' := ThenInsert(r, t, s');
  }

  lemma ThenLoad(r: seq<State>, t: Tid) returns (r': seq<State>)
    requires Run(r) && var s := r[|r| - 1]; t in s.pc && s.pc[t].Walk? && s.pc[t].at in s.links
    ensures Run(r') && r' != []
    ensures var s := r[|r| - 1]; var at := s.pc[t].at;
      r'[|r'| - 1] == Go(s, t, Loaded(s.pc[t].el, at, s.links[at])).(monitor := Ldrex(s.monitor, t, at))
  {
    var s := r[|r| - 1];
    var at := s.pc[t].at;
    hide Run;
    r' := ThenInsert(r, t, Go(s, t, Loaded(s.pc[t].el, at, s.links[at])).(monitor := Ldrex(s.monitor, t, at)));
  }

  lemma ThenCompare(r: seq<State>, t: Tid) returns (r': seq<State>)
    requires Run(r) && var s := r[|r| - 1]; t in s.pc && s.pc[t].Loaded? && s.pc[t].node != NULL
    requires var s := r[|r| - 1]; var p := s.pc[t];
      p.el in s.key && p.node in s.key && Cmp(s.key[p.el], s.key[p.node]) != 0
    ensures Run(r') && r' != []
    ensures var s := r[|r| - 1]; var p := s.pc[t];
      r'[|r'| - 1] == Go(s, t, Walk(p.el, Child(p.node, Cmp(s.key[p.el], s.key[p.node]) < 0)))
  {
    var s := r[|r| - 1];
    var p := s.pc[t];
    hide Run, Cmp;
    r' := ThenInsert(r, t, Go(s, t, Walk(p.el, Child(p.node, Cmp(s.key[p.el], s.key[p.node]) < 0))));
  }

  lemma ThenLink(r: seq<State>, t: Tid) returns (r': seq<State>)
    requires Run(r) && var s := r[|r| - 1]; t in s.pc && s.pc[t].Loaded? && s.pc[t].node == NULL
    requires var s := r[|r| - 1]; Holds(s.monitor, t, s.pc[t].at) && s.pc[t].el in s.subs
    ensures Run(r') && r' != []
    ensures var s := r[|r| - 1]; var el, at := s.pc[t].el, s.pc[t].at;
      r'[|r'| - 1] == Go(s, t, Out).(links := (s.links + s.subs[el])[at := el], monitor := Stored(s.monitor, at))
  {
    var s := r[|r| - 1];
    var el, at := s.pc[t].el, s.pc[t].at;
    hide Run;
    r' := ThenInsert(r, t, Go(s, t, Out).(links := (s.links + s.subs[el])[at := el], monitor := Stored(s.monitor, at)));
  }

  function Ten(): Sub { map[Child(1, true) := NULL, Child(1, false) := NULL] }

  /** Key 20 with key 5 on its left. */
  function Twenty(): Sub {
    map[Child(2, true) := 3, Child(2, false) := NULL, Child(3, true) := NULL, Child(3, false) := NULL]
  }

  lemma TheseAreSubs()
    ensures Nodes(Ten()) == {1} && IsSub(1, Ten()) && Nodes(Twenty()) == {2, 3} && IsSub(2, Twenty())
  {
    assert Child(1, true) in Ten() && Child(2, true) in Twenty() && Child(3, true) in Twenty();
    assert Twenty()[Child(2, true)] == 3;
  }

  /** A root with key 10, handed in by thread 0. */
  lemma TenHandedIn() returns (r: seq<State>)
    ensures Run(r) && r != []
    ensures r[|r| - 1] == State(map[Root := NULL], map[1 := Ten()], map[1 := 10], map[1 := 0], map[],
                                map[0 := Walk(1, Root)], {2, 3})
  {
    hide InsertStep, LookStep, Run, IsSub, Nodes, Ten;
    r := [State(map[Root := NULL], map[], map[], map[], map[], map[0 := Out], {1, 2, 3})];
    NewTree(r[0]);
    TheseAreSubs();
    r := ThenCall(r, 0, 1, Ten(), map[1 := 10], map[1 := 0]);
    assert {1, 2, 3} - {1} == {2, 3};
  }

  lemma NewTree(s: State)
    requires Init(s)
    ensures Run([s])
  {}

  lemma TenAlone() returns (r: seq<State>)
    ensures Run(r) && r != []
    ensures var s := r[|r| - 1];
      && s.links == map[Root := 1] + Ten() && s.key == map[1 := 10] && s.pc == map[0 := Out] && s.free == {2, 3}
  {
    hide InsertStep, LookStep, Run, Ten;
    r := TenHandedIn();
    r := ThenLoad(r, 0);
    r := ThenLink(r, 0);
    TenLinks();
  }

  lemma TenLinks()
    ensures (map[Root := NULL] + Ten())[Root := 1] == map[Root := 1] + Ten()
  {}

  /** Below it a tree in which key 5 is on the left of key 20. */
  lemma TwentyHandedIn() returns (r: seq<State>)
    ensures Run(r) && r != []
    ensures var s := r[|r| - 1];
      && s.links == map[Root := 1] + Ten() && s.key == map[1 := 10, 2 := 20, 3 := 5]
      && 0 in s.pc && s.pc[0] == Walk(2, Root) && 2 in s.subs && s.subs[2] == Twenty()
  {
    hide InsertStep, LookStep, Run, IsSub, Nodes, Ten, Twenty;
    TheseAreSubs();
    r := TenAlone();
    r := ThenCall(r, 0, 2, Twenty(), map[2 := 20, 3 := 5], map[2 := 0, 3 := 0]);
  }

  lemma TwentyHasAPlace() returns (r: seq<State>)
    ensures Run(r) && r != []
    ensures var s := r[|r| - 1];
      && s.links == map[Root := 1] + Ten() && s.key == map[1 := 10, 2 := 20, 3 := 5]
      && 0 in s.pc && s.pc[0] == Loaded(2, Child(1, false), NULL) && Holds(s.monitor, 0, Child(1, false))
      && 2 in s.subs && s.subs[2] == Twenty()
  {
    hide InsertStep, LookStep, Run, Twenty;
    r := TwentyHandedIn();
    r := ThenLoad(r, 0);
    r := ThenCompare(r, 0);
    r := ThenLoad(r, 0);
  }

  /** Nobody else is at work, and still: 5 is then present, and the walk for it ends at an empty link. */
  lemma AstrayIsLost() returns (r: seq<State>)
    ensures Run(r) && r != []
    ensures var s := r[|r| - 1]; var c := Child(1, true);
      Present(s, 5) && Reaches(s, 5, c) && c in s.links && s.links[c] == NULL && !WellShaped(s)
  {
    hide InsertStep, LookStep, Run, Present, Reaches, WellShaped;
    r := TwentyHasAPlace();
    r := ThenLink(r, 0);
    FiveIsLost(r[|r| - 1]);
  }

  lemma FiveIsLost(s: State)
    requires Root in s.links && s.links[Root] == 1 && 1 in s.key && s.key[1] == 10 && 3 in s.key && s.key[3] == 5
    requires Child(1, true) in s.links && s.links[Child(1, true)] == NULL
    requires Child(2, true) in s.links && s.links[Child(2, true)] == 3
    ensures Present(s, 5) && Reaches(s, 5, Child(1, true)) && !WellShaped(s)
  {
    var p := [Root, Child(1, true)];
    assert Sends(s, 1, 5, Child(1, true));
    assert Way(s, 5, p) && Last(p) == Child(1, true) by { assert Onward(s, 5, p[0], p[0 + 1]); }
    assert s.links[Child(2, true)] != NULL;
    if WellShaped(s) { WalkFinds(s, 5, Child(1, true)); }
  }

  // ----- a lookup arrives

  ghost predicate StepOf(s: State, t: Tid, s': State) { t in s.pc && (InsertStep(s, t, s') || LookStep(s, t, s')) }

  /** A run together with the threads whose steps it is made of. */
  ghost predicate RunBy(r: seq<State>, who: seq<Tid>) {
    && r != [] && |who| == |r| - 1
    && Init(r[0])
    && forall i :: 0 <= i < |r| - 1 ==> StepOf(r[i], who[i], r[i + 1])
  }

  /** Every run is one of those. */
  lemma {:induction false} RunHasThreads(r: seq<State>) returns (who: seq<Tid>)
    requires Run(r)
    ensures RunBy(r, who)
  {
    who := [];
    if |r| > 1 {
      var n := |r| - 1;
      var before := RunHasThreads(r[..n]);
      assert Next(r[n - 1], r[n - 1 + 1]);
      var t :| t in r[n - 1].pc && (InsertStep(r[n - 1], t, r[n]) || LookStep(r[n - 1], t, r[n]));
      who := before + [t];
      forall i | 0 <= i < |r| - 1 ensures StepOf(r[i], who[i], r[i + 1]) {
        if i < n - 1 { assert StepOf(r[..n][i], before[i], r[..n][i + 1]); }
      }
    }
  }

  /** How many of the steps from i to m are those of thread t. */
  function Own(who: seq<Tid>, t: Tid, i: nat, m: nat): (n: nat)
    requires i <= m <= |who|
    ensures n <= m - i
    decreases m
  {
    if i == m then 0 else Own(who, t, i, m - 1) + if who[m - 1] == t then 1 else 0
  }

  /** p is the whole way to the node with key k, and the lookup of thread t stands at its cell j. */
  ghost predicate OnTheWay(s: State, t: Tid, k: Key, p: seq<Cell>, j: nat) {
    && t in s.pc && s.pc[t].Look? && s.pc[t].k == k && s.pc[t].node != NULL
    && Way(s, k, p) && LeadsTo(s, k, Last(p))
    && j < |p| && p[j] in s.links && s.links[p[j]] == s.pc[t].node
  }

  /** Cell c holds the node with key k. */
  ghost predicate LeadsTo(s: State, k: Key, c: Cell) {
    c in s.links && s.links[c] != NULL && s.links[c] in s.key && s.key[s.links[c]] == k
  }

  /** A lookup whose key was there when it began is on the way to the node that has it. */
  lemma LookupIsOnTheWay(r: seq<State>, i: nat, t: Tid) returns (p: seq<Cell>, j: nat)
    requires Run(r) && i < |r| && Following(r, i) && t in r[i].pc && r[i].pc[t].Look? && r[i].pc[t].there
    ensures OnTheWay(r[i], t, r[i].pc[t].k, p, j)
  {
    RunKeepsInv(r, i);
    var s, k := r[i], r[i].pc[t].k;
    assert Reaching(s, t);
    var c :| c in s.links && s.links[c] == s.pc[t].node && Reaches(s, k, c) && Present(s, k);
    var q :| Way(s, k, q) && Last(q) == c;
    var d :| d in s.links && s.links[d] != NULL && s.links[d] in s.key && s.key[s.links[d]] == k;
    assert InPlace(s, d) && LeadsTo(s, k, d);
    p :| Way(s, k, p) && Last(p) == d;
    j := |q| - 1;
    hide Inv, Way, InPlace;
    PartOfTheWay(s, k, p, q);
  }

  /** No way for a key goes past the node that has it. */
  lemma PartOfTheWay(s: State, k: Key, p: seq<Cell>, q: seq<Cell>)
    requires Way(s, k, p) && LeadsTo(s, k, Last(p)) && Way(s, k, q)
    ensures |q| <= |p| && p[|q| - 1] == Last(q)
  {
    if |q| > |p| {
      WaysAgree(s, k, p, q, |p| - 1);
      GoesPast(s, k, q, |p| - 1);
      assert false;
    }
    WaysAgree(s, k, p, q, |q| - 1);
  }

  /** A lookup that began when its key was in the tree never comes out of the tree empty-handed. */
  lemma LookupFinds(r: seq<State>, i: nat, t: Tid)
    requires Run(r) && i < |r| && Following(r, i) && t in r[i].pc && r[i].pc[t].Look? && r[i].pc[t].there
    ensures r[i].pc[t].node != NULL
  {
    RunKeepsInv(r, i);
    assert Reaching(r[i], t);
  }

  /** The lookup's own step takes it one cell on, and from the last one to the replacement, at the node it looked
      for. */
  lemma OwnStepGoesOn(s: State, t: Tid, s': State, k: Key, p: seq<Cell>, j: nat)
    requires OnTheWay(s, t, k, p, j) && StepOf(s, t, s')
    ensures t in s'.pc
    ensures j + 1 < |p| ==> OnTheWay(s', t, k, p, j + 1)
    ensures j + 1 == |p| ==> LeadsTo(s', k, Last(p)) && s'.pc[t] == ReplaceTry(k, s'.links[Last(p)], s.pc[t].x)
  {
    assert LookStep(s, t, s') && s'.links == s.links && s'.key == s.key;
    if j + 1 < |p| {
      assert Onward(s, k, p[j], p[j + 1]);
      if j + 2 < |p| { assert Onward(s, k, p[j + 1], p[j + 1 + 1]); }
      WayStays(s, s', k, p);
    } else {
      CmpZero(k, s.key[s.pc[t].node]);
    }
  }

  /** The steps of others neither move the lookup nor change its way. */
  lemma OthersLeaveTheWay(s: State, u: Tid, s': State, t: Tid, k: Key, p: seq<Cell>, j: nat)
    requires Steady(s) && StepOf(s, u, s') && u != t && OnTheWay(s, t, k, p, j)
    ensures OnTheWay(s', t, k, p, j)
  {
    hide InsertStep, LookStep, Steady, Way, Sends;
    if InsertStep(s, u, s') { InsertMoves(s, u, s'); } else { LookMoves(s, u, s'); }
    assert Next(s, s');
    StepGrows(s, s');
    WayStays(s, s', k, p);
  }

  lemma StepAt(r: seq<State>, who: seq<Tid>, m: nat)
    requires RunBy(r, who) && 0 < m < |r|
    ensures |who| == |r| - 1 && StepOf(r[m - 1], who[m - 1], r[m])
  {
    var i := m - 1;
    assert StepOf(r[i], who[i], r[i + 1]);
  }

  lemma {:induction false} WalkAlong(r: seq<State>, who: seq<Tid>, i: nat, m: nat, t: Tid, k: Key, p: seq<Cell>,
                                     j: nat)
    requires RunBy(r, who) && Run(r) && |who| == |r| - 1 && i <= m < |r|
    requires OnTheWay(r[i], t, k, p, j)
    requires j + Own(who, t, i, m) < |p|
    ensures OnTheWay(r[m], t, k, p, j + Own(who, t, i, m))
    decreases m
  {
    hide StepOf, OnTheWay, RunBy, Run, Steady;
    if i < m {
      var n := Own(who, t, i, m - 1);
      StepAt(r, who, m);
      RunIsSteady(r, m - 1);
      WalkAlong(r, who, i, m - 1, t, k, p, j);
      if who[m - 1] == t {
        OwnStepGoesOn(r[m - 1], t, r[m], k, p, j + n);
      } else {
        OthersLeaveTheWay(r[m - 1], who[m - 1], r[m], t, k, p, j + n);
      }
    }
  }

  /** Thread t is about to replace the value of the node with key k. */
  ghost predicate ArrivedAt(s: State, t: Tid, k: Key) {
    && t in s.pc && s.pc[t].ReplaceTry? && s.pc[t].k == k
    && exists c :: LeadsTo(s, k, c) && s.pc[t].node == s.links[c]
  }

  lemma LastStepArrives(r: seq<State>, who: seq<Tid>, i: nat, h: nat, t: Tid, k: Key, p: seq<Cell>, j: nat)
    requires RunBy(r, who) && Run(r) && |who| == |r| - 1 && i < h < |r|
    requires OnTheWay(r[i], t, k, p, j)
    requires j + Own(who, t, i, h) == |p| && who[h - 1] == t
    ensures ArrivedAt(r[h], t, k)
  {
    hide StepOf, OnTheWay, RunBy, Run;
    StepAt(r, who, h);
    WalkAlong(r, who, i, h - 1, t, k, p, j);
    OwnStepGoesOn(r[h - 1], t, r[h], k, p, |p| - 1);
  }

  lemma {:induction false} FirstTime(who: seq<Tid>, t: Tid, i: nat, m: nat, n: nat) returns (h: nat)
    requires i <= m <= |who| && 0 < n <= Own(who, t, i, m)
    ensures i < h <= m && Own(who, t, i, h) == n && who[h - 1] == t
    decreases m
  {
    if Own(who, t, i, m - 1) >= n { h := FirstTime(who, t, i, m - 1, n); } else { h := m; }
  }

  lemma RunByIsRun(r: seq<State>, who: seq<Tid>)
    requires RunBy(r, who)
    ensures Run(r)
  {
    forall i | 0 <= i < |r| - 1 ensures Next(r[i], r[i + 1]) { assert StepOf(r[i], who[i], r[i + 1]); }
  }

  /** However many insertions run meanwhile, a lookup whose key was in the tree when it began walks down one fixed
      way, a cell with every step of its own, and with as many steps as cells are left it is at the node that has
      the key. Every run has such an account of who moved (RunHasThreads). */
  lemma LookupArrives(r: seq<State>, who: seq<Tid>, i: nat, m: nat, t: Tid) returns (p: seq<Cell>, j: nat)
    requires RunBy(r, who) && i <= m < |r| && Following(r, i)
    requires t in r[i].pc && r[i].pc[t].Look? && r[i].pc[t].there
    ensures j < |p| && OnTheWay(r[i], t, r[i].pc[t].k, p, j)
    ensures var n := Own(who, t, i, m); n < |p| - j ==> OnTheWay(r[m], t, r[i].pc[t].k, p, j + n)
    ensures Own(who, t, i, m) >= |p| - j ==>
              exists h :: i < h <= m && Own(who, t, i, h) == |p| - j && ArrivedAt(r[h], t, r[i].pc[t].k)
  {
    RunByIsRun(r, who);
    var k := r[i].pc[t].k;
    p, j := LookupIsOnTheWay(r, i, t);
    assert j < |p|;
    hide OnTheWay, Run, RunBy, ArrivedAt;
    if Own(who, t, i, m) < |p| - j {
      WalkAlong(r, who, i, m, t, k, p, j);
    } else {
      var h := FirstTime(who, t, i, m, |p| - j);
      LastStepArrives(r, who, i, h, t, k, p, j);
    }
  }

  /** An insertion under a key already there gives back exactly what the node held until that instant. */
  lemma ExchangeTakesOld(r: seq<State>, i: nat, t: Tid)
    requires Run(r) && i + 1 < |r| && t in r[i].pc && InsertStep(r[i], t, r[i + 1]) && t in r[i + 1].pc
    requires r[i].pc[t].SwapLoaded? && r[i + 1].pc[t].SwapStore?
    ensures var node := r[i].pc[t].node; var el := r[i].pc[t].el;
      && node in r[i].value && el in r[i].value && node in r[i].key && el in r[i].key && node in r[i + 1].value
      && r[i].key[node] == r[i].key[el]
      && r[i + 1].pc[t].v == r[i].value[node] && r[i + 1].value[node] == r[i].value[el]
  {
    RunIsSteady(r, i);
    assert Stands(r[i], t);
  }
}
