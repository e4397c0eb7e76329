/** r3_tree.c: how the calls on the tree end, with what result, and that each of them can be ended. */
module TreeCalls {
  import opened Chains
  import opened Exclusive
  import opened Tree

  // ----- who moves

  lemma OnlyOwnStepsMove(s: State, s': State, t: Tid)
    requires Next(s, s') && t in s.pc && t in s'.pc && s'.pc[t] != s.pc[t]
    ensures StepOf(s, t, s')
  {
    hide InsertStep, LookStep;
    var u :| u in s.pc && (InsertStep(s, u, s') || LookStep(s, u, s'));
    if InsertStep(s, u, s') { InsertMoves(s, u, s'); } else { LookMoves(s, u, s'); }
  }

  lemma ThreadsStay(s: State, s': State, t: Tid)
    requires Next(s, s')
    ensures t in s.pc <==> t in s'.pc
  {
    hide InsertStep, LookStep;
    var u :| u in s.pc && (InsertStep(s, u, s') || LookStep(s, u, s'));
    if InsertStep(s, u, s') { InsertMoves(s, u, s'); } else { LookMoves(s, u, s'); }
  }

  // ----- tree_replace_data

  predicate Looking(p: Pc) { p.Look? || p.ReplaceTry? || p.ReplaceLoaded? }

  /** Node has key k, what was taken is its value, and in its place is x; nothing else is touched. */
  ghost predicate Replaces(s: State, k: Key, node: Addr, x: nat, v: nat, s': State) {
    && Node(s, node, k) && v == s.value[node]
    && s'.value == s.value[node := x] && s'.key == s.key && s'.links == s.links
  }

  lemma LookEndsWhere(s: State, t: Tid, s': State)
    requires t in s.pc && t in s'.pc && StepOf(s, t, s') && Stands(s, t) && Looking(s.pc[t]) && s'.pc[t] == Out
    ensures
      || (s.pc[t].Look? && s.pc[t].node == NULL && s'.value == s.value && s'.links == s.links && s'.key == s.key)
      || (s.pc[t].ReplaceLoaded? && Replaces(s, s.pc[t].k, s.pc[t].node, s.pc[t].x, s.pc[t].v, s'))
  {
    match s.pc[t] {
      case Look(_, _, _, _) => case ReplaceTry(_, _, _) => case ReplaceLoaded(_, _, _, _) =>
    }
  }

  /** What the call was given stays the same to its end. */
  lemma LooksForItsKey(s: State, t: Tid, s': State)
    requires t in s.pc && t in s'.pc && StepOf(s, t, s') && Looking(s.pc[t]) && s'.pc[t] != Out
    ensures Looking(s'.pc[t]) && s'.pc[t].k == s.pc[t].k && s'.pc[t].x == s.pc[t].x
    ensures s'.pc[t].Look? ==> s'.pc[t].there == s.pc[t].there
  {
    match s.pc[t] {
      case Look(_, _, _, _) => case ReplaceTry(_, _, _) => case ReplaceLoaded(_, _, _, _) =>
    }
  }

  /** tree_replace_data stores what it was given in the node with its key and hands over what that held at that instant,
      or touches nothing; and as long as what is linked in follows, it does the one if the key was there when it
      began. */
  lemma LookEnds(r: seq<State>, i: nat, t: Tid)
    requires Run(r) && i + 1 < |r| && t in r[i].pc && t in r[i + 1].pc
    requires Looking(r[i].pc[t]) && r[i + 1].pc[t] == Out
    ensures var p := r[i].pc[t];
      || (p.Look? && p.node == NULL && r[i + 1].value == r[i].value && (Following(r, i) ==> !p.there))
      || (p.ReplaceLoaded? && Replaces(r[i], p.k, p.node, p.x, p.v, r[i + 1]))
  {
    NextAt(r, i);
    RunIsSteady(r, i);
    assert Stands(r[i], t);
    if Following(r, i) && r[i].pc[t].Look? && r[i].pc[t].there { LookupFinds(r, i, t); }
    hide Run, Next, Steady, Stands, StepOf, Following, Replaces;
    OnlyOwnStepsMove(r[i], r[i + 1], t);
    LookEndsWhere(r[i], t, r[i + 1]);
  }

  // ----- tree_insert_tree

  /** The subtree is linked in where the walk found an empty link. */
  ghost predicate LinksIn(s: State, el: Addr, at: Cell, s': State) {
    && at in s.links && s.links[at] == NULL && el in s.subs
    && s'.links == (s.links + s.subs[el])[at := el] && s'.key == s.key && s'.value == s.value && s'.free == s.free
  }

  /** The element gets value v, and its nodes are the caller's again. */
  ghost predicate GivesBack(s: State, el: Addr, v: nat, s': State) {
    && el in s.subs && s'.value == s.value[el := v] && s'.free == s.free + Nodes(s.subs[el])
    && s'.links == s.links && s'.key == s.key
  }

  lemma InsertEndsWhere(s: State, t: Tid, s': State)
    requires t in s.pc && t in s'.pc && StepOf(s, t, s') && Stands(s, t) && Inserting(s.pc[t]) && s'.pc[t] == Out
    ensures (s.pc[t].Loaded? && LinksIn(s, s.pc[t].el, s.pc[t].at, s'))
         || (s.pc[t].SwapStore? && GivesBack(s, s.pc[t].el, s.pc[t].v, s'))
  {
    match s.pc[t] {
      case Walk(_, _) => case Loaded(_, _, _) => case SwapTry(_, _) => case SwapLoaded(_, _, _) =>
      case SwapStore(_, _) =>
    }
  }

  lemma InserterInserts(s: State, t: Tid, s': State)
    requires StepOf(s, t, s') && Inserting(s.pc[t])
    ensures InsertStep(s, t, s')
  {
    hide InsertStep;
  }

  /** The element of the call stays the same to its end. */
  lemma InsertsItsElement(s: State, t: Tid, s': State)
    requires t in s.pc && t in s'.pc && StepOf(s, t, s') && Inserting(s.pc[t]) && s'.pc[t] != Out
    ensures Inserting(s'.pc[t]) && s'.pc[t].el == s.pc[t].el
    ensures s'.pc[t].SwapStore? && !s.pc[t].SwapStore? ==> s.pc[t].SwapLoaded? && s'.pc[t].v == s.pc[t].v
  {
    hide Cmp, Nodes, Holds, LookStep, StepOf;
    InserterInserts(s, t, s');
    match s.pc[t] {
      case Walk(_, _) => case Loaded(_, _, _) => case SwapTry(_, _) => case SwapLoaded(_, _, _) =>
      case SwapStore(_, _) =>
    }
  }

  /** In step j thread t exchanged the value of its element for what a node of the same key held, and has done nothing
      since. */
  ghost predicate ExchangedAt(r: seq<State>, j: nat, i: nat, t: Tid)
    requires i < |r|
  {
    && j < i && t in r[j].pc && r[j].pc[t].SwapLoaded? && t in r[i].pc && r[i].pc[t].SwapStore?
    && (forall k :: j < k <= i ==> t in r[k].pc && r[k].pc[t] == r[i].pc[t])
    && var el, node := r[j].pc[t].el, r[j].pc[t].node;
       && el in r[j].key && el in r[j].value && Node(r[j], node, r[j].key[el])
       && r[i].pc[t] == SwapStore(el, r[j].value[node]) && r[j + 1].value == r[j].value[node := r[j].value[el]]
  }

  lemma ExchangeStays(r: seq<State>, j: nat, i: nat, t: Tid)
    requires i + 1 < |r| && ExchangedAt(r, j, i, t) && t in r[i + 1].pc && r[i + 1].pc[t] == r[i].pc[t]
    ensures ExchangedAt(r, j, i + 1, t)
  {}

  lemma ExchangeNow(r: seq<State>, i: nat, t: Tid)
    requires i + 1 < |r| && t in r[i].pc && t in r[i + 1].pc && StepOf(r[i], t, r[i + 1]) && Steady(r[i])
    requires !r[i].pc[t].SwapStore? && r[i + 1].pc[t].SwapStore?
    ensures ExchangedAt(r, i, i + 1, t)
  {
    assert Stands(r[i], t);
    match r[i].pc[t] {
      case Walk(_, _) => case Loaded(_, _, _) => case SwapTry(_, _) => case SwapLoaded(_, _, _) =>
      case _ =>
    }
  }

  lemma OutAtFirst(r: seq<State>)
    requires Run(r)
    ensures forall t :: t in r[0].pc ==> r[0].pc[t] == Out
  {}

  lemma {:induction false} ExchangedEarlier(r: seq<State>, i: nat, t: Tid) returns (j: nat)
    requires Run(r) && i < |r| && t in r[i].pc && r[i].pc[t].SwapStore?
    ensures ExchangedAt(r, j, i, t)
  {
    OutAtFirst(r);
    if i > 0 {
      j := i - 1;
      NextAt(r, j);
      RunIsSteady(r, j);
      hide Run, Next, StepOf, Steady, ExchangedAt;
      ThreadsStay(r[j], r[j + 1], t);
      if r[j].pc[t] == r[i].pc[t] {
        j := ExchangedEarlier(r, i - 1, t);
        ExchangeStays(r, j, i - 1, t);
      } else {
        OnlyOwnStepsMove(r[j], r[j + 1], t);
        if r[j].pc[t].SwapStore? { NeverFromSwapStore(r[j], t, r[j + 1]); }
        ExchangeNow(r, j, t);
      }
    }
  }

  lemma NeverFromSwapStore(s: State, t: Tid, s': State)
    requires StepOf(s, t, s') && t in s'.pc && s.pc[t].SwapStore?
    ensures s'.pc[t] == Out
  {}

  /** tree_insert_tree ends with the subtree linked in where the walk for its key found an empty link; or, after an
      exchange with the node that has its key, with the element holding what that node held at that instant, and its
      nodes the caller's again. */
  lemma InsertEnds(r: seq<State>, i: nat, t: Tid) returns (j: nat)
    requires Run(r) && i + 1 < |r| && t in r[i].pc && t in r[i + 1].pc
    requires Inserting(r[i].pc[t]) && r[i + 1].pc[t] == Out
    ensures var p := r[i].pc[t];
      || (p.Loaded? && LinksIn(r[i], p.el, p.at, r[i + 1])
          && (Following(r, i) ==> p.el in r[i].key && Reaches(r[i], r[i].key[p.el], p.at)))
      || (p.SwapStore? && ExchangedAt(r, j, i, t) && GivesBack(r[i], p.el, p.v, r[i + 1]))
  {
    j := 0;
    NextAt(r, i);
    RunIsSteady(r, i);
    assert Stands(r[i], t);
    if Following(r, i) && r[i].pc[t].Loaded? {
      RunKeepsInv(r, i);
      assert Reaching(r[i], t);
    }
    hide Next, Steady, Stands, StepOf, Inv, Following, Reaches, Run;
    OnlyOwnStepsMove(r[i], r[i + 1], t);
    InsertEndsWhere(r[i], t, r[i + 1]);
    if r[i].pc[t].SwapStore? { j := ExchangedEarlier(r, i, t); }
  }

  // ----- a walk comes to an end

  /** Which cells hold nodes is one-to-one. */
  lemma OneCellEach(s: State, c: Cell, d: Cell)
    requires Inv(s) && c in s.links && d in s.links && s.links[c] == s.links[d] != NULL
    ensures c == d
  {
    assert InPlace(s, c);
    KeysAreUnique(s, c, d);
  }

  /** A way never comes to a cell twice. */
  lemma {:induction false} WayIsDistinct(s: State, k: Key, p: seq<Cell>, i: nat, j: nat)
    requires Inv(s) && Way(s, k, p) && i < j < |p|
    ensures p[i] != p[j]
  {
    assert Onward(s, k, p[j - 1], p[j - 1 + 1]);
    if i > 0 {
      assert Onward(s, k, p[i - 1], p[i - 1 + 1]);
      WayIsDistinct(s, k, p, i - 1, j - 1);
      hide Inv, Way;
      if p[i] == p[j] { OneCellEach(s, p[i - 1], p[j - 1]); }
    }
  }

  lemma {:induction false} DistinctFits<T>(p: seq<T>, m: set<T>)
    requires Distinct(p) && forall x :: x in p ==> x in m
    ensures |p| <= |m|
  {
    if p != [] {
      DistinctFits(p[1..], m - {p[0]});
    }
  }

  /** So it has at most one cell more than the tree. */
  lemma WayIsShort(s: State, k: Key, p: seq<Cell>)
    requires Inv(s) && Way(s, k, p)
    ensures p != [] && |p| <= |s.links| + 1
  {
    var front := p[..|p| - 1];
    forall i, j | 0 <= i < j < |front| ensures front[i] != front[j] { WayIsDistinct(s, k, p, i, j); }
    forall c | c in front ensures c in s.links.Keys {
      var i :| 0 <= i < |front| && front[i] == c;
      assert Onward(s, k, p[i], p[i + 1]);
    }
    hide Inv, Way;
    DistinctFits(front, s.links.Keys);
    assert |s.links.Keys| == |s.links|;
  }

  // ----- a thread alone

  /** r are steps of thread t from inside a call to its end. */
  ghost predicate Alone(r: seq<State>, t: Tid) {
    && r != [] && t in r[|r| - 1].pc && r[|r| - 1].pc[t] == Out
    && forall i :: 0 <= i < |r| - 1 ==> t in r[i].pc && r[i].pc[t] != Out && StepOf(r[i], t, r[i + 1])
  }

  lemma AloneThen(s: State, t: Tid, q: seq<State>)
    requires Alone(q, t) && t in s.pc && s.pc[t] != Out && StepOf(s, t, q[0])
    ensures Alone([s] + q, t)
  {
    hide StepOf;
    var r := [s] + q;
    forall i | 0 <= i < |r| - 1 ensures t in r[i].pc && r[i].pc[t] != Out && StepOf(r[i], t, r[i + 1]) {
      if i > 0 { assert r[i] == q[i - 1] && r[i + 1] == q[i - 1 + 1]; }
    }
  }

  lemma ReplaceAlone(s: State, t: Tid) returns (r: seq<State>)
    requires t in s.pc && (s.pc[t].ReplaceTry? || s.pc[t].ReplaceLoaded?) && s.pc[t].node in s.value
    ensures Alone(r, t) && r[0] == s
    ensures r[|r| - 1].value == s.value[s.pc[t].node := s.pc[t].x]
    decreases s.pc[t].ReplaceLoaded?
  {
    var k, node, x := s.pc[t].k, s.pc[t].node, s.pc[t].x;
    if s.pc[t].ReplaceTry? {
      var m := Ldrex(s.monitor, t, Value(node));
      var s1 := Go(s, t, ReplaceLoaded(k, node, x, s.value[node])).(monitor := m);
      var s2 := Go(s1, t, Out).(value := s.value[node := x], monitor := Stored(m, Value(node)));
      r := [s, s1, s2];
    } else {
      var s1 := Go(s, t, ReplaceTry(k, node, x)).(monitor := Clrex(s.monitor, t));
      r := ReplaceAlone(s1, t);
      AloneThen(s, t, r);
      r := [s] + r;
    }
  }

  lemma SwapAlone(s: State, t: Tid) returns (r: seq<State>)
    requires t in s.pc && (s.pc[t].SwapTry? || s.pc[t].SwapLoaded?) && s.pc[t].node in s.value
    requires s.pc[t].el in s.value && s.pc[t].el in s.subs
    ensures Alone(r, t) && r[0] == s
    ensures var el, node := s.pc[t].el, s.pc[t].node;
      r[|r| - 1].value == s.value[node := s.value[el]][el := s.value[node]]
    decreases s.pc[t].SwapLoaded?
  {
    hide Nodes;
    var el, node := s.pc[t].el, s.pc[t].node;
    if s.pc[t].SwapTry? {
      var m, v := Ldrex(s.monitor, t, Value(node)), s.value[node];
      var s1 := Go(s, t, SwapLoaded(el, node, v)).(monitor := m);
      var s2 := Go(s1, t, SwapStore(el, v)).(value := s.value[node := s.value[el]], monitor := Stored(m, Value(node)));
      var s3 := Go(s2, t, Out).(value := s2.value[el := v], free := s.free + Nodes(s.subs[el]));
      r := [s, s1, s2, s3];
    } else {
      var s1 := Go(s, t, SwapTry(el, node)).(monitor := Clrex(s.monitor, t));
      r := SwapAlone(s1, t);
      AloneThen(s, t, r);
      r := [s] + r;
    }
  }

  ghost predicate SameTree(s: State, s': State) {
    s'.links == s.links && s'.key == s.key && s'.value == s.value && s'.subs == s.subs
  }

  /** What thread t hands in. */
  ghost predicate HandsIn(s: State, t: Tid, el: Addr) { t in s.pc && el in s.key && el in s.value && el in s.subs }

  lemma StandsOnNode(s: State, c: Cell)
    requires Inv(s) && c in s.links && s.links[c] != NULL
    ensures Complete(s, s.links[c])
  {
    IsLinked(s, c);
    hide Complete;
    CompleteNode(s, s.links[c]);
  }

  /** From a comparison on. */
  lemma {:induction false} CompareAlone(tree: State, s: State, t: Tid, el: Addr, at: Cell, p: seq<Cell>)
      returns (r: seq<State>)
    requires Inv(tree) && SameTree(tree, s) && HandsIn(s, t, el) && Way(tree, s.key[el], p) && Last(p) == at
    requires at in s.links && s.links[at] != NULL && s.pc[t] == Loaded(el, at, s.links[at])
    ensures Alone(r, t) && r[0] == s
    decreases |tree.links| + 1 - |p|, 0
  {
    hide Inv, Way, Holds, Stored, Nodes;
    var node := s.links[at];
    StandsOnNode(tree, at);
    WayIsShort(tree, s.key[el], p);
    var cmp := Cmp(s.key[el], s.key[node]);
    if cmp == 0 {
      r := SwapAlone(Go(s, t, SwapTry(el, node)), t);
    } else {
      var d := Child(node, cmp < 0);
      assert Onward(tree, s.key[el], at, d);
      WayGoesOn(tree, s.key[el], p, d);
      WayIsShort(tree, s.key[el], p + [d]);
      r := WalkAlone(tree, Go(s, t, Walk(el, d)), t, el, d, p + [d]);
    }
    assert StepOf(s, t, r[0]);
    AloneThen(s, t, r);
    r := [s] + r;
  }

  lemma LinkAlone(s: State, t: Tid, el: Addr, at: Cell) returns (r: seq<State>)
    requires HandsIn(s, t, el) && s.pc[t] == Walk(el, at) && at in s.links && s.links[at] == NULL
    ensures Alone(r, t) && r[0] == s
  {
    hide Nodes, Cmp;
    var m := Ldrex(s.monitor, t, at);
    var s1 := Go(s, t, Loaded(el, at, NULL)).(monitor := m);
    r := [s, s1, Go(s1, t, Out).(links := (s.links + s.subs[el])[at := el], monitor := Stored(m, at))];
  }

  /** And from the load of a link on. */
  lemma {:induction false} WalkAlone(tree: State, s: State, t: Tid, el: Addr, at: Cell, p: seq<Cell>)
      returns (r: seq<State>)
    requires Inv(tree) && SameTree(tree, s) && HandsIn(s, t, el) && Way(tree, s.key[el], p) && Last(p) == at
    requires at in s.links && s.pc[t] == Walk(el, at)
    ensures Alone(r, t) && r[0] == s
    decreases |tree.links| + 1 - |p|, 1
  {
    hide Inv, Way, Nodes, Cmp, Holds, Stored;
    WayIsShort(tree, s.key[el], p);
    if s.links[at] == NULL {
      r := LinkAlone(s, t, el, at);
    } else {
      var s1 := Go(s, t, Loaded(el, at, s.links[at])).(monitor := Ldrex(s.monitor, t, at));
      r := CompareAlone(tree, s1, t, el, at, p);
      assert StepOf(s, t, s1);
      AloneThen(s, t, r);
      r := [s] + r;
    }
  }

  lemma {:induction false} LookAlone(tree: State, s: State, t: Tid, p: seq<Cell>) returns (r: seq<State>)
    requires Inv(tree) && SameTree(tree, s) && t in s.pc && s.pc[t].Look? && Way(tree, s.pc[t].k, p)
    requires Last(p) in s.links && s.links[Last(p)] == s.pc[t].node
    ensures Alone(r, t) && r[0] == s
    decreases |tree.links| + 1 - |p|
  {
    hide Inv, Way, Holds, Stored;
    var Look(k, node, x, there) := s.pc[t];
    WayIsShort(tree, k, p);
    if node == NULL {
      r := [Go(s, t, Out)];
    } else {
      StandsOnNode(tree, Last(p));
      var cmp := Cmp(k, s.key[node]);
      if cmp == 0 {
        r := ReplaceAlone(Go(s, t, ReplaceTry(k, node, x)), t);
      } else {
        var d := Child(node, cmp < 0);
        assert Onward(tree, k, Last(p), d);
        WayGoesOn(tree, k, p, d);
        WayIsShort(tree, k, p + [d]);
        r := LookAlone(tree, Go(s, t, Look(k, s.links[d], x, there)), t, p + [d]);
      }
    }
    assert StepOf(s, t, r[0]);
    AloneThen(s, t, r);
    r := [s] + r;
  }

  lemma CarriedIsHandedIn(s: State, t: Tid, el: Addr)
    requires Inv(s) && Carries(s, t, el)
    ensures HandsIn(s, t, el)
  {
    CarriesItsRoot(s, t, el);
    assert Ready(s, el);
  }

  lemma InsertCanEnd(s: State, t: Tid) returns (r: seq<State>)
    requires Inv(s) && t in s.pc && Inserting(s.pc[t])
    ensures Alone(r, t) && r[0] == s
  {
    assert Stands(s, t) && Reaching(s, t);
    var el := s.pc[t].el;
    CarriedIsHandedIn(s, t, el);
    hide Inv, Way, Nodes;
    match s.pc[t] {
      case Walk(_, at) =>
        var p :| Way(s, s.key[el], p) && Last(p) == at;
        r := WalkAlone(s, s, t, el, at, p);
      case Loaded(_, at, node) =>
        var p :| Way(s, s.key[el], p) && Last(p) == at;
        if node != NULL {
          r := CompareAlone(s, s, t, el, at, p);
        } else {
          r := WalkAlone(s, Go(s, t, Walk(el, at)).(monitor := Clrex(s.monitor, t)), t, el, at, p);
          AloneThen(s, t, r);
          r := [s] + r;
        }
      case SwapTry(_, _) => r := SwapAlone(s, t);
      case SwapLoaded(_, _, _) => r := SwapAlone(s, t);
      case SwapStore(_, v) =>
        r := [s, Go(s, t, Out).(value := s.value[el := v], free := s.free + Nodes(s.subs[el]))];
    }
  }

  lemma LookCanEnd(s: State, t: Tid) returns (r: seq<State>)
    requires Inv(s) && t in s.pc && Looking(s.pc[t])
    ensures Alone(r, t) && r[0] == s
  {
    assert Stands(s, t) && Reaching(s, t);
    hide Inv, Way;
    if s.pc[t].Look? && s.pc[t].node != NULL {
      var c :| c in s.links && s.links[c] == s.pc[t].node && Reaches(s, s.pc[t].k, c);
      var p :| Way(s, s.pc[t].k, p) && Last(p) == c;
      r := LookAlone(s, s, t, p);
    } else if s.pc[t].Look? {
      r := [s, Go(s, t, Out)];
    } else {
      r := ReplaceAlone(s, t);
    }
  }

  /** As long as what is linked in follows, in every state of every run whoever is in a call can end it without the
      others: no walk goes on for ever. */
  lemma EveryCallCanEnd(r: seq<State>, i: nat, t: Tid)
    requires Run(r) && i < |r| && Following(r, i) && t in r[i].pc && r[i].pc[t] != Out
    ensures exists q :: Alone(q, t) && q[0] == r[i]
  {
    RunKeepsInv(r, i);
    hide Run, Inv, Alone, Following;
    if Inserting(r[i].pc[t]) { var q := InsertCanEnd(r[i], t); } else { var q := LookCanEnd(r[i], t); }
  }
}
