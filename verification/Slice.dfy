/** r3_slice.c, one size class: a lock-free stack of free slices that any number of threads share and
    that a thread finding it empty refills with the slices of a new block, linked in one store.

    g_slice_free1 pushes a list of one slice; g_slice_init pushes the list it has just cut. Steps are one exclusive
    load, plain load, plain store or exclusive store, except that a new block is allocated and cut in one step:
    until it is pushed nobody else knows its address.
 */
module Slice {
  import opened Chains
  import opened Exclusive
  import opened SizeClasses

  datatype Cell = Top

  datatype Pc =
    | Idle
    | PopTry
    | PopLoaded(ref: Addr)
    | PopRead(ref: Addr, nx: Addr)
    | Empty
    | PushTry(list: seq<Addr>, after: Pc)
    | PushLoaded(list: seq<Addr>, after: Pc, seen: Addr)
    | PushLinked(list: seq<Addr>, after: Pc, seen: Addr)

  /** A log: `blocks` are the blocks malloc gave for class `idx`, and `slices` what they were cut into. */
  datatype State = State(
    idx: nat,
    blocks: set<Addr>,
    slices: set<Addr>,
    top: Addr,
    next: Links,
    monitor: Monitor<Cell>,
    pc: map<Tid, Pc>,
    held: map<Tid, set<Addr>>)

  function Go(s: State, t: Tid, p: Pc): State {
    s.(pc := s.pc[t := p])
  }

  function Last(list: seq<Addr>): Addr {
    if list == [] then NULL else list[|list| - 1]
  }

  // ----- cutting a block

  /** Each node of the list is linked to the one behind it; what the last one holds does not matter. */
  ghost predicate Linked(next: Links, list: seq<Addr>) {
    && (forall i :: 0 <= i < |list| ==> list[i] in next && list[i] != NULL)
    && (forall i :: 0 <= i < |list| - 1 ==> next[list[i]] == list[i + 1])
  }

  /** A list of slices nobody has seen before. */
  ghost predicate Cut(slices: set<Addr>, next: Links, next': Links, list: seq<Addr>) {
    && list != [] && Distinct(list) && Linked(next', list)
    && (forall a :: a in list ==> a !in slices)
    && (forall a :: a in next ==> a in next')
    && (forall a :: a in next && a !in list ==> next'[a] == next[a])
  }

  /** Piece k of a block. */
  function At(base: Addr, size: nat, k: nat): Addr { base + size * k }

  lemma NextPiece(base: Addr, size: nat, k: nat)
    ensures At(base, size, k + 1) == At(base, size, k) + size
  {
    assert size * (k + 1) == size * k + size;
  }

  lemma {:induction false} AtGrows(base: Addr, size: nat, j: nat, k: nat)
    requires j < k
    ensures base <= At(base, size, j) && At(base, size, j) + size <= At(base, size, k)
    decreases k
  {
    assert base <= At(base, size, j);
    hide At;
    NextPiece(base, size, k - 1);
    if j < k - 1 { AtGrows(base, size, j, k - 1); }
  }

  /** The block is cut into `list`, each piece linked to the address behind it, and nothing else is touched. */
  ghost predicate CutInto(next: Links, next': Links, size: nat, base: Addr, list: seq<Addr>) {
    && (forall i :: 0 <= i < |list| ==> list[i] == At(base, size, i) && list[i] in next')
    && (forall i :: 0 <= i < |list| ==> next'[list[i]] == At(base, size, i + 1))
    && (forall a :: a in next ==> a in next')
    && (forall a :: a in next && a !in list ==> next'[a] == next[a])
  }

  lemma CutOneMore(next: Links, next': Links, size: nat, base: Addr, at: Addr, list: seq<Addr>)
    requires CutInto(next, next', size, base, list) && size > 0 && at == At(base, size, |list|)
    ensures at + size == At(base, size, |list| + 1)
    ensures CutInto(next, next'[at := at + size], size, base, list + [at])
  {
    var list' := list + [at];
    hide At;
    NextPiece(base, size, |list|);
    forall i | 0 <= i < |list| ensures list[i] != at { AtGrows(base, size, i, |list|); }
    assert forall i :: 0 <= i < |list| ==> list'[i] == list[i];
    assert at in list';
  }

  /** The first loop of g_slice_init. */
  method Carve(next: Links, size: nat, base: Addr, length: nat)
      returns (next': Links, top: Addr, elem: Addr, ghost list: seq<Addr>)
    requires size > 0 && length > 0 && base != NULL
    ensures CutInto(next, next', size, base, list) && |list| == length
    ensures top == list[0] && elem == Last(list)
  {
    hide CutInto;
    top, elem, next' := base, base, next;
    var at, left := base, length;
    list := [];
    assert CutInto(next, next, size, base, []) by { NothingCut(next, size, base); }
    while left > 0
      invariant 0 <= left <= length && |list| == length - left
      invariant at == At(base, size, |list|)
      invariant CutInto(next, next', size, base, list)
      invariant list != [] ==> list[0] == base && elem == Last(list)
    {
      CutOneMore(next, next', size, base, at, list);
      elem := at;
      at := at + size;
      next' := next'[elem := at];
      list := list + [elem];
      left := left - 1;
    }
  }

  lemma NothingCut(next: Links, size: nat, base: Addr)
    ensures CutInto(next, next, size, base, [])
  {}

  lemma PiecesAreDistinct(size: nat, base: Addr, list: seq<Addr>)
    requires size > 0 && base != NULL && forall i :: 0 <= i < |list| ==> list[i] == At(base, size, i)
    ensures Distinct(list) && forall i :: 0 <= i < |list| ==> list[i] != NULL
  {
    hide At;
    forall i, j | 0 <= i < j < |list| ensures list[i] != list[j] { AtGrows(base, size, i, j); }
    forall i | 0 <= i < |list| ensures list[i] != NULL { AtGrows(base, size, i, i + 1); }
  }

  /** What is cut from unused memory is a list of new slices. */
  lemma CutIsNew(slices: set<Addr>, next: Links, next': Links, size: nat, base: Addr, list: seq<Addr>)
    requires CutInto(next, next', size, base, list) && list != [] && base != NULL && size > 0
    requires forall a :: a in list ==> a !in slices
    ensures Cut(slices, next, next', list)
  {
    hide At, Distinct;
    PiecesAreDistinct(size, base, list);
  }

  // ----- steps

  /** No byte in common. */
  predicate Apart(b: Addr, c: Addr) { b + BLOCK_BYTES <= c || c + BLOCK_BYTES <= b }

  /** malloc gives a block, and g_slice_init cuts it. */
  ghost predicate Refill(s: State, t: Tid, base: Addr, list: seq<Addr>, next': Links, s': State) {
    && base != NULL && (forall b :: b in s.blocks ==> Apart(b, base))
    && |list| == Pieces(s.idx) && CutInto(s.next, next', SliceBytes(s.idx), base, list)
    && s' == Go(s, t, PushTry(list, PopTry)).(blocks := s.blocks + {base}, slices := s.slices + Elements(list),
                                              next := next')
  }

  /** g_slice_alloc: pop, and refill when the stack was empty. */
  ghost predicate PopStep(s: State, t: Tid, s': State)
    requires t in s.pc && t in s.held
  {
    match s.pc[t]
    case Idle => s' == Go(s, t, PopTry)
    case PopTry => s' == Go(s, t, PopLoaded(s.top)).(monitor := Ldrex(s.monitor, t, Top))
    case PopLoaded(ref) =>
      if ref == NULL
      then s' == Go(s, t, Empty)
      else ref in s.next && s' == Go(s, t, PopRead(ref, s.next[ref]))
    case PopRead(ref, nx) =>
      || (Holds(s.monitor, t, Top)
          && s' == Go(s, t, Idle).(top := nx, monitor := Stored(s.monitor, Top),
                                   held := s.held[t := s.held[t] + {ref}]))
      || s' == Go(s, t, PopTry).(monitor := Clrex(s.monitor, t))
    case Empty => exists base, list, next' :: Refill(s, t, base, list, next', s')
    case _ => false
  }

  ghost predicate FreeCall(s: State, t: Tid, b: Addr, s': State)
    requires t in s.held
  {
    b in s.held[t] && s' == Go(s, t, PushTry([b], Idle)).(held := s.held[t := s.held[t] - {b}])
  }

  /** Pushing a list: g_slice_free1 and the second loop of g_slice_init. */
  ghost predicate PushStep(s: State, t: Tid, s': State)
    requires t in s.pc && t in s.held
  {
    match s.pc[t]
    case Idle => exists b :: FreeCall(s, t, b, s')
    case PushTry(list, after) =>
      s' == Go(s, t, PushLoaded(list, after, s.top)).(monitor := Ldrex(s.monitor, t, Top))
    case PushLoaded(list, after, seen) =>
      s' == Go(s, t, PushLinked(list, after, seen)).(next := s.next[Last(list) := seen])
    case PushLinked(list, after, seen) =>
      || (list != [] && Holds(s.monitor, t, Top)
          && s' == Go(s, t, after).(top := list[0], monitor := Stored(s.monitor, Top)))
      || s' == Go(s, t, PushTry(list, after)).(monitor := Clrex(s.monitor, t))
    case _ => false
  }

  /** The owner of a slice overwrites its first word. */
  ghost predicate Scribble(s: State, t: Tid, b: Addr, v: Addr, s': State)
    requires t in s.held
  {
    b in s.held[t] && s' == s.(next := s.next[b := v])
  }

  /** The owner hands its slice to thread `u`. */
  ghost predicate HandOver(s: State, t: Tid, u: Tid, b: Addr, s': State)
    requires t in s.held
  {
    && b in s.held[t] && u in s.held && u != t
    && s' == s.(held := s.held[t := s.held[t] - {b}][u := s.held[u] + {b}])
  }

  ghost predicate Next(s: State, s': State) {
    exists t :: t in s.pc && t in s.held && (
      || PopStep(s, t, s')
      || PushStep(s, t, s')
      || (exists b, v :: Scribble(s, t, b, v, s'))
      || (exists u, b :: HandOver(s, t, u, b, s')))
  }

  /** The pool as the program starts: no slice anywhere. */
  ghost predicate Init(s: State) {
    && s.idx < SLICE_POOL_NUM && s.blocks == {}
    && s.slices == {} && s.top == NULL && s.next == map[] && s.monitor == map[]
    && s.held.Keys == s.pc.Keys
    && (forall t :: t in s.pc ==> s.pc[t] == Idle && s.held[t] == {})
  }

  ghost predicate Run(r: seq<State>) {
    && r != []
    && Init(r[0])
    && forall i :: 0 <= i < |r| - 1 ==> Next(r[i], r[i + 1])
  }

  // ----- the invariant

  ghost function Elements(list: seq<Addr>): set<Addr> {
    set a | a in list
  }

  /** The slices a thread is about to push. */
  function Carried(p: Pc): seq<Addr> {
    match p
    case PushTry(list, _) => list
    case PushLoaded(list, _, _) => list
    case PushLinked(list, _, _) => list
    case _ => []
  }

  /** Thread `t` alone may touch slice `b`. */
  predicate Has(s: State, t: Tid, b: Addr) {
    t in s.pc && t in s.held && (b in s.held[t] || b in Carried(s.pc[t]))
  }

  /** Every slice is in exactly one place: on the stack, with one owner, or carried by one thread. */
  ghost predicate Placed(s: State, stack: seq<Addr>) {
    && s.held.Keys == s.pc.Keys
    && Chain(s.next, s.top, stack)
    && (forall b :: b in s.slices ==> b in s.next && b != NULL)
    && (forall b :: b in stack ==> b in s.slices)
    && (forall t :: t in s.pc ==> forall b :: b in s.held[t] ==> b !in Carried(s.pc[t]))
    && (forall t, b :: Has(s, t, b) ==> b in s.slices && b !in stack)
    && (forall t, u, b :: Has(s, t, b) && Has(s, u, b) ==> t == u)
    && (forall b :: b in s.slices && b !in stack ==> exists t :: Has(s, t, b))
  }

  ghost predicate Pushable(next: Links, list: seq<Addr>, after: Pc) {
    list != [] && Linked(next, list) && Distinct(list) && (after == Idle || after == PopTry)
  }

  /** While its reservation survives, what a thread loaded is still what the cell holds. */
  ghost predicate Current(s: State, t: Tid)
    requires t in s.pc
  {
    match s.pc[t]
    case PopLoaded(ref) => (ref != NULL ==> ref in s.next) && (Holds(s.monitor, t, Top) ==> ref == s.top)
    case PopRead(ref, nx) =>
      ref != NULL && (Holds(s.monitor, t, Top) ==> ref == s.top && ref in s.next && nx == s.next[ref])
    case PushTry(list, after) => Pushable(s.next, list, after)
    case PushLoaded(list, after, seen) =>
      Pushable(s.next, list, after) && (Holds(s.monitor, t, Top) ==> seen == s.top)
    case PushLinked(list, after, seen) =>
      && Pushable(s.next, list, after) && s.next[Last(list)] == seen
      && (Holds(s.monitor, t, Top) ==> seen == s.top)
    case _ => true
  }

  ghost predicate AllCurrent(s: State) {
    forall t :: t in s.pc ==> Current(s, t)
  }

  /** The slices are the pieces of the blocks, all of them, and no two blocks overlap. */
  ghost predicate Blocks(s: State) {
    && s.idx < SLICE_POOL_NUM
    && (forall b, c :: b in s.blocks && c in s.blocks && b != c ==> Apart(b, c))
    && (forall a :: a in s.slices <==> exists b, k :: IsPiece(s, b, k, a))
  }

  predicate IsPiece(s: State, b: Addr, k: nat, a: Addr) {
    b in s.blocks && k < Pieces(s.idx) && a == At(b, SliceBytes(s.idx), k)
  }

  ghost predicate Inv(s: State, stack: seq<Addr>) {
    Placed(s, stack) && AllCurrent(s) && Blocks(s)
  }

  // ----- every step keeps the invariant

  lemma {:induction false} SpliceIsChain(next: Links, list: seq<Addr>, top: Addr, stack: seq<Addr>)
    requires list != [] && Linked(next, list) && next[Last(list)] == top && Chain(next, top, stack)
    ensures Chain(next, list[0], list + stack)
    decreases list
  {
    if |list| == 1 {
      assert (list + stack)[1..] == stack;
    } else {
      var rest := list[1..];
      assert forall i :: 0 <= i < |rest| - 1 ==> next[rest[i]] == rest[i + 1];
      SpliceIsChain(next, rest, top, stack);
      assert (list + stack)[1..] == rest + stack;
    }
  }

  lemma PopMoves(s: State, t: Tid, s': State)
    requires t in s.pc && t in s.held && PopStep(s, t, s')
    ensures t in s'.pc && s'.pc == s.pc[t := s'.pc[t]]
    ensures s.pc[t].Empty? || (s'.idx == s.idx && s'.blocks == s.blocks && s'.slices == s.slices)
  {
    match s.pc[t] {
      case Idle => case PopTry => case PopLoaded(_) => case PopRead(_, _) => case Empty => case _ =>
    }
  }

  lemma PushMoves(s: State, t: Tid, s': State)
    requires t in s.pc && t in s.held && PushStep(s, t, s')
    ensures t in s'.pc && s'.pc == s.pc[t := s'.pc[t]]
    ensures s'.idx == s.idx && s'.blocks == s.blocks && s'.slices == s.slices
  {
    match s.pc[t] {
      case Idle => case PushTry(_, _) => case PushLoaded(_, _, _) => case PushLinked(_, _, _) => case _ =>
    }
  }

  /** A step that changes neither links nor ownership. */
  lemma QuietKeepsPlaced(s: State, t: Tid, s': State, stack: seq<Addr>)
    requires Placed(s, stack) && t in s.pc && t in s'.pc
    requires s'.top == s.top && s'.next == s.next && s'.held == s.held && s'.slices == s.slices
    requires s'.pc == s.pc[t := s'.pc[t]] && Carried(s'.pc[t]) == Carried(s.pc[t])
    ensures Placed(s', stack)
  {
    assert forall u, b :: Has(s', u, b) <==> Has(s, u, b);
  }

  /** Writes to memory that is not on a list leave it as it is. */
  lemma LinkedFrame(next: Links, next': Links, list: seq<Addr>)
    requires Linked(next, list)
    requires forall a :: a in list ==> a in next' && next'[a] == next[a]
    ensures Linked(next', list)
  {}

  /** A step of `t` that destroys the reservations on what it stores leaves every other thread current. */
  lemma OthersStayCurrent(s: State, t: Tid, s': State, stack: seq<Addr>)
    requires Placed(s, stack) && AllCurrent(s) && t in s.pc && t in s'.pc && s'.pc == s.pc[t := s'.pc[t]]
    requires forall u :: u != t && Holds(s'.monitor, u, Top) ==> Holds(s.monitor, u, Top)
    requires s'.top == s.top || forall u :: u != t ==> !Holds(s'.monitor, u, Top)
    requires forall a :: a in s.next ==> a in s'.next
    requires forall a :: a in s.slices && !Has(s, t, a) ==> s'.next[a] == s.next[a]
    requires Current(s', t)
    ensures AllCurrent(s')
  {
    forall u | u in s.pc && u != t ensures Current(s', u) {
      assert Current(s, u);
      if s.pc[u].PopRead? && Holds(s.monitor, u, Top) {
        assert stack != [] && s.top == stack[0] && s.top in stack;
        assert !Has(s, t, s.top);
      } else if Carried(s.pc[u]) != [] {
        forall a | a in Carried(s.pc[u]) ensures a in s'.next && s'.next[a] == s.next[a] {
          assert Has(s, u, a);
          assert !Has(s, t, a);
        }
        LinkedFrame(s.next, s'.next, Carried(s.pc[u]));
      }
    }
  }

  lemma PopStaysCurrent(s: State, t: Tid, s': State, stack: seq<Addr>)
    requires Inv(s, stack) && t in s.pc && t in s.held && PopStep(s, t, s')
    ensures t in s'.pc && Current(s', t)
  {
    hide Blocks, CutInto, Pieces, SliceBytes;
    assert Current(s, t);
    match s.pc[t] {
      case Idle =>
      case PopTry => if s.top != NULL { assert stack[0] in stack; }
      case PopLoaded(_) => case PopRead(_, _) =>
      case Empty =>
        var base, list, next' :| Refill(s, t, base, list, next', s');
        RefillIsCut(s, t, base, list, next', s');
      case _ =>
    }
  }

  /** Everything a successful pop needs to know about the stack. */
  lemma PopTakesTop(s: State, t: Tid, stack: seq<Addr>)
    requires Placed(s, stack) && t in s.pc && Current(s, t) && s.pc[t].PopRead? && Holds(s.monitor, t, Top)
    ensures stack != [] && s.pc[t].ref == stack[0] == s.top && s.pc[t].nx == s.next[s.top]
    ensures Chain(s.next, s.pc[t].nx, stack[1..]) && stack[0] !in stack[1..]
  {
    ChainIsDistinct(s.next, s.top, stack);
  }

  lemma PopKeepsPlaced(s: State, t: Tid, s': State, stack: seq<Addr>)
    requires Inv(s, stack) && t in s.pc && t in s.held && PopStep(s, t, s')
    requires s.pc[t].PopRead? && s'.pc[t] == Idle
    ensures stack != [] && Placed(s', stack[1..])
  {
    assert Current(s, t);
    PopTakesTop(s, t, stack);
    hide AllCurrent, Current, Blocks, Chain;
    var ref := s.top;
    assert stack == [ref] + stack[1..];
    assert forall u, b :: Has(s, u, b) ==> Has(s', u, b);
    assert forall u, b :: Has(s', u, b) ==> Has(s, u, b) || (u == t && b == ref);
    assert Has(s', t, ref);
  }

  /** A piece lies inside its block. */
  lemma PieceFits(idx: nat, b: Addr, k: nat)
    requires idx < SLICE_POOL_NUM && k < Pieces(idx)
    ensures var a := At(b, SliceBytes(idx), k); b <= a && a + SliceBytes(idx) <= b + BLOCK_BYTES
  {
    RefillFillsBlock(idx);
    var size, n := SliceBytes(idx), Pieces(idx);
    hide SliceBytes, Pieces;
    assert At(b, size, n) == b + BLOCK_BYTES;
    AtGrows(b, size, k, n);
  }

  lemma RefillIsCut(s: State, t: Tid, base: Addr, list: seq<Addr>, next': Links, s': State)
    requires Blocks(s) && Refill(s, t, base, list, next', s')
    ensures Cut(s.slices, s.next, next', list)
  {
    RefillFillsBlock(s.idx);
    hide Pieces, At;
    forall a | a in list ensures a !in s.slices {
      var i :| 0 <= i < |list| && list[i] == a;
      PieceFits(s.idx, base, i);
      if a in s.slices {
        var b, k :| IsPiece(s, b, k, a);
        PieceFits(s.idx, b, k);
        assert false;
      }
    }
    CutIsNew(s.slices, s.next, next', SliceBytes(s.idx), base, list);
  }

  lemma RefillKeepsBlocks(s: State, t: Tid, base: Addr, list: seq<Addr>, next': Links, s': State)
    requires Blocks(s) && Refill(s, t, base, list, next', s')
    ensures Blocks(s')
  {
    hide Pieces, At, SliceBytes;
    forall a, b, k: nat | IsPiece(s', b, k, a) ensures a in s'.slices {
      if b == base { assert list[k] in list; } else { assert IsPiece(s, b, k, a); }
    }
    forall a | a in s'.slices ensures exists b, k :: IsPiece(s', b, k, a) {
      if a in list {
        var i :| 0 <= i < |list| && list[i] == a;
        assert IsPiece(s', base, i, a);
      } else {
        var b, k :| IsPiece(s, b, k, a);
        assert IsPiece(s', b, k, a);
      }
    }
  }

  lemma SameBlocks(s: State, s': State)
    requires Blocks(s) && s'.idx == s.idx && s'.blocks == s.blocks && s'.slices == s.slices
    ensures Blocks(s')
  {
    assert forall b, k, a :: IsPiece(s', b, k, a) <==> IsPiece(s, b, k, a);
  }

  lemma RefillKeepsPlaced(s: State, t: Tid, base: Addr, list: seq<Addr>, next': Links, s': State, stack: seq<Addr>)
    requires Placed(s, stack) && t in s.pc && t in s.held && s.pc[t] == Empty
    requires Refill(s, t, base, list, next', s') && Cut(s.slices, s.next, next', list)
    ensures Placed(s', stack)
  {
    hide CutInto, Pieces, SliceBytes;
    ChainFrame(s.next, next', s.top, stack);
    forall b | b in s.held[t] ensures b !in list {
      assert Has(s, t, b);
    }
    assert forall u, b :: Has(s, u, b) ==> Has(s', u, b);
    assert forall u, b :: Has(s', u, b) ==> Has(s, u, b) || (u == t && b in list);
    assert forall b :: b in list ==> Has(s', t, b);
  }

  /** What a pop step leaves on the stack. */
  ghost function AfterPop(s: State, t: Tid, s': State, stack: seq<Addr>): seq<Addr>
    requires t in s.pc && t in s'.pc
  {
    if s.pc[t].PopRead? && s'.pc[t] == Idle && stack != [] then stack[1..] else stack
  }

  lemma PopStepKeepsPlaced(s: State, t: Tid, s': State, stack: seq<Addr>)
    requires Inv(s, stack) && t in s.pc && t in s.held && PopStep(s, t, s') && t in s'.pc
    ensures Placed(s', AfterPop(s, t, s', stack))
  {
    if s.pc[t].PopRead? && s'.pc[t] == Idle {
      PopKeepsPlaced(s, t, s', stack);
    } else if s.pc[t].Empty? {
      var base, list, next' :| Refill(s, t, base, list, next', s');
      RefillIsCut(s, t, base, list, next', s');
      RefillKeepsPlaced(s, t, base, list, next', s', stack);
    } else {
      PopMoves(s, t, s');
      QuietKeepsPlaced(s, t, s', stack);
    }
  }

  lemma PopStepKeepsBlocks(s: State, t: Tid, s': State)
    requires Blocks(s) && t in s.pc && t in s.held && PopStep(s, t, s')
    ensures Blocks(s')
  {
    hide Blocks, Refill;
    if s.pc[t].Empty? {
      var base, list, next' :| Refill(s, t, base, list, next', s');
      RefillKeepsBlocks(s, t, base, list, next', s');
    } else {
      PopMoves(s, t, s');
      SameBlocks(s, s');
    }
  }

  /** What the other threads see of a step of g_slice_alloc. */
  lemma PopFrame(s: State, t: Tid, s': State)
    requires Blocks(s) && t in s.pc && t in s.held && PopStep(s, t, s')
    ensures forall u :: u != t && Holds(s'.monitor, u, Top) ==> Holds(s.monitor, u, Top)
    ensures s'.top == s.top || forall u :: u != t ==> !Holds(s'.monitor, u, Top)
    ensures forall a :: a in s.next ==> a in s'.next
    ensures forall a :: a in s.slices && a in s.next ==> s'.next[a] == s.next[a]
  {
    hide Blocks, CutInto, Pieces, SliceBytes;
    match s.pc[t] {
      case Idle => case PopTry => case PopLoaded(_) => case PopRead(_, _) =>
      case Empty =>
        var base, list, next' :| Refill(s, t, base, list, next', s');
        RefillIsCut(s, t, base, list, next', s');
      case _ =>
    }
  }

  lemma PopStepKeepsInv(s: State, t: Tid, s': State, stack: seq<Addr>)
    requires Inv(s, stack) && t in s.pc && t in s.held && PopStep(s, t, s')
    ensures t in s'.pc && Inv(s', AfterPop(s, t, s', stack))
  {
    PopMoves(s, t, s');
    PopStaysCurrent(s, t, s', stack);
    PopStepKeepsPlaced(s, t, s', stack);
    PopStepKeepsBlocks(s, t, s');
    PopFrame(s, t, s');
    hide PopStep, Blocks, Current, AllCurrent;
    OthersStayCurrent(s, t, s', stack);
  }

  lemma LinkKeepsPushable(next: Links, list: seq<Addr>, after: Pc, seen: Addr)
    requires Pushable(next, list, after)
    ensures Pushable(next[Last(list) := seen], list, after)
  {}

  lemma PushStaysCurrent(s: State, t: Tid, s': State, stack: seq<Addr>)
    requires Placed(s, stack) && t in s.pc && t in s.held && Current(s, t) && PushStep(s, t, s')
    ensures t in s'.pc && Current(s', t)
  {
    match s.pc[t] {
      case Idle =>
        var b :| FreeCall(s, t, b, s');
        assert Has(s, t, b);
      case PushTry(_, _) =>
      case PushLoaded(list, after, seen) => LinkKeepsPushable(s.next, list, after, seen);
      case PushLinked(_, _, _) => case _ =>
    }
  }

  lemma FreeCallKeepsPlaced(s: State, t: Tid, b: Addr, s': State, stack: seq<Addr>)
    requires Placed(s, stack) && t in s.pc && t in s.held && s.pc[t] == Idle && FreeCall(s, t, b, s')
    ensures Placed(s', stack)
  {
    assert forall u, a :: Has(s, u, a) ==> Has(s', u, a);
    assert forall u, a :: Has(s', u, a) ==> Has(s, u, a);
  }

  lemma LinkKeepsPlaced(s: State, t: Tid, s': State, stack: seq<Addr>)
    requires Inv(s, stack) && t in s.pc && t in s.held && PushStep(s, t, s') && s.pc[t].PushLoaded?
    ensures Placed(s', stack)
  {
    assert Current(s, t);
    assert Has(s, t, Last(s.pc[t].list));
    ChainFrame(s.next, s'.next, s.top, stack);
    assert forall u, b :: Has(s', u, b) <==> Has(s, u, b);
  }

  /** A successful push puts the whole list on top of the stack. */
  lemma SpliceKeepsPlaced(s: State, t: Tid, s': State, stack: seq<Addr>)
    requires Inv(s, stack) && t in s.pc && t in s.held && PushStep(s, t, s')
    requires s.pc[t].PushLinked? && !s'.pc[t].PushTry?
    ensures Placed(s', s.pc[t].list + stack)
  {
    assert Current(s, t);
    var list := s.pc[t].list;
    SpliceIsChain(s.next, list, s.top, stack);
    assert forall b :: b in list ==> Has(s, t, b);
    assert forall u, b :: Has(s, u, b) ==> Has(s', u, b) || b in list;
    assert Carried(s.pc[t]) == list && Carried(s'.pc[t]) == [];
    forall u, b | Has(s', u, b) ensures Has(s, u, b) && b !in list {
      assert b in list ==> Has(s, t, b);
      if u == t {
        assert b in s.held[t];
        assert b !in Carried(s.pc[t]);
      } else {
        assert Has(s, u, b);
      }
    }
  }

  ghost function AfterPush(s: State, t: Tid, s': State, stack: seq<Addr>): seq<Addr>
    requires t in s.pc && t in s'.pc
  {
    if s.pc[t].PushLinked? && !s'.pc[t].PushTry? then s.pc[t].list + stack else stack
  }

  lemma PushStepKeepsPlaced(s: State, t: Tid, s': State, stack: seq<Addr>)
    requires Inv(s, stack) && t in s.pc && t in s.held && PushStep(s, t, s') && t in s'.pc
    ensures Placed(s', AfterPush(s, t, s', stack))
  {
    if s.pc[t].Idle? {
      var b :| FreeCall(s, t, b, s');
      FreeCallKeepsPlaced(s, t, b, s', stack);
    } else if s.pc[t].PushLoaded? {
      LinkKeepsPlaced(s, t, s', stack);
    } else if s.pc[t].PushLinked? && !s'.pc[t].PushTry? {
      SpliceKeepsPlaced(s, t, s', stack);
    } else {
      QuietKeepsPlaced(s, t, s', stack);
    }
  }

  lemma PushStepKeepsInv(s: State, t: Tid, s': State, stack: seq<Addr>)
    requires Inv(s, stack) && t in s.pc && t in s.held && PushStep(s, t, s')
    ensures t in s'.pc && Inv(s', AfterPush(s, t, s', stack))
  {
    assert Current(s, t);
    PushMoves(s, t, s');
    PushStaysCurrent(s, t, s', stack);
    PushStepKeepsPlaced(s, t, s', stack);
    if s.pc[t].PushLoaded? {
      assert Has(s, t, Last(s.pc[t].list));
    }
    hide Placed, Blocks;
    SameBlocks(s, s');
    OthersStayCurrent(s, t, s', stack);
  }

  lemma ScribbleKeepsInv(s: State, t: Tid, b: Addr, v: Addr, s': State, stack: seq<Addr>)
    requires Inv(s, stack) && t in s.pc && t in s.held && Scribble(s, t, b, v, s')
    ensures Inv(s', stack)
  {
    assert Has(s, t, b);
    ChainFrame(s.next, s'.next, s.top, stack);
    assert forall u, a :: Has(s', u, a) <==> Has(s, u, a);
    assert s'.pc == s.pc[t := s'.pc[t]];
    assert Current(s, t);
    if Carried(s.pc[t]) != [] {
      LinkedFrame(s.next, s'.next, Carried(s.pc[t]));
    }
    assert Current(s', t);
    SameBlocks(s, s');
    OthersStayCurrent(s, t, s', stack);
  }

  lemma HandOverKeepsPlaced(s: State, t: Tid, u: Tid, b: Addr, s': State, stack: seq<Addr>)
    requires Placed(s, stack) && t in s.pc && t in s.held && HandOver(s, t, u, b, s')
    ensures Placed(s', stack)
  {
    assert Has(s, t, b) && Has(s', u, b) && !Has(s, u, b);
    assert forall v, c :: Has(s, v, c) ==> Has(s', v, c) || (v == t && c == b);
    assert forall v, c :: Has(s', v, c) ==> Has(s, v, c) || (v == u && c == b);
  }

  lemma HandOverKeepsInv(s: State, t: Tid, u: Tid, b: Addr, s': State, stack: seq<Addr>)
    requires Inv(s, stack) && t in s.pc && t in s.held && HandOver(s, t, u, b, s')
    ensures Inv(s', stack)
  {
    assert s'.pc == s.pc[t := s'.pc[t]];
    assert Current(s, t);
    hide Placed;
    HandOverKeepsPlaced(s, t, u, b, s', stack);
    SameBlocks(s, s');
    OthersStayCurrent(s, t, s', stack);
  }

  lemma NextKeepsInv(s: State, s': State, stack: seq<Addr>) returns (stack': seq<Addr>)
    requires Inv(s, stack) && Next(s, s')
    ensures Inv(s', stack')
  {
    hide Inv;
    var t :| t in s.pc && t in s.held && (
      || PopStep(s, t, s')
      || PushStep(s, t, s')
      || (exists b, v :: Scribble(s, t, b, v, s'))
      || (exists u, b :: HandOver(s, t, u, b, s')));
    stack' := stack;
    if PopStep(s, t, s') {
      PopStepKeepsInv(s, t, s', stack);
      stack' := AfterPop(s, t, s', stack);
    } else if PushStep(s, t, s') {
      PushStepKeepsInv(s, t, s', stack);
      stack' := AfterPush(s, t, s', stack);
    } else if b, v :| Scribble(s, t, b, v, s') {
      ScribbleKeepsInv(s, t, b, v, s', stack);
    } else {
      var u, b :| HandOver(s, t, u, b, s');
      HandOverKeepsInv(s, t, u, b, s', stack);
    }
  }

  // ----- main results

  lemma {:induction false} RunKeepsInv(r: seq<State>, i: nat)
    requires Run(r) && i < |r|
    ensures exists stack :: Inv(r[i], stack)
  {
    if i == 0 {
      assert Inv(r[0], []);
    } else {
      RunKeepsInv(r, i - 1);
      var stack :| Inv(r[i - 1], stack);
      var stack' := NextKeepsInv(r[i - 1], r[i], stack);
    }
  }

  /** In every state of every run the free stack is a finite acyclic list, and every slice ever cut is either
      on it or with exactly one thread. */
  lemma EverySliceInOnePlace(r: seq<State>, i: nat)
    requires Run(r) && i < |r|
    ensures exists stack: seq<Addr> ::
      && Chain(r[i].next, r[i].top, stack) && Distinct(stack)
      && (forall b :: b in stack ==> b in r[i].slices)
      && (forall b :: b in r[i].slices ==> (b !in stack <==> exists t :: Has(r[i], t, b)))
      && (forall b, t :: Has(r[i], t, b) ==> b in r[i].slices)
      && (forall b, t, u :: Has(r[i], t, b) && Has(r[i], u, b) ==> t == u)
  {
    RunKeepsInv(r, i);
    var stack :| Inv(r[i], stack);
    ChainIsDistinct(r[i].next, r[i].top, stack);
  }

  /** A slice that g_slice_alloc returns was nobody's, was free, and is now the caller's alone. */
  lemma AllocIsExclusive(r: seq<State>, i: nat, t: Tid)
    requires Run(r) && i < |r| && t in r[i].pc && t in r[i].held && r[i].pc[t].PopRead?
    requires Holds(r[i].monitor, t, Top)
    ensures var s := r[i]; var b := s.pc[t].ref;
      && b in s.slices && b == s.top && b in s.next && s.pc[t].nx == s.next[b]
      && (forall u :: !Has(s, u, b))
  {
    RunKeepsInv(r, i);
    var stack :| Inv(r[i], stack);
    assert Current(r[i], t);
    PopTakesTop(r[i], t, stack);
    assert stack[0] in stack;
  }

  /** The slices of a class are exactly the pieces of its blocks, so that no byte of a block is lost, and two of
      them never share a byte. */
  lemma SlicesDontOverlap(r: seq<State>, i: nat, a: Addr, b: Addr)
    requires Run(r) && i < |r|
    ensures a in r[i].slices <==> exists c, k :: IsPiece(r[i], c, k, a)
    ensures a in r[i].slices && b in r[i].slices && a != b ==>
      a + SliceBytes(r[i].idx) <= b || b + SliceBytes(r[i].idx) <= a
  {
    RunKeepsInv(r, i);
    var s := r[i];
    var stack :| Inv(s, stack);
    hide Run, Placed, AllCurrent, SliceBytes, IsPiece;
    if a in s.slices && b in s.slices && a != b {
      var c, j: nat :| IsPiece(s, c, j, a);
      var d, k: nat :| IsPiece(s, d, k, b);
      PiecesApart(s, c, j, a, d, k, b);
    }
  }

  lemma PiecesApart(s: State, c: Addr, j: nat, a: Addr, d: Addr, k: nat, b: Addr)
    requires Blocks(s) && IsPiece(s, c, j, a) && IsPiece(s, d, k, b) && a != b
    ensures a + SliceBytes(s.idx) <= b || b + SliceBytes(s.idx) <= a
  {
    hide SliceBytes, Pieces, At;
    if c == d {
      if j < k { AtGrows(c, SliceBytes(s.idx), j, k); } else { AtGrows(c, SliceBytes(s.idx), k, j); }
    } else {
      PieceFits(s.idx, c, j);
      PieceFits(s.idx, d, k);
    }
  }

  // ----- how a call ends

  ghost predicate OwnStep(s: State, t: Tid, s': State) {
    t in s.pc && t in s.held && (PopStep(s, t, s') || PushStep(s, t, s'))
  }

  /** Inside g_slice_alloc, or in the refill it calls. */
  predicate Allocating(p: Pc) {
    match p
    case Idle => false
    case PushTry(_, after) => after != Idle
    case PushLoaded(_, after, _) => after != Idle
    case PushLinked(_, after, _) => after != Idle
    case _ => true
  }

  lemma CurrentAt(r: seq<State>, i: nat, t: Tid)
    requires Run(r) && i < |r| && t in r[i].pc
    ensures Current(r[i], t)
  {
    RunKeepsInv(r, i);
    var stack :| Inv(r[i], stack);
    hide Run, Placed, Blocks;
  }

  lemma NextOf(r: seq<State>, i: nat)
    requires Run(r) && i + 1 < |r|
    ensures Next(r[i], r[i + 1])
  {}

  lemma OnlyOwnStepsMove(s: State, s': State, t: Tid)
    requires Next(s, s') && t in s.pc && t in s'.pc && s'.pc[t] != s.pc[t]
    ensures OwnStep(s, t, s')
  {
    hide Refill;
    var u :| u in s.pc && u in s.held && (
      || PopStep(s, u, s')
      || PushStep(s, u, s')
      || (exists b, v :: Scribble(s, u, b, v, s'))
      || (exists v, b :: HandOver(s, u, v, b, s')));
    if PopStep(s, u, s') { PopMoves(s, u, s'); } else if PushStep(s, u, s') { PushMoves(s, u, s'); }
  }

  lemma ThreadsStay(s: State, s': State, t: Tid)
    requires Next(s, s')
    ensures t in s.pc <==> t in s'.pc
  {
    hide Refill;
    var u :| u in s.pc && u in s.held && (
      || PopStep(s, u, s')
      || PushStep(s, u, s')
      || (exists b, v :: Scribble(s, u, b, v, s'))
      || (exists v, b :: HandOver(s, u, v, b, s')));
    if PopStep(s, u, s') { PopMoves(s, u, s'); } else if PushStep(s, u, s') { PushMoves(s, u, s'); }
  }

  /** How a thread comes to a pc, by its own step. */
  lemma ComesTo(s: State, t: Tid, s': State)
    requires OwnStep(s, t, s') && t in s'.pc && Current(s, t)
    ensures s'.pc[t] == Empty ==> s.pc[t] == PopLoaded(NULL)
    ensures s'.pc[t].PopLoaded? ==> s.pc[t] == PopTry && s'.pc[t].ref == s.top
    ensures Allocating(s.pc[t]) && s'.pc[t] == Idle ==>
      && s.pc[t].PopRead? && Holds(s.monitor, t, Top) && s.pc[t].ref == s.top
      && s'.held == s.held[t := s.held[t] + {s.top}]
  {
    match s.pc[t] {
      case Idle => case PopTry => case PopLoaded(_) => case PopRead(_, _) =>
      case Empty =>
        var base, list, next' :| Refill(s, t, base, list, next', s');
        assert s'.pc == s.pc[t := PushTry(list, PopTry)];
      case PushTry(_, _) => case PushLoaded(_, _, _) => case PushLinked(_, _, _) =>
    }
  }

  /** g_slice_alloc returns only with a slice, the one that was on top and nobody's. */
  lemma AllocEnds(r: seq<State>, i: nat, t: Tid)
    requires Run(r) && i + 1 < |r| && t in r[i].pc && t in r[i + 1].pc
    requires Allocating(r[i].pc[t]) && r[i + 1].pc[t] == Idle
    ensures t in r[i].held && r[i].top in r[i].slices && (forall u :: !Has(r[i], u, r[i].top))
    ensures r[i + 1].held == r[i].held[t := r[i].held[t] + {r[i].top}]
  {
    RunKeepsInv(r, i);
    NextOf(r, i);
    CurrentAt(r, i, t);
    hide Next, OwnStep, Inv, Current;
    OnlyOwnStepsMove(r[i], r[i + 1], t);
    ComesTo(r[i], t, r[i + 1]);
    AllocIsExclusive(r, i, t);
    hide Run;
  }

  /** In step j of its loop thread t read an empty stack, and has done nothing since. */
  ghost predicate SawEmpty(r: seq<State>, j: nat, i: nat, t: Tid)
    requires i < |r|
  {
    && j < i && r[j].top == NULL && t in r[j].pc && r[j].pc[t] == PopTry
    && forall k :: j < k <= i ==> t in r[k].pc && r[k].pc[t] == PopLoaded(NULL)
  }

  lemma {:induction false} LoadedEmpty(r: seq<State>, i: nat, t: Tid) returns (j: nat)
    requires Run(r) && i < |r| && t in r[i].pc && r[i].pc[t] == PopLoaded(NULL)
    ensures SawEmpty(r, j, i, t)
  {
    hide Next, OwnStep;
    IdleAtFirst(r);
    if i > 0 {
      j := i - 1;
      NextOf(r, j);
      ThreadsStay(r[j], r[j + 1], t);
      CurrentAt(r, j, t);
      hide Run, Current;
      if r[j].pc[t] == r[j + 1].pc[t] {
        j := LoadedEmpty(r, i - 1, t);
      } else {
        OnlyOwnStepsMove(r[j], r[j + 1], t);
        ComesTo(r[j], t, r[j + 1]);
      }
    }
  }

  lemma IdleAtFirst(r: seq<State>)
    requires Run(r)
    ensures forall t :: t in r[0].pc ==> r[0].pc[t] == Idle
  {}

  /** A new block is cut only by a thread that, in this turn of its loop, saw the stack empty: then every slice was with
      some thread. */
  lemma RefillsOnlyWhenEmpty(r: seq<State>, i: nat, t: Tid) returns (j: nat)
    requires Run(r) && i + 1 < |r| && t in r[i].pc && t in r[i + 1].pc
    requires r[i].pc[t] != Empty && r[i + 1].pc[t] == Empty
    ensures SawEmpty(r, j, i, t) && forall b :: b in r[j].slices ==> exists u :: Has(r[j], u, b)
  {
    NextOf(r, i);
    CurrentAt(r, i, t);
    hide Next, OwnStep;
    OnlyOwnStepsMove(r[i], r[i + 1], t);
    ComesTo(r[i], t, r[i + 1]);
    j := LoadedEmpty(r, i, t);
    RunKeepsInv(r, j);
    var stack :| Inv(r[j], stack);
    assert stack == [];
  }

  // ----- a thread alone

  /** r are steps of thread t from inside a call to its end. */
  ghost predicate Alone(r: seq<State>, t: Tid) {
    && r != [] && t in r[|r| - 1].pc && r[|r| - 1].pc[t] == Idle
    && forall i :: 0 <= i < |r| - 1 ==> t in r[i].pc && r[i].pc[t] != Idle && OwnStep(r[i], t, r[i + 1])
  }

  lemma AloneThen(s: State, t: Tid, q: seq<State>)
    requires Alone(q, t) && t in s.pc && s.pc[t] != Idle && OwnStep(s, t, q[0])
    ensures Alone([s] + q, t)
  {
    hide OwnStep;
    var r := [s] + q;
    forall i | 0 <= i < |r| - 1 ensures t in r[i].pc && r[i].pc[t] != Idle && OwnStep(r[i], t, r[i + 1]) {
      if i > 0 { assert r[i] == q[i - 1] && r[i + 1] == q[i - 1 + 1]; }
    }
  }

  /** Slice b becomes the caller's. */
  lemma PopAlone(s: State, t: Tid) returns (r: seq<State>)
    requires t in s.pc && t in s.held && s.pc[t] == PopTry && s.top != NULL && s.top in s.next
    ensures Alone(r, t) && r[0] == s
    ensures var s' := r[|r| - 1];
      s' == Go(s, t, Idle).(top := s.next[s.top], held := s.held[t := s.held[t] + {s.top}], monitor := s'.monitor)
  {
    hide Refill;
    var m := Ldrex(s.monitor, t, Top);
    var nx := s.next[s.top];
    var s1 := Go(s, t, PopLoaded(s.top)).(monitor := m);
    var s2 := Go(s, t, PopRead(s.top, nx)).(monitor := m);
    var s3 := Go(s, t, Idle).(top := nx, monitor := Stored(m, Top), held := s.held[t := s.held[t] + {s.top}]);
    r := [s, s1, s2, s3];
    assert Go(s1, t, PopRead(s.top, nx)) == s2;
    assert s3.pc == s2.pc[t := Idle];
  }

  /** A list becomes the beginning of the stack, and the thread goes where it was to go. */
  lemma PushSteps(s: State, t: Tid, list: seq<Addr>, after: Pc) returns (s1: State, s2: State, s3: State)
    requires t in s.pc && t in s.held && s.pc[t] == PushTry(list, after) && list != []
    ensures OwnStep(s, t, s1) && OwnStep(s1, t, s2) && OwnStep(s2, t, s3)
    ensures t in s1.pc && s1.pc[t].PushLoaded? && t in s2.pc && s2.pc[t].PushLinked?
    ensures s3 == Go(s, t, after).(top := list[0], next := s.next[Last(list) := s.top], monitor := s3.monitor)
  {
    hide Refill;
    var m := Ldrex(s.monitor, t, Top);
    s1 := Go(s, t, PushLoaded(list, after, s.top)).(monitor := m);
    s2 := Go(s1, t, PushLinked(list, after, s.top)).(next := s.next[Last(list) := s.top]);
    s3 := Go(s2, t, after).(top := list[0], monitor := Stored(m, Top));
    assert s3.pc == s.pc[t := after];
  }

  /** A slice given back is on top of the stack. */
  lemma FreeAlone(s: State, t: Tid, list: seq<Addr>) returns (r: seq<State>)
    requires t in s.pc && t in s.held && s.pc[t] == PushTry(list, Idle) && list != []
    ensures Alone(r, t) && r[0] == s
    ensures var s' := r[|r| - 1];
      s' == Go(s, t, Idle).(top := list[0], next := s.next[Last(list) := s.top], monitor := s'.monitor)
  {
    var s1, s2, s3 := PushSteps(s, t, list, Idle);
    hide OwnStep;
    r := [s, s1, s2, s3];
  }

  /** The first slice of a new block becomes the caller's, and the others are the beginning of the stack. */
  lemma RefillAlone(s: State, t: Tid, list: seq<Addr>, stack: seq<Addr>) returns (r: seq<State>)
    requires t in s.pc && t in s.held && s.pc[t] == PushTry(list, PopTry) && list != [] && list[0] != NULL
    requires Linked(s.next, list) && Distinct(list)
    requires Chain(s.next, s.top, stack) && forall a :: a in list ==> a !in stack
    ensures Alone(r, t) && r[0] == s
    ensures var s' := r[|r| - 1];
      && s'.held == s.held[t := s.held[t] + {list[0]}] && s'.slices == s.slices && s'.blocks == s.blocks
      && Chain(s'.next, s'.top, list[1..] + stack)
  {
    var s1, s2, s3 := PushSteps(s, t, list, PopTry);
    var next := s3.next;
    ChainHasNoNull(s.next, s.top, stack);
    ChainFrame(s.next, next, s.top, stack);
    SpliceIsChain(next, list, s.top, stack);
    assert (list + stack)[1..] == list[1..] + stack;
    hide OwnStep;
    r := PopAlone(s3, t);
    AloneThen(s2, t, r);
    AloneThen(s1, t, [s2] + r);
    AloneThen(s, t, [s1] + ([s2] + r));
    r := [s] + ([s1] + ([s2] + r));
  }

  // ----- whoever is in a call can end it

  /** The memory after cutting n pieces. */
  function Carved(next: Links, size: nat, base: Addr, n: nat): Links {
    if n == 0 then next else Carved(next, size, base, n - 1)[At(base, size, n - 1) := At(base, size, n)]
  }

  function PiecesOf(size: nat, base: Addr, n: nat): (list: seq<Addr>)
    ensures |list| == n
  {
    if n == 0 then [] else PiecesOf(size, base, n - 1) + [At(base, size, n - 1)]
  }

  lemma {:induction false} CarvedIsCut(next: Links, size: nat, base: Addr, n: nat)
    requires size > 0
    ensures CutInto(next, Carved(next, size, base, n), size, base, PiecesOf(size, base, n))
  {
    if n == 0 {
      NothingCut(next, size, base);
    } else {
      CarvedIsCut(next, size, base, n - 1);
      var list := PiecesOf(size, base, n - 1);
      CutOneMore(next, Carved(next, size, base, n - 1), size, base, At(base, size, n - 1), list);
    }
  }

  /** Memory no block has. */
  lemma {:induction false} RoomBehind(blocks: set<Addr>) returns (base: Addr)
    ensures base != NULL && forall b :: b in blocks ==> b + BLOCK_BYTES <= base
  {
    base := 1;
    if b :| b in blocks {
      var rest := RoomBehind(blocks - {b});
      base := rest + b + BLOCK_BYTES;
      assert forall c :: c in blocks ==> c == b || c in blocks - {b};
    }
  }

  /** A block can be cut. */
  lemma CanRefill(s: State, t: Tid) returns (list: seq<Addr>, next': Links, s': State)
    requires t in s.pc && t in s.held && s.pc[t] == Empty && Blocks(s)
    ensures PopStep(s, t, s') && s'.pc == s.pc[t := PushTry(list, PopTry)] && s'.held == s.held && s'.top == s.top
    ensures Cut(s.slices, s.next, next', list) && list[0] != NULL && s'.next == next'
  {
    var base := RoomBehind(s.blocks);
    var n, size := Pieces(s.idx), SliceBytes(s.idx);
    list, next' := PiecesOf(size, base, n), Carved(s.next, size, base, n);
    RefillFillsBlock(s.idx);
    CarvedIsCut(s.next, size, base, n);
    s' := Go(s, t, PushTry(list, PopTry)).(blocks := s.blocks + {base}, slices := s.slices + Elements(list),
                                           next := next');
    assert Refill(s, t, base, list, next', s');
    RefillIsCut(s, t, base, list, next', s');
  }

  lemma EndsWithRefill(s: State, t: Tid, stack: seq<Addr>) returns (r: seq<State>)
    requires Inv(s, stack) && t in s.pc && t in s.held && s.pc[t] == Empty
    ensures Alone(r, t) && r[0] == s && t in r[|r| - 1].held
    ensures exists b :: b !in s.slices && r[|r| - 1].held[t] == s.held[t] + {b}
  {
    var list, next', s' := CanRefill(s, t);
    ChainHasNoNull(s.next, s.top, stack);
    ChainFrame(s.next, next', s.top, stack);
    hide PopStep, Placed, AllCurrent, Blocks;
    r := RefillAlone(s', t, list, stack);
    AloneThen(s, t, r);
    r := [s] + r;
    assert list[0] in list;
  }

  /** The way back to the beginning of a loop. */
  lemma Retry(s: State, t: Tid) returns (s': State)
    requires t in s.pc && t in s.held && Current(s, t)
    requires s.pc[t].PopRead? || s.pc[t].PushLinked? || s.pc[t].PopLoaded? || s.pc[t].PushLoaded?
    ensures OwnStep(s, t, s') && t in s'.pc
    ensures match s.pc[t] {
        case PopLoaded(ref) => if ref == NULL then s'.pc[t] == Empty else s'.pc[t].PopRead?
        case PopRead(_, _) => s'.pc[t] == PopTry
        case PushLoaded(_, _, _) => s'.pc[t].PushLinked?
        case PushLinked(list, after, _) => s'.pc[t] == PushTry(list, after)
      }
  {
    hide Refill;
    var m := Clrex(s.monitor, t);
    match s.pc[t] {
      case PopLoaded(ref) => s' := if ref == NULL then Go(s, t, Empty) else Go(s, t, PopRead(ref, s.next[ref]));
      case PopRead(_, _) => s' := Go(s, t, PopTry).(monitor := m);
      case PushLoaded(list, after, seen) =>
        s' := Go(s, t, PushLinked(list, after, seen)).(next := s.next[Last(list) := seen]);
      case PushLinked(list, after, _) => s' := Go(s, t, PushTry(list, after)).(monitor := m);
    }
  }

  function LoopsLeft(p: Pc): nat {
    if p.PopLoaded? || p.PushLoaded? then 2 else if p.PopRead? || p.PushLinked? then 1 else 0
  }

  lemma OwnStepKeepsInv(s: State, t: Tid, s': State, stack: seq<Addr>) returns (stack': seq<Addr>)
    requires Inv(s, stack) && OwnStep(s, t, s')
    ensures Inv(s', stack')
  {
    hide Inv;
    if PopStep(s, t, s') {
      PopStepKeepsInv(s, t, s', stack);
      stack' := AfterPop(s, t, s', stack);
    } else {
      PushStepKeepsInv(s, t, s', stack);
      stack' := AfterPush(s, t, s', stack);
    }
  }

  /** From the beginning of the loop of g_slice_alloc: the top slice, or one of a new block. */
  lemma AllocAlone(s: State, t: Tid, stack: seq<Addr>) returns (r: seq<State>)
    requires Inv(s, stack) && t in s.pc && t in s.held && s.pc[t] == PopTry
    ensures Alone(r, t) && r[0] == s && t in r[|r| - 1].held
    ensures s.top != NULL ==> s.top in s.next && var s' := r[|r| - 1];
      s' == Go(s, t, Idle).(top := s.next[s.top], held := s.held[t := s.held[t] + {s.top}], monitor := s'.monitor)
    ensures s.top == NULL ==> exists b :: b !in s.slices && r[|r| - 1].held[t] == s.held[t] + {b}
  {
    if s.top != NULL {
      assert stack[0] in stack;
      r := PopAlone(s, t);
    } else {
      var s1 := Go(s, t, PopLoaded(NULL)).(monitor := Ldrex(s.monitor, t, Top));
      var s2 := Go(s1, t, Empty);
      assert OwnStep(s, t, s1) && OwnStep(s1, t, s2);
      var stack1 := OwnStepKeepsInv(s, t, s1, stack);
      var stack2 := OwnStepKeepsInv(s1, t, s2, stack1);
      hide Inv, OwnStep;
      r := EndsWithRefill(s2, t, stack2);
      AloneThen(s1, t, r);
      AloneThen(s, t, [s1] + r);
      r := [s] + ([s1] + r);
    }
  }

  lemma {:induction false} CanEnd(s: State, t: Tid, stack: seq<Addr>) returns (r: seq<State>)
    requires Inv(s, stack) && t in s.pc && t in s.held && s.pc[t] != Idle
    ensures Alone(r, t) && r[0] == s
    decreases LoopsLeft(s.pc[t])
  {
    assert Current(s, t) && s.held.Keys == s.pc.Keys;
    hide OwnStep, Inv, Alone;
    if LoopsLeft(s.pc[t]) > 0 {
      var s' := Retry(s, t);
      var stack' := OwnStepKeepsInv(s, t, s', stack);
      KeysAgree(s', stack');
      r := CanEnd(s', t, stack');
      AloneThen(s, t, r);
      r := [s] + r;
    } else {
      match s.pc[t] {
        case PopTry => r := AllocAlone(s, t, stack);
        case Empty => r := EndsWithRefill(s, t, stack);
        case PushTry(_, _) => r := EndsWithPush(s, t, stack);
      }
    }
  }

  lemma KeysAgree(s: State, stack: seq<Addr>)
    requires Inv(s, stack)
    ensures s.held.Keys == s.pc.Keys
  {}

  lemma EndsWithPush(s: State, t: Tid, stack: seq<Addr>) returns (r: seq<State>)
    requires Inv(s, stack) && t in s.pc && t in s.held && s.pc[t].PushTry?
    ensures Alone(r, t) && r[0] == s
  {
    assert Current(s, t);
    var list := s.pc[t].list;
    assert forall a :: a in list ==> Has(s, t, a);
    if s.pc[t].after == Idle { r := FreeAlone(s, t, list); } else { r := RefillAlone(s, t, list, stack); }
  }

  /** In every state of every run whoever is in a call can end it without the others. */
  lemma EveryCallCanEnd(r: seq<State>, i: nat, t: Tid)
    requires Run(r) && i < |r| && t in r[i].pc && r[i].pc[t] != Idle
    ensures exists q :: Alone(q, t) && q[0] == r[i]
  {
    RunKeepsInv(r, i);
    var stack :| Inv(r[i], stack);
    KeysAgree(r[i], stack);
    hide Run, Inv, Alone;
    var q := CanEnd(r[i], t, stack);
  }

  /** In every state of every run a call of g_slice_alloc by itself takes the top slice, or when there is none one that
      has never been given out, from a new block. */
  lemma AllocGivesASlice(r: seq<State>, i: nat, t: Tid) returns (q: seq<State>)
    requires Run(r) && i < |r| && t in r[i].pc && r[i].pc[t] == Idle
    ensures Alone(q, t) && OwnStep(r[i], t, q[0]) && q[0].pc[t] == PopTry
    ensures t in r[i].held && t in q[|q| - 1].held
    ensures var s, s' := r[i], q[|q| - 1];
      && (s.top != NULL ==> s.top in s.next && s' == s.(top := s.next[s.top], held := s.held[t := s.held[t] + {s.top}],
                                                        monitor := s'.monitor))
      && (s.top == NULL ==> exists b :: b !in s.slices && s'.held[t] == s.held[t] + {b})
  {
    RunKeepsInv(r, i);
    var s := r[i];
    var stack :| Inv(s, stack);
    KeysAgree(s, stack);
    var s1 := Go(s, t, PopTry);
    assert OwnStep(s, t, s1);
    var stack1 := OwnStepKeepsInv(s, t, s1, stack);
    hide Run, Inv, Alone, OwnStep;
    q := AllocAlone(s1, t, stack1);
    assert s.pc[t := PopTry][t := Idle] == s.pc;
  }

  /** And a call of g_slice_free1 puts the slice on top. */
  lemma FreePutsOnTop(r: seq<State>, i: nat, t: Tid, b: Addr) returns (q: seq<State>)
    requires Run(r) && i < |r| && t in r[i].pc && r[i].pc[t] == Idle && t in r[i].held && b in r[i].held[t]
    ensures Alone(q, t) && OwnStep(r[i], t, q[0]) && q[0].pc[t] == PushTry([b], Idle)
    ensures var s, s' := r[i], q[|q| - 1];
      s' == s.(top := b, next := s.next[b := s.top], held := s.held[t := s.held[t] - {b}], monitor := s'.monitor)
  {
    var s := r[i];
    var s1 := Go(s, t, PushTry([b], Idle)).(held := s.held[t := s.held[t] - {b}]);
    assert FreeCall(s, t, b, s1) && OwnStep(s, t, s1);
    hide Run, Alone, OwnStep;
    q := FreeAlone(s1, t, [b]);
    assert s.pc[t := PushTry([b], Idle)][t := Idle] == s.pc;
  }
}
