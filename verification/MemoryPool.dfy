/** memory_pool.c with semaphore.h: a counting semaphore in front of a stack of free blocks. */
module MemoryPool {
  import opened Chains
  import opened Counting
  import opened Exclusive

  // Any number of threads run osMemoryPoolAlloc and osMemoryPoolFree, one exclusive load, plain load, plain store or
  // exclusive store at a time. The link of a free block lives inside the block, so a thread that owns a block may
  // overwrite that word with anything.

  datatype Cell = Tokens | Top

  datatype Pc =
    | Idle
    // osMemoryPoolAlloc: semaphore_enter, then atomic_list_pop
    | EnterTry
    | EnterLoaded(c: int)
    | Waiting
    | PopTry
    | PopLoaded(ref: Addr)
    | PopRead(ref: Addr, nx: Addr)
    | NullAfterToken
    // osMemoryPoolFree: atomic_list_push, then semaphore_leave
    | PushTry(b: Addr)
    | PushLoaded(b: Addr, seen: Addr)
    | PushLinked(b: Addr, seen: Addr)
    | LeaveTry
    | LeaveLoaded(c: int)

  datatype State = State(
    tokens: int,
    top: Addr,
    next: Links,
    monitor: Monitor<Cell>,
    pc: map<Tid, Pc>,
    held: map<Tid, set<Addr>>)

  // ----- steps

  /** Thread `t` moves to `p`; nothing else is said. */
  function Go(s: State, t: Tid, p: Pc): State {
    s.(pc := s.pc[t := p])
  }

  /** The steps of osMemoryPoolAlloc. */
  ghost predicate AllocStep(s: State, t: Tid, s': State)
    requires t in s.pc && t in s.held
  {
    match s.pc[t]
    case Idle => s' == Go(s, t, EnterTry)
    case EnterTry =>
      if s.tokens == 0
      then s' == Go(s, t, Waiting).(monitor := Clrex(s.monitor, t))
      else s' == Go(s, t, EnterLoaded(s.tokens)).(monitor := Ldrex(s.monitor, t, Tokens))
    case EnterLoaded(c) =>
      || (Holds(s.monitor, t, Tokens) && s' == Go(s, t, PopTry).(tokens := c - 1, monitor := Stored(s.monitor, Tokens)))
      || s' == Go(s, t, EnterTry).(monitor := Clrex(s.monitor, t))
    case Waiting =>
      || (s.tokens > 0 && s' == Go(s, t, PopTry).(tokens := s.tokens - 1, monitor := Stored(s.monitor, Tokens)))
      || s' == Go(s, t, Idle)
    case PopTry =>
      s' == Go(s, t, PopLoaded(s.top)).(monitor := Ldrex(s.monitor, t, Top))
    case PopLoaded(ref) =>
      if ref == NULL
      then s' == Go(s, t, NullAfterToken).(monitor := Clrex(s.monitor, t))
      else ref in s.next && s' == Go(s, t, PopRead(ref, s.next[ref]))
    case PopRead(ref, nx) =>
      || (Holds(s.monitor, t, Top)
          && s' == Go(s, t, Idle).(top := nx, monitor := Stored(s.monitor, Top),
                                   held := s.held[t := s.held[t] + {ref}]))
      || s' == Go(s, t, PopTry).(monitor := Clrex(s.monitor, t))
    case _ => false
  }

  ghost predicate FreeCall(s: State, t: Tid, b: Addr, s': State)
    requires t in s.held
  {
    b in s.held[t] && s' == Go(s, t, PushTry(b)).(held := s.held[t := s.held[t] - {b}])
  }

  /** The steps of osMemoryPoolFree on a block the thread owns. */
  ghost predicate FreeStep(s: State, t: Tid, s': State)
    requires t in s.pc && t in s.held
  {
    match s.pc[t]
    case Idle => exists b :: FreeCall(s, t, b, s')
    case PushTry(b) =>
      s' == Go(s, t, PushLoaded(b, s.top)).(monitor := Ldrex(s.monitor, t, Top))
    case PushLoaded(b, seen) =>
      s' == Go(s, t, PushLinked(b, seen)).(next := s.next[b := seen])
    case PushLinked(b, seen) =>
      || (Holds(s.monitor, t, Top) && s' == Go(s, t, LeaveTry).(top := b, monitor := Stored(s.monitor, Top)))
      || s' == Go(s, t, PushTry(b)).(monitor := Clrex(s.monitor, t))
    case LeaveTry =>
      s' == Go(s, t, LeaveLoaded(s.tokens)).(monitor := Ldrex(s.monitor, t, Tokens))
    case LeaveLoaded(c) =>
      || (Holds(s.monitor, t, Tokens) && s' == Go(s, t, Idle).(tokens := c + 1, monitor := Stored(s.monitor, Tokens)))
      || s' == Go(s, t, LeaveTry).(monitor := Clrex(s.monitor, t))
    case _ => false
  }

  /** The owner scribbles over the first word of its block. */
  ghost predicate Scribble(s: State, t: Tid, b: Addr, v: Addr, s': State)
    requires t in s.held
  {
    b in s.held[t] && s' == s.(next := s.next[b := v])
  }

  /** The owner hands its block to thread `u`. */
  ghost predicate HandOver(s: State, t: Tid, u: Tid, b: Addr, s': State)
    requires t in s.held
  {
    && b in s.held[t] && u in s.held && u != t
    && s' == s.(held := s.held[t := s.held[t] - {b}][u := s.held[u] + {b}])
  }

  ghost predicate Next(s: State, s': State) {
    exists t :: t in s.pc && t in s.held && (
      || AllocStep(s, t, s')
      || FreeStep(s, t, s')
      || (exists b, v :: Scribble(s, t, b, v, s'))
      || (exists u, b :: HandOver(s, t, u, b, s')))
  }

  ghost predicate Ready(next: Links, top: Addr, tokens: int, blocks: seq<Addr>) {
    Chain(next, top, blocks) && tokens == |blocks|
  }

  /** The pool as osMemoryPoolNew leaves it, with any finite set of threads about to use it. */
  ghost predicate Init(s: State, blocks: seq<Addr>) {
    && Ready(s.next, s.top, s.tokens, blocks)
    && s.monitor == map[]
    && s.held.Keys == s.pc.Keys
    && (forall t :: t in s.pc ==> s.pc[t] == Idle)
    && (forall t :: t in s.held ==> s.held[t] == {})
  }

  ghost predicate Run(r: seq<State>, blocks: seq<Addr>) {
    && r != []
    && Init(r[0], blocks)
    && forall i :: 0 <= i < |r| - 1 ==> Next(r[i], r[i + 1])
  }

  // ----- the invariant

  /** The block a thread is about to push: no longer owned, not yet on the stack. */
  predicate Carries(p: Pc, b: Addr) {
    match p
    case PushTry(c) => b == c
    case PushLoaded(c, _) => b == c
    case PushLinked(c, _) => b == c
    case _ => false
  }

  /** Thread `t` alone may touch block `b`. */
  predicate Has(s: State, t: Tid, b: Addr) {
    t in s.pc && t in s.held && (b in s.held[t] || Carries(s.pc[t], b))
  }

  /** Took a token, has not yet popped. */
  predicate Entered(p: Pc) {
    p.PopTry? || p.PopLoaded? || p.PopRead? || p.NullAfterToken?
  }

  /** Pushed its block, has not yet released the token. */
  predicate Unreleased(p: Pc) {
    p.LeaveTry? || p.LeaveLoaded?
  }

  /** Every block is in exactly one place: on the stack, with one owner, or carried by one thread. */
  ghost predicate Placed(s: State, blocks: set<Addr>, stack: seq<Addr>) {
    && s.held.Keys == s.pc.Keys
    && Chain(s.next, s.top, stack)
    && NULL !in blocks
    && (forall b :: b in blocks ==> b in s.next)
    && (forall b :: b in stack ==> b in blocks)
    && (forall t :: t in s.pc ==> forall b :: b in s.held[t] ==> !Carries(s.pc[t], b))
    && (forall t, b :: Has(s, t, b) ==> b in blocks && b !in stack)
    && (forall t, u, b :: Has(s, t, b) && Has(s, u, b) ==> t == u)
    && (forall b :: b in blocks && b !in stack ==> exists t :: Has(s, t, b))
  }

  /** While its reservation survives, what a thread loaded is still what the cell holds. */
  ghost predicate Current(s: State, t: Tid)
    requires t in s.pc
  {
    match s.pc[t]
    case EnterLoaded(c) => c > 0 && (Holds(s.monitor, t, Tokens) ==> c == s.tokens)
    case LeaveLoaded(c) => Holds(s.monitor, t, Tokens) ==> c == s.tokens
    case PopLoaded(ref) => ref != NULL && ref in s.next && (Holds(s.monitor, t, Top) ==> ref == s.top)
    case PopRead(ref, nx) =>
      ref != NULL && (Holds(s.monitor, t, Top) ==> ref == s.top && ref in s.next && nx == s.next[ref])
    case PushLoaded(b, seen) => Holds(s.monitor, t, Top) ==> seen == s.top
    case PushLinked(b, seen) => b in s.next && s.next[b] == seen && (Holds(s.monitor, t, Top) ==> seen == s.top)
    case NullAfterToken => false
    case _ => true
  }

  ghost predicate AllCurrent(s: State) {
    forall t :: t in s.pc ==> Current(s, t)
  }

  /** Free blocks = tokens + tokens taken but not used up + blocks pushed but not announced. */
  ghost predicate Balanced(s: State, stack: seq<Addr>) {
    && s.tokens >= 0
    && |stack| == s.tokens + Count(s.pc, Entered) + Count(s.pc, Unreleased)
  }

  ghost predicate Inv(s: State, blocks: set<Addr>, stack: seq<Addr>) {
    && Placed(s, blocks, stack)
    && AllCurrent(s)
    && Balanced(s, stack)
  }

  ghost function Elements(s: seq<Addr>): set<Addr> {
    set a | a in s
  }

  lemma InitHasInv(s: State, blocks: seq<Addr>)
    requires Init(s, blocks)
    ensures Inv(s, Elements(blocks), blocks)
  {
    ChainHasNoNull(s.next, s.top, blocks);
    CountZero(s.pc, Entered);
    CountZero(s.pc, Unreleased);
  }

  // ----- every step keeps the invariant

  lemma Counts(s: State, t: Tid, s': State)
    requires t in s.pc && t in s'.pc && s'.pc == s.pc[t := s'.pc[t]]
    ensures Count(s'.pc, Entered) == Count(s.pc, Entered) - Bit(Entered(s.pc[t])) + Bit(Entered(s'.pc[t]))
    ensures Count(s'.pc, Unreleased) == Count(s.pc, Unreleased) - Bit(Unreleased(s.pc[t])) + Bit(Unreleased(s'.pc[t]))
  {
    CountUpdate(s.pc, t, s'.pc[t], Entered);
    CountUpdate(s.pc, t, s'.pc[t], Unreleased);
  }

  /** What one program counter contributes to the balance. */
  function Weight(p: Pc): int {
    Bit(Entered(p)) + Bit(Unreleased(p))
  }

  lemma AllocMoves(s: State, t: Tid, s': State)
    requires t in s.pc && t in s.held && AllocStep(s, t, s')
    ensures t in s'.pc && s'.pc == s.pc[t := s'.pc[t]]
  {
    match s.pc[t] {
      case Idle => case EnterTry => case EnterLoaded(_) => case Waiting =>
      case PopTry => case PopLoaded(_) => case PopRead(_, _) => case _ =>
    }
  }

  lemma AllocAccounts(s: State, t: Tid, s': State)
    requires t in s.pc && t in s'.pc && t in s.held && Current(s, t) && AllocStep(s, t, s') && s.tokens >= 0
    ensures s'.tokens >= 0
    ensures s'.tokens + Weight(s'.pc[t]) ==
            s.tokens + Weight(s.pc[t]) - Bit(s.pc[t].PopRead? && s'.pc[t] == Idle)
  {
    match s.pc[t] {
      case Idle => case EnterTry => case EnterLoaded(_) => case Waiting =>
      case PopTry => case PopLoaded(_) => case PopRead(_, _) => case _ =>
    }
  }

  lemma FreeMoves(s: State, t: Tid, s': State)
    requires t in s.pc && t in s.held && FreeStep(s, t, s')
    ensures t in s'.pc && s'.pc == s.pc[t := s'.pc[t]]
  {
    match s.pc[t] {
      case Idle => case PushTry(_) => case PushLoaded(_, _) => case PushLinked(_, _) =>
      case LeaveTry => case LeaveLoaded(_) => case _ =>
    }
  }

  lemma FreeAccounts(s: State, t: Tid, s': State)
    requires t in s.pc && t in s'.pc && t in s.held && Current(s, t) && FreeStep(s, t, s') && s.tokens >= 0
    ensures s'.tokens >= 0
    ensures s'.tokens + Weight(s'.pc[t]) ==
            s.tokens + Weight(s.pc[t]) + Bit(s.pc[t].PushLinked? && s'.pc[t] == LeaveTry)
  {
    match s.pc[t] {
      case Idle => case PushTry(_) => case PushLoaded(_, _) => case PushLinked(_, _) =>
      case LeaveTry => case LeaveLoaded(_) => case _ =>
    }
  }

  /** A step that changes neither links nor ownership. */
  lemma QuietKeepsPlaced(s: State, t: Tid, s': State, blocks: set<Addr>, stack: seq<Addr>)
    requires Placed(s, blocks, stack) && t in s.pc && t in s'.pc
    requires s'.top == s.top && s'.next == s.next && s'.held == s.held && s'.pc == s.pc[t := s'.pc[t]]
    requires forall b :: Carries(s.pc[t], b) <==> Carries(s'.pc[t], b)
    ensures Placed(s', blocks, stack)
  {
    assert forall u, b :: Has(s', u, b) <==> Has(s, u, b);
  }

  /** A step of `t` that destroys the reservations on what it stores leaves every other thread current. */
  lemma OthersStayCurrent(s: State, t: Tid, s': State, blocks: set<Addr>, stack: seq<Addr>)
    requires Placed(s, blocks, stack) && AllCurrent(s) && t in s.pc && t in s'.pc && s'.pc == s.pc[t := s'.pc[t]]
    requires forall u, c :: u != t && Holds(s'.monitor, u, c) ==> Holds(s.monitor, u, c)
    requires s'.tokens == s.tokens || forall u :: u != t ==> !Holds(s'.monitor, u, Tokens)
    requires s'.top == s.top || forall u :: u != t ==> !Holds(s'.monitor, u, Top)
    requires forall a :: a in s.next ==> a in s'.next
    requires forall a :: a in s.next && !Has(s, t, a) ==> s'.next[a] == s.next[a]
    requires Current(s', t)
    ensures AllCurrent(s')
  {
    forall u | u in s.pc && u != t ensures Current(s', u) {
      assert Current(s, u);
      if s.pc[u].PopRead? && Holds(s.monitor, u, Top) {
        assert stack != [] && s.top == stack[0] && s.top in stack;
        assert !Has(s, t, s.top);
      } else if s.pc[u].PushLinked? {
        assert Has(s, u, s.pc[u].b);
        assert !Has(s, t, s.pc[u].b);
      }
    }
  }

  lemma EnteredMeansNonempty(s: State, t: Tid, blocks: set<Addr>, stack: seq<Addr>)
    requires Placed(s, blocks, stack) && Balanced(s, stack) && t in s.pc && Entered(s.pc[t])
    ensures stack != [] && s.top == stack[0] && s.top in stack && s.top in s.next && s.top != NULL
  {
    CountPositive(s.pc, t, Entered);
  }

  lemma AllocStaysCurrent(s: State, t: Tid, s': State)
    requires t in s.pc && t in s.held && Current(s, t) && s.tokens >= 0
    requires Entered(s.pc[t]) ==> s.top != NULL && s.top in s.next
    requires AllocStep(s, t, s')
    ensures t in s'.pc && Current(s', t)
  {
    match s.pc[t] {
      case Idle => case EnterTry => case EnterLoaded(_) => case Waiting =>
      case PopTry => case PopLoaded(_) => case PopRead(_, _) => case _ =>
    }
  }

  lemma AllocKeepsCurrent(s: State, t: Tid, s': State, blocks: set<Addr>, stack: seq<Addr>)
    requires Inv(s, blocks, stack) && t in s.pc && t in s.held && AllocStep(s, t, s')
    ensures AllCurrent(s')
  {
    assert Current(s, t);
    if Entered(s.pc[t]) {
      EnteredMeansNonempty(s, t, blocks, stack);
    }
    AllocStaysCurrent(s, t, s');
    AllocMoves(s, t, s');
    OthersStayCurrent(s, t, s', blocks, stack);
  }

  lemma AllocKeepsBalance(s: State, t: Tid, s': State, stack: seq<Addr>)
    requires Balanced(s, stack) && t in s.pc && t in s.held && Current(s, t) && AllocStep(s, t, s')
    ensures s.pc[t].PopRead? && s'.pc[t] == Idle ==> stack != [] && Balanced(s', stack[1..])
    ensures !(s.pc[t].PopRead? && s'.pc[t] == Idle) ==> Balanced(s', stack)
  {
    AllocMoves(s, t, s');
    AllocAccounts(s, t, s');
    Counts(s, t, s');
    if s.pc[t].PopRead? {
      CountPositive(s.pc, t, Entered);
    }
  }

  lemma AllocKeepsInv(s: State, t: Tid, s': State, blocks: set<Addr>, stack: seq<Addr>)
    requires Inv(s, blocks, stack) && t in s.pc && t in s.held && AllocStep(s, t, s')
    requires !(s.pc[t].PopRead? && s'.pc[t] == Idle)
    ensures Inv(s', blocks, stack)
  {
    assert Current(s, t);
    QuietKeepsPlaced(s, t, s', blocks, stack);
    AllocKeepsCurrent(s, t, s', blocks, stack);
    AllocKeepsBalance(s, t, s', stack);
  }

  /** A successful pop moves the top block from the stack to its new owner. */
  lemma PopKeepsPlaced(s: State, t: Tid, s': State, blocks: set<Addr>, stack: seq<Addr>)
    requires Inv(s, blocks, stack) && t in s.pc && t in s.held && AllocStep(s, t, s')
    requires s.pc[t].PopRead? && s'.pc[t] == Idle
    ensures stack != [] && Placed(s', blocks, stack[1..])
  {
    assert Current(s, t);
    EnteredMeansNonempty(s, t, blocks, stack);
    ChainIsDistinct(s.next, s.top, stack);
    var ref := s.top;
    assert stack == [ref] + stack[1..];
    assert forall u, b :: Has(s, u, b) ==> Has(s', u, b);
    assert forall u, b :: Has(s', u, b) ==> Has(s, u, b) || (u == t && b == ref);
    assert Has(s', t, ref);
  }

  lemma PopKeepsInv(s: State, t: Tid, s': State, blocks: set<Addr>, stack: seq<Addr>)
    requires Inv(s, blocks, stack) && t in s.pc && t in s.held && AllocStep(s, t, s')
    requires s.pc[t].PopRead? && s'.pc[t] == Idle
    ensures stack != [] && Inv(s', blocks, stack[1..])
  {
    assert Current(s, t);
    PopKeepsPlaced(s, t, s', blocks, stack);
    AllocKeepsCurrent(s, t, s', blocks, stack);
    AllocKeepsBalance(s, t, s', stack);
  }

  lemma FreeStaysCurrent(s: State, t: Tid, s': State)
    requires t in s.pc && t in s.held && Current(s, t) && FreeStep(s, t, s')
    ensures t in s'.pc && Current(s', t)
  {
    match s.pc[t] {
      case Idle => case PushTry(_) => case PushLoaded(_, _) => case PushLinked(_, _) =>
      case LeaveTry => case LeaveLoaded(_) =>
    }
  }

  lemma FreeKeepsCurrent(s: State, t: Tid, s': State, blocks: set<Addr>, stack: seq<Addr>)
    requires Inv(s, blocks, stack) && t in s.pc && t in s.held && FreeStep(s, t, s')
    ensures AllCurrent(s')
  {
    assert Current(s, t);
    if s.pc[t].PushLoaded? {
      assert Has(s, t, s.pc[t].b);
    }
    FreeStaysCurrent(s, t, s');
    FreeMoves(s, t, s');
    OthersStayCurrent(s, t, s', blocks, stack);
  }

  lemma FreeKeepsBalance(s: State, t: Tid, s': State, stack: seq<Addr>)
    requires Balanced(s, stack) && t in s.pc && t in s.held && Current(s, t) && FreeStep(s, t, s')
    ensures s.pc[t].PushLinked? && s'.pc[t] == LeaveTry ==> Balanced(s', [s.pc[t].b] + stack)
    ensures !(s.pc[t].PushLinked? && s'.pc[t] == LeaveTry) ==> Balanced(s', stack)
  {
    FreeMoves(s, t, s');
    FreeAccounts(s, t, s');
    Counts(s, t, s');
  }

  lemma FreeCallKeepsPlaced(s: State, t: Tid, s': State, blocks: set<Addr>, stack: seq<Addr>)
    requires Placed(s, blocks, stack) && t in s.pc && t in s.held && s.pc[t] == Idle && FreeStep(s, t, s')
    ensures Placed(s', blocks, stack)
  {
    assert forall u, b :: Has(s, u, b) ==> Has(s', u, b);
    assert forall u, b :: Has(s', u, b) ==> Has(s, u, b);
  }

  lemma FreeKeepsInv(s: State, t: Tid, s': State, blocks: set<Addr>, stack: seq<Addr>)
    requires Inv(s, blocks, stack) && t in s.pc && t in s.held && FreeStep(s, t, s')
    requires !s.pc[t].PushLoaded? && !(s.pc[t].PushLinked? && s'.pc[t] == LeaveTry)
    ensures Inv(s', blocks, stack)
  {
    match s.pc[t] {
      case Idle => FreeCallKeepsPlaced(s, t, s', blocks, stack);
      case PushTry(_) => QuietKeepsPlaced(s, t, s', blocks, stack);
      case PushLinked(_, _) => QuietKeepsPlaced(s, t, s', blocks, stack);
      case LeaveTry => QuietKeepsPlaced(s, t, s', blocks, stack);
      case LeaveLoaded(_) => QuietKeepsPlaced(s, t, s', blocks, stack);
    }
    assert Current(s, t);
    FreeKeepsCurrent(s, t, s', blocks, stack);
    FreeKeepsBalance(s, t, s', stack);
  }

  /** Writing the link of the block being pushed is invisible to everyone else. */
  lemma LinkKeepsInv(s: State, t: Tid, s': State, blocks: set<Addr>, stack: seq<Addr>)
    requires Inv(s, blocks, stack) && t in s.pc && t in s.held && FreeStep(s, t, s')
    requires s.pc[t].PushLoaded?
    ensures Inv(s', blocks, stack)
  {
    assert Has(s, t, s.pc[t].b);
    ChainFrame(s.next, s'.next, s.top, stack);
    assert forall u, b :: Has(s, u, b) ==> Has(s', u, b);
    assert forall u, b :: Has(s', u, b) ==> Has(s, u, b);
    assert Current(s, t);
    FreeKeepsCurrent(s, t, s', blocks, stack);
    FreeKeepsBalance(s, t, s', stack);
  }

  /** A successful push moves the carried block to the top of the stack. */
  lemma PushKeepsPlaced(s: State, t: Tid, s': State, blocks: set<Addr>, stack: seq<Addr>)
    requires Inv(s, blocks, stack) && t in s.pc && t in s.held && FreeStep(s, t, s')
    requires s.pc[t].PushLinked? && s'.pc[t] == LeaveTry
    ensures Placed(s', blocks, [s.pc[t].b] + stack)
  {
    assert Current(s, t);
    var c := s.pc[t].b;
    assert Has(s, t, c);
    ChainPush(s.next, s.top, stack, c);
    assert forall u, b :: Has(s, u, b) ==> Has(s', u, b) || b == c;
    forall u, b | Has(s', u, b) ensures Has(s, u, b) && b != c {
      assert Has(s, u, b) && (b == c ==> u == t);
    }
  }

  lemma PushKeepsInv(s: State, t: Tid, s': State, blocks: set<Addr>, stack: seq<Addr>)
    requires Inv(s, blocks, stack) && t in s.pc && t in s.held && FreeStep(s, t, s')
    requires s.pc[t].PushLinked? && s'.pc[t] == LeaveTry
    ensures Inv(s', blocks, [s.pc[t].b] + stack)
  {
    PushKeepsPlaced(s, t, s', blocks, stack);
    assert Current(s, t);
    FreeKeepsCurrent(s, t, s', blocks, stack);
    FreeKeepsBalance(s, t, s', stack);
  }

  lemma ScribbleKeepsPlaced(s: State, t: Tid, b: Addr, v: Addr, s': State, blocks: set<Addr>, stack: seq<Addr>)
    requires Placed(s, blocks, stack) && t in s.pc && t in s.held && Scribble(s, t, b, v, s')
    ensures Placed(s', blocks, stack)
  {
    assert Has(s, t, b);
    ChainFrame(s.next, s'.next, s.top, stack);
    assert forall u, b :: Has(s, u, b) ==> Has(s', u, b);
    assert forall u, b :: Has(s', u, b) ==> Has(s, u, b);
  }

  lemma ScribbleKeepsInv(s: State, t: Tid, b: Addr, v: Addr, s': State, blocks: set<Addr>, stack: seq<Addr>)
    requires Inv(s, blocks, stack) && t in s.pc && t in s.held && Scribble(s, t, b, v, s')
    ensures Inv(s', blocks, stack)
  {
    assert Has(s, t, b);
    ScribbleKeepsPlaced(s, t, b, v, s', blocks, stack);
    assert s'.pc == s.pc[t := s'.pc[t]];
    assert Current(s, t);
    OthersStayCurrent(s, t, s', blocks, stack);
  }

  lemma HandOverKeepsPlaced(s: State, t: Tid, u: Tid, b: Addr, s': State, blocks: set<Addr>, stack: seq<Addr>)
    requires Placed(s, blocks, stack) && t in s.pc && t in s.held && HandOver(s, t, u, b, s')
    ensures Placed(s', blocks, stack)
  {
    assert Has(s, t, b) && Has(s', u, b) && !Has(s, u, b);
    assert forall v, c :: Has(s, v, c) ==> Has(s', v, c) || (v == t && c == b);
    assert forall v, c :: Has(s', v, c) ==> Has(s, v, c) || (v == u && c == b);
  }

  lemma HandOverKeepsInv(s: State, t: Tid, u: Tid, b: Addr, s': State, blocks: set<Addr>, stack: seq<Addr>)
    requires Inv(s, blocks, stack) && t in s.pc && t in s.held && HandOver(s, t, u, b, s')
    ensures Inv(s', blocks, stack)
  {
    assert Has(s, t, b) && Has(s', u, b) && !Has(s, u, b);
    HandOverKeepsPlaced(s, t, u, b, s', blocks, stack);
    assert s'.pc == s.pc[t := s'.pc[t]];
    assert Current(s, t);
    OthersStayCurrent(s, t, s', blocks, stack);
  }

  lemma NextKeepsInv(s: State, s': State, blocks: set<Addr>, stack: seq<Addr>) returns (stack': seq<Addr>)
    requires Inv(s, blocks, stack) && Next(s, s')
    ensures Inv(s', blocks, stack')
  {
    stack' := stack;
    var t :| t in s.pc && t in s.held && (
      || AllocStep(s, t, s')
      || FreeStep(s, t, s')
      || (exists b, v :: Scribble(s, t, b, v, s'))
      || (exists u, b :: HandOver(s, t, u, b, s')));
    if AllocStep(s, t, s') {
      if s.pc[t].PopRead? && s'.pc[t] == Idle {
        PopKeepsInv(s, t, s', blocks, stack);
        stack' := stack[1..];
      } else {
        AllocKeepsInv(s, t, s', blocks, stack);
      }
    } else if FreeStep(s, t, s') {
      if s.pc[t].PushLoaded? {
        LinkKeepsInv(s, t, s', blocks, stack);
      } else if s.pc[t].PushLinked? && s'.pc[t] == LeaveTry {
        PushKeepsInv(s, t, s', blocks, stack);
        stack' := [s.pc[t].b] + stack;
      } else {
        FreeKeepsInv(s, t, s', blocks, stack);
      }
    } else if b, v :| Scribble(s, t, b, v, s') {
      ScribbleKeepsInv(s, t, b, v, s', blocks, stack);
    } else {
      var u, b :| HandOver(s, t, u, b, s');
      HandOverKeepsInv(s, t, u, b, s', blocks, stack);
    }
  }

  // ----- main results

  lemma {:induction false} RunKeepsInv(r: seq<State>, blocks: seq<Addr>, i: nat)
    requires Run(r, blocks) && i < |r|
    ensures exists stack :: Inv(r[i], Elements(blocks), stack)
  {
    if i == 0 {
      InitHasInv(r[0], blocks);
    } else {
      RunKeepsInv(r, blocks, i - 1);
      var stack :| Inv(r[i - 1], Elements(blocks), stack);
      var stack' := NextKeepsInv(r[i - 1], r[i], Elements(blocks), stack);
    }
  }

  /** In every state of every run the free stack is a finite acyclic list, every block is either on it once
      or with exactly one thread, and the number of free blocks is what the semaphore promises. */
  lemma EveryBlockInOnePlace(r: seq<State>, blocks: seq<Addr>, i: nat)
    requires Run(r, blocks) && i < |r|
    ensures exists stack: seq<Addr> ::
      && Chain(r[i].next, r[i].top, stack) && Distinct(stack)
      && (forall b :: b in stack ==> b in blocks)
      && (forall b :: b in blocks ==> (b !in stack <==> exists t :: Has(r[i], t, b)))
      && (forall b, t, u :: Has(r[i], t, b) && Has(r[i], u, b) ==> t == u)
      && |stack| == r[i].tokens + Count(r[i].pc, Entered) + Count(r[i].pc, Unreleased)
  {
    RunKeepsInv(r, blocks, i);
    var stack :| Inv(r[i], Elements(blocks), stack);
    ChainIsDistinct(r[i].next, r[i].top, stack);
    forall b, t | Has(r[i], t, b) ensures b in Elements(blocks) {}
  }

  /** A thread whose semaphore_enter succeeded never pops NULL, and the count never goes negative. */
  lemma TokenMeansBlock(r: seq<State>, blocks: seq<Addr>, i: nat, t: Tid)
    requires Run(r, blocks) && i < |r| && t in r[i].pc
    ensures r[i].pc[t] != NullAfterToken
    ensures r[i].pc[t].PopLoaded? ==> r[i].pc[t].ref != NULL
    ensures 0 <= r[i].tokens <= |blocks|
  {
    RunKeepsInv(r, blocks, i);
    var stack :| Inv(r[i], Elements(blocks), stack);
    assert Current(r[i], t);
    ChainIsDistinct(r[i].next, r[i].top, stack);
    DistinctIsShort(stack, blocks);
  }

  lemma {:induction false} DistinctIsShort(a: seq<Addr>, b: seq<Addr>)
    requires Distinct(a) && forall x :: x in a ==> x in b
    ensures |a| <= |b|
  {
    if a != [] {
      assert a[0] in b;
      var k :| 0 <= k < |b| && b[k] == a[0];
      var rest := b[..k] + b[k + 1..];
      forall x | x in a[1..] ensures x in rest {
        var j :| 0 <= j < |a[1..]| && a[1..][j] == x;
        assert a[j + 1] == x && x in b && x != a[0];
      }
      DistinctIsShort(a[1..], rest);
    }
  }

  // ----- how a call ends

  ghost predicate OwnStep(s: State, t: Tid, s': State) {
    t in s.pc && t in s.held && (AllocStep(s, t, s') || FreeStep(s, t, s'))
  }

  /** Inside osMemoryPoolAlloc. */
  predicate Allocating(p: Pc) {
    p.EnterTry? || p.EnterLoaded? || p.Waiting? || p.PopTry? || p.PopLoaded? || p.PopRead? || p.NullAfterToken?
  }

  lemma NextOf(r: seq<State>, blocks: seq<Addr>, i: nat)
    requires Run(r, blocks) && i + 1 < |r|
    ensures Next(r[i], r[i + 1])
  {}

  lemma OnlyOwnStepsMove(s: State, s': State, t: Tid)
    requires Next(s, s') && t in s.pc && t in s'.pc && s'.pc[t] != s.pc[t]
    ensures OwnStep(s, t, s')
  {
    var u :| u in s.pc && u in s.held && (
      || AllocStep(s, u, s')
      || FreeStep(s, u, s')
      || (exists b, v :: Scribble(s, u, b, v, s'))
      || (exists v, b :: HandOver(s, u, v, b, s')));
    if AllocStep(s, u, s') { AllocMoves(s, u, s'); } else if FreeStep(s, u, s') { FreeMoves(s, u, s'); }
  }

  lemma TurnedAwayWhere(s: State, t: Tid, s': State)
    requires OwnStep(s, t, s') && t in s'.pc && s.pc[t] != Waiting && s'.pc[t] == Waiting
    ensures s.pc[t] == EnterTry && s.tokens == 0
  {
    match s.pc[t] {
      case Idle => case EnterTry => case EnterLoaded(_) => case PopTry => case PopLoaded(_) => case PopRead(_, _) =>
      case PushTry(_) => case PushLoaded(_, _) => case PushLinked(_, _) => case LeaveTry => case LeaveLoaded(_) =>
      case NullAfterToken =>
    }
  }

  /** A thread is made to wait only with no token left, and then every free block is spoken for, by a thread that has
      taken its token or by one that has yet to announce it. */
  lemma WaitsOnlyWhenEmpty(r: seq<State>, blocks: seq<Addr>, i: nat, t: Tid)
    requires Run(r, blocks) && i + 1 < |r| && t in r[i].pc && t in r[i + 1].pc
    requires r[i].pc[t] != Waiting && r[i + 1].pc[t] == Waiting
    ensures r[i].pc[t] == EnterTry && r[i].tokens == 0
    ensures exists stack ::
      && Placed(r[i], Elements(blocks), stack)
      && |stack| == Count(r[i].pc, Entered) + Count(r[i].pc, Unreleased)
  {
    RunKeepsInv(r, blocks, i);
    var stack :| Inv(r[i], Elements(blocks), stack);
    NextOf(r, blocks, i);
    hide Run, Next, OwnStep, Placed, AllCurrent;
    OnlyOwnStepsMove(r[i], r[i + 1], t);
    TurnedAwayWhere(r[i], t, r[i + 1]);
  }

  lemma AllocEndsWhere(s: State, t: Tid, s': State)
    requires OwnStep(s, t, s') && t in s'.pc && t in s'.held && Current(s, t) && Allocating(s.pc[t]) && s'.pc[t] == Idle
    ensures
      || (s.pc[t] == Waiting && s'.held == s.held)
      || (s.pc[t].PopRead? && s'.held == s.held[t := s.held[t] + {s.top}])
  {
    match s.pc[t] {
      case EnterTry => case EnterLoaded(_) => case Waiting => case PopTry => case PopLoaded(_) => case PopRead(_, _) =>
    }
  }

  /** osMemoryPoolAlloc returns the block that was on top and nobody's, or it had to wait and gives up. */
  lemma AllocEnds(r: seq<State>, blocks: seq<Addr>, i: nat, t: Tid)
    requires Run(r, blocks) && i + 1 < |r| && t in r[i].pc && t in r[i + 1].pc
    requires Allocating(r[i].pc[t]) && r[i + 1].pc[t] == Idle
    ensures t in r[i].held
    ensures
      || (r[i].pc[t] == Waiting && r[i + 1].held == r[i].held)
      || (&& r[i].top in blocks && (forall u :: !Has(r[i], u, r[i].top))
          && r[i + 1].held == r[i].held[t := r[i].held[t] + {r[i].top}])
  {
    RunKeepsInv(r, blocks, i);
    RunKeepsInv(r, blocks, i + 1);
    var stack :| Inv(r[i], Elements(blocks), stack);
    NextOf(r, blocks, i);
    hide Run, Next, OwnStep;
    OnlyOwnStepsMove(r[i], r[i + 1], t);
    assert Current(r[i], t);
    AllocEndsWhere(r[i], t, r[i + 1]);
    if r[i].pc[t] != Waiting { EnteredMeansNonempty(r[i], t, Elements(blocks), stack); }
  }

  // ----- a thread alone

  /** r are steps of thread t from inside a call to its end. */
  ghost predicate Alone(r: seq<State>, t: Tid) {
    && r != [] && t in r[|r| - 1].pc && r[|r| - 1].pc[t] == Idle
    && forall i :: 0 <= i < |r| - 1 ==> t in r[i].pc && r[i].pc[t] != Idle && OwnStep(r[i], t, r[i + 1])
  }

  lemma AloneThen(s: State, t: Tid, q: seq<State>)
    requires Alone(q, t) && t in s.pc && s.pc[t] != Idle && OwnStep(s, t, q[0])
    ensures Alone([s] + q, t)
  {
    hide OwnStep;
    var r := [s] + q;
    forall i | 0 <= i < |r| - 1 ensures t in r[i].pc && r[i].pc[t] != Idle && OwnStep(r[i], t, r[i + 1]) {
      if i > 0 { assert r[i] == q[i - 1] && r[i + 1] == q[i - 1 + 1]; }
    }
  }

  ghost predicate HasTop(s: State, t: Tid) { t in s.pc && t in s.held && s.top != NULL && s.top in s.next }

  /** The block on top becomes the caller's. */
  lemma PopAlone(s: State, t: Tid) returns (r: seq<State>)
    requires HasTop(s, t) && s.pc[t] == PopTry
    ensures Alone(r, t) && r[0] == s
    ensures var s' := r[|r| - 1];
      s' == Go(s, t, Idle).(top := s.next[s.top], held := s.held[t := s.held[t] + {s.top}], monitor := s'.monitor)
  {
    var m := Ldrex(s.monitor, t, Top);
    var nx := s.next[s.top];
    var s1 := Go(s, t, PopLoaded(s.top)).(monitor := m);
    var s2 := Go(s, t, PopRead(s.top, nx)).(monitor := m);
    var s3 := Go(s, t, Idle).(top := nx, monitor := Stored(m, Top), held := s.held[t := s.held[t] + {s.top}]);
    r := [s, s1, s2, s3];
    assert Go(s1, t, PopRead(s.top, nx)) == s2;
    assert s3.pc == s2.pc[t := Idle];
  }

  /** With a token and a block: the token is taken, and the block. */
  lemma AllocAlone(s: State, t: Tid) returns (r: seq<State>)
    requires HasTop(s, t) && s.pc[t] == EnterTry && s.tokens != 0
    ensures Alone(r, t) && r[0] == s
    ensures var s' := r[|r| - 1];
      s' == Go(s, t, Idle).(tokens := s.tokens - 1, top := s.next[s.top], held := s.held[t := s.held[t] + {s.top}],
                            monitor := s'.monitor)
  {
    var m := Ldrex(s.monitor, t, Tokens);
    var s1 := Go(s, t, EnterLoaded(s.tokens)).(monitor := m);
    var s2 := Go(s, t, PopTry).(tokens := s.tokens - 1, monitor := Stored(m, Tokens));
    assert Go(s1, t, PopTry).(tokens := s.tokens - 1, monitor := Stored(m, Tokens)) == s2;
    r := PopAlone(s2, t);
    assert s2.pc[t := Idle] == s.pc[t := Idle];
    AloneThen(s1, t, r);
    AloneThen(s, t, [s1] + r);
    r := [s] + ([s1] + r);
  }

  /** The token comes back. */
  lemma LeaveAlone(s: State, t: Tid) returns (r: seq<State>)
    requires t in s.pc && t in s.held && s.pc[t] == LeaveTry
    ensures Alone(r, t) && r[0] == s
    ensures var s' := r[|r| - 1]; s' == Go(s, t, Idle).(tokens := s.tokens + 1, monitor := s'.monitor)
  {
    var m := Ldrex(s.monitor, t, Tokens);
    var s1 := Go(s, t, LeaveLoaded(s.tokens)).(monitor := m);
    var s2 := Go(s, t, Idle).(tokens := s.tokens + 1, monitor := Stored(m, Tokens));
    r := [s, s1, s2];
    assert s2.pc == s1.pc[t := Idle];
  }

  /** The block goes on top, and then its token comes back. */
  lemma FreeAlone(s: State, t: Tid, b: Addr) returns (r: seq<State>)
    requires t in s.pc && t in s.held && s.pc[t] == PushTry(b)
    ensures Alone(r, t) && r[0] == s
    ensures var s' := r[|r| - 1];
      s' == Go(s, t, Idle).(tokens := s.tokens + 1, top := b, next := s.next[b := s.top], monitor := s'.monitor)
  {
    var m := Ldrex(s.monitor, t, Top);
    var s1 := Go(s, t, PushLoaded(b, s.top)).(monitor := m);
    var s2 := Go(s1, t, PushLinked(b, s.top)).(next := s.next[b := s.top]);
    var s3 := Go(s2, t, LeaveTry).(top := b, monitor := Stored(m, Top));
    r := LeaveAlone(s3, t);
    assert s3.pc[t := Idle] == s.pc[t := Idle];
    AloneThen(s2, t, r);
    AloneThen(s1, t, [s2] + r);
    AloneThen(s, t, [s1] + ([s2] + r));
    r := [s] + ([s1] + ([s2] + r));
  }

  /** In every state of every run with a token left, a call of osMemoryPoolAlloc by itself takes the top block. */
  lemma AllocTakesTop(r: seq<State>, blocks: seq<Addr>, i: nat, t: Tid) returns (q: seq<State>)
    requires Run(r, blocks) && i < |r| && t in r[i].pc && r[i].pc[t] == Idle && r[i].tokens > 0
    ensures Alone(q, t) && OwnStep(r[i], t, q[0]) && q[0].pc[t] == EnterTry
    ensures var s, s' := r[i], q[|q| - 1];
      && s.top in s.next
      && s' == s.(tokens := s.tokens - 1, top := s.next[s.top], held := s.held[t := s.held[t] + {s.top}],
                  monitor := s'.monitor)
  {
    RunKeepsInv(r, blocks, i);
    var s, stack :| s == r[i] && Inv(s, Elements(blocks), stack);
    TokenHasBlock(s, Elements(blocks), stack);
    hide Run, Inv, Alone;
    q := AllocAlone(Go(s, t, EnterTry), t);
    assert s.pc[t := EnterTry][t := Idle] == s.pc;
  }

  /** A caller that had to wait takes it, once there is a token again. */
  lemma WaiterTakesTop(r: seq<State>, blocks: seq<Addr>, i: nat, t: Tid) returns (q: seq<State>)
    requires Run(r, blocks) && i < |r| && t in r[i].pc && r[i].pc[t] == Waiting && r[i].tokens > 0
    ensures Alone(q, t) && q[0] == r[i] && t in r[i].held
    ensures var s, s' := r[i], q[|q| - 1];
      && s.top in s.next
      && s' == Go(s, t, Idle).(tokens := s.tokens - 1, top := s.next[s.top], held := s.held[t := s.held[t] + {s.top}],
                               monitor := s'.monitor)
  {
    RunKeepsInv(r, blocks, i);
    var s, stack :| s == r[i] && Inv(s, Elements(blocks), stack);
    TokenHasBlock(s, Elements(blocks), stack);
    var s1 := Go(s, t, PopTry).(tokens := s.tokens - 1, monitor := Stored(s.monitor, Tokens));
    hide Run, Inv;
    q := PopAlone(s1, t);
    AloneThen(s, t, q);
    q := [s] + q;
    assert s.pc[t := PopTry][t := Idle] == s.pc[t := Idle];
  }

  lemma TokenHasBlock(s: State, blocks: set<Addr>, stack: seq<Addr>)
    requires Inv(s, blocks, stack)
    ensures s.held.Keys == s.pc.Keys
    ensures s.tokens > 0 || (exists t :: t in s.pc && Entered(s.pc[t])) ==> s.top != NULL && s.top in s.next
  {
    if t :| t in s.pc && Entered(s.pc[t]) { EnteredMeansNonempty(s, t, blocks, stack); }
    if s.tokens > 0 { assert stack != [] && stack[0] in stack; }
  }

  /** A call of osMemoryPoolFree by itself puts the caller's block on top and gives the token back. */
  lemma FreePutsOnTop(r: seq<State>, blocks: seq<Addr>, i: nat, t: Tid, b: Addr) returns (q: seq<State>)
    requires Run(r, blocks) && i < |r| && t in r[i].pc && r[i].pc[t] == Idle && t in r[i].held && b in r[i].held[t]
    ensures Alone(q, t) && OwnStep(r[i], t, q[0]) && q[0].pc[t] == PushTry(b)
    ensures var s, s' := r[i], q[|q| - 1];
      s' == s.(tokens := s.tokens + 1, top := b, next := s.next[b := s.top], held := s.held[t := s.held[t] - {b}],
               monitor := s'.monitor)
  {
    var s := r[i];
    hide Run, Alone;
    var s1 := Go(s, t, PushTry(b)).(held := s.held[t := s.held[t] - {b}]);
    assert FreeCall(s, t, b, s1);
    q := FreeAlone(s1, t, b);
    assert s.pc[t := PushTry(b)][t := Idle] == s.pc;
  }

  /** The way back to the beginning of a loop. */
  lemma Retry(s: State, t: Tid) returns (s': State)
    requires t in s.pc && t in s.held && Current(s, t)
    requires var p := s.pc[t];
      p.EnterLoaded? || p.PopLoaded? || p.PopRead? || p.PushLoaded? || p.PushLinked? || p.LeaveLoaded?
    ensures OwnStep(s, t, s') && t in s'.pc && t in s'.held && Current(s', t)
    ensures s'.top == s.top && s'.tokens == s.tokens && s'.next.Keys >= s.next.Keys
    ensures match s.pc[t] {
        case EnterLoaded(_) => s'.pc[t] == EnterTry
        case PopLoaded(_) => s'.pc[t].PopRead?
        case PopRead(_, _) => s'.pc[t] == PopTry
        case PushLoaded(_, _) => s'.pc[t].PushLinked?
        case PushLinked(b, _) => s'.pc[t] == PushTry(b)
        case LeaveLoaded(_) => s'.pc[t] == LeaveTry
      }
  {
    var m := Clrex(s.monitor, t);
    match s.pc[t] {
      case EnterLoaded(_) => s' := Go(s, t, EnterTry).(monitor := m);
      case PopLoaded(ref) => s' := Go(s, t, PopRead(ref, s.next[ref]));
      case PopRead(_, _) => s' := Go(s, t, PopTry).(monitor := m);
      case PushLoaded(b, seen) => s' := Go(s, t, PushLinked(b, seen)).(next := s.next[b := seen]);
      case PushLinked(b, _) => s' := Go(s, t, PushTry(b)).(monitor := m);
      case LeaveLoaded(_) => s' := Go(s, t, LeaveTry).(monitor := m);
    }
  }

  lemma TurnedAway(s: State, t: Tid) returns (r: seq<State>)
    requires t in s.pc && t in s.held && (s.pc[t] == Waiting || (s.pc[t] == EnterTry && s.tokens == 0))
    ensures Alone(r, t) && r[0] == s
  {
    var s1 := Go(s, t, Waiting).(monitor := Clrex(s.monitor, t));
    r := if s.pc[t] == Waiting then [s, Go(s, t, Idle)] else [s, s1, Go(s1, t, Idle)];
  }

  function LoopsLeft(p: Pc): nat {
    if p.PopLoaded? || p.PushLoaded? then 2
    else if p.EnterLoaded? || p.PopRead? || p.PushLinked? || p.LeaveLoaded? then 1
    else 0
  }

  lemma {:induction false} CanEnd(s: State, t: Tid) returns (r: seq<State>)
    requires t in s.pc && t in s.held && s.pc[t] != Idle && Current(s, t)
    requires s.tokens != 0 || Entered(s.pc[t]) ==> s.top != NULL && s.top in s.next
    ensures Alone(r, t) && r[0] == s
    decreases LoopsLeft(s.pc[t])
  {
    hide OwnStep, Alone;
    if LoopsLeft(s.pc[t]) > 0 {
      var s' := Retry(s, t);
      r := CanEnd(s', t);
      AloneThen(s, t, r);
      r := [s] + r;
    } else {
      match s.pc[t] {
        case EnterTry => if s.tokens != 0 { r := AllocAlone(s, t); } else { r := TurnedAway(s, t); }
        case Waiting => r := TurnedAway(s, t);
        case PopTry => r := PopAlone(s, t);
        case PushTry(b) => r := FreeAlone(s, t, b);
        case LeaveTry => r := LeaveAlone(s, t);
      }
    }
  }

  /** In every state of every run whoever is in a call can end it without the others. */
  lemma EveryCallCanEnd(r: seq<State>, blocks: seq<Addr>, i: nat, t: Tid)
    requires Run(r, blocks) && i < |r| && t in r[i].pc && r[i].pc[t] != Idle
    ensures exists q :: Alone(q, t) && q[0] == r[i]
  {
    RunKeepsInv(r, blocks, i);
    var stack :| Inv(r[i], Elements(blocks), stack);
    TokenHasBlock(r[i], Elements(blocks), stack);
    assert Current(r[i], t) && r[i].tokens >= 0;
    hide Run, Inv, Alone, Current;
    var q := CanEnd(r[i], t);
  }

  // ----- the same code over compare-and-swap

  /** The final store of atomic_list_pop in the build whose exchange compares values (atomic.h:214-218). */
  ghost predicate CasPop(s: State, t: Tid, s': State) {
    && t in s.pc && t in s.held && s.pc[t].PopRead?
    && s.top == s.pc[t].ref
    && s' == Go(s, t, Idle).(top := s.pc[t].nx, held := s.held[t := s.held[t] + {s.pc[t].ref}])
  }

  /** There the pop keeps every block in one place exactly when the link it read earlier is still current. */
  lemma CasPopSafeIff(s: State, t: Tid, s': State, blocks: set<Addr>, stack: seq<Addr>)
    requires Placed(s, blocks, stack) && CasPop(s, t, s') && s.top != NULL
    ensures s.top in s.next
    ensures (exists stack' :: Placed(s', blocks, stack')) <==> s.pc[t].nx == s.next[s.top]
  {
    var ref := s.top;
    ChainIsDistinct(s.next, ref, stack);
    assert stack == [ref] + stack[1..] && ref in stack;
    assert forall u, b :: Has(s, u, b) ==> Has(s', u, b);
    assert forall u, b :: Has(s', u, b) ==> Has(s, u, b) || (u == t && b == ref);
    assert Has(s', t, ref);
    if s.pc[t].nx == s.next[ref] {
      assert Placed(s', blocks, stack[1..]);
    }
    if stack' :| Placed(s', blocks, stack') {
      forall b ensures b in stack[1..] <==> b in stack' {
        assert b in stack[1..] ==> b in blocks && !Has(s, t, b) && b != ref;
        assert b in stack' ==> b in blocks && b != ref;
        assert b in blocks && b !in stack ==> exists u :: Has(s', u, b);
      }
      SameNodesSameHead(s.next, s.next[ref], stack[1..], s'.top, stack');
    }
  }

  lemma SameNodesSameHead(next: Links, a: Addr, s: seq<Addr>, b: Addr, s': seq<Addr>)
    requires Chain(next, a, s) && Chain(next, b, s')
    requires forall x :: x in s <==> x in s'
    ensures a == b
  {
    ChainIsDistinct(next, a, s);
    ChainIsDistinct(next, b, s');
    DistinctIsShort(s, s');
    DistinctIsShort(s', s);
    if s != [] {
      assert s'[0] in s;
      var i :| 0 <= i < |s| && s[i] == s'[0];
      ChainSuffix(next, a, s, i);
      ChainIsUnique(next, b, s[i..], s');
    }
  }

  /** The steps of both calls in that build: an exchange succeeds whenever the cell holds the value loaded. */
  ghost predicate CasStep(s: State, t: Tid, s': State)
    requires t in s.pc && t in s.held
  {
    match s.pc[t]
    case Idle => s' == Go(s, t, EnterTry) || exists b :: FreeCall(s, t, b, s')
    case EnterTry => s' == Go(s, t, if s.tokens == 0 then Waiting else EnterLoaded(s.tokens))
    case EnterLoaded(c) =>
      s' == if s.tokens == c then Go(s, t, PopTry).(tokens := c - 1) else Go(s, t, EnterTry)
    case Waiting => (s.tokens > 0 && s' == Go(s, t, PopTry).(tokens := s.tokens - 1)) || s' == Go(s, t, Idle)
    case PopTry => s' == Go(s, t, PopLoaded(s.top))
    case PopLoaded(ref) =>
      if ref == NULL then s' == Go(s, t, NullAfterToken)
      else ref in s.next && s' == Go(s, t, PopRead(ref, s.next[ref]))
    case PopRead(ref, _) => if s.top == ref then CasPop(s, t, s') else s' == Go(s, t, PopTry)
    case NullAfterToken => false
    case PushTry(b) => s' == Go(s, t, PushLoaded(b, s.top))
    case PushLoaded(b, seen) => s' == Go(s, t, PushLinked(b, seen)).(next := s.next[b := seen])
    case PushLinked(b, seen) =>
      s' == if s.top == seen then Go(s, t, LeaveTry).(top := b) else Go(s, t, PushTry(b))
    case LeaveTry => s' == Go(s, t, LeaveLoaded(s.tokens))
    case LeaveLoaded(c) => s' == if s.tokens == c then Go(s, t, Idle).(tokens := c + 1) else Go(s, t, LeaveTry)
  }

  ghost predicate CasNext(s: State, s': State) {
    exists t :: t in s.pc && t in s.held && (
      || CasStep(s, t, s')
      || (exists b, v :: Scribble(s, t, b, v, s'))
      || (exists u, b :: HandOver(s, t, u, b, s')))
  }

  ghost predicate CasRun(r: seq<State>, blocks: seq<Addr>) {
    && r != []
    && Init(r[0], blocks)
    && forall i :: 0 <= i < |r| - 1 ==> CasNext(r[i], r[i + 1])
  }

  /** A pop whose exchange succeeds although the link it read is no longer that of the top. */
  ghost predicate StalePop(s: State, s': State) {
    exists t :: CasPop(s, t, s') && !(s.top in s.next && s.pc[t].nx == s.next[s.top])
  }

  /** A thread about to exchange has the link of its own block in place. */
  ghost predicate CasAt(s: State, t: Tid)
    requires t in s.pc
  {
    match s.pc[t]
    case PopRead(ref, _) => ref != NULL
    case PushLinked(b, seen) => b in s.next && s.next[b] == seen
    case _ => true
  }

  ghost predicate CasInv(s: State, blocks: set<Addr>, stack: seq<Addr>) {
    Placed(s, blocks, stack) && forall t :: t in s.pc ==> CasAt(s, t)
  }

  /** What the step of thread t writes: memory of its own, or the top of the stack. */
  lemma CasMoves(s: State, t: Tid, s': State)
    requires t in s.pc && t in s.held && CasStep(s, t, s') && CasAt(s, t)
    ensures t in s'.pc && s'.pc == s.pc[t := s'.pc[t]] && CasAt(s', t)
    ensures s'.next == if s.pc[t].PushLoaded? then s.next[s.pc[t].b := s.pc[t].seen] else s.next
    ensures s.pc[t].PopRead? && s'.pc[t] == Idle ==> CasPop(s, t, s')
    ensures s.pc[t].PushLinked? && s'.pc[t] == LeaveTry ==>
      s' == Go(s, t, LeaveTry).(top := s.pc[t].b) && s.top == s.pc[t].seen
    ensures s.pc[t] == Idle && s'.pc[t] != EnterTry ==> exists b :: FreeCall(s, t, b, s')
  {
    match s.pc[t] {
      case Idle => case EnterTry => case EnterLoaded(_) => case Waiting => case PopTry => case PopLoaded(_) =>
      case PopRead(_, _) => case PushTry(_) => case PushLoaded(_, _) => case PushLinked(_, _) =>
      case LeaveTry => case LeaveLoaded(_) =>
    }
  }

  lemma CasQuiet(s: State, t: Tid, s': State)
    requires t in s.pc && t in s.held && CasStep(s, t, s') && t in s'.pc
    requires s.pc[t] != Idle || s'.pc[t] == EnterTry
    requires !s.pc[t].PushLoaded? && !(s.pc[t].PopRead? && s'.pc[t] == Idle)
    requires !(s.pc[t].PushLinked? && s'.pc[t] == LeaveTry)
    ensures s'.top == s.top && s'.next == s.next && s'.held == s.held
    ensures forall b :: Carries(s.pc[t], b) <==> Carries(s'.pc[t], b)
  {
    match s.pc[t] {
      case Idle => case EnterTry => case EnterLoaded(_) => case Waiting => case PopTry => case PopLoaded(_) =>
      case PopRead(_, _) => case PushTry(_) => case PushLinked(_, _) => case LeaveTry => case LeaveLoaded(_) =>
    }
  }

  /** The others' blocks are not written. */
  lemma CasOthers(s: State, t: Tid, s': State, blocks: set<Addr>, stack: seq<Addr>)
    requires CasInv(s, blocks, stack) && t in s.pc && t in s'.pc && s'.pc == s.pc[t := s'.pc[t]] && CasAt(s', t)
    requires forall a :: a in s.next ==> a in s'.next
    requires forall a :: a in s.next && !Has(s, t, a) ==> s'.next[a] == s.next[a]
    ensures forall u :: u in s'.pc ==> CasAt(s', u)
  {
    forall u | u in s.pc && u != t ensures CasAt(s', u) {
      assert CasAt(s, u);
      if s.pc[u].PushLinked? { assert Has(s, u, s.pc[u].b) && !Has(s, t, s.pc[u].b); }
    }
  }

  /** A step that is no stale pop keeps every block in one place. */
  lemma CasStepKeepsPlaced(s: State, t: Tid, s': State, blocks: set<Addr>, stack: seq<Addr>) returns (stack': seq<Addr>)
    requires CasInv(s, blocks, stack) && t in s.pc && t in s.held && CasStep(s, t, s') && !StalePop(s, s')
    ensures Placed(s', blocks, stack')
  {
    assert CasAt(s, t);
    CasMoves(s, t, s');
    stack' := stack;
    if s.pc[t].PopRead? && s'.pc[t] == Idle {
      assert CasPop(s, t, s');
      CasPopSafeIff(s, t, s', blocks, stack);
      stack' :| Placed(s', blocks, stack');
    } else if s.pc[t].PushLinked? && s'.pc[t] == LeaveTry {
      CasPushKeepsPlaced(s, t, s', blocks, stack);
      stack' := [s.pc[t].b] + stack;
    } else if s.pc[t].PushLoaded? {
      CasLinkKeepsPlaced(s, t, s', blocks, stack);
    } else if s.pc[t] == Idle && s'.pc[t] != EnterTry {
      FreeCallKeepsPlaced(s, t, s', blocks, stack);
    } else {
      CasQuiet(s, t, s');
      QuietKeepsPlaced(s, t, s', blocks, stack);
    }
  }

  lemma CasPushKeepsPlaced(s: State, t: Tid, s': State, blocks: set<Addr>, stack: seq<Addr>)
    requires Placed(s, blocks, stack) && t in s.pc && t in s.held && s.pc[t].PushLinked? && CasAt(s, t)
    requires s.top == s.pc[t].seen && s' == Go(s, t, LeaveTry).(top := s.pc[t].b)
    ensures Placed(s', blocks, [s.pc[t].b] + stack)
  {
    var b := s.pc[t].b;
    assert Has(s, t, b);
    ChainPush(s.next, s.top, stack, b);
    assert forall u, a :: Has(s, u, a) ==> Has(s', u, a) || a == b;
    forall u, a | Has(s', u, a) ensures Has(s, u, a) && a != b {
      assert Has(s, u, a) && (a == b ==> u == t);
    }
  }

  lemma CasLinkKeepsPlaced(s: State, t: Tid, s': State, blocks: set<Addr>, stack: seq<Addr>)
    requires Placed(s, blocks, stack) && t in s.pc && t in s.held && s.pc[t].PushLoaded? && CasStep(s, t, s')
    ensures Placed(s', blocks, stack)
  {
    assert Has(s, t, s.pc[t].b);
    ChainFrame(s.next, s'.next, s.top, stack);
    assert forall u, b :: Has(s', u, b) <==> Has(s, u, b);
  }

  lemma ScribbleStaysAt(s: State, t: Tid, b: Addr, v: Addr, s': State, blocks: set<Addr>, stack: seq<Addr>)
    requires CasInv(s, blocks, stack) && t in s.pc && t in s.held && Scribble(s, t, b, v, s')
    ensures CasAt(s', t)
  {
    assert CasAt(s, t);
  }

  lemma CasNextKeepsInv(s: State, s': State, blocks: set<Addr>, stack: seq<Addr>) returns (stack': seq<Addr>)
    requires CasInv(s, blocks, stack) && CasNext(s, s') && !StalePop(s, s')
    ensures CasInv(s', blocks, stack')
  {
    hide StalePop, CasStep, Placed;
    var t :| t in s.pc && t in s.held && (
      || CasStep(s, t, s')
      || (exists b, v :: Scribble(s, t, b, v, s'))
      || (exists u, b :: HandOver(s, t, u, b, s')));
    assert CasAt(s, t);
    stack' := stack;
    if CasStep(s, t, s') {
      CasMoves(s, t, s');
      stack' := CasStepKeepsPlaced(s, t, s', blocks, stack);
      if s.pc[t].PushLoaded? { assert Has(s, t, s.pc[t].b); }
    } else if b, v :| Scribble(s, t, b, v, s') {
      assert Has(s, t, b);
      ScribbleKeepsPlaced(s, t, b, v, s', blocks, stack);
      ScribbleStaysAt(s, t, b, v, s', blocks, stack);
    } else {
      var u, b :| HandOver(s, t, u, b, s');
      HandOverKeepsPlaced(s, t, u, b, s', blocks, stack);
    }
    assert s'.pc == s.pc[t := s'.pc[t]];
    CasOthers(s, t, s', blocks, stack);
  }

  lemma {:induction false} CasRunKeepsInv(r: seq<State>, blocks: seq<Addr>, i: nat)
    requires CasRun(r, blocks) && i < |r| && forall j :: 0 <= j < i ==> !StalePop(r[j], r[j + 1])
    ensures exists stack :: CasInv(r[i], Elements(blocks), stack)
  {
    hide StalePop, CasNext;
    if i == 0 {
      InitHasInv(r[0], blocks);
      assert CasInv(r[0], Elements(blocks), blocks);
    } else {
      CasRunKeepsInv(r, blocks, i - 1);
      var stack :| CasInv(r[i - 1], Elements(blocks), stack);
      var j := i - 1;
      assert CasNext(r[j], r[j + 1]) && !StalePop(r[j], r[j + 1]);
      var stack' := CasNextKeepsInv(r[i - 1], r[i], Elements(blocks), stack);
    }
  }

  ghost predicate IsPlaced(s: State, blocks: seq<Addr>) { exists stack :: Placed(s, Elements(blocks), stack) }

  /** A run of that build keeps every block in one place throughout exactly when no pop exchanges over a stale link. */
  lemma CasRunSafeIff(r: seq<State>, blocks: seq<Addr>)
    requires CasRun(r, blocks)
    ensures (forall i :: 0 <= i < |r| ==> IsPlaced(r[i], blocks))
            <==> forall i :: 0 <= i < |r| - 1 ==> !StalePop(r[i], r[i + 1])
  {
    hide CasRun, StalePop, IsPlaced, Placed;
    if forall i :: 0 <= i < |r| - 1 ==> !StalePop(r[i], r[i + 1]) {
      forall i | 0 <= i < |r| ensures IsPlaced(r[i], blocks) {
        CasRunKeepsInv(r, blocks, i);
        CasInvIsPlaced(r[i], blocks);
      }
    } else {
      var i := FirstStale(r, |r| - 1);
      CasRunKeepsInv(r, blocks, i);
      var stack :| CasInv(r[i], Elements(blocks), stack);
      StaleUnplaces(r[i], r[i + 1], blocks, stack);
    }
  }

  lemma {:induction false} FirstStale(r: seq<State>, m: nat) returns (i: nat)
    requires m < |r| && exists j :: 0 <= j < m && StalePop(r[j], r[j + 1])
    ensures i < m && StalePop(r[i], r[i + 1]) && forall j :: 0 <= j < i ==> !StalePop(r[j], r[j + 1])
  {
    hide StalePop;
    if exists j :: 0 <= j < m - 1 && StalePop(r[j], r[j + 1]) { i := FirstStale(r, m - 1); } else { i := m - 1; }
  }

  lemma CasInvIsPlaced(s: State, blocks: seq<Addr>)
    requires exists stack :: CasInv(s, Elements(blocks), stack)
    ensures IsPlaced(s, blocks)
  {
    var stack :| CasInv(s, Elements(blocks), stack);
    hide Placed;
  }

  lemma StaleUnplaces(s: State, s': State, blocks: seq<Addr>, stack: seq<Addr>)
    requires CasInv(s, Elements(blocks), stack) && StalePop(s, s')
    ensures !IsPlaced(s', blocks)
  {
    var t :| CasPop(s, t, s') && !(s.top in s.next && s.pc[t].nx == s.next[s.top]);
    assert CasAt(s, t);
    CasPopSafeIff(s, t, s', Elements(blocks), stack);
    hide Placed, CasPop;
  }

  lemma OneMoreStep(r: seq<State>, blocks: seq<Addr>, t: Tid, s': State)
    requires CasRun(r, blocks) && var s := r[|r| - 1]; t in s.pc && t in s.held && CasStep(s, t, s')
    ensures CasRun(r + [s'], blocks)
  {
    assert CasNext(r[|r| - 1], s');
    hide CasNext;
  }

  lemma Then(r: seq<State>, blocks: seq<Addr>, t: Tid, s': State) returns (r': seq<State>)
    requires CasRun(r, blocks) && var s := r[|r| - 1]; t in s.pc && t in s.held && CasStep(s, t, s')
    ensures CasRun(r', blocks) && r'[|r'| - 1] == s'
  {
    hide CasRun, CasStep;
    r' := r + [s'];
    OneMoreStep(r, blocks, t, s');
  }

  ghost predicate CanPop(s: State, t: Tid) {
    t in s.pc && t in s.held && s.pc[t] == Idle && s.tokens > 0 && s.top != NULL && s.top in s.next
  }

  /** Thread `t`, undisturbed, enters the semaphore and reads the top link. */
  lemma PopUntilRead(r: seq<State>, blocks: seq<Addr>, t: Tid) returns (r': seq<State>)
    requires CasRun(r, blocks) && CanPop(r[|r| - 1], t)
    ensures CasRun(r', blocks)
    ensures var s := r[|r| - 1];
      r'[|r'| - 1] == Go(s, t, PopRead(s.top, s.next[s.top])).(tokens := s.tokens - 1)
  {
    hide CasRun;
    assert r != [] by { CasStarts(r, blocks); }
    var s := r[|r| - 1];
    r' := Then(r, blocks, t, Go(s, t, EnterTry));
    r' := Then(r', blocks, t, Go(s, t, EnterLoaded(s.tokens)));
    var s1 := s.(tokens := s.tokens - 1);
    r' := Then(r', blocks, t, Go(s1, t, PopTry));
    r' := Then(r', blocks, t, Go(s1, t, PopLoaded(s.top)));
    r' := Then(r', blocks, t, Go(s1, t, PopRead(s.top, s.next[s.top])));
  }

  lemma CasStarts(r: seq<State>, blocks: seq<Addr>)
    requires CasRun(r, blocks)
    ensures r != []
  {}

  lemma PopAll(r: seq<State>, blocks: seq<Addr>, t: Tid) returns (r': seq<State>)
    requires CasRun(r, blocks) && CanPop(r[|r| - 1], t)
    ensures CasRun(r', blocks)
    ensures var s := r[|r| - 1];
      r'[|r'| - 1] == s.(tokens := s.tokens - 1, top := s.next[s.top], held := s.held[t := s.held[t] + {s.top}])
  {
    var s := r[|r| - 1];
    r' := PopUntilRead(r, blocks, t);
    hide CasRun;
    var s' := s.(tokens := s.tokens - 1, top := s.next[s.top], held := s.held[t := s.held[t] + {s.top}]);
    assert Go(s', t, Idle) == s';
    r' := Then(r', blocks, t, s');
  }

  /** Thread `t`, undisturbed, pushes block `b`. */
  lemma PushAll(r: seq<State>, blocks: seq<Addr>, t: Tid, b: Addr) returns (r': seq<State>)
    requires CasRun(r, blocks)
    requires var s := r[|r| - 1]; t in s.pc && t in s.held && s.pc[t] == Idle && b in s.held[t]
    ensures CasRun(r', blocks)
    ensures var s := r[|r| - 1];
      r'[|r'| - 1] == Go(s, t, LeaveTry).(top := b, next := s.next[b := s.top],
                                          held := s.held[t := s.held[t] - {b}])
  {
    var s := r[|r| - 1];
    hide CasRun;
    var s1 := s.(held := s.held[t := s.held[t] - {b}]);
    assert FreeCall(s, t, b, Go(s1, t, PushTry(b)));
    r' := Then(r, blocks, t, Go(s1, t, PushTry(b)));
    r' := Then(r', blocks, t, Go(s1, t, PushLoaded(b, s.top)));
    var s2 := s1.(next := s.next[b := s.top]);
    r' := Then(r', blocks, t, Go(s2, t, PushLinked(b, s.top)));
    r' := Then(r', blocks, t, Go(s2, t, LeaveTry).(top := b));
  }

  lemma ThreeBlocks() returns (r: seq<State>)
    ensures CasRun(r, [1, 2, 3])
    ensures r[|r| - 1] == State(3, 1, map[1 := 2, 2 := 3, 3 := NULL], map[], map[0 := Idle, 1 := Idle],
                                map[0 := {}, 1 := {}])
  {
    var s := State(3, 1, map[1 := 2, 2 := 3, 3 := NULL], map[], map[0 := Idle, 1 := Idle], map[0 := {}, 1 := {}]);
    assert [1, 2, 3][1..] == [2, 3] && [2, 3][1..] == [3];
    assert Chain(s.next, 3, [3]) && Chain(s.next, 2, [2, 3]);
    r := [s];
  }

  /** Such a stale link is reachable, and then a block is in two places: thread 0 reads the link of block 1; thread 1
      pops blocks 1 and 2 and frees block 1; the exchange of thread 0 finds block 1 on top as it left it, and puts
      block 2 on the free stack although thread 1 owns it. */
  lemma StaleLinkIsReachable() returns (r: seq<State>)
    ensures CasRun(r, [1, 2, 3]) && |r| >= 2
    ensures var s, s' := r[|r| - 2], r[|r| - 1];
      StalePop(s, s') && Has(s', 1, 2) && Chain(s'.next, s'.top, [2, 3]) && !IsPlaced(s', [1, 2, 3])
  {
    r := ThreeBlocks();
    hide CasRun;
    r := PopUntilRead(r, [1, 2, 3], 0);
    r := PopAll(r, [1, 2, 3], 1);
    r := PopAll(r, [1, 2, 3], 1);
    r := PushAll(r, [1, 2, 3], 1, 1);
    r := LosesBlock(r);
  }

  ghost predicate AboutToLose(s: State) {
    && 0 in s.pc && 0 in s.held && 1 in s.pc && 1 in s.held && s.pc[0] == PopRead(1, 2) && s.pc[1] == LeaveTry
    && s.top == 1 && 2 in s.held[1]
    && s.next == map[1 := 3, 2 := 3, 3 := NULL]
  }

  lemma PopsStale(s: State) returns (s': State)
    requires AboutToLose(s)
    ensures 0 in s.pc && 0 in s.held && CasStep(s, 0, s') && StalePop(s, s')
    ensures s'.top == 2 && s'.next == s.next && 1 in s'.pc && 1 in s'.held && s'.held[1] == s.held[1]
  {
    s' := Go(s, 0, Idle).(top := 2, held := s.held[0 := s.held[0] + {1}]);
    assert CasPop(s, 0, s');
  }

  lemma LosesBlock(r: seq<State>) returns (r': seq<State>)
    requires CasRun(r, [1, 2, 3]) && AboutToLose(r[|r| - 1])
    ensures CasRun(r', [1, 2, 3]) && |r'| >= 2
    ensures var s, s' := r'[|r'| - 2], r'[|r'| - 1];
      StalePop(s, s') && Has(s', 1, 2) && Chain(s'.next, s'.top, [2, 3]) && !IsPlaced(s', [1, 2, 3])
  {
    var s := r[|r| - 1];
    var s' := PopsStale(s);
    hide CasRun, IsPlaced, CasStep, StalePop;
    r' := r + [s'];
    OneMoreStep(r, [1, 2, 3], 0, s');
    NowhereToPlace(s');
  }

  lemma NowhereToPlace(s: State)
    requires s.top == 2 && s.next == map[1 := 3, 2 := 3, 3 := NULL] && 1 in s.pc && 1 in s.held && 2 in s.held[1]
    ensures Has(s, 1, 2) && Chain(s.next, 2, [2, 3]) && !IsPlaced(s, [1, 2, 3])
  {
    assert [2, 3][1..] == [3] && Chain(s.next, 3, [3]);
    assert Has(s, 1, 2);
    if stack :| Placed(s, Elements([1, 2, 3]), stack) {
      ChainIsUnique(s.next, 2, stack, [2, 3]);
      assert false;
    }
  }

  // ----- osMemoryPoolNew

  lemma {:induction false} LinkedInOrderIsChain(next: Links, s: seq<Addr>)
    requires s != [] && (forall i :: 0 <= i < |s| ==> s[i] != NULL && s[i] in next)
    requires forall i :: 0 <= i < |s| - 1 ==> next[s[i]] == s[i + 1]
    requires next[s[|s| - 1]] == NULL
    ensures Chain(next, s[0], s)
    decreases s
  {
    if |s| > 1 {
      LinkedInOrderIsChain(next, s[1..]);
    }
  }

  /** The blocks from `base` to `elem`, `size` apart, each but the last linked to the one behind it. */
  ghost predicate Strung(next: Links, size: nat, base: Addr, elem: Addr, blocks: seq<Addr>) {
    && blocks != [] && blocks[0] == base && blocks[|blocks| - 1] == elem
    && (forall i :: 0 <= i < |blocks| ==> base <= blocks[i])
    && (forall i :: 0 <= i < |blocks| - 1 ==> blocks[i + 1] == blocks[i] + size && blocks[i] + size <= elem)
    && (size > 0 ==> forall i :: 0 <= i < |blocks| - 1 ==> blocks[i] in next && next[blocks[i]] == blocks[i + 1])
    && (size == 0 ==> elem == base)
  }

  lemma StringOneMore(next: Links, size: nat, base: Addr, elem: Addr, blocks: seq<Addr>)
    requires Strung(next, size, base, elem, blocks)
    ensures Strung(next[elem := elem + size], size, base, elem + size, blocks + [elem + size])
  {}

  ghost predicate IsReady(next: Links, top: Addr, tokens: int) {
    exists blocks :: Ready(next, top, tokens, blocks)
  }

  /** osMemoryPoolNew on a fresh area: links every block to the one behind it and counts them. The source decrements
      `block_count` before testing it, so it demands at least one block. It accepts blocks of no bytes, but then
      they are all the same one, and the tokens are too many for the chain unless one was asked for. */
  method New(blockCount: nat, blockSize: nat, base: Addr)
      returns (next: Links, top: Addr, tokens: int, ghost blocks: seq<Addr>)
    requires blockCount > 0 && base != NULL
    ensures top == base && tokens == |blocks| == blockCount
    ensures forall i :: 0 <= i < blockCount - 1 ==> blocks[i + 1] == blocks[i] + (blockSize + 3) / 4 * 4
    ensures blockSize > 0 ==> Ready(next, top, tokens, blocks)
    ensures IsReady(next, top, tokens) <==> blockSize > 0 || blockCount == 1
  {
    hide Strung, IsReady, Ready;
    var size: nat := (blockSize + 3) / 4 * 4;
    assert size > 0 <==> blockSize > 0;
    top := base;
    tokens := blockCount;
    next := map[];
    var elem: Addr := base;
    blocks := [base];
    StringOne(next, size, base);
    var left := blockCount - 1;
    while left != 0
      invariant |blocks| + left == blockCount && Strung(next, size, base, elem, blocks)
    {
      StringOneMore(next, size, base, elem, blocks);
      next := next[elem := elem + size];
      elem := elem + size;
      blocks := blocks + [elem];
      left := left - 1;
    }
    StringEnds(next, size, base, elem, blocks);
    next := next[elem := NULL];
  }

  lemma StringOne(next: Links, size: nat, base: Addr)
    ensures Strung(next, size, base, base, [base])
  {}

  lemma StringEnds(next: Links, size: nat, base: Addr, elem: Addr, blocks: seq<Addr>)
    requires Strung(next, size, base, elem, blocks) && base != NULL
    ensures forall i :: 0 <= i < |blocks| - 1 ==> blocks[i + 1] == blocks[i] + size
    ensures var next' := next[elem := NULL];
      && (size > 0 ==> Ready(next', base, |blocks|, blocks))
      && (IsReady(next', base, |blocks|) <==> size > 0 || |blocks| == 1)
  {
    var next' := next[elem := NULL];
    if size > 0 {
      LinkedInOrderIsChain(next', blocks);
      assert Ready(next', base, |blocks|, blocks);
    } else {
      OneBlock(next', base, |blocks|);
    }
  }

  lemma OneBlock(next: Links, base: Addr, count: nat)
    requires base != NULL && base in next && next[base] == NULL
    ensures IsReady(next, base, count) <==> count == 1
  {
    assert Chain(next, base, [base]);
    if b :| Ready(next, base, count, b) { ChainIsUnique(next, base, b, [base]); }
    if count == 1 { assert Ready(next, base, count, [base]); }
  }
}
