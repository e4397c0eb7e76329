/** message_queue.c: senders push nodes onto tail; the one receiver drains it into the sorted list head. */
module MessageQueue {
  import opened Chains
  import opened Counting
  import opened Exclusive
  import opened Priorities

  type Texts = map<Addr, Msg>

  function Nth(s: seq<Addr>, i: nat): Addr { if i < |s| then s[i] else NULL }

  ghost predicate Tells(msgs: Texts, s: seq<Addr>) { forall a :: a in s ==> a in msgs }

  ghost function Values(msgs: Texts, s: seq<Addr>): (q: seq<Msg>)
    requires Tells(msgs, s)
    ensures |q| == |s|
  {
    seq(|s|, i requires 0 <= i < |s| => msgs[s[i]])
  }

  ghost predicate Apart(s: seq<Addr>, t: seq<Addr>) { forall a :: a in s ==> a !in t }

  // ----- inserting one node into a chain

  /** Node m linked in before position i of the chain s. */
  function LinkIn(next: Links, s: seq<Addr>, i: nat, m: Addr): Links
    requires i <= |s|
  {
    var n := next[m := Nth(s, i)];
    if i == 0 then n else n[s[i - 1] := m]
  }

  lemma ChainAt(next: Links, top: Addr, s: seq<Addr>, i: nat)
    requires Chain(next, top, s) && i <= |s|
    ensures i == 0 ==> top == Nth(s, 0)
    ensures i < |s| ==> s[i] != NULL && s[i] in next && next[s[i]] == Nth(s, i + 1)
  {
    if i < |s| {
      ChainSuffix(next, top, s, i);
      assert s[i..][1..] == s[i + 1..];
    }
  }

  lemma {:induction false} ChainInsert(next: Links, top: Addr, s: seq<Addr>, i: nat, m: Addr)
    requires Chain(next, top, s) && i <= |s| && m !in s && m != NULL
    ensures Chain(LinkIn(next, s, i, m), if i == 0 then m else top, InsertAt(s, i, m))
    decreases s
  {
    var n, t := LinkIn(next, s, i, m), InsertAt(s, i, m);
    ChainHasNoNull(next, top, s);
    if i == 0 {
      ChainFrame(next, n, top, s);
      assert t == [m] + s;
      ChainPush(n, top, s, m);
    } else {
      var tail := s[1..];
      ChainIsDistinct(next, top, s);
      assert top !in tail;
      assert t[1..] == InsertAt(tail, i - 1, m);
      ChainInsert(next, next[top], tail, i - 1, m);
      var n' := LinkIn(next, tail, i - 1, m);
      if i == 1 {
        assert n == n'[top := m];
        ChainHasNoNull(n', m, t[1..]);
        assert top !in t[1..];
        ChainFrame(n', n, m, t[1..]);
      } else {
        assert n == n';
      }
    }
  }

  lemma ValuesInsert(msgs: Texts, s: seq<Addr>, i: nat, m: Addr)
    requires Tells(msgs, s) && m in msgs && i <= |s|
    ensures Tells(msgs, InsertAt(s, i, m))
    ensures Values(msgs, InsertAt(s, i, m)) == InsertAt(Values(msgs, s), i, msgs[m])
  {}

  lemma InsertAtKeeps(s: seq<Addr>, i: nat, m: Addr)
    requires i <= |s|
    ensures multiset(InsertAt(s, i, m)) == multiset(s) + multiset{m}
    ensures forall a :: a in InsertAt(s, i, m) <==> a == m || a in s
  {
    assert s == s[..i] + s[i..];
    forall a ensures a in InsertAt(s, i, m) <==> a == m || a in s {
      assert a in InsertAt(s, i, m) <==> a in multiset(InsertAt(s, i, m));
    }
  }

  /** One turn of the receiver's loop: the first node of the batch moves to its place in the held list. */
  lemma OneIn(next: Links, head: Addr, held: seq<Addr>, m: Addr, rest: seq<Addr>, msgs: Texts)
    requires Chain(next, head, held) && Chain(next, m, rest) && rest != []
    requires Apart(held, rest) && Tells(msgs, held) && Tells(msgs, rest)
    ensures var i := Spot(Values(msgs, held), msgs[m].prio);
      var next', held' := LinkIn(next, held, i, m), InsertAt(held, i, m);
      && Chain(next', if i == 0 then m else head, held')
      && Chain(next', next[m], rest[1..])
      && Tells(msgs, held') && Tells(msgs, rest[1..]) && Apart(held', rest[1..])
      && (forall a :: a in held' || a in rest[1..] <==> a in held || a in rest)
      && multiset(held') + multiset(rest[1..]) == multiset(held) + multiset(rest)
      && Values(msgs, held') == Insert(Values(msgs, held), msgs[m])
      && Values(msgs, rest) == [msgs[m]] + Values(msgs, rest[1..])
      && Merge(Values(msgs, held'), Values(msgs, rest[1..])) == Merge(Values(msgs, held), Values(msgs, rest))
  {
    var i := Spot(Values(msgs, held), msgs[m].prio);
    var next', tail := LinkIn(next, held, i, m), rest[1..];
    assert rest == [m] + tail;
    assert m !in held && m !in tail by { ChainIsDistinct(next, m, rest); }
    ChainInsert(next, head, held, i, m);
    ValuesInsert(msgs, held, i, m);
    InsertAtKeeps(held, i, m);
    var q := Values(msgs, rest);
    assert q[0] == msgs[m] && q[1..] == Values(msgs, tail);
    ChainHasNoNull(next, next[m], tail);
    forall a | a in tail ensures a !in held && a in next' && next'[a] == next[a] {
      assert a in rest;
    }
    ChainFrame(next, next', next[m], tail);
  }

  lemma MergeNothing(next: Links, rest: seq<Addr>, q: seq<Msg>, left: seq<Msg>)
    requires Chain(next, NULL, rest) && |left| == |rest|
    ensures rest == [] && Merge(q, left) == q
  {}

  // ----- the receiver's loop, as the code runs it

  class Receiving {
    var head: Addr
    var next: Links
    const msgs: Texts

    constructor (head: Addr, next: Links, msgs: Texts)
      ensures this.head == head && this.next == next && this.msgs == msgs
    {
      this.head, this.next, this.msgs := head, next, msgs;
    }

    /** Where a message of priority p goes: the last node of at least that priority and the one after it. */
    method Seek(p: nat, ghost held: seq<Addr>) returns (prev: Addr, list: Addr, ghost i: nat)
      requires Chain(next, head, held) && Tells(msgs, held)
      ensures i == Spot(Values(msgs, held), p) <= |held|
      ensures list == Nth(held, i) && prev == if i == 0 then NULL else held[i - 1]
      ensures prev == NULL <==> i == 0
    {
      prev, list, i := NULL, head, 0;
      ChainAt(next, head, held, 0);
      while list != NULL && msgs[list].prio >= p
        invariant i <= |held| && list == Nth(held, i) && prev == if i == 0 then NULL else held[i - 1]
        invariant prev == NULL <==> i == 0
        invariant Chain(next, head, held)
        invariant Spot(Values(msgs, held), p) == Spot(Values(msgs, held), p, i)
        decreases |held| - i
      {
        ChainAt(next, head, held, i);
        prev, list, i := list, next[list], i + 1;
      }
      if i < |held| { ChainAt(next, head, held, i); }
    }

    /** Moves every node of the drained batch into the held list. */
    method Drain(v: Addr, ghost held: seq<Addr>, ghost batch: seq<Addr>) returns (ghost merged: seq<Addr>)
      requires Chain(next, head, held) && Chain(next, v, batch) && Apart(held, batch)
      requires Tells(msgs, held) && Tells(msgs, batch)
      modifies this`head, this`next
      ensures Chain(next, head, merged) && Tells(msgs, merged)
      ensures Values(msgs, merged) == Merge(Values(msgs, held), Values(msgs, batch))
      ensures multiset(merged) == multiset(held) + multiset(batch)
      ensures forall a :: a in old(next) && a !in held && a !in batch ==> a in next && next[a] == old(next[a])
    {
      hide Merge, Spot, Chain;
      var msg := v;
      merged := held;
      ghost var rest := batch;
      while msg != NULL
        invariant Chain(next, head, merged) && Chain(next, msg, rest)
        invariant Tells(msgs, merged) && Tells(msgs, rest) && Apart(merged, rest)
        invariant Merge(Values(msgs, merged), Values(msgs, rest)) == Merge(Values(msgs, held), Values(msgs, batch))
        invariant forall a :: a in merged || a in rest <==> a in held || a in batch
        invariant multiset(merged) + multiset(rest) == multiset(held) + multiset(batch)
        invariant forall a :: a in old(next) && a !in merged && a !in rest ==> a in next && next[a] == old(next[a])
        decreases |rest|
      {
        ChainAt(next, msg, rest, 0);
        var msgNext := next[msg];
        ghost var next0, head0, merged0 := next, head, merged;
        ghost var n := msgs[msg];
        var prev, list;
        ghost var i;
        prev, list, i := Seek(msgs[msg].prio, merged);
        next := next[msg := list];
        if prev == NULL { head := msg; } else { next := next[prev := msg]; }
        assert next == LinkIn(next0, merged, i, msg);
        OneIn(next0, head0, merged, msg, rest, msgs);
        merged, rest, msg := InsertAt(merged, i, msg), rest[1..], msgNext;
      }
      MergeNothing(next, rest, Values(msgs, merged), Values(msgs, rest));
    }

    /** The whole of Get after the token: the message handed over comes first in the merged list. */
    method Get(v: Addr, ghost held: seq<Addr>, ghost batch: seq<Addr>) returns (msg: Addr, ghost left: seq<Addr>)
      requires Chain(next, head, held) && Chain(next, v, batch) && Apart(held, batch) && held + batch != []
      requires Tells(msgs, held) && Tells(msgs, batch)
      modifies this`head, this`next
      ensures Chain(next, head, left) && Tells(msgs, left) && msg in msgs
      ensures [msgs[msg]] + Values(msgs, left) == Merge(Values(msgs, held), Values(msgs, batch))
      ensures multiset{msg} + multiset(left) == multiset(held) + multiset(batch)
    {
      ghost var merged := Drain(v, held, batch);
      assert |multiset(merged)| == |held| + |batch|;
      msg := head;
      left := merged[1..];
      head := next[msg];
      assert merged == [msg] + left;
    }
  }

  // ----- senders and receiver interleaved

  datatype Cell = Tokens | Tail
  const RECEIVER: Tid := 0

  datatype Sender =
    | Out
    | PushTry(el: Addr)
    | PushLoaded(el: Addr, seen: Addr)
    | PushLinked(el: Addr, seen: Addr)
    | LeaveTry
    | LeaveLoaded(c: int)

  datatype Receiver =
    | Idle
    | EnterTry
    | EnterLoaded(c: int)
    | Waiting
    | DrainTry
    | DrainLoaded(v: Addr)
    | Sort(msg: Addr)

  /** `free` are the blocks of the pool that nobody has. The rest is a log: `pushed` and `got` are the messages sent
      and received; `drained` are the batches the receiver took, one after the other, each newest message first; and
      `undrained` is what was sent since, oldest first. */
  datatype State = State(
    tokens: int,
    tail: Addr,
    head: Addr,
    next: Links,
    msgs: Texts,
    monitor: Monitor<Cell>,
    senders: map<Tid, Sender>,
    receiver: Receiver,
    free: set<Addr>,
    pushed: multiset<Msg>,
    undrained: seq<Msg>,
    drained: seq<Msg>,
    got: seq<Msg>)

  function Go(s: State, t: Tid, p: Sender): State { s.(senders := s.senders[t := p]) }

  /** osMessageQueuePut got block el from the pool and copies its message into it. */
  ghost predicate PutCall(s: State, t: Tid, el: Addr, m: Msg, s': State) {
    el in s.free && s' == Go(s, t, PushTry(el)).(free := s.free - {el}, msgs := s.msgs[el := m])
  }

  ghost predicate PutStep(s: State, t: Tid, s': State)
    requires t in s.senders
  {
    match s.senders[t]
    case Out => exists el, m :: PutCall(s, t, el, m, s')
    case PushTry(el) => s' == Go(s, t, PushLoaded(el, s.tail)).(monitor := Ldrex(s.monitor, t, Tail))
    case PushLoaded(el, seen) => s' == Go(s, t, PushLinked(el, seen)).(next := s.next[el := seen])
    case PushLinked(el, seen) =>
      || (Holds(s.monitor, t, Tail) && el in s.msgs
          && s' == Go(s, t, LeaveTry).(tail := el, monitor := Stored(s.monitor, Tail),
                                       pushed := s.pushed + multiset{s.msgs[el]},
                                       undrained := s.undrained + [s.msgs[el]]))
      || s' == Go(s, t, PushTry(el)).(monitor := Clrex(s.monitor, t))
    case LeaveTry => s' == Go(s, t, LeaveLoaded(s.tokens)).(monitor := Ldrex(s.monitor, t, Tokens))
    case LeaveLoaded(c) =>
      || (Holds(s.monitor, t, Tokens) && s' == Go(s, t, Out).(tokens := c + 1, monitor := Stored(s.monitor, Tokens)))
      || s' == Go(s, t, LeaveTry).(monitor := Clrex(s.monitor, t))
  }

  /** One turn of the sorting loop: node m of the drained batch goes where Seek stops. */
  ghost predicate SortStep(s: State, held: seq<Addr>, s': State)
    requires s.receiver.Sort?
  {
    var m := s.receiver.msg;
    && m in s.next && m in s.msgs && Chain(s.next, s.head, held) && Tells(s.msgs, held)
    && var i := Spot(Values(s.msgs, held), s.msgs[m].prio);
    && s' == s.(next := LinkIn(s.next, held, i, m), head := if i == 0 then m else s.head, receiver := Sort(s.next[m]))
  }

  ghost predicate GetStep(s: State, s': State) {
    match s.receiver
    case Idle => s' == s.(receiver := EnterTry)
    case EnterTry =>
      if s.tokens == 0
      then s' == s.(receiver := Waiting, monitor := Clrex(s.monitor, RECEIVER))
      else s' == s.(receiver := EnterLoaded(s.tokens), monitor := Ldrex(s.monitor, RECEIVER, Tokens))
    case EnterLoaded(c) =>
      || (Holds(s.monitor, RECEIVER, Tokens)
          && s' == s.(tokens := c - 1, receiver := DrainTry, monitor := Stored(s.monitor, Tokens)))
      || s' == s.(receiver := EnterTry, monitor := Clrex(s.monitor, RECEIVER))
    case Waiting =>
      || (s.tokens > 0 && s' == s.(tokens := s.tokens - 1, receiver := DrainTry, monitor := Stored(s.monitor, Tokens)))
      || s' == s.(receiver := Idle)
    case DrainTry => s' == s.(receiver := DrainLoaded(s.tail), monitor := Ldrex(s.monitor, RECEIVER, Tail))
    case DrainLoaded(v) =>
      || (Holds(s.monitor, RECEIVER, Tail)
          && s' == s.(tail := NULL, receiver := Sort(v), monitor := Stored(s.monitor, Tail),
                      drained := s.drained + Reverse(s.undrained), undrained := []))
      || s' == s.(receiver := DrainTry, monitor := Clrex(s.monitor, RECEIVER))
    case Sort(m) =>
      if m != NULL then exists held :: SortStep(s, held, s')
      else
        && s.head in s.next && s.head in s.msgs
        && s' == s.(head := s.next[s.head], free := s.free + {s.head}, got := s.got + [s.msgs[s.head]],
                    receiver := Idle)
  }

  /** The pool writes the links of its free blocks. */
  ghost predicate Scribble(s: State, el: Addr, v: Addr, s': State) {
    el in s.free && s' == s.(next := s.next[el := v])
  }

  ghost predicate Next(s: State, s': State) {
    || (exists t :: t in s.senders && PutStep(s, t, s'))
    || GetStep(s, s')
    || (exists el, v :: Scribble(s, el, v, s'))
  }

  ghost predicate Init(s: State) {
    && s.tokens == 0 && s.head == NULL && s.tail == NULL && s.monitor == map[] && s.receiver == Idle
    && s.pushed == multiset{} && s.undrained == [] && s.drained == [] && s.got == []
    && NULL !in s.free && s.free <= s.next.Keys
    && RECEIVER !in s.senders
    && forall t :: t in s.senders ==> s.senders[t] == Out
  }

  ghost predicate Run(r: seq<State>) {
    && r != []
    && Init(r[0])
    && forall i :: 0 <= i < |r| - 1 ==> Next(r[i], r[i + 1])
  }

  // ----- the invariant

  /** The lists behind the pointers: `t` from tail, `b` what is left of the drained batch, `h` from head. */
  datatype Lists = Lists(t: seq<Addr>, b: seq<Addr>, h: seq<Addr>)
  {
    predicate Has(a: Addr) { a in t || a in b || a in h }
    function Size(): nat { |t| + |b| + |h| }
  }

  predicate Carries(s: State, t: Tid, el: Addr) {
    && t in s.senders
    && match s.senders[t] {
         case PushTry(a) => a == el
         case PushLoaded(a, _) => a == el
         case PushLinked(a, _) => a == el
         case _ => false
       }
  }

  predicate Unreleased(p: Sender) { p.LeaveTry? || p.LeaveLoaded? }

  /** The receiver has a token it has not used up. */
  predicate Took(p: Receiver) { p.DrainTry? || p.DrainLoaded? || p.Sort? }

  ghost predicate Linked(s: State, w: Lists) {
    && Chain(s.next, s.tail, w.t) && Chain(s.next, s.head, w.h)
    && (if s.receiver.Sort? then Chain(s.next, s.receiver.msg, w.b) else w.b == [])
    && Apart(w.t, w.b) && Apart(w.t, w.h) && Apart(w.h, w.b)
    && Tells(s.msgs, w.t) && Tells(s.msgs, w.b) && Tells(s.msgs, w.h)
    && Sorted(Values(s.msgs, w.h))
  }

  /** No block is in two places. */
  ghost predicate Placed(s: State, w: Lists) {
    && NULL !in s.free
    && (forall a :: a in s.free ==> a in s.next && !w.Has(a))
    && (forall t, a :: Carries(s, t, a) ==> a != NULL && a in s.next && a in s.msgs && a !in s.free && !w.Has(a))
    && (forall t, u, a :: Carries(s, t, a) && Carries(s, u, a) ==> t == u)
  }

  /** Block a is free, in a list, or in somebody's Put. */
  ghost predicate Somewhere(s: State, w: Lists, a: Addr) {
    a in s.free || w.Has(a) || exists t :: Carries(s, t, a)
  }

  ghost predicate SameBlocks(s: State, w: Lists, s': State, w': Lists) {
    forall a :: Somewhere(s', w', a) <==> Somewhere(s, w, a)
  }

  /** While its reservation survives, what a thread loaded is still what the cell holds. */
  ghost predicate SenderCurrent(s: State, t: Tid)
    requires t in s.senders
  {
    match s.senders[t]
    case PushLoaded(_, seen) => Holds(s.monitor, t, Tail) ==> seen == s.tail
    case PushLinked(el, seen) => el in s.next && s.next[el] == seen && (Holds(s.monitor, t, Tail) ==> seen == s.tail)
    case LeaveLoaded(c) => Holds(s.monitor, t, Tokens) ==> c == s.tokens
    case _ => true
  }

  ghost predicate ReceiverCurrent(s: State) {
    match s.receiver
    case EnterLoaded(c) => c > 0 && (Holds(s.monitor, RECEIVER, Tokens) ==> c == s.tokens)
    case DrainLoaded(v) => Holds(s.monitor, RECEIVER, Tail) ==> v == s.tail
    case _ => true
  }

  ghost predicate Current(s: State) {
    RECEIVER !in s.senders && ReceiverCurrent(s) && forall t :: t in s.senders ==> SenderCurrent(s, t)
  }

  /** Messages in the lists = tokens + the receiver's token + messages pushed but not announced. */
  ghost predicate Balanced(s: State, w: Lists) {
    && s.tokens >= 0
    && w.Size() == s.tokens + Bit(Took(s.receiver)) + Count(s.senders, Unreleased)
    && (s.receiver.Sort? ==> |w.b| + |w.h| > 0)
  }

  ghost function Texts3(msgs: Texts, w: Lists): multiset<Msg>
    requires Tells(msgs, w.t) && Tells(msgs, w.b) && Tells(msgs, w.h)
  {
    multiset(Values(msgs, w.t)) + multiset(Values(msgs, w.b)) + multiset(Values(msgs, w.h))
  }

  /** Every message sent was received or is in one of the lists. */
  ghost predicate Conserved(s: State, w: Lists)
    requires Linked(s, w)
  {
    s.pushed == multiset(s.got) + Texts3(s.msgs, w)
  }

  ghost predicate Inv(s: State, w: Lists) {
    Linked(s, w) && Placed(s, w) && Current(s) && Balanced(s, w) && Conserved(s, w)
  }

  // ----- every step keeps the invariant

  lemma ValuesFrame(msgs: Texts, msgs': Texts, s: seq<Addr>)
    requires Tells(msgs, s) && forall a :: a in s ==> a in msgs' && msgs'[a] == msgs[a]
    ensures Tells(msgs', s) && Values(msgs', s) == Values(msgs, s)
  {}

  /** The lists survive writes to blocks outside them. */
  lemma LinkedFrame(s: State, s': State, w: Lists)
    requires Linked(s, w) && s'.head == s.head && s'.tail == s.tail
    requires s'.receiver.Sort? == s.receiver.Sort? && (s.receiver.Sort? ==> s'.receiver == s.receiver)
    requires forall a :: w.Has(a) && a in s.next ==> a in s'.next && s'.next[a] == s.next[a]
    requires forall a :: w.Has(a) && a in s.msgs ==> a in s'.msgs && s'.msgs[a] == s.msgs[a]
    ensures Linked(s', w) && Texts3(s'.msgs, w) == Texts3(s.msgs, w)
  {
    assert forall a :: a in w.t || a in w.b || a in w.h ==> w.Has(a);
    ValuesFrame(s.msgs, s'.msgs, w.t);
    ValuesFrame(s.msgs, s'.msgs, w.b);
    ValuesFrame(s.msgs, s'.msgs, w.h);
    ChainHasNoNull(s.next, s.tail, w.t);
    ChainFrame(s.next, s'.next, s.tail, w.t);
    ChainHasNoNull(s.next, s.head, w.h);
    ChainFrame(s.next, s'.next, s.head, w.h);
    if s.receiver.Sort? {
      ChainHasNoNull(s.next, s.receiver.msg, w.b);
      ChainFrame(s.next, s'.next, s.receiver.msg, w.b);
    }
  }

  /** What a step of sender t writes: its own block, the tail or the tokens. */
  lemma PutMoves(s: State, t: Tid, s': State)
    requires t in s.senders && PutStep(s, t, s') && !s.senders[t].Out?
    ensures t in s'.senders && s'.senders == s.senders[t := s'.senders[t]]
    ensures s'.head == s.head && s'.receiver == s.receiver && s'.free == s.free && s'.msgs == s.msgs && s'.got == s.got
    ensures s'.drained == s.drained
    ensures s'.next == if s.senders[t].PushLoaded? then s.next[s.senders[t].el := s.senders[t].seen] else s.next
    ensures var pushed := s.senders[t].PushLinked? && s'.senders[t].LeaveTry?;
      && (!pushed ==> s'.tail == s.tail && s'.pushed == s.pushed && s'.undrained == s.undrained)
      && (pushed ==> Holds(s.monitor, t, Tail) && s.senders[t].el in s.msgs && s'.tail == s.senders[t].el
                     && s'.pushed == s.pushed + multiset{s.msgs[s.senders[t].el]}
                     && s'.undrained == s.undrained + [s.msgs[s.senders[t].el]])
  {
    match s.senders[t] {
      case PushTry(_) => case PushLoaded(_, _) => case PushLinked(_, _) => case LeaveTry => case LeaveLoaded(_) =>
    }
  }

  lemma PutAccounts(s: State, t: Tid, s': State)
    requires t in s.senders && PutStep(s, t, s') && !s.senders[t].Out? && SenderCurrent(s, t) && t in s'.senders
    requires s.tokens >= 0
    ensures s'.tokens >= 0
    ensures s'.tokens + Bit(Unreleased(s'.senders[t]))
         == s.tokens + Bit(Unreleased(s.senders[t])) + Bit(s.senders[t].PushLinked? && s'.senders[t].LeaveTry?)
  {
    match s.senders[t] {
      case PushTry(_) => case PushLoaded(_, _) => case PushLinked(_, _) => case LeaveTry => case LeaveLoaded(_) =>
    }
  }

  /** What a step of sender t stores takes away the reservations of all others on it. */
  lemma PutStores(s: State, t: Tid, s': State)
    requires t in s.senders && PutStep(s, t, s') && !s.senders[t].Out?
    ensures forall u, c :: u != t && Holds(s'.monitor, u, c) ==> Holds(s.monitor, u, c)
    ensures s'.tokens == s.tokens || forall u :: u != t ==> !Holds(s'.monitor, u, Tokens)
    ensures s'.tail == s.tail || forall u :: u != t ==> !Holds(s'.monitor, u, Tail)
  {
    match s.senders[t] {
      case PushTry(_) => case PushLoaded(_, _) => case PushLinked(_, _) => case LeaveTry => case LeaveLoaded(_) =>
    }
  }

  lemma OwnStepStays(s: State, t: Tid, s': State)
    requires t in s.senders && PutStep(s, t, s') && !s.senders[t].Out? && SenderCurrent(s, t)
    ensures t in s'.senders && SenderCurrent(s', t)
  {
    match s.senders[t] {
      case PushTry(_) => case PushLoaded(_, _) => case PushLinked(_, _) => case LeaveTry => case LeaveLoaded(_) =>
    }
  }

  lemma PutStaysCurrent(s: State, t: Tid, s': State)
    requires Current(s) && t in s.senders && PutStep(s, t, s') && !s.senders[t].Out?
    requires forall u, a :: Carries(s, t, a) && Carries(s, u, a) ==> t == u
    ensures Current(s')
  {
    assert SenderCurrent(s, t);
    OwnStepStays(s, t, s');
    PutStores(s, t, s');
    PutMoves(s, t, s');
    hide PutStep;
    forall u | u in s'.senders ensures SenderCurrent(s', u) {
      assert SenderCurrent(s, u);
      if u != t && s.senders[t].PushLoaded? && s.senders[u].PushLinked? {
        assert Carries(s, t, s.senders[t].el);
        assert !Carries(s, u, s.senders[t].el);
      }
    }
  }

  function Grown(s: State, t: Tid, s': State, w: Lists): Lists
    requires t in s.senders && t in s'.senders
  {
    if s.senders[t].PushLinked? && s'.senders[t].LeaveTry? then w.(t := [s.senders[t].el] + w.t) else w
  }

  lemma PushedIsLinked(s: State, s': State, w: Lists, el: Addr, seen: Addr)
    requires Linked(s, w) && el != NULL && el in s.next && s.next[el] == s.tail && el in s.msgs && !w.Has(el)
    requires s' == s.(tail := el, monitor := s'.monitor, senders := s'.senders, pushed := s'.pushed,
                      undrained := s'.undrained)
    ensures var w' := w.(t := [el] + w.t);
      Linked(s', w') && Texts3(s'.msgs, w') == Texts3(s.msgs, w) + multiset{s.msgs[el]}
  {
    var t := [el] + w.t;
    assert t[1..] == w.t;
    ChainPush(s.next, s.tail, w.t, el);
    assert Values(s.msgs, t) == [s.msgs[el]] + Values(s.msgs, w.t);
    hide Chain;
  }

  lemma PutStaysLinked(s: State, t: Tid, s': State, w: Lists)
    requires Linked(s, w) && Placed(s, w) && SenderCurrentAt(s, t) && PutStep(s, t, s') && !s.senders[t].Out?
    requires t in s'.senders
    ensures var w' := Grown(s, t, s', w);
      Linked(s', w') && Texts3(s'.msgs, w') == Texts3(s.msgs, w) + (s'.pushed - s.pushed)
  {
    PutMoves(s, t, s');
    if s.senders[t].PushLinked? && s'.senders[t].LeaveTry? {
      var el := s.senders[t].el;
      assert Carries(s, t, el);
      assert s' == s.(tail := el, monitor := s'.monitor, senders := s'.senders, pushed := s'.pushed,
                      undrained := s'.undrained);
      hide Linked, Texts3, PutStep;
      PushedIsLinked(s, s', w, el, s.senders[t].seen);
    } else {
      if s.senders[t].PushLoaded? { assert Carries(s, t, s.senders[t].el); }
      hide Linked, Texts3, PutStep;
      LinkedFrame(s, s', w);
    }
  }

  ghost predicate SenderCurrentAt(s: State, t: Tid) { t in s.senders && SenderCurrent(s, t) }

  lemma PutStaysPlaced(s: State, t: Tid, s': State, w: Lists)
    requires Placed(s, w) && t in s.senders && PutStep(s, t, s') && !s.senders[t].Out? && t in s'.senders
    ensures Placed(s', Grown(s, t, s', w))
  {
    PutMoves(s, t, s');
    forall u, a | Carries(s', u, a) ensures Carries(s, u, a) && !Grown(s, t, s', w).Has(a) {
      assert Carries(s, u, a) by {
        match s.senders[t] {
          case PushTry(_) => case PushLoaded(_, _) => case PushLinked(_, _) => case LeaveTry => case LeaveLoaded(_) =>
        }
      }
      if s.senders[t].PushLinked? && s'.senders[t].LeaveTry? {
        assert Carries(s, t, s.senders[t].el) && u != t;
      }
    }
    if s.senders[t].PushLinked? { assert Carries(s, t, s.senders[t].el); }
    if s.senders[t].PushLoaded? { assert Carries(s, t, s.senders[t].el); }
  }

  lemma PutStaysBalanced(s: State, t: Tid, s': State, w: Lists)
    requires Balanced(s, w) && t in s.senders && SenderCurrent(s, t) && PutStep(s, t, s') && !s.senders[t].Out?
    requires t in s'.senders
    ensures Balanced(s', Grown(s, t, s', w))
  {
    PutMoves(s, t, s');
    PutAccounts(s, t, s');
    CountUpdate(s.senders, t, s'.senders[t], Unreleased);
    hide PutStep;
  }

  lemma AddUp(pushed: multiset<Msg>, got: multiset<Msg>, held: multiset<Msg>,
              pushed': multiset<Msg>, held': multiset<Msg>)
    requires pushed == got + held && pushed <= pushed' && held' == held + (pushed' - pushed)
    ensures pushed' == got + held'
  {}

  lemma SenderIsCurrent(s: State, t: Tid)
    requires Current(s) && t in s.senders
    ensures SenderCurrent(s, t)
  {}

  lemma LinkedTells(s: State, w: Lists)
    requires Linked(s, w)
    ensures Tells(s.msgs, w.t) && Tells(s.msgs, w.b) && Tells(s.msgs, w.h)
  {}

  lemma CarriedByOne(s: State, w: Lists, t: Tid, u: Tid, a: Addr)
    requires Placed(s, w) && Carries(s, t, a) && Carries(s, u, a)
    ensures t == u
  {}

  lemma PutKeepsInv(s: State, t: Tid, s': State, w: Lists)
    requires Inv(s, w) && t in s.senders && PutStep(s, t, s') && !s.senders[t].Out?
    ensures t in s'.senders && Inv(s', Grown(s, t, s', w))
  {
    hide Linked, Placed, Current, Balanced, SenderCurrent, PutStep, Texts3, Grown;
    SenderIsCurrent(s, t);
    PutMoves(s, t, s');
    PutStaysLinked(s, t, s', w);
    PutStaysPlaced(s, t, s', w);
    forall u, a | Carries(s, t, a) && Carries(s, u, a) ensures t == u { CarriedByOne(s, w, t, u, a); }
    PutStaysCurrent(s, t, s');
    PutStaysBalanced(s, t, s', w);
    LinkedTells(s, w);
    LinkedTells(s', Grown(s, t, s', w));
    AddUp(s.pushed, multiset(s.got), Texts3(s.msgs, w), s'.pushed, Texts3(s'.msgs, Grown(s, t, s', w)));
  }

  lemma PutCallStaysPlaced(s: State, t: Tid, el: Addr, m: Msg, s': State, w: Lists)
    requires Placed(s, w) && t in s.senders && s.senders[t] == Out && PutCall(s, t, el, m, s')
    ensures Placed(s', w)
  {
    assert forall u, a :: Carries(s', u, a) ==> Carries(s, u, a) || (u == t && a == el);
  }

  lemma PutCallStaysCurrent(s: State, t: Tid, el: Addr, m: Msg, s': State)
    requires Current(s) && t in s.senders && s.senders[t] == Out && PutCall(s, t, el, m, s')
    ensures Current(s')
  {
    assert forall u :: u in s.senders ==> SenderCurrent(s, u);
  }

  lemma PutCallStaysLinked(s: State, t: Tid, el: Addr, m: Msg, s': State, w: Lists)
    requires Linked(s, w) && Placed(s, w) && t in s.senders && PutCall(s, t, el, m, s')
    ensures Linked(s', w) && Texts3(s'.msgs, w) == Texts3(s.msgs, w)
  {
    assert !w.Has(el);
    hide Linked, Placed, Texts3;
    LinkedFrame(s, s', w);
  }

  lemma PutCallStaysBalanced(s: State, t: Tid, el: Addr, m: Msg, s': State, w: Lists)
    requires Balanced(s, w) && t in s.senders && s.senders[t] == Out && PutCall(s, t, el, m, s')
    ensures Balanced(s', w)
  {
    CountUpdate(s.senders, t, s'.senders[t], Unreleased);
  }

  lemma PutCallKeepsInv(s: State, t: Tid, el: Addr, m: Msg, s': State, w: Lists)
    requires Inv(s, w) && t in s.senders && s.senders[t] == Out && PutCall(s, t, el, m, s')
    ensures Inv(s', w)
  {
    hide Linked, Placed, Current, Balanced, Texts3;
    PutCallStaysLinked(s, t, el, m, s', w);
    PutCallStaysPlaced(s, t, el, m, s', w);
    PutCallStaysCurrent(s, t, el, m, s');
    PutCallStaysBalanced(s, t, el, m, s', w);
  }

  // ----- the receiver

  ghost function After(s: State, s': State, w: Lists): Lists {
    match s.receiver
    case DrainLoaded(_) => if s'.receiver.Sort? then Lists([], w.t, w.h) else w
    case Sort(m) =>
      if m != NULL && w.b != [] && Tells(s.msgs, w.h) && m in s.msgs
      then Lists(w.t, w.b[1..], InsertAt(w.h, Spot(Values(s.msgs, w.h), s.msgs[m].prio), m))
      else if m == NULL && w.h != [] then Lists(w.t, [], w.h[1..])
      else w
    case _ => w
  }

  lemma TurnKeepsTexts(msgs: Texts, w: Lists, m: Addr)
    requires Tells(msgs, w.t) && Tells(msgs, w.b) && Tells(msgs, w.h) && w.b != [] && w.b[0] == m
    ensures var w' := Lists(w.t, w.b[1..], InsertAt(w.h, Spot(Values(msgs, w.h), msgs[m].prio), m));
      Tells(msgs, w'.b) && Tells(msgs, w'.h) && Texts3(msgs, w') == Texts3(msgs, w)
  {
    var i := Spot(Values(msgs, w.h), msgs[m].prio);
    ValuesInsert(msgs, w.h, i, m);
    InsertKeeps(Values(msgs, w.h), msgs[m]);
    assert Values(msgs, w.b) == [msgs[m]] + Values(msgs, w.b[1..]);
  }

  /** The list the step walks is the held list. */
  lemma SortMoves(s: State, s': State, w: Lists) returns (i: nat)
    requires Linked(s, w) && s.receiver.Sort? && s.receiver.msg != NULL && GetStep(s, s')
    ensures w.b != [] && w.b[0] == s.receiver.msg && s.receiver.msg in s.msgs && s.receiver.msg in s.next
    ensures i == Spot(Values(s.msgs, w.h), s.msgs[s.receiver.msg].prio)
    ensures s' == s.(next := LinkIn(s.next, w.h, i, s.receiver.msg),
                     head := if i == 0 then s.receiver.msg else s.head,
                     receiver := Sort(s.next[s.receiver.msg]))
    ensures After(s, s', w) == Lists(w.t, w.b[1..], InsertAt(w.h, i, s.receiver.msg))
  {
    var m := s.receiver.msg;
    var held :| SortStep(s, held, s');
    ChainIsUnique(s.next, s.head, held, w.h);
    i := Spot(Values(s.msgs, w.h), s.msgs[m].prio);
  }

  /** The receiver's writes go to the held list and the batch, never to what the senders pushed since. */
  lemma TailUntouched(next: Links, tail: Addr, w: Lists, i: nat, m: Addr)
    requires Chain(next, tail, w.t) && Apart(w.t, w.b) && Apart(w.t, w.h) && m in w.b && i <= |w.h|
    ensures Chain(LinkIn(next, w.h, i, m), tail, w.t)
  {
    ChainHasNoNull(next, tail, w.t);
    ChainFrame(next, LinkIn(next, w.h, i, m), tail, w.t);
  }

  lemma SortStaysLinked(s: State, s': State, w: Lists)
    requires Linked(s, w) && s.receiver.Sort? && s.receiver.msg != NULL && GetStep(s, s')
    ensures var w' := After(s, s', w); Linked(s', w') && Texts3(s'.msgs, w') == Texts3(s.msgs, w)
    ensures forall a :: After(s, s', w).Has(a) <==> w.Has(a)
    ensures After(s, s', w).Size() == w.Size()
  {
    var m := s.receiver.msg;
    var i := SortMoves(s, s', w);
    hide GetStep, After, Merge, Texts3, Chain, LinkIn;
    assert forall a :: a in w.b[1..] ==> a in w.b;
    OneIn(s.next, s.head, w.h, m, w.b, s.msgs);
    TurnKeepsTexts(s.msgs, w, m);
    InsertSorted(Values(s.msgs, w.h), s.msgs[m]);
    TailUntouched(s.next, s.tail, w, i, m);
  }

  lemma ReturnStaysLinked(s: State, s': State, w: Lists)
    requires Linked(s, w) && s.receiver == Sort(NULL) && w.h != [] && GetStep(s, s')
    ensures var w' := After(s, s', w);
      && Linked(s', w') && multiset{s.msgs[w.h[0]]} + Texts3(s'.msgs, w') == Texts3(s.msgs, w)
      && w.b == [] && w.h[0] == s.head && s.head !in w'.h
  {
    assert w.b == [] && w.h == [s.head] + w.h[1..];
    assert Values(s.msgs, w.h) == [s.msgs[s.head]] + Values(s.msgs, w.h[1..]);
    assert Values(s.msgs, w.h)[1..] == Values(s.msgs, w.h[1..]);
    ChainIsDistinct(s.next, s.head, w.h);
  }

  lemma ReceiverStaysCurrent(s: State, s': State)
    requires ReceiverCurrent(s) && GetStep(s, s') && s.tokens >= 0
    ensures ReceiverCurrent(s') && s'.senders == s.senders
  {
    match s.receiver {
      case Idle => case EnterTry => case EnterLoaded(_) => case Waiting =>
      case DrainTry => case DrainLoaded(_) => case Sort(_) =>
    }
  }

  /** What a receiver step stores takes away the reservations on it. */
  lemma GetStores(s: State, s': State)
    requires ReceiverCurrent(s) && GetStep(s, s')
    ensures forall t, c :: t != RECEIVER && Holds(s'.monitor, t, c) ==> Holds(s.monitor, t, c)
    ensures s'.tokens == s.tokens || forall t :: t != RECEIVER ==> !Holds(s'.monitor, t, Tokens)
    ensures s'.tail == s.tail || forall t :: t != RECEIVER ==> !Holds(s'.monitor, t, Tail)
    ensures !s.receiver.Sort? || s.receiver.msg == NULL ==> s'.next == s.next
  {
    match s.receiver {
      case Idle => case EnterTry => case EnterLoaded(_) => case Waiting =>
      case DrainTry => case DrainLoaded(_) => case Sort(_) =>
    }
  }

  lemma GetStaysCurrent(s: State, s': State)
    requires Current(s) && GetStep(s, s')
    requires forall t, a :: s.receiver.Sort? && s.receiver.msg != NULL && Carries(s, t, a) ==>
               a in s.next && a in s'.next && s'.next[a] == s.next[a]
    requires s.tokens >= 0
    ensures Current(s')
  {
    ReceiverStaysCurrent(s, s');
    GetStores(s, s');
    hide GetStep, ReceiverCurrent;
    forall t | t in s'.senders ensures SenderCurrent(s', t) {
      assert SenderCurrent(s, t);
      if s.senders[t].PushLinked? { assert Carries(s, t, s.senders[t].el); }
    }
  }

  /** The steps of Get before the batch is drained touch neither the lists nor the blocks. */
  lemma QuietGetMoves(s: State, s': State)
    requires ReceiverCurrent(s) && GetStep(s, s') && !s.receiver.Sort? && !s'.receiver.Sort? && s.tokens >= 0
    ensures s' == s.(tokens := s'.tokens, monitor := s'.monitor, receiver := s'.receiver)
    ensures s'.tokens >= 0 && s'.tokens + Bit(Took(s'.receiver)) == s.tokens + Bit(Took(s.receiver))
  {
    match s.receiver {
      case Idle => case EnterTry => case EnterLoaded(_) => case Waiting => case DrainTry => case DrainLoaded(_) =>
    }
  }

  lemma ReceiverIsCurrent(s: State)
    requires Current(s)
    ensures ReceiverCurrent(s)
  {}

  lemma QuietGetKeepsInv(s: State, s': State, w: Lists)
    requires Inv(s, w) && GetStep(s, s') && !s.receiver.Sort? && !s'.receiver.Sort?
    ensures Inv(s', w)
  {
    hide GetStep, Linked, Placed, Current, ReceiverCurrent, Texts3;
    ReceiverIsCurrent(s);
    QuietGetMoves(s, s');
    GetStaysCurrent(s, s');
    GetStaysPlaced(s, s', w, w, {});
    LinkedFrame(s, s', w);
  }

  lemma DrainStaysLinked(s: State, s': State, w: Lists)
    requires Linked(s, w) && ReceiverCurrent(s) && GetStep(s, s') && s.receiver.DrainLoaded? && s'.receiver.Sort?
    ensures var w' := After(s, s', w); Linked(s', w') && Texts3(s'.msgs, w') == Texts3(s.msgs, w)
  {
    assert Values(s.msgs, []) == [];
  }

  /** The receiver moves blocks between its lists, or gives the one it took off them back to the pool. */
  lemma GetStaysPlaced(s: State, s': State, w: Lists, w': Lists, out: set<Addr>)
    requires Placed(s, w) && s'.senders == s.senders && s'.msgs == s.msgs && s.next.Keys <= s'.next.Keys
    requires s'.free == s.free + out
    requires forall a :: w'.Has(a) ==> w.Has(a) && a !in out
    requires forall a :: a in out ==> w.Has(a) && a != NULL && a in s.next
    ensures Placed(s', w')
  {
    assert forall t, a :: Carries(s', t, a) <==> Carries(s, t, a);
  }

  lemma DrainStaysBalanced(s: State, s': State, w: Lists)
    requires Balanced(s, w) && w.b == [] && GetStep(s, s') && s.receiver.DrainLoaded? && s'.receiver.Sort?
    ensures Balanced(s', After(s, s', w))
  {}

  lemma DrainKeepsInv(s: State, s': State, w: Lists)
    requires Inv(s, w) && GetStep(s, s') && s.receiver.DrainLoaded? && s'.receiver.Sort?
    ensures Inv(s', After(s, s', w))
  {
    DrainStaysLinked(s, s', w);
    GetStaysCurrent(s, s');
    assert w.b == [];
    GetStaysPlaced(s, s', w, After(s, s', w), {});
    DrainStaysBalanced(s, s', w);
    hide Linked, Current, Placed, Balanced, Texts3;
  }

  lemma SortStaysCurrent(s: State, s': State, w: Lists)
    requires Linked(s, w) && Placed(s, w) && Current(s) && s.tokens >= 0
    requires GetStep(s, s') && s.receiver.Sort? && s.receiver.msg != NULL
    ensures Current(s')
  {
    var i := SortMoves(s, s', w);
    assert w.Has(s.receiver.msg);
    assert forall a :: a in w.h ==> w.Has(a);
    GetStaysCurrent(s, s');
  }

  lemma SortStaysBalanced(s: State, s': State, w: Lists)
    requires Linked(s, w) && Balanced(s, w) && GetStep(s, s') && s.receiver.Sort? && s.receiver.msg != NULL
    ensures Balanced(s', After(s, s', w))
  {
    var i := SortMoves(s, s', w);
    hide GetStep, After, Linked, LinkIn;
  }

  lemma SortKeepsInv(s: State, s': State, w: Lists)
    requires Inv(s, w) && GetStep(s, s') && s.receiver.Sort? && s.receiver.msg != NULL
    ensures Inv(s', After(s, s', w))
  {
    SortStaysLinked(s, s', w);
    SortStaysCurrent(s, s', w);
    var i := SortMoves(s, s', w);
    SortStaysBalanced(s, s', w);
    hide GetStep, After, Linked, Current, Placed, Balanced, Texts3, LinkIn, InsertAt;
    GetStaysPlaced(s, s', w, After(s, s', w), {});
  }

  lemma ReturnStaysBalanced(s: State, s': State, w: Lists)
    requires Balanced(s, w) && w.b == [] && GetStep(s, s') && s.receiver == Sort(NULL)
    ensures w.h != [] && Balanced(s', After(s, s', w))
  {}

  lemma ReturnStaysCurrent(s: State, s': State)
    requires Current(s) && s.tokens >= 0 && GetStep(s, s') && s.receiver == Sort(NULL)
    ensures Current(s')
  {
    GetStaysCurrent(s, s');
  }

  lemma NothingLeft(s: State, w: Lists)
    requires Inv(s, w) && s.receiver == Sort(NULL)
    ensures w.b == [] && s.tokens >= 0
  {}

  lemma ReturnStaysPlaced(s: State, s': State, w: Lists)
    requires Inv(s, w) && GetStep(s, s') && s.receiver == Sort(NULL) && w.b == [] && w.h != []
    ensures Placed(s', After(s, s', w))
  {
    assert w.h == [s.head] + w.h[1..];
    ChainHasNoNull(s.next, s.head, w.h);
    ChainIsDistinct(s.next, s.head, w.h);
    assert Apart(w.t, w.h);
    hide Linked, Current, Placed, Balanced;
    GetStaysPlaced(s, s', w, After(s, s', w), {s.head});
  }

  lemma ReturnKeepsInv(s: State, s': State, w: Lists)
    requires Inv(s, w) && GetStep(s, s') && s.receiver == Sort(NULL)
    ensures Inv(s', After(s, s', w))
  {
    hide Linked, Current, Placed, Balanced;
    NothingLeft(s, w);
    ReturnStaysCurrent(s, s');
    ReturnStaysBalanced(s, s', w);
    ReturnStaysLinked(s, s', w);
    ReturnStaysPlaced(s, s', w);
  }

  lemma ScribbleKeepsInv(s: State, el: Addr, v: Addr, s': State, w: Lists)
    requires Inv(s, w) && Scribble(s, el, v, s')
    ensures Inv(s', w)
  {
    LinkedFrame(s, s', w);
    assert forall t, a :: Carries(s', t, a) <==> Carries(s, t, a);
    forall t | t in s.senders ensures SenderCurrent(s', t) {
      assert SenderCurrent(s, t);
      if s.senders[t].PushLinked? { assert Carries(s, t, s.senders[t].el); }
    }
  }

  lemma OnlyDrainSorts(s: State, s': State)
    requires GetStep(s, s') && !s.receiver.Sort? && s'.receiver.Sort?
    ensures s.receiver.DrainLoaded?
  {}

  // ----- every step keeps the order within a priority

  /** What was sent was drained or was sent since the last drain, and that is what is in the list of the senders,
      newest first; and of every priority the messages received, held and still to be inserted, in this order, are
      the messages drained, in theirs. */
  ghost predicate Ordered(s: State, w: Lists)
    requires Linked(s, w)
  {
    && s.pushed == multiset(s.drained) + multiset(s.undrained)
    && Values(s.msgs, w.t) == Reverse(s.undrained)
    && forall p :: InOrder(s, w, p)
  }

  ghost predicate InOrder(s: State, w: Lists, p: nat)
    requires Linked(s, w)
  {
    (Only(s.got, p) + Only(Values(s.msgs, w.h), p)) + Only(Values(s.msgs, w.b), p) == Only(s.drained, p)
  }

  lemma SameStaysOrdered(s: State, s': State, w: Lists)
    requires Linked(s, w) && Linked(s', w) && Ordered(s, w)
    requires s'.got == s.got && s'.drained == s.drained && s'.undrained == s.undrained && s'.pushed == s.pushed
    requires forall a :: w.Has(a) && a in s.msgs ==> a in s'.msgs && s'.msgs[a] == s.msgs[a]
    ensures Ordered(s', w)
  {
    assert forall a :: a in w.t || a in w.b || a in w.h ==> w.Has(a);
    ValuesFrame(s.msgs, s'.msgs, w.t);
    ValuesFrame(s.msgs, s'.msgs, w.b);
    ValuesFrame(s.msgs, s'.msgs, w.h);
    hide Values, Linked;
    forall p ensures InOrder(s', w, p) { assert InOrder(s, w, p); }
  }

  lemma PushStaysOrdered(s: State, s': State, w: Lists, el: Addr)
    requires var w' := w.(t := [el] + w.t); Linked(s, w) && Linked(s', w') && Ordered(s, w)
    requires el in s.msgs && s'.undrained == s.undrained + [s.msgs[el]]
    requires s'.got == s.got && s'.drained == s.drained && s'.msgs == s.msgs
    requires s'.pushed == s.pushed + multiset{s.msgs[el]}
    ensures Ordered(s', w.(t := [el] + w.t))
  {
    var w' := w.(t := [el] + w.t);
    assert Values(s.msgs, w'.t) == [s.msgs[el]] + Values(s.msgs, w.t);
    ReverseAppend(s.undrained, [s.msgs[el]]);
    assert Reverse([s.msgs[el]]) == [s.msgs[el]];
    hide Values, Linked, Reverse;
    OneMoreSent(s.drained, s.undrained, s.msgs[el]);
    forall p ensures InOrder(s', w', p) { assert InOrder(s, w, p); }
  }

  lemma OneMoreSent(drained: seq<Msg>, undrained: seq<Msg>, m: Msg)
    ensures multiset(drained) + multiset(undrained + [m]) == multiset(drained) + multiset(undrained) + multiset{m}
  {}

  lemma DrainStaysOrdered(s: State, s': State, w: Lists)
    requires var w' := Lists([], w.t, w.h); Linked(s, w) && Linked(s', w') && Ordered(s, w) && w.b == []
    requires s'.undrained == [] && s'.drained == s.drained + Reverse(s.undrained)
    requires s'.got == s.got && s'.msgs == s.msgs && s'.pushed == s.pushed
    ensures Ordered(s', Lists([], w.t, w.h))
  {
    var w' := Lists([], w.t, w.h);
    assert Values(s.msgs, []) == [];
    hide Values, Linked, Reverse, Only;
    AllDrained(s.drained, s.undrained);
    forall p ensures InOrder(s', w', p) {
      assert InOrder(s, w, p);
      BatchDrained(Only(s.got, p), Only(Values(s.msgs, w.h), p), s.drained, Reverse(s.undrained), p);
    }
    ReverseOfNothing();
  }

  lemma AllDrained(drained: seq<Msg>, undrained: seq<Msg>)
    ensures multiset(drained + Reverse(undrained)) + multiset([]) == multiset(drained) + multiset(undrained)
  {
    ReverseKeeps(undrained);
  }

  lemma BatchDrained(got: seq<Msg>, held: seq<Msg>, drained: seq<Msg>, batch: seq<Msg>, p: nat)
    requires got + held + Only([], p) == Only(drained, p)
    ensures got + held + Only(batch, p) == Only(drained + batch, p)
  {
    OnlyConcat(drained, batch, p);
    assert Only([], p) == [] && got + held + [] == got + held;
  }

  lemma {:induction false} ReverseKeeps(q: seq<Msg>)
    ensures multiset(Reverse(q)) == multiset(q)
  {
    if q != [] {
      ReverseKeeps(q[1..]);
      assert q == [q[0]] + q[1..];
    }
  }

  lemma ReverseOfNothing() ensures Reverse<Msg>([]) == [] {}

  lemma TurnStaysOrdered(s: State, s': State, w: Lists, m: Addr, i: nat)
    requires Linked(s, w) && Ordered(s, w) && w.b != [] && w.b[0] == m && m in s.msgs
    requires i == Spot(Values(s.msgs, w.h), s.msgs[m].prio)
    requires var w' := Lists(w.t, w.b[1..], InsertAt(w.h, i, m)); Linked(s', w')
    requires s'.got == s.got && s'.drained == s.drained && s'.undrained == s.undrained && s'.msgs == s.msgs
    requires s'.pushed == s.pushed
    ensures Ordered(s', Lists(w.t, w.b[1..], InsertAt(w.h, i, m)))
  {
    var w' := Lists(w.t, w.b[1..], InsertAt(w.h, i, m));
    ValuesInsert(s.msgs, w.h, i, m);
    assert Values(s.msgs, w.b) == [s.msgs[m]] + Values(s.msgs, w.b[1..]);
    assert Sorted(Values(s.msgs, w.h));
    hide Values, Linked, InsertAt, Sorted;
    forall p ensures InOrder(s', w', p) {
      assert InOrder(s, w, p);
      TurnInOrder(s.got, Values(s.msgs, w.h), s.msgs[m], Values(s.msgs, w.b[1..]), p);
    }
  }

  lemma TurnInOrder(got: seq<Msg>, held: seq<Msg>, m: Msg, rest: seq<Msg>, p: nat)
    requires Sorted(held)
    ensures (Only(got, p) + Only(Insert(held, m), p)) + Only(rest, p)
         == (Only(got, p) + Only(held, p)) + Only([m] + rest, p)
  {
    InsertGoesLast(held, m, p);
    OnlyConcat([m], rest, p);
    OnlyOne(m, p);
    hide Only, Sorted, Insert;
    var g, h, o, q := Only(got, p), Only(held, p), Only([m], p), Only(rest, p);
    Associative(g, h, o);
    Associative(g + h, o, q);
  }

  lemma ReturnStaysOrdered(s: State, s': State, w: Lists)
    requires Linked(s, w) && Ordered(s, w) && w.b == [] && w.h != []
    requires Linked(s', Lists(w.t, [], w.h[1..]))
    requires s'.got == s.got + [s.msgs[w.h[0]]]
    requires s'.drained == s.drained && s'.undrained == s.undrained && s'.msgs == s.msgs && s'.pushed == s.pushed
    ensures Ordered(s', Lists(w.t, [], w.h[1..]))
  {
    var w', m := Lists(w.t, [], w.h[1..]), s.msgs[w.h[0]];
    assert Values(s.msgs, w.h) == [m] + Values(s.msgs, w.h[1..]);
    hide Values, Linked;
    forall p ensures InOrder(s', w', p) {
      assert InOrder(s, w, p);
      ReturnInOrder(s.got, m, Values(s.msgs, w.h[1..]), p);
    }
  }

  lemma ReturnInOrder(got: seq<Msg>, m: Msg, held: seq<Msg>, p: nat)
    ensures Only(got + [m], p) + Only(held, p) == Only(got, p) + Only([m] + held, p)
  {
    OnlyConcat(got, [m], p);
    OnlyConcat([m], held, p);
    hide Only;
  }

  /** What a step of the receiver writes into the log. */
  lemma GetLogs(s: State, s': State)
    requires GetStep(s, s')
    ensures s'.msgs == s.msgs && s'.pushed == s.pushed
    ensures s'.got == if s.receiver == Sort(NULL) && s.head in s.msgs then s.got + [s.msgs[s.head]] else s.got
    ensures s.receiver == Sort(NULL) ==> s.head in s.msgs
    ensures var drains := s.receiver.DrainLoaded? && s'.receiver.Sort?;
      && s'.drained == (if drains then s.drained + Reverse(s.undrained) else s.drained)
      && s'.undrained == (if drains then [] else s.undrained)
  {
    match s.receiver {
      case Idle => case EnterTry => case EnterLoaded(_) => case Waiting =>
      case DrainTry => case DrainLoaded(_) => case Sort(_) =>
    }
  }

  lemma PutKeepsOrder(s: State, t: Tid, s': State, w: Lists)
    requires Inv(s, w) && Ordered(s, w) && t in s.senders && PutStep(s, t, s') && !s.senders[t].Out?
    requires t in s'.senders && Linked(s', Grown(s, t, s', w))
    ensures Ordered(s', Grown(s, t, s', w))
  {
    PutMoves(s, t, s');
    hide Inv, Linked, Ordered, PutStep;
    if s.senders[t].PushLinked? && s'.senders[t].LeaveTry? {
      PushStaysOrdered(s, s', w, s.senders[t].el);
    } else {
      SameStaysOrdered(s, s', w);
    }
  }

  lemma GetKeepsOrder(s: State, s': State, w: Lists)
    requires Inv(s, w) && Ordered(s, w) && GetStep(s, s') && Linked(s', After(s, s', w))
    ensures Ordered(s', After(s, s', w))
  {
    GetLogs(s, s');
    if s.receiver.Sort? && s.receiver.msg != NULL {
      var i := SortMoves(s, s', w);
      hide GetStep, After, Inv, Linked, Ordered, LinkIn, InsertAt;
      TurnStaysOrdered(s, s', w, s.receiver.msg, i);
    } else if s.receiver.Sort? {
      assert w.b == [] && w.h != [] && w.h[0] == s.head;
      hide GetStep, Inv, Linked, Ordered;
      ReturnStaysOrdered(s, s', w);
    } else if s'.receiver.Sort? {
      OnlyDrainSorts(s, s');
      assert w.b == [];
      hide GetStep, Inv, Linked, Ordered;
      DrainStaysOrdered(s, s', w);
    } else {
      hide GetStep, Inv, Linked, Ordered;
      SameStaysOrdered(s, s', w);
    }
  }

  lemma PutCallKeepsOrder(s: State, t: Tid, el: Addr, m: Msg, s': State, w: Lists)
    requires Inv(s, w) && Ordered(s, w) && t in s.senders && PutCall(s, t, el, m, s') && Linked(s', w)
    ensures Ordered(s', w)
  {
    assert !w.Has(el);
    hide Inv, Linked, Ordered;
    SameStaysOrdered(s, s', w);
  }

  // ----- every step keeps all the blocks

  lemma PutCallLosesNoBlock(s: State, t: Tid, el: Addr, m: Msg, s': State, w: Lists)
    requires t in s.senders && s.senders[t] == Out && PutCall(s, t, el, m, s')
    ensures SameBlocks(s, w, s', w)
  {
    assert Carries(s', t, el);
    forall u, a | u != t ensures Carries(s', u, a) <==> Carries(s, u, a) {}
  }

  lemma PutLosesNoBlock(s: State, t: Tid, s': State, w: Lists)
    requires t in s.senders && PutStep(s, t, s') && !s.senders[t].Out? && t in s'.senders
    ensures SameBlocks(s, w, s', Grown(s, t, s', w))
  {
    PutMoves(s, t, s');
    assert var p, p' := s.senders[t], s'.senders[t];
      (p.PushTry? || p.PushLoaded? || p.PushLinked? ==> p'.LeaveTry? || (!p'.LeaveLoaded? && !p'.Out? && p'.el == p.el))
      && (p'.LeaveTry? && !p.PushLinked? ==> p.LeaveLoaded?)
      && (p.LeaveTry? || p.LeaveLoaded? ==> p'.LeaveTry? || p'.LeaveLoaded? || p'.Out?)
    by {
      match s.senders[t] {
        case PushTry(_) => case PushLoaded(_, _) => case PushLinked(_, _) => case LeaveTry => case LeaveLoaded(_) =>
      }
    }
    hide PutStep;
    forall u, a | u != t ensures Carries(s', u, a) <==> Carries(s, u, a) {}
    var p, p' := s.senders[t], s'.senders[t];
    if p.PushTry? || p.PushLoaded? || p.PushLinked? {
      assert Carries(s, t, p.el);
      if p'.LeaveTry? { assert Grown(s, t, s', w).Has(p.el); } else { assert Carries(s', t, p.el); }
    }
    forall a ensures Carries(s', t, a) ==> Carries(s, t, a) {}
    forall a ensures Carries(s, t, a) ==> a == p.el {}
  }

  lemma MovedOnly(s: State, w: Lists, s': State, w': Lists)
    requires s'.senders == s.senders && forall a :: w'.Has(a) || a in s'.free <==> w.Has(a) || a in s.free
    ensures SameBlocks(s, w, s', w')
  {
    assert forall t, a :: Carries(s', t, a) <==> Carries(s, t, a);
  }

  lemma SortLosesNoBlock(s: State, s': State, w: Lists)
    requires Linked(s, w) && GetStep(s, s') && s.receiver.Sort? && s.receiver.msg != NULL
    ensures SameBlocks(s, w, s', After(s, s', w))
  {
    SortStaysLinked(s, s', w);
    var i := SortMoves(s, s', w);
    hide GetStep, After, Linked, LinkIn;
    MovedOnly(s, w, s', After(s, s', w));
  }

  lemma ReturnLosesNoBlock(s: State, s': State, w: Lists)
    requires GetStep(s, s') && s.receiver == Sort(NULL) && w.b == [] && w.h != [] && w.h[0] == s.head
    ensures SameBlocks(s, w, s', After(s, s', w))
  {
    assert w.h == [s.head] + w.h[1..];
    MovedOnly(s, w, s', After(s, s', w));
  }

  lemma DrainLosesNoBlock(s: State, s': State, w: Lists)
    requires GetStep(s, s') && s.receiver.DrainLoaded? && s'.receiver.Sort? && w.b == []
    ensures SameBlocks(s, w, s', After(s, s', w))
  {
    MovedOnly(s, w, s', After(s, s', w));
  }

  lemma HeadIsFirst(s: State, w: Lists)
    requires Inv(s, w)
    ensures s.receiver == Sort(NULL) ==> w.b == [] && w.h != [] && w.h[0] == s.head
    ensures !s.receiver.Sort? ==> w.b == []
    ensures Linked(s, w) && ReceiverCurrent(s) && s.tokens >= 0
  {}

  lemma GetLosesNoBlock(s: State, s': State, w: Lists)
    requires Inv(s, w) && GetStep(s, s')
    ensures SameBlocks(s, w, s', After(s, s', w))
  {
    hide GetStep, Inv, Linked, ReceiverCurrent;
    HeadIsFirst(s, w);
    if s.receiver.Sort? {
      if s.receiver.msg != NULL { SortLosesNoBlock(s, s', w); } else { ReturnLosesNoBlock(s, s', w); }
    } else if s'.receiver.Sort? {
      OnlyDrainSorts(s, s');
      DrainLosesNoBlock(s, s', w);
    } else {
      QuietGetMoves(s, s');
      QuietGetStays(s, s', w);
      MovedOnly(s, w, s', w);
    }
  }

  // ----- every step

  lemma QuietGetStays(s: State, s': State, w: Lists)
    requires !s.receiver.Sort? && !s'.receiver.Sort?
    ensures After(s, s', w) == w
  {}

  lemma GetKeepsInv(s: State, s': State, w: Lists)
    requires Inv(s, w) && GetStep(s, s')
    ensures Inv(s', After(s, s', w))
  {
    hide GetStep, Inv;
    if s.receiver.Sort? {
      if s.receiver.msg == NULL { ReturnKeepsInv(s, s', w); } else { SortKeepsInv(s, s', w); }
    } else if s'.receiver.Sort? {
      OnlyDrainSorts(s, s');
      DrainKeepsInv(s, s', w);
    } else {
      QuietGetStays(s, s', w);
      QuietGetKeepsInv(s, s', w);
    }
  }

  /** Everything that holds in every state. */
  ghost predicate Kept(s: State, w: Lists) { Inv(s, w) && Ordered(s, w) }

  lemma ScribbleLosesNoBlock(s: State, el: Addr, v: Addr, s': State, w: Lists)
    requires Scribble(s, el, v, s')
    ensures SameBlocks(s, w, s', w)
  {
    assert forall t, a :: Carries(s', t, a) <==> Carries(s, t, a);
  }

  lemma NextKeepsInv(s: State, s': State, w: Lists) returns (w': Lists)
    requires Kept(s, w) && Next(s, s')
    ensures Kept(s', w') && SameBlocks(s, w, s', w')
  {
    hide Linked, Placed, Current, Balanced, Conserved, Ordered, GetStep, After, Grown, SameBlocks;
    w' := w;
    if t :| t in s.senders && PutStep(s, t, s') {
      if s.senders[t] == Out {
        var el, m :| PutCall(s, t, el, m, s');
        PutCallKeepsInv(s, t, el, m, s', w);
        PutCallKeepsOrder(s, t, el, m, s', w);
        PutCallLosesNoBlock(s, t, el, m, s', w);
      } else {
        PutKeepsInv(s, t, s', w);
        w' := Grown(s, t, s', w);
        PutKeepsOrder(s, t, s', w);
        PutLosesNoBlock(s, t, s', w);
      }
    } else if GetStep(s, s') {
      w' := After(s, s', w);
      GetKeepsInv(s, s', w);
      GetKeepsOrder(s, s', w);
      GetLosesNoBlock(s, s', w);
    } else {
      var el, v :| Scribble(s, el, v, s');
      ScribbleKeepsInv(s, el, v, s', w);
      SameStaysOrdered(s, s', w);
      ScribbleLosesNoBlock(s, el, v, s', w);
    }
  }

  // ----- main results

  lemma InitIsKept(s: State)
    requires Init(s)
    ensures Kept(s, Lists([], [], [])) && forall a :: a in s.free <==> Somewhere(s, Lists([], [], []), a)
  {
    CountZero(s.senders, Unreleased);
    var w := Lists([], [], []);
    assert Values(s.msgs, []) == [];
    assert Inv(s, w);
    ReverseOfNothing();
    forall p ensures InOrder(s, w, p) { assert Only([], p) == []; }
  }

  lemma {:induction false} RunKeepsInv(r: seq<State>, i: nat)
    requires Run(r) && i < |r|
    ensures exists w :: Kept(r[i], w) && forall a :: a in r[0].free <==> Somewhere(r[i], w, a)
  {
    hide Kept, Init, Next, Somewhere;
    if i == 0 {
      InitIsKept(r[0]);
    } else {
      RunKeepsInv(r, i - 1);
      var w :| Kept(r[i - 1], w) && forall a :: a in r[0].free <==> Somewhere(r[i - 1], w, a);
      var w' := NextKeepsInv(r[i - 1], r[i], w);
      assert SameBlocks(r[i - 1], w, r[i], w');
    }
  }

  /** No block is lost or invented: each is free, in one Put, or in one list once. */
  lemma EveryBlockInOnePlace(r: seq<State>, i: nat)
    requires Run(r) && i < |r|
    ensures exists w: Lists ::
      Linked(r[i], w) && Placed(r[i], w) && forall a :: a in r[0].free <==> Somewhere(r[i], w, a)
  {
    RunKeepsInv(r, i);
    var w :| Kept(r[i], w) && forall a :: a in r[0].free <==> Somewhere(r[i], w, a);
    hide Linked, Placed, Somewhere;
  }

  /** In every state of every run, of every priority: what was received, what is held and what is still to be
      inserted is what was drained, in the order of the batches and each batch newest first. */
  lemma ServedInDrainOrder(r: seq<State>, i: nat, p: nat)
    requires Run(r) && i < |r|
    ensures r[i].pushed == multiset(r[i].drained) + multiset(r[i].undrained)
    ensures Only(r[i].got, p) <= Only(r[i].drained, p)
    ensures exists w: Lists ::
      && Linked(r[i], w) && Values(r[i].msgs, w.t) == Reverse(r[i].undrained)
      && Only(r[i].got, p) + Only(Values(r[i].msgs, w.h), p) + Only(Values(r[i].msgs, w.b), p)
         == Only(r[i].drained, p)
  {
    RunKeepsInv(r, i);
    var s := r[i];
    var w :| Kept(s, w);
    assert InOrder(s, w, p);
    hide Run, Values, Only;
    assert Linked(s, w);
  }

  /** In every state of every run: every message sent was received or is in exactly one list, the held list is
      sorted, and messages, tokens and the threads between the two add up. */
  lemma MessagesAreConserved(r: seq<State>, i: nat)
    requires Run(r) && i < |r|
    ensures exists w: Lists :: Linked(r[i], w) && Placed(r[i], w) && Balanced(r[i], w) && Conserved(r[i], w)
  {
    RunKeepsInv(r, i);
    var w :| Kept(r[i], w);
  }

  /** A receiver that took a token and sorted what it drained never finds the list empty. */
  lemma TokenMeansMessage(r: seq<State>, i: nat)
    requires Run(r) && i < |r| && r[i].receiver == Sort(NULL)
    ensures r[i].head != NULL && r[i].head in r[i].next && r[i].head in r[i].msgs
  {
    RunKeepsInv(r, i);
    var w :| Kept(r[i], w);
    assert w.b == [];
    assert w.h[0] in w.h;
  }

  /** What Get returns has the highest priority of everything held or drained at that moment. */
  lemma GetReturnsMaximal(r: seq<State>, i: nat)
    requires Run(r) && i + 1 < |r| && r[i].receiver == Sort(NULL) && GetStep(r[i], r[i + 1])
    ensures exists w: Lists ::
      && Linked(r[i], w) && w.b == [] && w.h != []
      && r[i + 1].got == r[i].got + [r[i].msgs[w.h[0]]]
      && forall a :: a in w.h ==> r[i].msgs[a].prio <= r[i].msgs[w.h[0]].prio
  {
    RunKeepsInv(r, i);
    var s, w :| s == r[i] && Kept(s, w);
    HeadIsTaken(s, r[i + 1], w);
  }

  lemma HeadIsTaken(s: State, s': State, w: Lists)
    requires Inv(s, w) && s.receiver == Sort(NULL) && GetStep(s, s')
    ensures Linked(s, w) && w.b == [] && w.h != [] && s'.got == s.got + [s.msgs[w.h[0]]]
    ensures forall a :: a in w.h ==> s.msgs[a].prio <= s.msgs[w.h[0]].prio
  {
    assert w.b == [] && w.h[0] == s.head;
    forall a | a in w.h ensures s.msgs[a].prio <= s.msgs[w.h[0]].prio {
      var k :| 0 <= k < |w.h| && w.h[k] == a;
      assert Values(s.msgs, w.h)[k] == s.msgs[a] && Values(s.msgs, w.h)[0] == s.msgs[w.h[0]];
    }
  }

  /** Turn by turn the sorting loop computes Merge: each turn leaves the merge of what remains unchanged. */
  lemma SortRefinesMerge(r: seq<State>, i: nat)
    requires Run(r) && i + 1 < |r| && r[i].receiver.Sort? && r[i].receiver.msg != NULL && GetStep(r[i], r[i + 1])
    ensures exists w: Lists, w': Lists ::
      && Linked(r[i], w) && Linked(r[i + 1], w')
      && Merge(Values(r[i].msgs, w.h), Values(r[i].msgs, w.b))
         == Merge(Values(r[i + 1].msgs, w'.h), Values(r[i + 1].msgs, w'.b))
  {
    RunKeepsInv(r, i);
    var s, s', w :| s == r[i] && s' == r[i + 1] && Kept(s, w);
    SortStaysLinked(s, s', w);
    var k := SortMoves(s, s', w);
    var w' := After(s, s', w);
    hide GetStep, Run, Inv, After, Texts3, Chain, Merge;
    OneIn(s.next, s.head, w.h, s.receiver.msg, w.b, s.msgs);
    assert Linked(s', w');
  }

  // ----- how a call ends

  lemma NextOf(r: seq<State>, i: nat)
    requires Run(r) && i + 1 < |r|
    ensures Next(r[i], r[i + 1])
  {}

  lemma OnlyReceiverMoves(s: State, s': State)
    requires Next(s, s') && s'.receiver != s.receiver
    ensures GetStep(s, s')
  {
    if t :| t in s.senders && PutStep(s, t, s') {
      if s.senders[t] != Out { PutMoves(s, t, s'); }
    }
  }

  /** The receiver is made to wait only with no token left: then every message in the lists is one that its sender has
      yet to announce. */
  lemma WaitsOnlyWithoutMessage(r: seq<State>, i: nat)
    requires Run(r) && i + 1 < |r| && r[i].receiver != Waiting && r[i + 1].receiver == Waiting
    ensures r[i].receiver == EnterTry && r[i].tokens == 0
    ensures exists w: Lists :: Linked(r[i], w) && w.Size() == Count(r[i].senders, Unreleased)
  {
    RunKeepsInv(r, i);
    var w :| Kept(r[i], w);
    NextOf(r, i);
    hide Run, Next, Linked, Placed, Current, Conserved, Ordered;
    OnlyReceiverMoves(r[i], r[i + 1]);
    match r[i].receiver {
      case Idle => case EnterTry => case EnterLoaded(_) => case DrainTry => case DrainLoaded(_) => case Sort(_) =>
    }
  }

  /** osMessageQueueGet returns with a message, or it had to wait and gives up. */
  lemma GetEnds(r: seq<State>, i: nat)
    requires Run(r) && i + 1 < |r| && r[i].receiver != Idle && r[i + 1].receiver == Idle
    ensures (r[i].receiver == Waiting && r[i + 1].got == r[i].got)
         || (r[i].receiver == Sort(NULL) && |r[i + 1].got| == |r[i].got| + 1)
  {
    NextOf(r, i);
    hide Run, Next;
    OnlyReceiverMoves(r[i], r[i + 1]);
    match r[i].receiver {
      case EnterTry => case EnterLoaded(_) => case Waiting => case DrainTry => case DrainLoaded(_) => case Sort(_) =>
    }
  }

  // ----- a thread alone

  /** r are steps of sender t from inside a call to its end. */
  ghost predicate PutsAlone(r: seq<State>, t: Tid) {
    && r != [] && t in r[|r| - 1].senders && r[|r| - 1].senders[t] == Out
    && forall i :: 0 <= i < |r| - 1 ==> t in r[i].senders && r[i].senders[t] != Out && PutStep(r[i], t, r[i + 1])
  }

  lemma PutThen(s: State, t: Tid, q: seq<State>)
    requires PutsAlone(q, t) && t in s.senders && s.senders[t] != Out && PutStep(s, t, q[0])
    ensures PutsAlone([s] + q, t)
  {
    hide PutStep;
    var r := [s] + q;
    forall i | 0 <= i < |r| - 1 ensures t in r[i].senders && r[i].senders[t] != Out && PutStep(r[i], t, r[i + 1]) {
      if i > 0 { assert r[i] == q[i - 1] && r[i + 1] == q[i - 1 + 1]; }
    }
  }

  lemma LeaveAlone(s: State, t: Tid) returns (r: seq<State>)
    requires t in s.senders && s.senders[t] == LeaveTry
    ensures PutsAlone(r, t) && r[0] == s
    ensures var s' := r[|r| - 1]; s' == Go(s, t, Out).(tokens := s.tokens + 1, monitor := s'.monitor)
  {
    var m := Ldrex(s.monitor, t, Tokens);
    var s1 := Go(s, t, LeaveLoaded(s.tokens)).(monitor := m);
    var s2 := Go(s, t, Out).(tokens := s.tokens + 1, monitor := Stored(m, Tokens));
    r := [s, s1, s2];
    assert s2.senders == s1.senders[t := Out];
  }

  /** The message in block el is the newest one, and announced. */
  lemma PutAlone(s: State, t: Tid, el: Addr) returns (r: seq<State>)
    requires t in s.senders && s.senders[t] == PushTry(el) && el in s.msgs
    ensures PutsAlone(r, t) && r[0] == s
    ensures var s' := r[|r| - 1];
      s' == Go(s, t, Out).(tokens := s.tokens + 1, tail := el, next := s.next[el := s.tail],
                           pushed := s.pushed + multiset{s.msgs[el]}, undrained := s.undrained + [s.msgs[el]],
                           monitor := s'.monitor)
  {
    var m := Ldrex(s.monitor, t, Tail);
    var s1 := Go(s, t, PushLoaded(el, s.tail)).(monitor := m);
    var s2 := Go(s1, t, PushLinked(el, s.tail)).(next := s.next[el := s.tail]);
    var s3 := Go(s2, t, LeaveTry).(tail := el, monitor := Stored(m, Tail), pushed := s.pushed + multiset{s.msgs[el]},
                                   undrained := s.undrained + [s.msgs[el]]);
    r := LeaveAlone(s3, t);
    PutThen(s2, t, r);
    PutThen(s1, t, [s2] + r);
    PutThen(s, t, [s1] + ([s2] + r));
    r := [s] + ([s1] + ([s2] + r));
    assert s3.senders[t := Out] == s.senders[t := Out];
  }

  /** Wherever a sender has come to. */
  lemma SenderCanEnd(s: State, t: Tid) returns (r: seq<State>)
    requires t in s.senders && s.senders[t] != Out && forall el :: Carries(s, t, el) ==> el in s.msgs
    ensures PutsAlone(r, t) && r[0] == s
    decreases s.senders[t].PushLoaded?
  {
    var m := Clrex(s.monitor, t);
    match s.senders[t] {
      case PushTry(el) =>
        assert Carries(s, t, el);
        r := PutAlone(s, t, el);
      case LeaveTry => r := LeaveAlone(s, t);
      case PushLoaded(el, seen) =>
        assert Carries(s, t, el);
        r := SenderCanEnd(Go(s, t, PushLinked(el, seen)).(next := s.next[el := seen]), t);
        PutThen(s, t, r);
        r := [s] + r;
      case PushLinked(el, _) =>
        assert Carries(s, t, el);
        r := PutAlone(Go(s, t, PushTry(el)).(monitor := m), t, el);
        PutThen(s, t, r);
        r := [s] + r;
      case LeaveLoaded(_) =>
        r := LeaveAlone(Go(s, t, LeaveTry).(monitor := m), t);
        PutThen(s, t, r);
        r := [s] + r;
    }
  }

  /** A call of osMessageQueuePut by itself sends its message and announces it. */
  lemma PutSends(s: State, t: Tid, el: Addr, m: Msg) returns (q: seq<State>)
    requires t in s.senders && s.senders[t] == Out && el in s.free
    ensures PutsAlone(q, t) && PutStep(s, t, q[0]) && q[0].senders[t] == PushTry(el)
    ensures var s' := q[|q| - 1];
      s' == s.(tokens := s.tokens + 1, tail := el, next := s.next[el := s.tail], msgs := s.msgs[el := m],
               free := s.free - {el}, pushed := s.pushed + multiset{m}, undrained := s.undrained + [m],
               monitor := s'.monitor)
  {
    var s1 := Go(s, t, PushTry(el)).(free := s.free - {el}, msgs := s.msgs[el := m]);
    assert PutCall(s, t, el, m, s1);
    q := PutAlone(s1, t, el);
    assert s.senders[t := PushTry(el)][t := Out] == s.senders;
  }

  /** How much of the receiver's call is left. */
  ghost function Rank(s: State, w: Lists): nat {
    match s.receiver
    case Idle => 0
    case Waiting => if s.tokens > 0 then |w.t| + 4 else 1
    case Sort(_) => |w.b| + 1
    case DrainTry => |w.t| + 3
    case DrainLoaded(_) => |w.t| + if Holds(s.monitor, RECEIVER, Tail) then 2 else 4
    case EnterTry => |w.t| + 6
    case EnterLoaded(_) => |w.t| + if Holds(s.monitor, RECEIVER, Tokens) then 5 else 7
  }

  /** The receiver can always do a step that brings it nearer to the end of its call. */
  lemma GoOn(s: State, w: Lists) returns (s': State)
    requires Inv(s, w) && s.receiver != Idle
    ensures GetStep(s, s') && Rank(s', After(s, s', w)) < Rank(s, w)
    ensures s.receiver == Waiting && s.tokens > 0 ==> s'.receiver != Idle
  {
    HeadIsFirst(s, w);
    hide Inv, Linked, ReceiverCurrent;
    var m := Clrex(s.monitor, RECEIVER);
    match s.receiver {
      case EnterTry =>
        s' := if s.tokens == 0 then s.(receiver := Waiting, monitor := m)
              else s.(receiver := EnterLoaded(s.tokens), monitor := Ldrex(s.monitor, RECEIVER, Tokens));
      case EnterLoaded(c) =>
        s' := if Holds(s.monitor, RECEIVER, Tokens)
              then s.(tokens := c - 1, receiver := DrainTry, monitor := Stored(s.monitor, Tokens))
              else s.(receiver := EnterTry, monitor := m);
      case Waiting =>
        s' := if s.tokens > 0
              then s.(tokens := s.tokens - 1, receiver := DrainTry, monitor := Stored(s.monitor, Tokens))
              else s.(receiver := Idle);
      case DrainTry => s' := s.(receiver := DrainLoaded(s.tail), monitor := Ldrex(s.monitor, RECEIVER, Tail));
      case DrainLoaded(v) =>
        s' := if Holds(s.monitor, RECEIVER, Tail)
              then s.(tail := NULL, receiver := Sort(v), monitor := Stored(s.monitor, Tail),
                      drained := s.drained + Reverse(s.undrained), undrained := [])
              else s.(receiver := DrainTry, monitor := m);
      case Sort(_) => s' := SortOn(s, w);
    }
  }

  lemma SortOn(s: State, w: Lists) returns (s': State)
    requires Inv(s, w) && s.receiver.Sort?
    ensures GetStep(s, s') && Rank(s', After(s, s', w)) < Rank(s, w)
  {
    var m: Addr := s.receiver.msg;
    HeadIsFirst(s, w);
    if m != NULL {
      var i := Spot(Values(s.msgs, w.h), s.msgs[m].prio);
      s' := s.(next := LinkIn(s.next, w.h, i, m), head := if i == 0 then m else s.head, receiver := Sort(s.next[m]));
      assert SortStep(s, w.h, s');
    } else {
      assert w.h[0] in w.h;
      s' := s.(head := s.next[s.head], free := s.free + {s.head}, got := s.got + [s.msgs[s.head]], receiver := Idle);
    }
  }

  /** r are steps of the receiver from inside a call to its end. */
  ghost predicate GetsAlone(r: seq<State>) {
    && r != [] && r[|r| - 1].receiver == Idle
    && forall i :: 0 <= i < |r| - 1 ==> r[i].receiver != Idle && GetStep(r[i], r[i + 1])
  }

  lemma GetThen(s: State, q: seq<State>)
    requires GetsAlone(q) && s.receiver != Idle && GetStep(s, q[0])
    ensures GetsAlone([s] + q)
  {
    hide GetStep;
    var r := [s] + q;
    forall i | 0 <= i < |r| - 1 ensures r[i].receiver != Idle && GetStep(r[i], r[i + 1]) {
      if i > 0 { assert r[i] == q[i - 1] && r[i + 1] == q[i - 1 + 1]; }
    }
  }

  /** What is held and what is to come, merged. */
  ghost function Expected(s: State, w: Lists): seq<Msg>
    requires Linked(s, w)
  {
    Merge(Values(s.msgs, w.h), Values(s.msgs, if s.receiver.Sort? then w.b else w.t))
  }

  /** The receiver has a token, or there is one for it to take. */
  predicate Served(s: State) {
    Took(s.receiver) || ((s.receiver.EnterTry? || s.receiver.EnterLoaded? || s.receiver.Waiting?) && s.tokens > 0)
  }

  lemma QuietExpects(s: State, s': State, w: Lists)
    requires Linked(s, w) && Linked(s', w) && ReceiverCurrent(s) && GetStep(s, s') && Served(s) && s.tokens >= 0
    requires !s.receiver.Sort? && !s'.receiver.Sort? && (s.receiver == Waiting ==> s'.receiver != Idle)
    ensures s'.receiver != Idle && Served(s') && s'.got == s.got && Expected(s', w) == Expected(s, w)
  {
    hide Linked, Merge, Values;
    QuietGetMoves(s, s');
    match s.receiver {
      case EnterTry => case EnterLoaded(_) => case Waiting => case DrainTry => case DrainLoaded(_) =>
    }
  }

  lemma SortExpects(s: State, s': State, w: Lists)
    requires Linked(s, w) && GetStep(s, s') && s.receiver.Sort? && s.receiver.msg != NULL
    ensures Linked(s', After(s, s', w)) && s'.receiver.Sort? && s'.got == s.got
    ensures Expected(s', After(s, s', w)) == Expected(s, w)
  {
    SortStaysLinked(s, s', w);
    var k := SortMoves(s, s', w);
    hide GetStep, After, Texts3, Chain, Merge;
    OneIn(s.next, s.head, w.h, s.receiver.msg, w.b, s.msgs);
  }

  lemma ReturnExpects(s: State, s': State, w: Lists)
    requires Linked(s, w) && GetStep(s, s') && s.receiver == Sort(NULL) && w.b == [] && w.h != [] && w.h[0] == s.head
    ensures Expected(s, w) != [] && s'.receiver == Idle && s'.got == s.got + [Expected(s, w)[0]]
  {}

  lemma DrainExpects(s: State, s': State, w: Lists)
    requires Linked(s, w) && GetStep(s, s') && s.receiver.DrainLoaded? && s'.receiver.Sort?
    requires Linked(s', After(s, s', w))
    ensures s'.got == s.got && Expected(s', After(s, s', w)) == Expected(s, w)
  {}

  lemma GetExpects(s: State, s': State, w: Lists)
    requires Inv(s, w) && Inv(s', After(s, s', w)) && GetStep(s, s') && Served(s)
    requires s.receiver == Waiting ==> s'.receiver != Idle
    ensures s'.receiver != Idle ==>
      Served(s') && s'.got == s.got && Expected(s', After(s, s', w)) == Expected(s, w)
    ensures s'.receiver == Idle ==> Expected(s, w) != [] && s'.got == s.got + [Expected(s, w)[0]]
  {
    HeadIsFirst(s, w);
    hide GetStep, Inv, Linked, ReceiverCurrent, Expected, After;
    if s.receiver.Sort? {
      if s.receiver.msg != NULL { SortExpects(s, s', w); } else { ReturnExpects(s, s', w); }
    } else if s'.receiver.Sort? {
      OnlyDrainSorts(s, s');
      DrainExpects(s, s', w);
    } else {
      QuietGetStays(s, s', w);
      QuietExpects(s, s', w);
    }
  }

  lemma InvIsLinked(s: State, w: Lists)
    requires Inv(s, w)
    ensures Linked(s, w)
  {}

  /** Wherever the receiver's call has come to, it can be ended; and with a token it gets the first message of
      everything held and sent, merged. */
  lemma {:induction false} GetAlone(s: State, w: Lists) returns (r: seq<State>)
    requires Inv(s, w) && s.receiver != Idle
    ensures GetsAlone(r) && r[0] == s && Linked(s, w)
    ensures Served(s) ==> Expected(s, w) != [] && r[|r| - 1].got == s.got + [Expected(s, w)[0]]
    decreases Rank(s, w)
  {
    hide Inv, GetStep, After, Linked, Expected, Rank;
    var s' := GoOn(s, w);
    var w' := After(s, s', w);
    InvIsLinked(s, w);
    GetKeepsInv(s, s', w);
    InvIsLinked(s', w');
    if Served(s) { GetExpects(s, s', w); }
    if s'.receiver == Idle {
      r := [s'];
      assert GetsAlone([s']);
    } else {
      r := GetAlone(s', w');
    }
    GetThen(s, r);
    r := [s] + r;
  }

  /** In every state of every run with a message announced, a call of osMessageQueueGet by itself, just begun or
      waiting, returns the first message of everything held and sent, merged. */
  lemma GetReturnsFirst(r: seq<State>, i: nat) returns (q: seq<State>)
    requires Run(r) && i < |r| && (r[i].receiver == Idle || r[i].receiver == Waiting) && r[i].tokens > 0
    ensures GetsAlone(q)
    ensures if r[i].receiver == Idle then GetStep(r[i], q[0]) && q[0].receiver == EnterTry else q[0] == r[i]
    ensures exists w: Lists ::
      && Linked(r[i], w) && var all := Merge(Values(r[i].msgs, w.h), Values(r[i].msgs, w.t));
         all != [] && q[|q| - 1].got == r[i].got + [all[0]]
  {
    RunKeepsInv(r, i);
    var s := r[i];
    var w :| Kept(s, w);
    var s1 := if s.receiver == Idle then s.(receiver := EnterTry) else s;
    if s.receiver == Idle { GetKeepsInv(s, s1, w); }
    InvIsLinked(s, w);
    hide Inv, Ordered, Merge, Values, GetsAlone, Run, Chain, Sorted;
    q := GetAlone(s1, w);
  }

  /** In every state of every run whoever is in a call can end it without the others. */
  lemma EveryCallCanEnd(r: seq<State>, i: nat)
    requires Run(r) && i < |r|
    ensures r[i].receiver != Idle ==> exists q :: GetsAlone(q) && q[0] == r[i]
    ensures forall t :: t in r[i].senders && r[i].senders[t] != Out ==> exists q :: PutsAlone(q, t) && q[0] == r[i]
  {
    RunKeepsInv(r, i);
    var w :| Kept(r[i], w);
    hide Linked, Run, GetsAlone, PutsAlone, Ordered;
    if r[i].receiver != Idle { var q := GetAlone(r[i], w); }
    forall t | t in r[i].senders && r[i].senders[t] != Out ensures exists q :: PutsAlone(q, t) && q[0] == r[i] {
      var q := SenderCanEnd(r[i], t);
    }
  }

  /** osMessageQueueNew: with any blocks and any senders the runs may start. */
  method QueueNew() returns (tokens: int, head: Addr, tail: Addr)
    ensures forall next: Links, msgs: Texts, free: set<Addr>, senders: map<Tid, Sender> ::
      NULL !in free && free <= next.Keys && RECEIVER !in senders
      && (forall t :: t in senders ==> senders[t] == Out)
      ==> Init(State(tokens, tail, head, next, msgs, map[], senders, Idle, free, multiset{}, [], [], []))
  {
    tokens, head, tail := 0, NULL, NULL;
  }
}
