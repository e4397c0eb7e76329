/** queue.c and async_queue.c: a FIFO for many producers and one consumer made of two linked lists.

    Producers push onto `tail` with an exclusive store. The consumer takes from its private list `head`; when that
    is empty it detaches the whole of `tail` and turns it upside down node by node, while the producers go on
    pushing. The two consumers, queue_pop and osAsyncQueueGet, share the layout, so the machine lets the consumer
    call either one each time.
 */
module Queue {
  import opened Chains
  import opened Exclusive

  datatype Cell = Tail
  const CONSUMER: Tid := 0

  datatype Producer =
    | Out
    | PushTry(el: Addr)
    | PushLoaded(el: Addr, seen: Addr)
    | PushLinked(el: Addr, seen: Addr)

  datatype Consumer =
    | Idle
    // both: take the first node of the private list
    | Take(el: Addr)
    | TakeNext(el: Addr, nx: Addr)
    // queue_pop: detach, then reverse all but the oldest node
    | PopSwapTry
    | PopSwapLoaded(v: Addr)
    | PopLoop(el: Addr, rev: Addr)
    | PopLink(el: Addr, rev: Addr, nx: Addr)
    // osAsyncQueueGet: detach, then reverse everything
    | GetSwapTry
    | GetSwapLoaded(v: Addr)
    | GetLoop(el: Addr, rev: Addr)
    | GetLink(el: Addr, rev: Addr, nx: Addr)

  /** `pushed` and `popped` log the successful pushes and the nodes returned, oldest first;
      `free` are the nodes that are outside the queue and in nobody's push. */
  datatype State = State(
    head: Addr,
    tail: Addr,
    next: Links,
    monitor: Monitor<Cell>,
    producers: map<Tid, Producer>,
    consumer: Consumer,
    free: set<Addr>,
    pushed: seq<Addr>,
    popped: seq<Addr>)

  // ----- steps

  function Go(s: State, t: Tid, p: Producer): State {
    s.(producers := s.producers[t := p])
  }

  ghost predicate PushCall(s: State, t: Tid, el: Addr, s': State) {
    el in s.free && s' == Go(s, t, PushTry(el)).(free := s.free - {el})
  }

  /** queue_push and the loop of osAsyncQueuePut. */
  ghost predicate PushStep(s: State, t: Tid, s': State)
    requires t in s.producers
  {
    match s.producers[t]
    case Out => exists el :: PushCall(s, t, el, s')
    case PushTry(el) =>
      s' == Go(s, t, PushLoaded(el, s.tail)).(monitor := Ldrex(s.monitor, t, Tail))
    case PushLoaded(el, seen) =>
      s' == Go(s, t, PushLinked(el, seen)).(next := s.next[el := seen])
    case PushLinked(el, seen) =>
      || (Holds(s.monitor, t, Tail)
          && s' == Go(s, t, Out).(tail := el, monitor := Stored(s.monitor, Tail), pushed := s.pushed + [el]))
      || s' == Go(s, t, PushTry(el)).(monitor := Clrex(s.monitor, t))
  }

  /** The consumer returns node `el` to its caller. */
  function Return(s: State, el: Addr): State {
    s.(consumer := Idle, popped := s.popped + [el], free := s.free + {el})
  }

  ghost predicate PopStep(s: State, s': State) {
    match s.consumer
    case Idle =>
      if s.head != NULL then s' == s.(consumer := Take(s.head))
      else s' == s.(consumer := PopSwapTry) || s' == s.(consumer := GetSwapTry)
    case Take(el) => el in s.next && s' == s.(consumer := TakeNext(el, s.next[el]))
    case TakeNext(el, nx) => s' == Return(s, el).(head := nx)

    case PopSwapTry =>
      s' == s.(consumer := PopSwapLoaded(s.tail), monitor := Ldrex(s.monitor, CONSUMER, Tail))
    case PopSwapLoaded(v) =>
      || (Holds(s.monitor, CONSUMER, Tail)
          && s' == s.(tail := NULL, monitor := Stored(s.monitor, Tail),
                      consumer := if v == NULL then Idle else PopLoop(v, NULL)))
      || s' == s.(consumer := PopSwapTry, monitor := Clrex(s.monitor, CONSUMER))
    case PopLoop(el, rev) =>
      el in s.next &&
      if s.next[el] != NULL then s' == s.(consumer := PopLink(el, rev, s.next[el]))
      else s' == Return(s, el).(head := rev)
    case PopLink(el, rev, nx) => s' == s.(consumer := PopLoop(nx, el), next := s.next[el := rev])

    case GetSwapTry =>
      s' == s.(consumer := GetSwapLoaded(s.tail), monitor := Ldrex(s.monitor, CONSUMER, Tail))
    case GetSwapLoaded(v) =>
      || (Holds(s.monitor, CONSUMER, Tail)
          && s' == s.(tail := NULL, monitor := Stored(s.monitor, Tail), consumer := GetLoop(v, NULL)))
      || s' == s.(consumer := GetSwapTry, monitor := Clrex(s.monitor, CONSUMER))
    case GetLoop(el, rev) =>
      if el == NULL then s' == s.(head := rev, consumer := if rev == NULL then Idle else Take(rev))
      else el in s.next && s' == s.(consumer := GetLink(el, rev, s.next[el]))
    case GetLink(el, rev, nx) => s' == s.(consumer := GetLoop(nx, el), next := s.next[el := rev])
  }

  /** Whoever owns a node outside the queue may write anything into it. */
  ghost predicate Scribble(s: State, el: Addr, v: Addr, s': State) {
    el in s.free && s' == s.(next := s.next[el := v])
  }

  ghost predicate Next(s: State, s': State) {
    || (exists t :: t in s.producers && PushStep(s, t, s'))
    || PopStep(s, s')
    || (exists el, v :: Scribble(s, el, v, s'))
  }

  ghost predicate Init(s: State) {
    && s.head == NULL && s.tail == NULL && s.monitor == map[] && s.consumer == Idle
    && s.pushed == [] && s.popped == []
    && NULL !in s.free && s.free <= s.next.Keys
    && CONSUMER !in s.producers
    && forall t :: t in s.producers ==> s.producers[t] == Out
  }

  ghost predicate Run(r: seq<State>) {
    && r != []
    && Init(r[0])
    && forall i :: 0 <= i < |r| - 1 ==> Next(r[i], r[i + 1])
  }

  // ----- the invariant

  /** The lists behind the pointers: `h` from head, `t` from tail, and while the consumer is reversing a
      detached list, `e` still to do and `r` already turned over. */
  datatype Lists = Lists(h: seq<Addr>, e: seq<Addr>, r: seq<Addr>, t: seq<Addr>) {
    /** `all` are the nodes in the queue, with how often they occur. */
    ghost predicate Hold(all: multiset<Addr>) {
      all == multiset(h) + multiset(e) + multiset(r) + multiset(t)
    }

    /** What will be popped if nothing more is pushed, in order. */
    function Pending(): seq<Addr> { h + (Reverse(e) + r) + Reverse(t) }
  }

  /** Node `el` is in the push of producer `t`. */
  predicate Carries(s: State, t: Tid, el: Addr) {
    t in s.producers && !s.producers[t].Out? && s.producers[t].el == el
  }

  ghost predicate ConsumerAt(s: State, w: Lists) {
    match s.consumer
    case PopLoop(el, rev) => s.head == NULL && w.e != [] && Chain(s.next, el, w.e) && Chain(s.next, rev, w.r)
    case PopLink(el, rev, nx) =>
      s.head == NULL && nx != NULL && w.e != [] && Chain(s.next, el, w.e) && Chain(s.next, rev, w.r) && s.next[el] == nx
    case GetLoop(el, rev) => s.head == NULL && Chain(s.next, el, w.e) && Chain(s.next, rev, w.r)
    case GetLink(el, rev, nx) =>
      s.head == NULL && w.e != [] && Chain(s.next, el, w.e) && Chain(s.next, rev, w.r) && s.next[el] == nx
    case Take(el) => w.e == [] && w.r == [] && el != NULL && el == s.head
    case TakeNext(el, nx) => w.e == [] && w.r == [] && el != NULL && el == s.head && el in s.next && s.next[el] == nx
    case Idle => w.e == [] && w.r == []
    case _ => w.e == [] && w.r == [] && s.head == NULL
  }

  /** No node is in two places. */
  ghost predicate Placed(s: State, all: multiset<Addr>) {
    && NULL !in s.free
    && (forall a :: a in s.free ==> a in s.next && a !in all)
    && (forall a :: a in all ==> all[a] == 1)
    && (forall t, a :: Carries(s, t, a) ==> a != NULL && a in s.next && a !in s.free && a !in all)
    && (forall t, u, a :: Carries(s, t, a) && Carries(s, u, a) ==> t == u)
  }

  ghost predicate Linked(s: State, w: Lists, all: multiset<Addr>) {
    && w.Hold(all)
    && Chain(s.next, s.head, w.h)
    && Chain(s.next, s.tail, w.t)
    && ConsumerAt(s, w)
  }

  /** While its reservation survives, what a thread loaded is still the tail. */
  ghost predicate Current(s: State) {
    && CONSUMER !in s.producers
    && (forall t :: t in s.producers && s.producers[t].PushLoaded? && Holds(s.monitor, t, Tail) ==>
          s.producers[t].seen == s.tail)
    && (forall t :: t in s.producers && s.producers[t].PushLinked? ==>
          && s.producers[t].el in s.next && s.next[s.producers[t].el] == s.producers[t].seen
          && (Holds(s.monitor, t, Tail) ==> s.producers[t].seen == s.tail))
    && (s.consumer.PopSwapLoaded? && Holds(s.monitor, CONSUMER, Tail) ==> s.consumer.v == s.tail)
    && (s.consumer.GetSwapLoaded? && Holds(s.monitor, CONSUMER, Tail) ==> s.consumer.v == s.tail)
  }

  /** Node a is outside the queue, in it, or in somebody's push. */
  ghost predicate Somewhere(s: State, all: multiset<Addr>, a: Addr) {
    a in s.free || a in all || exists t :: Carries(s, t, a)
  }

  /** What was pushed is what was popped followed by what is still pending, in the same order. */
  ghost predicate Logged(pushed: seq<Addr>, popped: seq<Addr>, pending: seq<Addr>) {
    pushed == popped + pending
  }

  lemma LogPush(pushed: seq<Addr>, popped: seq<Addr>, pending: seq<Addr>, el: seq<Addr>)
    requires Logged(pushed, popped, pending)
    ensures Logged(pushed + el, popped, pending + el)
  {}

  lemma LogPop(pushed: seq<Addr>, popped: seq<Addr>, el: seq<Addr>, pending: seq<Addr>)
    requires Logged(pushed, popped, el + pending)
    ensures Logged(pushed, popped + el, pending)
  {}

  ghost predicate Inv(s: State, w: Lists, all: multiset<Addr>) {
    && Linked(s, w, all)
    && Placed(s, all)
    && Current(s)
    && Logged(s.pushed, s.popped, w.Pending())
  }

  // ----- every step keeps the invariant

  /** All lists survive writes to nodes outside them. */
  lemma LinkedFrame(s: State, s': State, w: Lists, all: multiset<Addr>)
    requires Linked(s, w, all) && s'.head == s.head && s'.tail == s.tail && s'.consumer == s.consumer
    requires s.next.Keys <= s'.next.Keys
    requires forall a :: a in s.next && a in all ==> s'.next[a] == s.next[a]
    ensures Linked(s', w, all)
  {
    ChainHasNoNull(s.next, s.head, w.h);
    ChainHasNoNull(s.next, s.tail, w.t);
    ChainFrame(s.next, s'.next, s.head, w.h);
    ChainFrame(s.next, s'.next, s.tail, w.t);
    if s.consumer.PopLoop? || s.consumer.PopLink? || s.consumer.GetLoop? || s.consumer.GetLink? {
      ChainHasNoNull(s.next, s.consumer.el, w.e);
      ChainHasNoNull(s.next, s.consumer.rev, w.r);
      ChainFrame(s.next, s'.next, s.consumer.el, w.e);
      ChainFrame(s.next, s'.next, s.consumer.rev, w.r);
    }
  }

  lemma PushStaysCurrent(s: State, t: Tid, s': State)
    requires Current(s) && t in s.producers && PushStep(s, t, s') && !s.producers[t].Out?
    requires forall u :: Carries(s, u, s.producers[t].el) ==> t == u
    ensures Current(s')
  {
    match s.producers[t] {
      case PushTry(_) =>
      case PushLoaded(el, _) =>
        assert forall u :: u in s.producers && s.producers[u].PushLinked? ==> Carries(s, u, s.producers[u].el);
      case PushLinked(_, _) =>
    }
  }

  /** Steps inside a push that move no node. */
  lemma PushStaysPlaced(s: State, t: Tid, s': State, all: multiset<Addr>)
    requires Placed(s, all) && t in s.producers && PushStep(s, t, s') && !s.producers[t].Out?
    requires t in s'.producers && s'.producers[t] != Out
    ensures Placed(s', all)
  {
    var el := s.producers[t].el;
    assert Carries(s, t, el);
    assert s'.free == s.free && s'.next.Keys == s.next.Keys by {
      match s.producers[t] { case PushTry(_) => case PushLoaded(_, _) => case PushLinked(_, _) => }
    }
    forall u, a | Carries(s', u, a) ensures Carries(s, u, a) {
      match s.producers[t] { case PushTry(_) => case PushLoaded(_, _) => case PushLinked(_, _) => }
    }
  }

  lemma PushCallStaysPlaced(s: State, t: Tid, el: Addr, s': State, all: multiset<Addr>)
    requires Placed(s, all) && t in s.producers && s.producers[t] == Out && PushCall(s, t, el, s')
    ensures Placed(s', all)
  {
    assert forall u, a :: Carries(s', u, a) ==> Carries(s, u, a) || (u == t && a == el);
  }

  lemma PushedStaysPlaced(s: State, t: Tid, s': State, all: multiset<Addr>)
    requires Placed(s, all) && t in s.producers && s.producers[t].PushLinked? && PushStep(s, t, s')
    requires t in s'.producers && s'.producers[t] == Out
    ensures Placed(s', all + multiset{s.producers[t].el})
  {
    var el := s.producers[t].el;
    assert Carries(s, t, el);
    forall u, a | Carries(s', u, a) ensures Carries(s, u, a) && a != el {
      assert u != t && Carries(s, u, a);
    }
  }

  lemma PushKeepsLinked(s: State, t: Tid, s': State, w: Lists, all: multiset<Addr>)
    requires Linked(s, w, all) && t in s.producers && PushStep(s, t, s')
    requires s.producers[t].PushLoaded? ==> s.producers[t].el !in all
    requires !(s.producers[t].PushLinked? && s'.producers[t] == Out)
    ensures Linked(s', w, all)
  {
    hide Chain;
    match s.producers[t] {
      case Out => case PushTry(_) => case PushLinked(_, _) =>
      case PushLoaded(_, _) => LinkedFrame(s, s', w, all);
    }
  }

  lemma ListsPush(w: Lists, all: multiset<Addr>, el: Addr)
    requires w.Hold(all)
    ensures var w' := w.(t := [el] + w.t);
      w'.Hold(all + multiset{el}) && w'.Pending() == w.Pending() + [el]
  {
    assert w.(t := [el] + w.t).t[1..] == w.t;
  }

  lemma PushedIsLinked(s: State, t: Tid, s': State, w: Lists, all: multiset<Addr>)
    requires Linked(s, w, all) && Current(s) && t in s.producers && s.producers[t].PushLinked? && PushStep(s, t, s')
    requires s.producers[t].el != NULL
    requires t in s'.producers && s'.producers[t] == Out
    ensures var w' := w.(t := [s.producers[t].el] + w.t);
      && Linked(s', w', all + multiset{s.producers[t].el})
      && w'.Pending() == w.Pending() + [s.producers[t].el]
  {
    var el := s.producers[t].el;
    ListsPush(w, all, el);
    ChainPush(s.next, s.tail, w.t, el);
    hide Chain, Reverse;
  }

  lemma PushedKeepsInv(s: State, t: Tid, s': State, w: Lists, all: multiset<Addr>)
    requires Inv(s, w, all) && t in s.producers && s.producers[t].PushLinked? && PushStep(s, t, s')
    requires t in s'.producers && s'.producers[t] == Out
    ensures Inv(s', w.(t := [s.producers[t].el] + w.t), all + multiset{s.producers[t].el})
  {
    assert Carries(s, t, s.producers[t].el);
    PushStaysCurrent(s, t, s');
    PushedIsLinked(s, t, s', w, all);
    PushedStaysPlaced(s, t, s', all);
    LogPush(s.pushed, s.popped, w.Pending(), [s.producers[t].el]);
  }

  lemma PushKeepsLog(s: State, t: Tid, s': State)
    requires t in s.producers && PushStep(s, t, s')
    ensures t in s'.producers && s'.popped == s.popped
    ensures !(s.producers[t].PushLinked? && s'.producers[t] == Out) ==> s'.pushed == s.pushed
  {
    match s.producers[t] {
      case Out => case PushTry(_) => case PushLoaded(_, _) => case PushLinked(_, _) =>
    }
  }

  lemma PushCallKeepsInv(s: State, t: Tid, el: Addr, s': State, w: Lists, all: multiset<Addr>)
    requires Inv(s, w, all) && t in s.producers && s.producers[t] == Out && PushCall(s, t, el, s')
    ensures Inv(s', w, all)
  {
    PushCallStaysPlaced(s, t, el, s', all);
  }

  lemma PushQuietKeepsInv(s: State, t: Tid, s': State, w: Lists, all: multiset<Addr>)
    requires Inv(s, w, all) && t in s.producers && s.producers[t] != Out && PushStep(s, t, s') && t in s'.producers
    requires s'.producers[t] != Out
    ensures Inv(s', w, all)
  {
    assert Carries(s, t, s.producers[t].el);
    PushKeepsLog(s, t, s');
    PushStaysCurrent(s, t, s');
    PushStaysPlaced(s, t, s', all);
    PushKeepsLinked(s, t, s', w, all);
  }

  // ----- the consumer

  /** The lists after a step of the consumer. */
  ghost function ListsAfter(s: State, s': State, w: Lists): Lists {
    match s.consumer
    case TakeNext(_, _) => if w.h != [] then w.(h := w.h[1..]) else w
    case PopSwapLoaded(v) => if s'.consumer == PopSwapTry then w else w.(e := w.t, t := [])
    case GetSwapLoaded(v) => if s'.consumer == GetSwapTry then w else w.(e := w.t, t := [])
    case PopLoop(_, _) => if s'.consumer == Idle then Lists(w.r, [], [], w.t) else w
    case PopLink(el, _, _) => if w.e != [] then w.(e := w.e[1..], r := [el] + w.r) else w
    case GetLoop(el, _) => if el == NULL then Lists(w.r, [], [], w.t) else w
    case GetLink(el, _, _) => if w.e != [] then w.(e := w.e[1..], r := [el] + w.r) else w
    case _ => w
  }

  /** The node the consumer hands over in this step, if it does. */
  ghost function Returned(s: State, s': State): seq<Addr> {
    match s.consumer
    case TakeNext(el, _) => [el]
    case PopLoop(el, _) => if s'.consumer == Idle then [el] else []
    case _ => []
  }

  /** Turning a node over is invisible to the producers. */
  lemma TurnStaysCurrent(s: State, s': State)
    requires Current(s) && PopStep(s, s') && (s.consumer.PopLink? || s.consumer.GetLink?)
    requires forall t :: !Carries(s, t, s.consumer.el)
    ensures Current(s')
  {
    assert forall u :: u in s.producers && s.producers[u].PushLinked? ==> Carries(s, u, s.producers[u].el);
  }

  lemma SwapStaysCurrent(s: State, s': State)
    requires Current(s) && PopStep(s, s')
    requires s.consumer.PopSwapTry? || s.consumer.PopSwapLoaded? || s.consumer.GetSwapTry? || s.consumer.GetSwapLoaded?
    ensures Current(s')
  {
    match s.consumer {
      case PopSwapTry => case PopSwapLoaded(_) => case GetSwapTry => case GetSwapLoaded(_) =>
    }
  }

  lemma PopStaysCurrent(s: State, s': State)
    requires Current(s) && PopStep(s, s')
    requires s.consumer.PopLink? || s.consumer.GetLink? ==> forall t :: !Carries(s, t, s.consumer.el)
    ensures Current(s')
  {
    if s.consumer.PopLink? || s.consumer.GetLink? {
      TurnStaysCurrent(s, s');
    } else {
      match s.consumer {
        case Idle => case Take(_) => case TakeNext(_, _) => case PopLoop(_, _) => case GetLoop(_, _) =>
        case _ => SwapStaysCurrent(s, s');
      }
    }
  }

  /** One node turned over: it leaves the front of `e` and becomes the front of `r`. */
  lemma TurnOver(next: Links, el: Addr, rev: Addr, w: Lists, next': Links, all: multiset<Addr>)
    requires w.Hold(all)
    requires Chain(next, el, w.e) && w.e != [] && Chain(next, rev, w.r)
    requires all[el] <= 1 && next' == next[el := rev]
    ensures var w' := w.(e := w.e[1..], r := [el] + w.r);
      && Chain(next', next[el], w'.e) && Chain(next', el, w'.r)
      && w'.Hold(all) && w'.Pending() == w.Pending()
  {
    assert w.e == [el] + w.e[1..];
    assert multiset(w.e) == multiset{el} + multiset(w.e[1..]);
    ChainHasNoNull(next, el, w.e);
    ChainHasNoNull(next, rev, w.r);
    assert el !in multiset(w.e[1..]) && el !in multiset(w.r);
    ChainFrame(next, next', next[el], w.e[1..]);
    ChainFrame(next, next', rev, w.r);
    ChainPush(next', rev, w.r, el);
    assert Reverse(w.e) + w.r == Reverse(w.e[1..]) + ([el] + w.r);
  }

  lemma TakeKeepsLinked(s: State, s': State, w: Lists, all: multiset<Addr>)
    requires Linked(s, w, all) && s.consumer.TakeNext? && PopStep(s, s')
    ensures var w' := ListsAfter(s, s', w); var out := [s.consumer.el];
      && multiset(out) <= all
      && Linked(s', w', all - multiset(out))
      && w.Pending() == out + w'.Pending()
  {
    var el := s.consumer.el;
    assert w.h == [el] + w.h[1..];
    assert multiset(w.h) == multiset{el} + multiset(w.h[1..]);
    assert w.Pending() == [el] + (w.h[1..] + (Reverse(w.e) + w.r) + Reverse(w.t));
  }

  lemma SwapKeepsLinked(s: State, s': State, w: Lists, all: multiset<Addr>)
    requires Linked(s, w, all) && Current(s) && PopStep(s, s')
    requires s.consumer.PopSwapLoaded? || s.consumer.GetSwapLoaded?
    ensures var w' := ListsAfter(s, s', w); Linked(s', w', all) && w.Pending() == w'.Pending()
  {
    assert w.h == [];
    if s'.consumer != PopSwapTry && s'.consumer != GetSwapTry {
      assert [] + (Reverse(w.e) + w.r) + Reverse(w.t) == Reverse(w.t);
      assert [] + (Reverse(w.t) + []) + Reverse<Addr>([]) == Reverse(w.t);
    }
  }

  /** queue_pop reverses all but the oldest node and returns that one. */
  lemma PopEndKeepsLinked(s: State, s': State, w: Lists, all: multiset<Addr>)
    requires Linked(s, w, all) && s.consumer.PopLoop? && PopStep(s, s') && s'.consumer == Idle
    ensures var w' := Lists(w.r, [], [], w.t); var out := [s.consumer.el];
      && multiset(out) <= all
      && Linked(s', w', all - multiset(out))
      && w.Pending() == out + w'.Pending()
  {
    var el := s.consumer.el;
    assert w.h == [];
    assert Chain(s.next, NULL, w.e[1..]);
    assert w.e == [el];
    assert Reverse(w.e) == [el] by { assert Reverse(w.e[1..]) == []; }
    assert w.Pending() == [el] + Lists(w.r, [], [], w.t).Pending();
  }

  /** osAsyncQueueGet reverses everything. */
  lemma GetEndKeepsLinked(s: State, s': State, w: Lists, all: multiset<Addr>)
    requires Linked(s, w, all) && s.consumer.GetLoop? && s.consumer.el == NULL && PopStep(s, s')
    ensures var w' := Lists(w.r, [], [], w.t); Linked(s', w', all) && w.Pending() == w'.Pending()
  {
    assert w.h == [] && w.e == [];
    assert w.Pending() == Lists(w.r, [], [], w.t).Pending();
  }

  lemma TurnKeepsLinked(s: State, s': State, w: Lists, all: multiset<Addr>)
    requires Linked(s, w, all) && (s.consumer.PopLink? || s.consumer.GetLink?) && PopStep(s, s')
    requires all[s.consumer.el] <= 1
    ensures var w' := ListsAfter(s, s', w); Linked(s', w', all) && w.Pending() == w'.Pending()
  {
    var el, rev := s.consumer.el, s.consumer.rev;
    assert w.h == [];
    TurnOver(s.next, el, rev, w, s'.next, all);
    assert w.e == [el] + w.e[1..];
    assert el !in multiset(w.t);
    ChainHasNoNull(s.next, s.tail, w.t);
    ChainFrame(s.next, s'.next, s.tail, w.t);
  }

  /** Steps of the consumer that neither move a node nor return one. */
  lemma QuietKeepsLinked(s: State, s': State, w: Lists, all: multiset<Addr>)
    requires Linked(s, w, all) && PopStep(s, s')
    requires match s.consumer {
      case Idle => true case Take(_) => true case PopSwapTry => true case GetSwapTry => true
      case PopLoop(_, _) => s'.consumer != Idle
      case GetLoop(el, _) => el != NULL
      case _ => false
    }
    ensures ListsAfter(s, s', w) == w && Returned(s, s') == [] && Linked(s', w, all)
  {
    match s.consumer {
      case Idle => case Take(_) => case PopSwapTry => case GetSwapTry =>
      case PopLoop(_, _) => case GetLoop(_, _) =>
    }
  }

  lemma PopKeepsLinked(s: State, s': State, w: Lists, all: multiset<Addr>)
    requires Linked(s, w, all) && Current(s) && PopStep(s, s') && forall a :: a in all ==> all[a] == 1
    ensures var w' := ListsAfter(s, s', w); var out := Returned(s, s');
      && multiset(out) <= all
      && Linked(s', w', all - multiset(out))
      && w.Pending() == out + w'.Pending()
  {
    hide Linked, PopStep, Current;
    if Returned(s, s') == [] { assert all - multiset(Returned(s, s')) == all; }
    match s.consumer {
      case Idle => QuietKeepsLinked(s, s', w, all);
      case Take(_) => QuietKeepsLinked(s, s', w, all);
      case PopSwapTry => QuietKeepsLinked(s, s', w, all);
      case GetSwapTry => QuietKeepsLinked(s, s', w, all);
      case TakeNext(_, _) => TakeKeepsLinked(s, s', w, all);
      case PopSwapLoaded(_) => SwapKeepsLinked(s, s', w, all);
      case GetSwapLoaded(_) => SwapKeepsLinked(s, s', w, all);
      case PopLoop(_, _) =>
        if s'.consumer == Idle { PopEndKeepsLinked(s, s', w, all); } else { QuietKeepsLinked(s, s', w, all); }
      case GetLoop(el, _) =>
        if el == NULL { GetEndKeepsLinked(s, s', w, all); } else { QuietKeepsLinked(s, s', w, all); }
      case PopLink(_, _, _) => TurnKeepsLinked(s, s', w, all);
      case GetLink(_, _, _) => TurnKeepsLinked(s, s', w, all);
    }
  }

  /** A consumer step frees what it returns, and writes no link but that of its own node. */
  lemma PopFrees(s: State, s': State)
    requires PopStep(s, s')
    ensures s'.producers == s.producers && (forall a :: a in s.next ==> a in s'.next)
    ensures forall a :: a in s'.free <==> a in s.free || a in Returned(s, s')
    ensures forall a :: a in Returned(s, s') ==>
      a == s.consumer.el && (s.consumer.PopLoop? || s.consumer.TakeNext?)
  {
    match s.consumer {
      case Idle => case Take(_) => case TakeNext(_, _) =>
      case PopSwapTry => case PopSwapLoaded(_) => case PopLoop(_, _) => case PopLink(_, _, _) =>
      case GetSwapTry => case GetSwapLoaded(_) => case GetLoop(_, _) => case GetLink(_, _, _) =>
    }
  }

  lemma PopStaysPlaced(s: State, s': State, all: multiset<Addr>)
    requires Placed(s, all) && PopStep(s, s') && multiset(Returned(s, s')) <= all
    requires s.consumer.PopLink? || s.consumer.GetLink? || s.consumer.PopLoop? || s.consumer.TakeNext? ==>
               s.consumer.el != NULL && s.consumer.el in s.next
    ensures Placed(s', all - multiset(Returned(s, s')))
  {
    PopFrees(s, s');
    var back := Returned(s, s');
    assert forall a :: a in back ==> a in multiset(back) && multiset(back)[a] >= 1;
    hide PopStep, Returned;
    assert forall t, a :: Carries(s', t, a) <==> Carries(s, t, a);
  }

  lemma PopKeepsLog(s: State, s': State)
    requires PopStep(s, s')
    ensures s'.pushed == s.pushed && s'.popped == s.popped + Returned(s, s')
  {
    match s.consumer {
      case Idle => case Take(_) => case TakeNext(_, _) =>
      case PopSwapTry => case PopSwapLoaded(_) => case PopLoop(_, _) => case PopLink(_, _, _) =>
      case GetSwapTry => case GetSwapLoaded(_) => case GetLoop(_, _) => case GetLink(_, _, _) =>
    }
  }

  lemma ConsumerNode(s: State, w: Lists, all: multiset<Addr>)
    requires Linked(s, w, all) && Placed(s, all)
    requires s.consumer.PopLink? || s.consumer.GetLink? || s.consumer.PopLoop? || s.consumer.TakeNext?
    ensures s.consumer.el != NULL && s.consumer.el in s.next && s.consumer.el in all
  {
    var l := if s.consumer.TakeNext? then w.h else w.e;
    assert l != [] && l[0] == s.consumer.el && l[0] in multiset(l);
  }

  lemma PopKeepsInv(s: State, s': State, w: Lists, all: multiset<Addr>)
    requires Inv(s, w, all) && PopStep(s, s')
    ensures Inv(s', ListsAfter(s, s', w), all - multiset(Returned(s, s')))
  {
    if s.consumer.PopLink? || s.consumer.GetLink? || s.consumer.PopLoop? || s.consumer.TakeNext? {
      ConsumerNode(s, w, all);
    }
    PopStaysCurrent(s, s');
    PopKeepsLinked(s, s', w, all);
    PopStaysPlaced(s, s', all);
    PopKeepsLog(s, s');
    LogPop(s.pushed, s.popped, Returned(s, s'), ListsAfter(s, s', w).Pending());
  }

  lemma ScribbleKeepsInv(s: State, el: Addr, v: Addr, s': State, w: Lists, all: multiset<Addr>)
    requires Inv(s, w, all) && Scribble(s, el, v, s')
    ensures Inv(s', w, all)
  {
    LinkedFrame(s, s', w, all);
    assert forall t, a :: Carries(s', t, a) <==> Carries(s, t, a);
    assert forall t :: t in s.producers && s.producers[t].PushLinked? ==> Carries(s, t, s.producers[t].el);
  }

  lemma CallLosesNoNode(s: State, t: Tid, el: Addr, s': State, all: multiset<Addr>)
    requires t in s.producers && s.producers[t] == Out && PushCall(s, t, el, s')
    ensures forall a :: Somewhere(s', all, a) <==> Somewhere(s, all, a)
  {
    assert Carries(s', t, el);
    forall a ensures Somewhere(s', all, a) <==> Somewhere(s, all, a) {
      assert forall u :: u != t ==> (Carries(s', u, a) <==> Carries(s, u, a));
    }
  }

  lemma PushLosesNoNode(s: State, t: Tid, s': State, all: multiset<Addr>)
    requires t in s.producers && s.producers[t] != Out && PushStep(s, t, s') && t in s'.producers
    ensures s'.producers[t] != Out ==> forall a :: Somewhere(s', all, a) <==> Somewhere(s, all, a)
    ensures s'.producers[t] == Out ==>
      forall a :: Somewhere(s', all + multiset{s.producers[t].el}, a) <==> Somewhere(s, all, a)
  {
    var el := s.producers[t].el;
    var moved := s'.producers[t] == Out;
    assert s'.free == s.free && s'.producers == s.producers[t := s'.producers[t]] && (moved || s'.producers[t].el == el)
    by {
      match s.producers[t] { case PushTry(_) => case PushLoaded(_, _) => case PushLinked(_, _) => }
    }
    hide PushStep;
    assert Carries(s, t, el) && (!moved ==> Carries(s', t, el));
    forall a, u | u != t ensures Carries(s', u, a) <==> Carries(s, u, a) {}
    forall a ensures Carries(s, t, a) <==> a == el {}
    forall a ensures Carries(s', t, a) <==> !moved && a == el {}
  }

  lemma PopLosesNoNode(s: State, s': State, all: multiset<Addr>)
    requires PopStep(s, s') && multiset(Returned(s, s')) <= all && forall a :: a in all ==> all[a] == 1
    ensures forall a :: Somewhere(s', all - multiset(Returned(s, s')), a) <==> Somewhere(s, all, a)
  {
    PopFrees(s, s');
    var back := Returned(s, s');
    assert forall a :: a in back <==> a in multiset(back);
    hide PopStep, Returned;
    assert forall t, a :: Carries(s', t, a) <==> Carries(s, t, a);
  }

  ghost predicate SameNodes(s: State, all: multiset<Addr>, s': State, all': multiset<Addr>) {
    forall a :: Somewhere(s', all', a) <==> Somewhere(s, all, a)
  }

  lemma ProducerKeepsInv(s: State, t: Tid, s': State, w: Lists, all: multiset<Addr>)
      returns (w': Lists, all': multiset<Addr>)
    requires Inv(s, w, all) && t in s.producers && PushStep(s, t, s')
    ensures Inv(s', w', all') && SameNodes(s, all, s', all')
  {
    hide Inv, Somewhere;
    w', all' := w, all;
    PushKeepsLog(s, t, s');
    if s.producers[t] == Out {
      var el :| PushCall(s, t, el, s');
      PushCallKeepsInv(s, t, el, s', w, all);
      CallLosesNoNode(s, t, el, s', all);
    } else {
      PushLosesNoNode(s, t, s', all);
      if s'.producers[t] == Out {
        w', all' := w.(t := [s.producers[t].el] + w.t), all + multiset{s.producers[t].el};
        assert s.producers[t].PushLinked?;
        PushedKeepsInv(s, t, s', w, all);
      } else {
        PushQuietKeepsInv(s, t, s', w, all);
      }
    }
  }

  lemma ConsumerKeepsInv(s: State, s': State, w: Lists, all: multiset<Addr>)
    requires Inv(s, w, all) && PopStep(s, s')
    ensures var all' := all - multiset(Returned(s, s'));
      Inv(s', ListsAfter(s, s', w), all') && SameNodes(s, all, s', all')
  {
    hide Inv, PopStep, ListsAfter, Returned, Linked, Somewhere, ConsumerAt, Current;
    InvMeans(s, w, all);
    PopKeepsInv(s, s', w, all);
    PopKeepsLinked(s, s', w, all);
    PopLosesNoNode(s, s', all);
  }

  lemma ScribbleLosesNoNode(s: State, el: Addr, v: Addr, s': State, all: multiset<Addr>)
    requires Scribble(s, el, v, s')
    ensures SameNodes(s, all, s', all)
  {
    assert forall t, a :: Carries(s', t, a) <==> Carries(s, t, a);
  }

  lemma NextKeepsInv(s: State, s': State, w: Lists, all: multiset<Addr>) returns (w': Lists, all': multiset<Addr>)
    requires Inv(s, w, all) && Next(s, s')
    ensures Inv(s', w', all') && SameNodes(s, all, s', all')
  {
    hide Inv, SameNodes, PushStep, PopStep, Scribble;
    w', all' := w, all;
    if t :| t in s.producers && PushStep(s, t, s') {
      w', all' := ProducerKeepsInv(s, t, s', w, all);
    } else if PopStep(s, s') {
      w', all' := ListsAfter(s, s', w), all - multiset(Returned(s, s'));
      ConsumerKeepsInv(s, s', w, all);
    } else {
      var el, v :| Scribble(s, el, v, s');
      ScribbleKeepsInv(s, el, v, s', w, all);
      ScribbleLosesNoNode(s, el, v, s', all);
    }
  }

  // ----- main results

  lemma InitHasInv(s: State)
    requires Init(s)
    ensures Inv(s, Lists([], [], [], []), multiset{}) && forall a :: a in s.free <==> Somewhere(s, multiset{}, a)
  {
    var w := Lists([], [], [], []);
    assert w.Hold(multiset{});
  }

  lemma {:induction false} RunKeepsInv(r: seq<State>, i: nat)
    requires Run(r) && i < |r|
    ensures exists w, all :: Inv(r[i], w, all) && forall a :: a in r[0].free <==> Somewhere(r[i], all, a)
  {
    hide Inv, Init, Next, Somewhere;
    if i == 0 {
      InitHasInv(r[0]);
    } else {
      RunKeepsInv(r, i - 1);
      var w, all :| Inv(r[i - 1], w, all) && forall a :: a in r[0].free <==> Somewhere(r[i - 1], all, a);
      var w', all' := NextKeepsInv(r[i - 1], r[i], w, all);
      assert SameNodes(r[i - 1], all, r[i], all');
    }
  }

  /** In every state of every run, also in the middle of a reversal, the nodes popped so far are a prefix of
      the nodes pushed so far, and the rest is in the queue, each node exactly once. */
  lemma FirstInFirstOut(r: seq<State>, i: nat)
    requires Run(r) && i < |r|
    ensures r[i].popped <= r[i].pushed
    ensures exists w: Lists, all: multiset<Addr> ::
      && Linked(r[i], w, all)
      && r[i].pushed == r[i].popped + w.Pending()
      && forall a :: a in all ==> all[a] == 1 && a !in r[i].free && forall t :: !Carries(r[i], t, a)
  {
    RunKeepsInv(r, i);
    var w, all :| Inv(r[i], w, all);
  }

  /** No node is lost or invented: each is outside the queue, in one push, or in the queue once. */
  lemma EveryNodeInOnePlace(r: seq<State>, i: nat)
    requires Run(r) && i < |r|
    ensures exists w: Lists, all: multiset<Addr> ::
      && Linked(r[i], w, all) && Placed(r[i], all)
      && forall a :: a in r[0].free <==> Somewhere(r[i], all, a)
  {
    RunKeepsInv(r, i);
    var w, all :| Inv(r[i], w, all) && forall a :: a in r[0].free <==> Somewhere(r[i], all, a);
    hide Linked, Placed, Somewhere;
  }

  // ----- when the consumer is told that the queue is empty

  /** A call of the consumer ends without a node. */
  ghost predicate EndsEmpty(s: State, s': State) {
    s.consumer != Idle && s'.consumer == Idle && s'.popped == s.popped
  }

  /** In step j of the call that is going on at i the consumer took the list of the producers. */
  ghost predicate DetachedAt(r: seq<State>, j: nat, i: nat)
    requires i < |r|
  {
    && j < i && (r[j].consumer.PopSwapLoaded? || r[j].consumer.GetSwapLoaded?)
    && r[j + 1].tail == NULL && r[j + 1].pushed == r[j].pushed
    && forall k :: j < k < i ==> r[k].consumer != Idle && r[k].popped == r[j].popped
  }

  /** Everything pushed had been popped by then. */
  ghost predicate FoundEmpty(r: seq<State>, i: nat)
    requires i < |r|
  {
    exists j: nat :: DetachedAt(r, j, i) && r[j].pushed == r[j].popped && r[j].popped == r[i].popped
  }

  lemma NextOf(r: seq<State>, i: nat)
    requires Run(r) && i < |r| - 1
    ensures Next(r[i], r[i + 1])
  {}

  lemma OnlyConsumerMoves(s: State, s': State)
    requires Next(s, s') && s'.consumer != s.consumer
    ensures PopStep(s, s')
  {
    if t :| t in s.producers && PushStep(s, t, s') {
      match s.producers[t] { case Out => case PushTry(_) => case PushLoaded(_, _) => case PushLinked(_, _) => }
    }
  }

  lemma OthersPopNothing(s: State, s': State)
    requires Next(s, s') && s'.consumer == s.consumer
    ensures s'.popped == s.popped
  {
    if t :| t in s.producers && PushStep(s, t, s') {
      PushKeepsLog(s, t, s');
    } else if PopStep(s, s') {
      PopKeepsLog(s, s');
    }
  }

  /** The exchange that found nothing. */
  lemma DetachesNothing(s: State, s': State, w: Lists, all: multiset<Addr>)
    requires Inv(s, w, all) && PopStep(s, s')
    requires
      || (s.consumer.PopSwapLoaded? && s'.consumer == Idle)
      || (s.consumer.GetSwapLoaded? && s'.consumer == GetLoop(NULL, NULL))
    ensures s.pushed == s.popped && s'.head == NULL && s'.tail == NULL && s'.pushed == s.pushed && s'.popped == s.popped
  {
    assert w.t == [] && w.h == [];
    assert w.Pending() == [];
  }

  lemma BeforeGetLoop(s: State, s': State, w: Lists, all: multiset<Addr>)
    requires Inv(s, w, all) && PopStep(s, s') && s'.consumer == GetLoop(NULL, NULL) && s.consumer != s'.consumer
    ensures s.consumer.GetSwapLoaded?
  {
    if s.consumer.GetLink? { ConsumerNode(s, w, all); assert false; }
  }

  lemma FoundNow(r: seq<State>, i: nat)
    requires i + 1 < |r| && (r[i].consumer.PopSwapLoaded? || r[i].consumer.GetSwapLoaded?)
    requires var s, s' := r[i], r[i + 1];
      s.pushed == s.popped && s'.tail == NULL && s'.pushed == s.pushed && s'.popped == s.popped
    ensures FoundEmpty(r, i + 1)
  {
    assert DetachedAt(r, i, i + 1);
  }

  lemma FoundStays(r: seq<State>, i: nat)
    requires i + 1 < |r| && FoundEmpty(r, i) && r[i].consumer != Idle && r[i + 1].popped == r[i].popped
    ensures FoundEmpty(r, i + 1)
  {
    var j: nat :| DetachedAt(r, j, i) && r[j].pushed == r[j].popped && r[j].popped == r[i].popped;
    assert DetachedAt(r, j, i + 1);
  }

  /** A Get that has nothing to turn over, and turned nothing over, found nothing. */
  lemma {:induction false} GetFoundNothing(r: seq<State>, i: nat)
    requires Run(r) && i < |r| && r[i].consumer == GetLoop(NULL, NULL)
    ensures FoundEmpty(r, i)
  {
    hide Inv, Next, PopStep, FoundEmpty, Somewhere;
    if i > 0 {
      var j := i - 1;
      NextOf(r, j);
      RunKeepsInv(r, j);
      hide Run;
      var w, all :| Inv(r[j], w, all);
      if r[j].consumer == r[j + 1].consumer {
        GetFoundNothing(r, j);
        OthersPopNothing(r[j], r[j + 1]);
        FoundStays(r, j);
      } else {
        OnlyConsumerMoves(r[j], r[j + 1]);
        BeforeGetLoop(r[j], r[j + 1], w, all);
        DetachesNothing(r[j], r[j + 1], w, all);
        FoundNow(r, j);
      }
    }
  }

  /** How a call can end without a node. */
  lemma EndsEmptyWhere(s: State, s': State, w: Lists, all: multiset<Addr>)
    requires Inv(s, w, all) && PopStep(s, s') && EndsEmpty(s, s')
    ensures s.consumer.PopSwapLoaded? || s.consumer == GetLoop(NULL, NULL)
    ensures s'.head == NULL
  {
    PopKeepsLog(s, s');
    assert |Returned(s, s')| == 0;
    match s.consumer {
      case Idle => case Take(_) => case PopSwapTry => case GetSwapTry => case PopSwapLoaded(_) =>
      case GetSwapLoaded(_) => case GetLoop(_, _) => case _ =>
    }
  }

  /** Either consumer comes back with nothing only if its list is empty and, when in this call it took the list of
      the producers, everything pushed had been popped. */
  lemma EmptyMeansEmpty(r: seq<State>, i: nat)
    requires Run(r) && i < |r| - 1 && EndsEmpty(r[i], r[i + 1])
    ensures r[i + 1].head == NULL && FoundEmpty(r, i + 1)
  {
    hide Inv, Next, PopStep, FoundEmpty, Somewhere;
    NextOf(r, i);
    RunKeepsInv(r, i);
    var w, all :| Inv(r[i], w, all);
    OnlyConsumerMoves(r[i], r[i + 1]);
    EndsEmptyWhere(r[i], r[i + 1], w, all);
    if r[i].consumer.PopSwapLoaded? {
      DetachesNothing(r[i], r[i + 1], w, all);
      FoundNow(r, i);
    } else {
      GetFoundNothing(r, i);
      FoundStays(r, i);
    }
  }

  // ----- nobody is ever stuck: whoever is in a call can end it without the others

  /** r are steps of producer t, from inside a push to its end. */
  ghost predicate PushesAlone(r: seq<State>, t: Tid) {
    && r != [] && t in r[|r| - 1].producers && r[|r| - 1].producers[t] == Out
    && forall i :: 0 <= i < |r| - 1 ==>
         t in r[i].producers && r[i].producers[t] != Out && PushStep(r[i], t, r[i + 1])
  }

  lemma PushAloneFromTry(s: State, t: Tid, el: Addr) returns (r: seq<State>)
    requires t in s.producers && s.producers[t] == PushTry(el)
    ensures PushesAlone(r, t) && r[0] == s
    ensures var s' := r[|r| - 1];
      s' == Go(s, t, Out).(tail := el, next := s.next[el := s.tail], pushed := s.pushed + [el], monitor := s'.monitor)
  {
    var m := Ldrex(s.monitor, t, Tail);
    var s1 := Go(s, t, PushLoaded(el, s.tail)).(monitor := m);
    var s2 := Go(s1, t, PushLinked(el, s.tail)).(next := s.next[el := s.tail]);
    var s3 := Go(s2, t, Out).(tail := el, monitor := Stored(m, Tail), pushed := s.pushed + [el]);
    r := [s, s1, s2, s3];
    assert s3.producers == s.producers[t := Out];
  }

  lemma PushAloneThen(s: State, s1: State, t: Tid, q: seq<State>)
    requires t in s.producers && s.producers[t] != Out && PushStep(s, t, s1) && PushesAlone(q, t) && q[0] == s1
    ensures PushesAlone([s] + q, t)
  {
    hide PushStep;
    var r := [s] + q;
    forall i | 0 <= i < |r| - 1 ensures t in r[i].producers && r[i].producers[t] != Out && PushStep(r[i], t, r[i + 1]) {
      if i > 0 { assert r[i] == q[i - 1] && r[i + 1] == q[i - 1 + 1]; }
    }
  }

  /** Wherever a push has come to, it can be finished, and then its node is the last one pushed. */
  lemma PushAlone(s: State, t: Tid) returns (r: seq<State>)
    requires t in s.producers && s.producers[t] != Out
    ensures PushesAlone(r, t) && r[0] == s
    ensures var s', el := r[|r| - 1], s.producers[t].el;
      s' == Go(s, t, Out).(tail := el, next := s.next[el := s.tail], pushed := s.pushed + [el], monitor := s'.monitor)
    decreases s.producers[t].PushLoaded?
  {
    match s.producers[t] {
      case PushTry(el) =>
        r := PushAloneFromTry(s, t, el);
      case PushLinked(el, seen) =>
        var s1 := Go(s, t, PushTry(el)).(monitor := Clrex(s.monitor, t));
        r := PushAloneFromTry(s1, t, el);
        PushAloneThen(s, s1, t, r);
        assert s1.producers[t := Out] == s.producers[t := Out];
        r := [s] + r;
      case PushLoaded(el, seen) =>
        var s1 := Go(s, t, PushLinked(el, seen)).(next := s.next[el := seen]);
        r := PushAlone(s1, t);
        PushAloneThen(s, s1, t, r);
        assert s1.producers[t := Out] == s.producers[t := Out];
        assert s1.next[el := s.tail] == s.next[el := s.tail];
        r := [s] + r;
    }
  }

  /** How much of a call is left. */
  ghost function Rank(s: State, w: Lists): nat {
    match s.consumer
    case Idle => 0
    case TakeNext(_, _) => 1
    case Take(_) => 2
    case PopLoop(_, _) => 2 * |w.e| + 3
    case PopLink(_, _, _) => 2 * |w.e| + 2
    case GetLoop(_, _) => 2 * |w.e| + 3
    case GetLink(_, _, _) => 2 * |w.e| + 2
    case PopSwapTry => 2 * |w.t| + 5
    case GetSwapTry => 2 * |w.t| + 5
    case PopSwapLoaded(_) => 2 * |w.t| + if Holds(s.monitor, CONSUMER, Tail) then 4 else 6
    case GetSwapLoaded(_) => 2 * |w.t| + if Holds(s.monitor, CONSUMER, Tail) then 4 else 6
  }

  /** The consumer can always do a step that brings it nearer to the end of its call. */
  lemma GoOn(s: State, w: Lists, all: multiset<Addr>) returns (s': State)
    requires Inv(s, w, all) && s.consumer != Idle
    ensures PopStep(s, s') && Rank(s', ListsAfter(s, s', w)) < Rank(s, w)
  {
    match s.consumer {
      case Take(el) =>
        assert w.h != [] && w.h[0] == el;
        s' := s.(consumer := TakeNext(el, s.next[el]));
      case TakeNext(el, nx) => s' := Return(s, el).(head := nx);
      case PopSwapTry => s' := GoSwap(s, w);
      case PopSwapLoaded(_) => s' := GoSwap(s, w);
      case GetSwapTry => s' := GoSwap(s, w);
      case GetSwapLoaded(_) => s' := GoSwap(s, w);
      case _ => s' := GoTurn(s, w);
    }
  }

  lemma GoTurn(s: State, w: Lists) returns (s': State)
    requires ConsumerAt(s, w)
    requires s.consumer.PopLoop? || s.consumer.PopLink? || s.consumer.GetLoop? || s.consumer.GetLink?
    ensures PopStep(s, s') && Rank(s', ListsAfter(s, s', w)) < Rank(s, w)
  {
    match s.consumer {
      case PopLoop(el, rev) =>
        s' := if s.next[el] != NULL then s.(consumer := PopLink(el, rev, s.next[el])) else Return(s, el).(head := rev);
      case PopLink(el, rev, nx) => s' := s.(consumer := PopLoop(nx, el), next := s.next[el := rev]);
      case GetLoop(el, rev) =>
        s' := if el == NULL then s.(head := rev, consumer := if rev == NULL then Idle else Take(rev))
              else s.(consumer := GetLink(el, rev, s.next[el]));
      case GetLink(el, rev, nx) => s' := s.(consumer := GetLoop(nx, el), next := s.next[el := rev]);
    }
  }

  lemma GoSwap(s: State, w: Lists) returns (s': State)
    requires s.consumer.PopSwapTry? || s.consumer.PopSwapLoaded? || s.consumer.GetSwapTry? || s.consumer.GetSwapLoaded?
    ensures PopStep(s, s') && Rank(s', ListsAfter(s, s', w)) < Rank(s, w)
  {
    var mine := Ldrex(s.monitor, CONSUMER, Tail);
    match s.consumer {
      case PopSwapTry => s' := s.(consumer := PopSwapLoaded(s.tail), monitor := mine);
      case GetSwapTry => s' := s.(consumer := GetSwapLoaded(s.tail), monitor := mine);
      case PopSwapLoaded(v) =>
        s' := if Holds(s.monitor, CONSUMER, Tail)
              then s.(tail := NULL, monitor := Stored(s.monitor, Tail),
                      consumer := if v == NULL then Idle else PopLoop(v, NULL))
              else s.(consumer := PopSwapTry, monitor := Clrex(s.monitor, CONSUMER));
      case GetSwapLoaded(v) =>
        s' := if Holds(s.monitor, CONSUMER, Tail)
              then s.(tail := NULL, monitor := Stored(s.monitor, Tail), consumer := GetLoop(v, NULL))
              else s.(consumer := GetSwapTry, monitor := Clrex(s.monitor, CONSUMER));
    }
  }

  /** r are steps of the consumer, from inside a call to its end. */
  ghost predicate PopsAlone(r: seq<State>) {
    && r != [] && r[|r| - 1].consumer == Idle
    && forall i :: 0 <= i < |r| - 1 ==> r[i].consumer != Idle && PopStep(r[i], r[i + 1])
  }

  lemma PopsAloneThen(s: State, q: seq<State>)
    requires PopsAlone(q) && s.consumer != Idle && PopStep(s, q[0])
    ensures PopsAlone([s] + q)
  {
    hide PopStep;
    var r := [s] + q;
    forall i | 0 <= i < |r| - 1 ensures r[i].consumer != Idle && PopStep(r[i], r[i + 1]) {
      if i > 0 { assert r[i] == q[i - 1] && r[i + 1] == q[i - 1 + 1]; }
    }
  }

  /** The oldest node in the queue, if there is one. */
  function Oldest(q: seq<Addr>): seq<Addr> { if q == [] then [] else [q[0]] }

  /** A Get that has taken an empty list comes back with nothing, although others may have pushed meanwhile. */
  predicate TookNothing(s: State, w: Lists) {
    (s.consumer.GetLoop? || s.consumer.GetLink?) && w.e + w.r == [] && w.t != []
  }

  lemma AloneStays(s: State, s': State, w: Lists)
    requires ConsumerAt(s, w) && PopStep(s, s') && s.consumer != Idle && s'.consumer != Idle && !TookNothing(s, w)
    ensures Returned(s, s') == [] && !TookNothing(s', ListsAfter(s, s', w))
  {
    match s.consumer {
      case Take(_) => case TakeNext(_, _) => case PopSwapTry => case PopSwapLoaded(_) => case PopLoop(_, _) =>
      case PopLink(_, _, _) => case GetSwapTry => case GetSwapLoaded(_) =>
      case GetLoop(_, _) => case GetLink(_, _, _) =>
    }
  }

  lemma AloneReturns(s: State, s': State, w: Lists, all: multiset<Addr>)
    requires Inv(s, w, all) && PopStep(s, s') && s.consumer != Idle && s'.consumer == Idle && !TookNothing(s, w)
    ensures Returned(s, s') == Oldest(w.Pending())
  {
    PopKeepsLinked(s, s', w, all);
    PopKeepsLog(s, s');
    if Returned(s, s') == [] {
      hide PopStep, ListsAfter;
      EndsEmptyWhere(s, s', w, all);
      if s.consumer.PopSwapLoaded? { DetachesNothing(s, s', w, all); } else { assert w.e == [] && w.r == []; }
    } else {
      assert |Returned(s, s')| == 1;
      hide PopStep, Inv, ListsAfter, Returned;
    }
  }

  lemma InvMeans(s: State, w: Lists, all: multiset<Addr>)
    requires Inv(s, w, all)
    ensures Linked(s, w, all) && ConsumerAt(s, w) && Current(s) && forall a :: a in all ==> all[a] == 1
  {}

  /** What is to come of a call that has come to s: the consumer returns x, unless it took an empty list. */
  ghost predicate WillReturn(s: State, w: Lists, s': State, x: seq<Addr>) {
    !TookNothing(s, w) ==> s'.popped == s.popped + x
  }

  lemma ConsumerIs(s: State, w: Lists, all: multiset<Addr>)
    requires Inv(s, w, all)
    ensures ConsumerAt(s, w)
  {}

  lemma PopMeans(s: State, s': State, w: Lists, all: multiset<Addr>)
    requires Inv(s, w, all) && PopStep(s, s')
    ensures var w' := ListsAfter(s, s', w);
      && Inv(s', w', all - multiset(Returned(s, s')))
      && s'.popped == s.popped + Returned(s, s') && w.Pending() == Returned(s, s') + w'.Pending()
  {
    InvMeans(s, w, all);
    hide Inv, PopStep, ListsAfter, Returned, Linked, ConsumerAt, Current;
    PopKeepsInv(s, s', w, all);
    PopKeepsLog(s, s');
    PopKeepsLinked(s, s', w, all);
  }

  lemma AloneStep(s: State, w: Lists, all: multiset<Addr>) returns (s': State, w': Lists, all': multiset<Addr>)
    requires Inv(s, w, all) && s.consumer != Idle
    ensures PopStep(s, s') && Inv(s', w', all') && Rank(s', w') < Rank(s, w)
    ensures s'.consumer == Idle ==> WillReturn(s, w, s', Oldest(w.Pending()))
    ensures s'.consumer != Idle && !TookNothing(s, w) ==>
      s'.popped == s.popped && !TookNothing(s', w') && w'.Pending() == w.Pending()
  {
    hide Inv, PopStep, ListsAfter, Returned, Rank, TookNothing, Oldest, ConsumerAt;
    s' := GoOn(s, w, all);
    PopMeans(s, s', w, all);
    w', all' := ListsAfter(s, s', w), all - multiset(Returned(s, s'));
    hide Lists.Pending;
    if !TookNothing(s, w) {
      if s'.consumer == Idle { AloneReturns(s, s', w, all); } else { ConsumerIs(s, w, all); AloneStays(s, s', w); }
    }
  }

  /** Wherever the consumer's call has come to, it can be ended, and returns the oldest node. */
  lemma {:induction false} PopAlone(s: State, w: Lists, all: multiset<Addr>) returns (r: seq<State>)
    requires Inv(s, w, all) && s.consumer != Idle
    ensures PopsAlone(r) && r[0] == s && WillReturn(s, w, r[|r| - 1], Oldest(w.Pending()))
    decreases Rank(s, w)
  {
    hide Inv, PopStep, TookNothing, Rank;
    var s', w', all' := AloneStep(s, w, all);
    if s'.consumer == Idle {
      r := [s'];
      assert PopsAlone([s']);
    } else {
      r := PopAlone(s', w', all');
    }
    PopsAloneThen(s, r);
    r := [s] + r;
  }

  /** q is a whole call of the consumer that nobody disturbs, and what it returns is what was pushed first of all that
      has not been popped. */
  ghost predicate Serves(s: State, q: seq<State>) {
    && |q| > 1 && q[0] == s && PopStep(s, q[1]) && PopsAlone(q[1..])
    && |s.popped| <= |s.pushed|
    && q[|q| - 1].popped == s.popped + Oldest(s.pushed[|s.popped|..])
  }

  lemma FirstMoves(s: State, s1: State, w: Lists)
    requires s.consumer == Idle && PopStep(s, s1)
    ensures ListsAfter(s, s1, w) == w && Returned(s, s1) == []
    ensures s1.consumer != Idle && !TookNothing(s1, w) && s1.popped == s.popped
  {}

  lemma FirstStep(s: State, s1: State, w: Lists, all: multiset<Addr>)
    requires Inv(s, w, all) && s.consumer == Idle && PopStep(s, s1)
    ensures Inv(s1, w, all) && s1.consumer != Idle && !TookNothing(s1, w) && s1.popped == s.popped
  {
    hide Inv, PopStep, TookNothing;
    PopKeepsInv(s, s1, w, all);
    FirstMoves(s, s1, w);
    assert all - multiset([]) == all;
  }

  lemma PendingIsNext(s: State, w: Lists)
    requires Logged(s.pushed, s.popped, w.Pending())
    ensures |s.popped| <= |s.pushed| && s.pushed[|s.popped|..] == w.Pending()
  {}

  lemma CallServes(s: State, s1: State, w: Lists, all: multiset<Addr>) returns (q: seq<State>)
    requires Inv(s, w, all) && s.consumer == Idle && PopStep(s, s1)
    ensures Serves(s, q) && q[1] == s1
  {
    FirstStep(s, s1, w, all);
    PendingIsNext(s, w);
    hide Inv, PopStep, TookNothing, PopsAlone, Oldest, Lists.Pending;
    q := PopAlone(s1, w, all);
    assert ([s] + q)[1..] == q;
    q := [s] + q;
  }

  /** In every state of every run with the consumer idle both calls are possible, and undisturbed both return the
      oldest node, or nothing if everything has been popped. */
  lemma CallsReturnOldest(r: seq<State>, i: nat) returns (pop: seq<State>, get: seq<State>)
    requires Run(r) && i < |r| && r[i].consumer == Idle
    ensures Serves(r[i], pop) && Serves(r[i], get)
    ensures r[i].head == NULL ==> pop[1].consumer == PopSwapTry && get[1].consumer == GetSwapTry
  {
    RunKeepsInv(r, i);
    var s := r[i];
    var w, all :| Inv(s, w, all);
    hide Inv, Run, Serves;
    if s.head != NULL {
      pop := CallServes(s, s.(consumer := Take(s.head)), w, all);
      get := pop;
    } else {
      pop := CallServes(s, s.(consumer := PopSwapTry), w, all);
      get := CallServes(s, s.(consumer := GetSwapTry), w, all);
    }
  }

  /** In every state of every run whoever is in a call can end it without the others. */
  lemma EveryCallCanEnd(r: seq<State>, i: nat)
    requires Run(r) && i < |r|
    ensures r[i].consumer != Idle ==> exists q :: PopsAlone(q) && q[0] == r[i]
    ensures forall t :: t in r[i].producers && r[i].producers[t] != Out ==>
      exists q :: PushesAlone(q, t) && q[0] == r[i]
  {
    RunKeepsInv(r, i);
    var w, all :| Inv(r[i], w, all);
    hide Inv, Run, PopsAlone, PushesAlone;
    if r[i].consumer != Idle { var q := PopAlone(r[i], w, all); }
    forall t | t in r[i].producers && r[i].producers[t] != Out ensures exists q :: PushesAlone(q, t) && q[0] == r[i] {
      var q := PushAlone(r[i], t);
    }
  }

  /** osAsyncQueueInit: with any nodes and any producers the runs may start. */
  method QueueInit() returns (head: Addr, tail: Addr)
    ensures forall next: Links, free: set<Addr>, producers: map<Tid, Producer> ::
      NULL !in free && free <= next.Keys && CONSUMER !in producers
      && (forall t :: t in producers ==> producers[t] == Out)
      ==> Init(State(head, tail, next, map[], producers, Idle, free, [], []))
  {
    head, tail := NULL, NULL;
  }
}
