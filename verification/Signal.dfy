/** signal.c: the bounded ring of queued signals, many senders and one reader.

    A sender takes a free slot from the semaphore, draws a ticket from `wrpos`, fills the slot of that ticket and
    sets its ready bit. Senders may publish in any order. signal_queue_get evaluates the ready bit and throws the
    result away (signal.c:129 ends the `if` with a semicolon), so the machine lets the reader go on either way;
    `Disciplined` runs are those whose reader only calls it when the bit is set.
 */
module Signal {
  import opened Counting
  import opened Exclusive

  /** _POSIX_SIGQUEUE_MAX, signal.h:55; one 32-bit word of ready bits. */
  const MAX: nat := 32
  const WORD: nat := 0x1_0000_0000

  datatype Cell = Free | WrPos | ReadyWord
  const READER: Tid := 0

  datatype Info = Info(signo: int, value: int)

  /** `n` counts the reservations before this one; the code only computes `slot`. */
  datatype Sender =
    | Out
    | EnterTry(x: Info)
    | EnterLoaded(x: Info, c: int)
    | ReserveTry(x: Info)
    | ReserveLoaded(x: Info, p: nat)
    | WriteSigno(x: Info, n: nat, slot: nat)
    | WriteValue(x: Info, n: nat, slot: nat)
    | PublishTry(x: Info, n: nat, slot: nat)
    | PublishLoaded(x: Info, n: nat, slot: nat, w: set<nat>)

  datatype Reader =
    | Idle
    | CopySigno(slot: nat)
    | CopyValue(slot: nat, signo: int)
    | ClearTry(slot: nat, x: Info)
    | ClearLoaded(slot: nat, x: Info, w: set<nat>)
    | LeaveTry(x: Info)
    | LeaveLoaded(x: Info, c: int)
    | Advance(x: Info)

  type Ring = s: seq<Info> | |s| == MAX witness seq(MAX, i => Info(0, 0))

  /** `reserved` logs what each ticket is for, `delivered` what signal_queue_get returned, oldest first. */
  datatype State = State(
    free: int,
    wrpos: nat,
    rdpos: nat,
    ready: set<nat>,
    info: Ring,
    monitor: Monitor<Cell>,
    senders: map<Tid, Sender>,
    reader: Reader,
    reserved: seq<Info>,
    delivered: seq<Info>)

  // ----- steps

  function Go(s: State, t: Tid, p: Sender): State {
    s.(senders := s.senders[t := p])
  }

  ghost predicate SendCall(s: State, t: Tid, x: Info, s': State) {
    s' == Go(s, t, EnterTry(x))
  }

  /** The steps of sigqueue. */
  ghost predicate SendStep(s: State, t: Tid, s': State)
    requires t in s.senders
  {
    match s.senders[t]
    case Out => exists x :: SendCall(s, t, x, s')
    case EnterTry(x) =>
      if s.free == 0 then s' == Go(s, t, Out).(monitor := Clrex(s.monitor, t)) // EAGAIN
      else s' == Go(s, t, EnterLoaded(x, s.free)).(monitor := Ldrex(s.monitor, t, Free))
    case EnterLoaded(x, c) =>
      || (Holds(s.monitor, t, Free)
          && s' == Go(s, t, ReserveTry(x)).(free := c - 1, monitor := Stored(s.monitor, Free)))
      || s' == Go(s, t, EnterTry(x)).(monitor := Clrex(s.monitor, t))
    case ReserveTry(x) =>
      s' == Go(s, t, ReserveLoaded(x, s.wrpos)).(monitor := Ldrex(s.monitor, t, WrPos))
    case ReserveLoaded(x, p) =>
      || (Holds(s.monitor, t, WrPos)
          && s' == Go(s, t, WriteSigno(x, |s.reserved|, p % MAX)).(
               wrpos := (p + 1) % WORD, monitor := Stored(s.monitor, WrPos), reserved := s.reserved + [x]))
      || s' == Go(s, t, ReserveTry(x)).(monitor := Clrex(s.monitor, t))
    case WriteSigno(x, n, slot) =>
      slot < MAX && s' == Go(s, t, WriteValue(x, n, slot)).(info := s.info[slot := s.info[slot].(signo := x.signo)])
    case WriteValue(x, n, slot) =>
      slot < MAX && s' == Go(s, t, PublishTry(x, n, slot)).(info := s.info[slot := s.info[slot].(value := x.value)])
    case PublishTry(x, n, slot) =>
      s' == Go(s, t, PublishLoaded(x, n, slot, s.ready)).(monitor := Ldrex(s.monitor, t, ReadyWord))
    case PublishLoaded(x, n, slot, w) =>
      || (Holds(s.monitor, t, ReadyWord)
          && s' == Go(s, t, Out).(ready := w + {slot}, monitor := Stored(s.monitor, ReadyWord)))
      || s' == Go(s, t, PublishTry(x, n, slot)).(monitor := Clrex(s.monitor, t))
  }

  /** The steps of signal_queue_get. The first one looks at the ready bit, to no effect. */
  ghost predicate GetStep(s: State, s': State) {
    match s.reader
    case Idle => s' == s.(reader := CopySigno(s.rdpos % MAX))
    case CopySigno(slot) => slot < MAX && s' == s.(reader := CopyValue(slot, s.info[slot].signo))
    case CopyValue(slot, signo) => slot < MAX && s' == s.(reader := ClearTry(slot, Info(signo, s.info[slot].value)))
    case ClearTry(slot, x) =>
      s' == s.(reader := ClearLoaded(slot, x, s.ready), monitor := Ldrex(s.monitor, READER, ReadyWord))
    case ClearLoaded(slot, x, w) =>
      || (Holds(s.monitor, READER, ReadyWord)
          && s' == s.(ready := w - {slot}, monitor := Stored(s.monitor, ReadyWord), reader := LeaveTry(x)))
      || s' == s.(reader := ClearTry(slot, x), monitor := Clrex(s.monitor, READER))
    case LeaveTry(x) =>
      s' == s.(reader := LeaveLoaded(x, s.free), monitor := Ldrex(s.monitor, READER, Free))
    case LeaveLoaded(x, c) =>
      || (Holds(s.monitor, READER, Free)
          && s' == s.(free := c + 1, monitor := Stored(s.monitor, Free), reader := Advance(x)))
      || s' == s.(reader := LeaveTry(x), monitor := Clrex(s.monitor, READER))
    case Advance(x) =>
      s' == s.(rdpos := (s.rdpos + 1) % WORD, delivered := s.delivered + [x], reader := Idle)
  }

  ghost predicate Next(s: State, s': State) {
    || (exists t :: t in s.senders && SendStep(s, t, s'))
    || GetStep(s, s')
  }

  /** signal_queue_init. */
  ghost predicate Init(s: State) {
    && s.free == MAX && s.wrpos == 0 && s.rdpos == 0 && s.ready == {}
    && s.monitor == map[] && s.reader == Idle && s.reserved == [] && s.delivered == []
    && READER !in s.senders
    && forall t :: t in s.senders ==> s.senders[t] == Out
  }

  /** The test the author meant to make. */
  predicate ReadyToGet(s: State) {
    s.rdpos % MAX in s.ready
  }

  ghost predicate Run(r: seq<State>) {
    && r != []
    && Init(r[0])
    && forall i :: 0 <= i < |r| - 1 ==> Next(r[i], r[i + 1])
  }

  /** The reader starts signal_queue_get only when the bit it then ignores is set. */
  ghost predicate Disciplined(r: seq<State>) {
    forall i :: 0 <= i < |r| - 1 && r[i].reader == Idle && r[i + 1].reader != Idle ==> ReadyToGet(r[i])
  }

  // ----- the invariant

  /** Slots given back so far. The reader gives a slot back before it counts the delivery. */
  function Base(s: State): nat {
    |s.delivered| + Bit(s.reader.Advance?)
  }

  predicate Ticketed(p: Sender) {
    p.WriteSigno? || p.WriteValue? || p.PublishTry? || p.PublishLoaded?
  }

  /** Sender `t` is filling the slot of ticket `n`. */
  predicate Fills(s: State, t: Tid, n: nat) {
    t in s.senders && Ticketed(s.senders[t]) && s.senders[t].n == n
  }

  /** Has a slot but no ticket yet. */
  predicate Entered(p: Sender) {
    p.ReserveTry? || p.ReserveLoaded?
  }

  /** The reader has cleared the ready bit of its entry but not yet given the slot back. */
  predicate Releasing(r: Reader) {
    r.LeaveTry? || r.LeaveLoaded?
  }

  /** Ticket `n` is outstanding and its entry is complete. */
  ghost predicate Published(s: State, n: nat) {
    && Base(s) <= n < |s.reserved|
    && (forall t :: !Fills(s, t, n))
    && !(n == Base(s) && Releasing(s.reader))
  }

  /** Free slots + slots about to get a ticket + outstanding tickets are the whole ring. */
  ghost predicate Conserved(s: State) {
    && s.free >= 0
    && s.free + Count(s.senders, Entered) + (|s.reserved| - Base(s)) == MAX
    && s.wrpos == |s.reserved| % WORD
    && s.rdpos == |s.delivered| % WORD
  }

  /** Every sender with a ticket has an outstanding one of its own, and has filled in what it passed. */
  ghost predicate SenderAt(s: State, t: Tid)
    requires t in s.senders
  {
    match s.senders[t]
    case EnterLoaded(_, c) => c > 0 && (Holds(s.monitor, t, Free) ==> c == s.free)
    case ReserveLoaded(_, p) => Holds(s.monitor, t, WrPos) ==> p == s.wrpos
    case WriteSigno(x, n, slot) => HasTicket(s, x, n, slot)
    case WriteValue(x, n, slot) => HasTicket(s, x, n, slot) && s.info[slot].signo == x.signo
    case PublishTry(x, n, slot) => HasTicket(s, x, n, slot) && s.info[slot] == x
    case PublishLoaded(x, n, slot, w) =>
      HasTicket(s, x, n, slot) && s.info[slot] == x && (Holds(s.monitor, t, ReadyWord) ==> w == s.ready)
    case _ => true
  }

  ghost predicate HasTicket(s: State, x: Info, n: nat, slot: nat) {
    && Base(s) <= n < |s.reserved|
    && !(n == Base(s) && Releasing(s.reader))
    && s.reserved[n] == x
    && slot == n % MAX
  }

  ghost predicate SendersAt(s: State) {
    && READER !in s.senders
    && (forall t :: t in s.senders ==> SenderAt(s, t))
    && (forall t, u, n :: Fills(s, t, n) && Fills(s, u, n) ==> t == u)
  }

  /** The ready bits are exactly the published tickets, whose slots hold their entries. */
  ghost predicate RingAt(s: State) {
    && (forall n: nat :: Published(s, n) ==> n % MAX in s.ready && s.info[n % MAX] == s.reserved[n])
    && (forall i :: i in s.ready ==> exists n: nat :: Published(s, n) && n % MAX == i)
  }

  /** What the reader holds belongs to the oldest ticket not yet delivered. */
  ghost predicate ReaderAt(s: State) {
    var n := |s.delivered|;
    match s.reader
    case Idle => true
    case CopySigno(slot) => slot == n % MAX && Published(s, n)
    case CopyValue(slot, signo) => slot == n % MAX && Published(s, n) && signo == s.reserved[n].signo
    case ClearTry(slot, x) => slot == n % MAX && Published(s, n) && x == s.reserved[n]
    case ClearLoaded(slot, x, w) =>
      && slot == n % MAX && Published(s, n) && x == s.reserved[n]
      && (Holds(s.monitor, READER, ReadyWord) ==> w == s.ready)
    case LeaveTry(x) => n < |s.reserved| && x == s.reserved[n]
    case LeaveLoaded(x, c) => n < |s.reserved| && x == s.reserved[n] && (Holds(s.monitor, READER, Free) ==> c == s.free)
    case Advance(x) => n < |s.reserved| && x == s.reserved[n]
  }

  ghost predicate Inv(s: State) {
    && Conserved(s)
    && SendersAt(s)
    && RingAt(s)
    && ReaderAt(s)
    && s.delivered <= s.reserved
  }

  // ----- every step of a sender keeps the invariant

  lemma SlotsDiffer(m: nat, n: nat)
    requires m != n && m < n + MAX && n < m + MAX
    ensures m % MAX != n % MAX
  {}

  lemma PositionWraps(n: nat)
    ensures (n % WORD) % MAX == n % MAX
    ensures (n % WORD + 1) % WORD == (n + 1) % WORD
  {}

  lemma Outstanding(s: State)
    requires Conserved(s)
    ensures |s.reserved| - Base(s) <= MAX
    ensures forall t :: t in s.senders && Entered(s.senders[t]) ==> |s.reserved| - Base(s) < MAX
  {
    forall t | t in s.senders && Entered(s.senders[t]) ensures |s.reserved| - Base(s) < MAX {
      CountPositive(s.senders, t, Entered);
    }
  }

  lemma SendMoves(s: State, t: Tid, s': State)
    requires t in s.senders && SendStep(s, t, s')
    ensures t in s'.senders && s'.senders == s.senders[t := s'.senders[t]]
    ensures s'.reader == s.reader && s'.delivered == s.delivered && s'.rdpos == s.rdpos && s.reserved <= s'.reserved
    ensures forall u, c :: u != t && Holds(s'.monitor, u, c) ==> Holds(s.monitor, u, c)
    ensures s'.free == s.free || forall u :: u != t ==> !Holds(s'.monitor, u, Free)
    ensures s'.wrpos == s.wrpos || forall u :: u != t ==> !Holds(s'.monitor, u, WrPos)
    ensures s'.ready == s.ready || forall u :: u != t ==> !Holds(s'.monitor, u, ReadyWord)
  {
    match s.senders[t] {
      case Out => case EnterTry(_) => case EnterLoaded(_, _) => case ReserveTry(_) => case ReserveLoaded(_, _) =>
      case WriteSigno(_, _, _) => case WriteValue(_, _, _) =>
      case PublishTry(_, _, _) => case PublishLoaded(_, _, _, _) =>
    }
  }

  lemma SendConserves(s: State, t: Tid, s': State)
    requires Conserved(s) && t in s.senders && SenderAt(s, t) && SendStep(s, t, s')
    ensures Conserved(s')
  {
    SendMoves(s, t, s');
    CountUpdate(s.senders, t, s'.senders[t], Entered);
    PositionWraps(|s.reserved|);
    match s.senders[t] {
      case Out => case EnterTry(_) => case EnterLoaded(_, _) => case ReserveTry(_) => case ReserveLoaded(_, _) =>
      case WriteSigno(_, _, _) => case WriteValue(_, _, _) =>
      case PublishTry(_, _, _) => case PublishLoaded(_, _, _, _) =>
    }
  }

  /** The sender that moves ends up where it should be. */
  lemma SenderAdvances(s: State, t: Tid, s': State)
    requires Conserved(s) && t in s.senders && SenderAt(s, t) && SendStep(s, t, s') && s.delivered <= s.reserved
    requires ReaderAt(s)
    ensures t in s'.senders && SenderAt(s', t)
  {
    SendMoves(s, t, s');
    PositionWraps(|s.reserved|);
    match s.senders[t] {
      case Out => case EnterTry(_) => case EnterLoaded(_, _) => case ReserveTry(_) => case ReserveLoaded(_, _) =>
      case WriteSigno(_, _, _) => case WriteValue(_, _, _) =>
      case PublishTry(_, _, _) => case PublishLoaded(_, _, _, _) =>
    }
  }

  lemma SendKeepsTickets(s: State, t: Tid, s': State)
    requires t in s.senders && SendStep(s, t, s') && SenderAt(s, t)
    ensures forall u, n :: u != t ==> (Fills(s', u, n) <==> Fills(s, u, n))
    ensures forall n :: Fills(s', t, n) ==> Fills(s, t, n) || n == |s.reserved|
    ensures s'.senders[t] != Out ==> forall n :: Fills(s, t, n) ==> Fills(s', t, n)
    ensures s'.senders[t] != Out ==> s'.ready == s.ready
    ensures forall n :: n == |s.reserved| && Fills(s', t, n) ==> n < |s'.reserved|
  {
    SendMoves(s, t, s');
    match s.senders[t] {
      case Out => case EnterTry(_) => case EnterLoaded(_, _) => case ReserveTry(_) => case ReserveLoaded(_, _) =>
      case WriteSigno(_, _, _) => case WriteValue(_, _, _) =>
      case PublishTry(_, _, _) => case PublishLoaded(_, _, _, _) =>
    }
  }

  /** The slot a sender writes is not the slot of any other outstanding ticket. */
  lemma WritesOwnSlot(s: State, t: Tid, s': State)
    requires Conserved(s) && t in s.senders && SenderAt(s, t) && SendStep(s, t, s')
    ensures forall n: nat :: Base(s) <= n < |s.reserved| && !Fills(s, t, n) ==> s'.info[n % MAX] == s.info[n % MAX]
  {
    Outstanding(s);
    if s.senders[t].WriteSigno? || s.senders[t].WriteValue? {
      forall n: nat | Base(s) <= n < |s.reserved| && !Fills(s, t, n)
        ensures s'.info[n % MAX] == s.info[n % MAX]
      {
        SlotsDiffer(n, s.senders[t].n);
      }
    } else {
      assert s'.info == s.info by {
        match s.senders[t] {
          case Out => case EnterTry(_) => case EnterLoaded(_, _) => case ReserveTry(_) => case ReserveLoaded(_, _) =>
          case PublishTry(_, _, _) => case PublishLoaded(_, _, _, _) =>
        }
      }
    }
  }

  lemma OthersStay(s: State, t: Tid, s': State)
    requires Conserved(s) && SendersAt(s) && t in s.senders && SendStep(s, t, s')
    ensures forall u :: u in s.senders && u != t ==> u in s'.senders && SenderAt(s', u)
  {
    SendMoves(s, t, s');
    WritesOwnSlot(s, t, s');
    forall u | u in s.senders && u != t ensures u in s'.senders && SenderAt(s', u) {
      assert SenderAt(s, u) && s'.senders[u] == s.senders[u];
      if Ticketed(s.senders[u]) {
        assert Fills(s, u, s.senders[u].n) && !Fills(s, t, s.senders[u].n);
      }
    }
  }

  lemma SendKeepsPublished(s: State, t: Tid, s': State)
    requires SendersAt(s) && t in s.senders && SendStep(s, t, s')
    ensures t in s'.senders
    ensures forall n: nat :: Published(s, n) ==> Published(s', n)
    ensures forall n: nat :: Published(s', n) ==> Published(s, n) || Fills(s, t, n)
    ensures s'.senders[t] != Out ==> forall n: nat :: Published(s', n) ==> Published(s, n)
  {
    assert SenderAt(s, t);
    SendMoves(s, t, s');
    SendKeepsTickets(s, t, s');
    NewTicket(s, t, s');
    forall n: nat | Published(s', n) ensures n < |s.reserved| && (Published(s, n) || Fills(s, t, n)) {
      assert Fills(s', t, |s.reserved|) || |s'.reserved| == |s.reserved|;
      if exists u :: Fills(s, u, n) {
        var u :| Fills(s, u, n);
        assert !Fills(s', u, n);
      }
    }
  }

  lemma NewTicket(s: State, t: Tid, s': State)
    requires t in s.senders && SendStep(s, t, s')
    ensures |s'.reserved| > |s.reserved| ==> |s'.reserved| == |s.reserved| + 1 && Fills(s', t, |s.reserved|)
  {
    match s.senders[t] {
      case Out => case EnterTry(_) => case EnterLoaded(_, _) => case ReserveTry(_) => case ReserveLoaded(_, _) =>
      case WriteSigno(_, _, _) => case WriteValue(_, _, _) =>
      case PublishTry(_, _, _) => case PublishLoaded(_, _, _, _) =>
    }
  }

  lemma SendKeepsRing(s: State, t: Tid, s': State)
    requires Conserved(s) && SendersAt(s) && RingAt(s) && t in s.senders && SendStep(s, t, s')
    ensures RingAt(s')
  {
    assert SenderAt(s, t);
    SendMoves(s, t, s');
    SendKeepsTickets(s, t, s');
    SendKeepsPublished(s, t, s');
    WritesOwnSlot(s, t, s');
    if s.senders[t].PublishLoaded? && s'.senders[t] == Out {
      var n := s.senders[t].n;
      assert Fills(s, t, n);
      assert Published(s', n) by {
        forall u ensures !Fills(s', u, n) { assert u != t ==> !Fills(s, u, n); }
      }
      assert s'.ready == s.ready + {n % MAX} && s'.info == s.info;
    } else {
      assert s'.ready == s.ready && forall n :: Fills(s, t, n) ==> Fills(s', t, n) by {
        match s.senders[t] {
          case Out => case EnterTry(_) => case EnterLoaded(_, _) => case ReserveTry(_) => case ReserveLoaded(_, _) =>
          case WriteSigno(_, _, _) => case WriteValue(_, _, _) =>
          case PublishTry(_, _, _) => case PublishLoaded(_, _, _, _) =>
        }
      }
      forall n: nat | Published(s', n) ensures Published(s, n) {}
    }
  }

  lemma SendKeepsReader(s: State, t: Tid, s': State)
    requires SendersAt(s) && ReaderAt(s) && t in s.senders && SendStep(s, t, s')
    ensures ReaderAt(s')
  {
    SendMoves(s, t, s');
    SendKeepsPublished(s, t, s');
    match s.reader {
      case Idle => case CopySigno(_) => case CopyValue(_, _) => case ClearTry(_, _) => case ClearLoaded(_, _, _) =>
      case LeaveTry(_) => case LeaveLoaded(_, _) => case Advance(_) =>
    }
  }

  lemma SendKeepsInv(s: State, t: Tid, s': State)
    requires Inv(s) && t in s.senders && SendStep(s, t, s')
    ensures Inv(s')
  {
    assert SenderAt(s, t);
    SendMoves(s, t, s');
    SendConserves(s, t, s');
    SenderAdvances(s, t, s');
    OthersStay(s, t, s');
    SendKeepsUnique(s, t, s');
    SendKeepsRing(s, t, s');
    SendKeepsReader(s, t, s');
  }

  lemma SendKeepsUnique(s: State, t: Tid, s': State)
    requires SendersAt(s) && t in s.senders && SendStep(s, t, s')
    ensures forall u, v, n :: Fills(s', u, n) && Fills(s', v, n) ==> u == v
  {
    assert SenderAt(s, t);
    SendKeepsTickets(s, t, s');
    forall u, n: nat | u != t && Fills(s, u, n) ensures n < |s.reserved| {
      assert SenderAt(s, u);
    }
  }

  // ----- every step of a disciplined reader keeps the invariant

  lemma GetConserves(s: State, s': State)
    requires Conserved(s) && ReaderAt(s) && GetStep(s, s')
    ensures Conserved(s')
  {
    PositionWraps(|s.delivered|);
    match s.reader {
      case Idle => case CopySigno(_) => case CopyValue(_, _) => case ClearTry(_, _) => case ClearLoaded(_, _, _) =>
      case LeaveTry(_) => case LeaveLoaded(_, _) => case Advance(_) =>
    }
  }

  lemma GetMoves(s: State, s': State)
    requires GetStep(s, s')
    ensures s'.senders == s.senders && s'.reserved == s.reserved && s'.info == s.info && s'.wrpos == s.wrpos
    ensures forall u, c :: u != READER && Holds(s'.monitor, u, c) ==> Holds(s.monitor, u, c)
    ensures s'.free == s.free || forall u :: u != READER ==> !Holds(s'.monitor, u, Free)
    ensures s'.ready == s.ready || forall u :: u != READER ==> !Holds(s'.monitor, u, ReadyWord)
    ensures Base(s) <= Base(s') <= Base(s) + 1
    ensures Base(s') == Base(s) + 1 ==> Releasing(s.reader)
    ensures Base(s') == Base(s) && Releasing(s'.reader) && !Releasing(s.reader) ==> s.reader.ClearLoaded?
  {
    match s.reader {
      case Idle => case CopySigno(_) => case CopyValue(_, _) => case ClearTry(_, _) => case ClearLoaded(_, _, _) =>
      case LeaveTry(_) => case LeaveLoaded(_, _) => case Advance(_) =>
    }
  }

  lemma GetKeepsSenders(s: State, s': State)
    requires SendersAt(s) && ReaderAt(s) && GetStep(s, s')
    ensures SendersAt(s')
  {
    GetMoves(s, s');
    forall t | t in s'.senders ensures SenderAt(s', t) {
      assert SenderAt(s, t);
      if Ticketed(s.senders[t]) {
        assert Fills(s, t, s.senders[t].n);
      }
    }
    assert forall t, n :: Fills(s', t, n) <==> Fills(s, t, n);
  }

  lemma GetKeepsReader(s: State, s': State)
    requires ReaderAt(s) && RingAt(s) && GetStep(s, s') && s.delivered <= s.reserved
    requires s.reader == Idle ==> Published(s, |s.delivered|) && s.rdpos % MAX == |s.delivered| % MAX
    ensures ReaderAt(s')
  {
    GetMoves(s, s');
    assert forall t, n :: Fills(s', t, n) <==> Fills(s, t, n);
    match s.reader {
      case Idle => case CopySigno(_) => case CopyValue(_, _) => case ClearTry(_, _) => case ClearLoaded(_, _, _) =>
      case LeaveTry(_) => case LeaveLoaded(_, _) => case Advance(_) =>
    }
  }

  lemma GetKeepsRing(s: State, s': State)
    requires Conserved(s) && RingAt(s) && ReaderAt(s) && GetStep(s, s')
    ensures RingAt(s')
  {
    GetMoves(s, s');
    Outstanding(s);
    assert forall t, n :: Fills(s', t, n) <==> Fills(s, t, n);
    if s.reader.ClearLoaded? && s'.reader.LeaveTry? {
      var b := Base(s);
      assert s'.ready == s.ready - {b % MAX};
      forall n: nat ensures Published(s', n) <==> Published(s, n) && n != b {}
      forall n: nat | Published(s, n) && n != b ensures n % MAX != b % MAX {
        SlotsDiffer(n, b);
      }
    } else {
      assert s'.ready == s.ready by {
        match s.reader {
          case Idle => case CopySigno(_) => case CopyValue(_, _) => case ClearTry(_, _) => case ClearLoaded(_, _, _) =>
          case LeaveTry(_) => case LeaveLoaded(_, _) => case Advance(_) =>
        }
      }
      forall n: nat ensures Published(s', n) <==> Published(s, n) {
        match s.reader {
          case Idle => case CopySigno(_) => case CopyValue(_, _) => case ClearTry(_, _) => case ClearLoaded(_, _, _) =>
          case LeaveTry(_) => case LeaveLoaded(_, _) => case Advance(_) =>
        }
      }
    }
  }

  /** With the reader idle, the bit it is about to ignore says whether the oldest outstanding entry is complete. */
  lemma ReadyBitMeansPublished(s: State)
    requires Conserved(s) && RingAt(s) && s.reader == Idle
    ensures s.rdpos % MAX == |s.delivered| % MAX
    ensures ReadyToGet(s) <==> Published(s, |s.delivered|)
  {
    PositionWraps(|s.delivered|);
    Outstanding(s);
    if ReadyToGet(s) {
      var n: nat :| Published(s, n) && n % MAX == s.rdpos % MAX;
      if n != |s.delivered| {
        SlotsDiffer(n, |s.delivered|);
      }
    }
  }

  lemma GetKeepsInv(s: State, s': State)
    requires Inv(s) && GetStep(s, s')
    requires s.reader == Idle ==> ReadyToGet(s)
    ensures Inv(s')
  {
    if s.reader == Idle {
      ReadyBitMeansPublished(s);
    }
    GetConserves(s, s');
    GetKeepsSenders(s, s');
    GetKeepsReader(s, s');
    GetKeepsRing(s, s');
    GetKeepsPrefix(s, s');
  }

  lemma GetKeepsPrefix(s: State, s': State)
    requires ReaderAt(s) && GetStep(s, s') && s.delivered <= s.reserved
    ensures s'.delivered <= s'.reserved
  {
    match s.reader {
      case Idle => case CopySigno(_) => case CopyValue(_, _) => case ClearTry(_, _) => case ClearLoaded(_, _, _) =>
      case LeaveTry(_) => case LeaveLoaded(_, _) => case Advance(_) =>
    }
  }

  // ----- main results

  lemma {:induction false} RunKeepsInv(r: seq<State>, i: nat)
    requires Run(r) && Disciplined(r) && i < |r|
    ensures Inv(r[i])
  {
    if i == 0 {
      CountZero(r[0].senders, Entered);
      assert forall t :: t in r[0].senders ==> SenderAt(r[0], t);
    } else {
      RunKeepsInv(r, i - 1);
      var s, s' := r[i - 1], r[i];
      assert Next(s, s');
      if t :| t in s.senders && SendStep(s, t, s') {
        SendKeepsInv(s, t, s');
      } else {
        assert s.reader == Idle ==> s'.reader != Idle;
        GetKeepsInv(s, s');
      }
    }
  }

  /** Deliveries come in the order of reservation, whatever the order of publication, with none lost, repeated
      or made up; free slots, slots about to get a ticket and outstanding tickets always make up the ring. */
  lemma DeliveredInReservationOrder(r: seq<State>, i: nat)
    requires Run(r) && Disciplined(r) && i < |r|
    ensures r[i].delivered <= r[i].reserved
    ensures 0 <= r[i].free <= MAX
    ensures r[i].free + Count(r[i].senders, Entered) + (|r[i].reserved| - Base(r[i])) == MAX
  {
    RunKeepsInv(r, i);
  }

  /** A sender about to write a slot writes one whose previous entry the reader has already given back,
      and which no other sender and no complete entry occupies. */
  lemma NoSlotOverwritten(r: seq<State>, i: nat, t: Tid)
    requires Run(r) && Disciplined(r) && i < |r| && t in r[i].senders
    requires r[i].senders[t].WriteSigno? || r[i].senders[t].WriteValue?
    ensures var p := r[i].senders[t];
      && p.slot == p.n % MAX && p.slot !in r[i].ready
      && Base(r[i]) <= p.n < Base(r[i]) + MAX
      && (forall u :: u != t && u in r[i].senders && Ticketed(r[i].senders[u]) ==> r[i].senders[u].slot != p.slot)
      && (forall n: nat :: Published(r[i], n) ==> n % MAX != p.slot)
  {
    RunKeepsInv(r, i);
    var s := r[i];
    assert SenderAt(s, t);
    Outstanding(s);
    assert Fills(s, t, s.senders[t].n);
    forall n: nat | Published(s, n) ensures n % MAX != s.senders[t].slot {
      assert n != s.senders[t].n;
      SlotsDiffer(n, s.senders[t].n);
    }
    forall u | u != t && u in s.senders && Ticketed(s.senders[u]) ensures s.senders[u].slot != s.senders[t].slot {
      assert SenderAt(s, u) && Fills(s, u, s.senders[u].n);
      SlotsDiffer(s.senders[u].n, s.senders[t].n);
    }
  }

  // ----- how a call ends

  lemma NextOf(r: seq<State>, i: nat)
    requires Run(r) && i + 1 < |r|
    ensures Next(r[i], r[i + 1])
  {}

  lemma OnlyOwnStepsMove(s: State, s': State, t: Tid)
    requires Next(s, s') && t in s.senders && t in s'.senders && s'.senders[t] != s.senders[t]
    ensures SendStep(s, t, s')
  {
    if u :| u in s.senders && SendStep(s, u, s') { SendMoves(s, u, s'); }
    if GetStep(s, s') { GetMoves(s, s'); }
  }

  lemma SendEndsWhere(s: State, t: Tid, s': State)
    requires t in s.senders && SendStep(s, t, s') && s.senders[t] != Out && t in s'.senders && s'.senders[t] == Out
    ensures (s.senders[t].EnterTry? && s.free == 0 && s'.ready == s.ready && s'.reserved == s.reserved)
         || (s.senders[t].PublishLoaded? && Holds(s.monitor, t, ReadyWord)
             && s'.ready == s.senders[t].w + {s.senders[t].slot})
  {
    match s.senders[t] {
      case EnterTry(_) => case EnterLoaded(_, _) => case ReserveTry(_) => case ReserveLoaded(_, _) =>
      case WriteSigno(_, _, _) => case WriteValue(_, _, _) =>
      case PublishTry(_, _, _) => case PublishLoaded(_, _, _, _) =>
    }
  }

  /** sigqueue refuses only when every slot is taken, by an entry not yet given back or by a sender before its ticket;
      otherwise it ends with its entry complete and its ready bit set. */
  lemma SendEnds(r: seq<State>, i: nat, t: Tid)
    requires Run(r) && Disciplined(r) && i + 1 < |r| && t in r[i].senders && t in r[i + 1].senders
    requires r[i].senders[t] != Out && r[i + 1].senders[t] == Out
    ensures
      || (&& r[i].senders[t].EnterTry? && r[i].free == 0
          && Count(r[i].senders, Entered) + (|r[i].reserved| - Base(r[i])) == MAX
          && r[i + 1].ready == r[i].ready && r[i + 1].reserved == r[i].reserved)
      || (&& Ticketed(r[i].senders[t]) && r[i].senders[t].n < |r[i].reserved|
          && r[i].reserved[r[i].senders[t].n] == r[i].senders[t].x
          && r[i + 1].ready == r[i].ready + {r[i].senders[t].n % MAX}
          && r[i + 1].info[r[i].senders[t].n % MAX] == r[i].senders[t].x)
  {
    RunKeepsInv(r, i);
    NextOf(r, i);
    OnlyOwnStepsMove(r[i], r[i + 1], t);
    SendEndsWhere(r[i], t, r[i + 1]);
    assert SenderAt(r[i], t);
    hide Run, Next;
  }

  /** The message of a call stays the same to its end, and it is what the ticket is drawn for. */
  lemma SendsItsMessage(s: State, t: Tid, s': State)
    requires t in s.senders && SendStep(s, t, s') && s.senders[t] != Out && t in s'.senders
    ensures s'.senders[t] != Out ==> s'.senders[t].x == s.senders[t].x
    ensures s'.reserved == s.reserved || s'.reserved == s.reserved + [s.senders[t].x]
    ensures Ticketed(s'.senders[t]) && !Ticketed(s.senders[t]) ==> s'.reserved != s.reserved
  {
    match s.senders[t] {
      case EnterTry(_) => case EnterLoaded(_, _) => case ReserveTry(_) => case ReserveLoaded(_, _) =>
        assert |s.reserved + [s.senders[t].x]| == |s.reserved| + 1;
      case WriteSigno(_, _, _) => case WriteValue(_, _, _) =>
      case PublishTry(_, _, _) => case PublishLoaded(_, _, _, _) =>
    }
  }

  // ----- a thread alone

  /** r are steps of sender t from inside a call to its end. */
  ghost predicate SendsAlone(r: seq<State>, t: Tid) {
    && r != [] && t in r[|r| - 1].senders && r[|r| - 1].senders[t] == Out
    && forall i :: 0 <= i < |r| - 1 ==> t in r[i].senders && r[i].senders[t] != Out && SendStep(r[i], t, r[i + 1])
  }

  lemma AloneThen(s: State, t: Tid, q: seq<State>)
    requires SendsAlone(q, t) && t in s.senders && s.senders[t] != Out && SendStep(s, t, q[0])
    ensures SendsAlone([s] + q, t)
  {
    hide SendStep;
    var r := [s] + q;
    forall i | 0 <= i < |r| - 1
      ensures t in r[i].senders && r[i].senders[t] != Out && SendStep(r[i], t, r[i + 1])
    {
      if i > 0 { assert r[i] == q[i - 1] && r[i + 1] == q[i - 1 + 1]; }
    }
  }

  lemma PublishAlone(s: State, t: Tid) returns (r: seq<State>)
    requires t in s.senders && s.senders[t].PublishTry?
    ensures SendsAlone(r, t) && r[0] == s
    ensures var s' := r[|r| - 1];
      s' == Go(s, t, Out).(ready := s.ready + {s.senders[t].slot}, monitor := s'.monitor)
  {
    var PublishTry(x, n, slot) := s.senders[t];
    var m := Ldrex(s.monitor, t, ReadyWord);
    var s1 := Go(s, t, PublishLoaded(x, n, slot, s.ready)).(monitor := m);
    var s2 := Go(s, t, Out).(ready := s.ready + {slot}, monitor := Stored(m, ReadyWord));
    r := [s, s1, s2];
    assert s2.senders == s1.senders[t := Out];
  }

  lemma ValueAlone(s: State, t: Tid) returns (r: seq<State>)
    requires t in s.senders && s.senders[t].WriteValue? && s.senders[t].slot < MAX
    ensures SendsAlone(r, t) && r[0] == s
    ensures var s', x, slot := r[|r| - 1], s.senders[t].x, s.senders[t].slot;
      s' == Go(s, t, Out).(info := s.info[slot := s.info[slot].(value := x.value)], ready := s.ready + {slot},
                           monitor := s'.monitor)
  {
    var WriteValue(x, n, slot) := s.senders[t];
    var s1 := Go(s, t, PublishTry(x, n, slot)).(info := s.info[slot := s.info[slot].(value := x.value)]);
    r := PublishAlone(s1, t);
    AloneThen(s, t, r);
    r := [s] + r;
    assert s1.senders[t := Out] == s.senders[t := Out];
  }

  lemma SignoAlone(s: State, t: Tid) returns (r: seq<State>)
    requires t in s.senders && s.senders[t].WriteSigno? && s.senders[t].slot < MAX
    ensures SendsAlone(r, t) && r[0] == s
    ensures var s', x, slot := r[|r| - 1], s.senders[t].x, s.senders[t].slot;
      s' == Go(s, t, Out).(info := s.info[slot := x], ready := s.ready + {slot}, monitor := s'.monitor)
  {
    var WriteSigno(x, n, slot) := s.senders[t];
    var s1 := Go(s, t, WriteValue(x, n, slot)).(info := s.info[slot := s.info[slot].(signo := x.signo)]);
    r := ValueAlone(s1, t);
    AloneThen(s, t, r);
    r := [s] + r;
    assert s1.senders[t := Out] == s.senders[t := Out];
    assert s1.info[slot := s1.info[slot].(value := x.value)] == s.info[slot := x];
  }

  lemma ReserveAlone(s: State, t: Tid) returns (r: seq<State>)
    requires t in s.senders && s.senders[t].ReserveTry?
    ensures SendsAlone(r, t) && r[0] == s
    ensures var s', x, slot := r[|r| - 1], s.senders[t].x, s.wrpos % MAX;
      s' == Go(s, t, Out).(wrpos := (s.wrpos + 1) % WORD, reserved := s.reserved + [x],
                           info := s.info[slot := x], ready := s.ready + {slot}, monitor := s'.monitor)
  {
    var x, slot := s.senders[t].x, s.wrpos % MAX;
    var m := Ldrex(s.monitor, t, WrPos);
    var s1 := Go(s, t, ReserveLoaded(x, s.wrpos)).(monitor := m);
    var s2 := Go(s1, t, WriteSigno(x, |s.reserved|, slot)).(
                wrpos := (s.wrpos + 1) % WORD, monitor := Stored(m, WrPos), reserved := s.reserved + [x]);
    r := SignoAlone(s2, t);
    AloneThen(s1, t, r);
    AloneThen(s, t, [s1] + r);
    r := [s] + ([s1] + r);
    assert s2.senders[t := Out] == s.senders[t := Out];
  }

  /** A call with a free slot: its message is reserved, in its slot, and its bit set. */
  lemma SendAlone(s: State, t: Tid) returns (r: seq<State>)
    requires t in s.senders && s.senders[t].EnterTry? && s.free != 0
    ensures SendsAlone(r, t) && r[0] == s
    ensures var s', x, slot := r[|r| - 1], s.senders[t].x, s.wrpos % MAX;
      s' == Go(s, t, Out).(free := s.free - 1, wrpos := (s.wrpos + 1) % WORD, reserved := s.reserved + [x],
                           info := s.info[slot := x], ready := s.ready + {slot}, monitor := s'.monitor)
  {
    var x := s.senders[t].x;
    var m := Ldrex(s.monitor, t, Free);
    var s1 := Go(s, t, EnterLoaded(x, s.free)).(monitor := m);
    var s2 := Go(s1, t, ReserveTry(x)).(free := s.free - 1, monitor := Stored(m, Free));
    r := ReserveAlone(s2, t);
    AloneThen(s1, t, r);
    AloneThen(s, t, [s1] + r);
    r := [s] + ([s1] + r);
    assert s2.senders[t := Out] == s.senders[t := Out];
  }

  /** Wherever a sender has come to. */
  lemma SenderCanEnd(s: State, t: Tid) returns (r: seq<State>)
    requires t in s.senders && s.senders[t] != Out && SenderAt(s, t)
    ensures SendsAlone(r, t) && r[0] == s
  {
    var m := Clrex(s.monitor, t);
    match s.senders[t] {
      case EnterTry(x) =>
        if s.free != 0 { r := SendAlone(s, t); } else { r := [s, Go(s, t, Out).(monitor := m)]; }
      case EnterLoaded(x, _) =>
        var s1 := Go(s, t, EnterTry(x)).(monitor := m);
        if s.free != 0 { r := SendAlone(s1, t); } else { r := [s1, Go(s1, t, Out).(monitor := Clrex(m, t))]; }
        AloneThen(s, t, r);
        r := [s] + r;
      case ReserveTry(_) => r := ReserveAlone(s, t);
      case ReserveLoaded(x, _) =>
        r := ReserveAlone(Go(s, t, ReserveTry(x)).(monitor := m), t);
        AloneThen(s, t, r);
        r := [s] + r;
      case WriteSigno(_, _, _) => r := SignoAlone(s, t);
      case WriteValue(_, _, _) => r := ValueAlone(s, t);
      case PublishTry(_, _, _) => r := PublishAlone(s, t);
      case PublishLoaded(x, n, slot, _) =>
        r := PublishAlone(Go(s, t, PublishTry(x, n, slot)).(monitor := m), t);
        AloneThen(s, t, r);
        r := [s] + r;
    }
  }

  /** r are steps of the reader from inside a call to its end. */
  ghost predicate GetsAlone(r: seq<State>) {
    && r != [] && r[|r| - 1].reader == Idle
    && forall i :: 0 <= i < |r| - 1 ==> r[i].reader != Idle && GetStep(r[i], r[i + 1])
  }

  lemma GetThen(s: State, q: seq<State>)
    requires GetsAlone(q) && s.reader != Idle && GetStep(s, q[0])
    ensures GetsAlone([s] + q)
  {
    hide GetStep;
    var r := [s] + q;
    forall i | 0 <= i < |r| - 1 ensures r[i].reader != Idle && GetStep(r[i], r[i + 1]) {
      if i > 0 { assert r[i] == q[i - 1] && r[i + 1] == q[i - 1 + 1]; }
    }
  }

  function StepsLeft(s: State): nat {
    match s.reader
    case Idle => 0
    case Advance(_) => 1
    case LeaveLoaded(_, _) => if Holds(s.monitor, READER, Free) then 2 else 4
    case LeaveTry(_) => 3
    case ClearLoaded(_, _, _) => if Holds(s.monitor, READER, ReadyWord) then 5 else 7
    case ClearTry(_, _) => 6
    case CopyValue(_, _) => 8
    case CopySigno(_) => 9
  }

  lemma ReaderGoesOn(s: State) returns (s': State)
    requires s.reader != Idle && ReaderAt(s)
    ensures GetStep(s, s') && StepsLeft(s') < StepsLeft(s)
  {
    var m := Clrex(s.monitor, READER);
    match s.reader {
      case CopySigno(slot) => s' := s.(reader := CopyValue(slot, s.info[slot].signo));
      case CopyValue(slot, signo) => s' := s.(reader := ClearTry(slot, Info(signo, s.info[slot].value)));
      case ClearTry(slot, x) =>
        s' := s.(reader := ClearLoaded(slot, x, s.ready), monitor := Ldrex(s.monitor, READER, ReadyWord));
      case ClearLoaded(slot, x, w) =>
        s' := if Holds(s.monitor, READER, ReadyWord)
              then s.(ready := w - {slot}, monitor := Stored(s.monitor, ReadyWord), reader := LeaveTry(x))
              else s.(reader := ClearTry(slot, x), monitor := m);
      case LeaveTry(x) => s' := s.(reader := LeaveLoaded(x, s.free), monitor := Ldrex(s.monitor, READER, Free));
      case LeaveLoaded(x, c) =>
        s' := if Holds(s.monitor, READER, Free)
              then s.(free := c + 1, monitor := Stored(s.monitor, Free), reader := Advance(x))
              else s.(reader := LeaveTry(x), monitor := m);
      case Advance(x) =>
        s' := s.(rdpos := (s.rdpos + 1) % WORD, delivered := s.delivered + [x], reader := Idle);
    }
  }

  lemma {:induction false} ReaderCanEnd(s: State) returns (r: seq<State>)
    requires Inv(s) && s.reader != Idle
    ensures GetsAlone(r) && r[0] == s
    decreases StepsLeft(s)
  {
    var s' := ReaderGoesOn(s);
    hide GetStep, Inv;
    GetKeepsInv(s, s');
    if s'.reader == Idle { r := [s']; } else { r := ReaderCanEnd(s'); }
    GetThen(s, r);
    r := [s] + r;
  }

  /** In every state of every disciplined run whoever is in a call can end it without the others. */
  lemma EveryCallCanEnd(r: seq<State>, i: nat)
    requires Run(r) && Disciplined(r) && i < |r|
    ensures r[i].reader != Idle ==> exists q :: GetsAlone(q) && q[0] == r[i]
    ensures forall t :: t in r[i].senders && r[i].senders[t] != Out ==> exists q :: SendsAlone(q, t) && q[0] == r[i]
  {
    RunKeepsInv(r, i);
    hide Run, GetsAlone, SendsAlone;
    if r[i].reader != Idle { var q := ReaderCanEnd(r[i]); }
    forall t | t in r[i].senders && r[i].senders[t] != Out ensures exists q :: SendsAlone(q, t) && q[0] == r[i] {
      var q := SenderCanEnd(r[i], t);
    }
  }

  // ----- what the ignored test costs

  /** The state after a whole call of signal_queue_get that nobody interrupts. */
  function GetAlone(s: State): State {
    var slot := s.rdpos % MAX;
    s.(free := s.free + 1,
       ready := s.ready - {slot},
       rdpos := (s.rdpos + 1) % WORD,
       monitor := Stored(Ldrex(Stored(Ldrex(s.monitor, READER, ReadyWord), ReadyWord), READER, Free), Free),
       delivered := s.delivered + [s.info[slot]])
  }

  lemma GetAloneIsACall(s: State) returns (r: seq<State>)
    requires s.reader == Idle
    ensures r != [] && r[0] == s && r[|r| - 1] == GetAlone(s)
    ensures forall i :: 0 <= i < |r| - 1 ==> GetStep(r[i], r[i + 1])
    ensures forall i :: 0 < i < |r| - 1 ==> r[i].reader != Idle
  {
    var slot := s.rdpos % MAX;
    var x := s.info[slot];
    var s1 := s.(reader := CopySigno(slot));
    var s2 := s1.(reader := CopyValue(slot, x.signo));
    var s3 := s2.(reader := ClearTry(slot, x));
    var s4 := s3.(reader := ClearLoaded(slot, x, s.ready), monitor := Ldrex(s.monitor, READER, ReadyWord));
    var s5 := s4.(reader := LeaveTry(x), ready := s.ready - {slot}, monitor := Stored(s4.monitor, ReadyWord));
    var s6 := s5.(reader := LeaveLoaded(x, s.free), monitor := Ldrex(s5.monitor, READER, Free));
    var s7 := s6.(reader := Advance(x), free := s.free + 1, monitor := Stored(s6.monitor, Free));
    r := [s, s1, s2, s3, s4, s5, s6, s7, GetAlone(s)];
  }

  lemma {:induction false} GetRunKeepsInv(r: seq<State>, i: nat)
    requires i < |r| && Inv(r[0]) && (r[0].reader == Idle ==> ReadyToGet(r[0]))
    requires forall j :: 0 <= j < |r| - 1 ==> GetStep(r[j], r[j + 1])
    requires forall j :: 0 < j < |r| - 1 ==> r[j].reader != Idle
    ensures Inv(r[i])
  {
    if i > 0 {
      GetRunKeepsInv(r, i - 1);
      GetKeepsInv(r[i - 1], r[i]);
    }
  }

  /** A call of signal_queue_get leaves the ring in order exactly when the bit it ignores is set. */
  lemma GetSafeIff(s: State)
    requires Inv(s) && s.reader == Idle
    ensures Inv(GetAlone(s)) <==> ReadyToGet(s)
  {
    ReadyBitMeansPublished(s);
    if ReadyToGet(s) {
      var r := GetAloneIsACall(s);
      GetRunKeepsInv(r, |r| - 1);
    } else {
      var n := |s.delivered|;
      if n < |s.reserved| {
        var t :| Fills(s, t, n);
        assert !SenderAt(GetAlone(s), t);
      }
    }
  }

  /** On a fresh ring it delivers an entry that was never sent, and there is one free slot too many. */
  lemma FreshRingDelivers(s: State)
    requires Init(s)
    ensures !ReadyToGet(s)
    ensures s.reserved == [] && |GetAlone(s).delivered| == 1 && GetAlone(s).free == 33
  {}

  /** Over whole runs: the ring is in order in every state exactly when no call began on a clear bit. */
  lemma DisciplinedIff(r: seq<State>)
    requires Run(r)
    ensures Disciplined(r) <==> forall i :: 0 <= i < |r| ==> Inv(r[i])
  {
    hide Inv;
    if Disciplined(r) {
      forall i | 0 <= i < |r| ensures Inv(r[i]) { RunKeepsInv(r, i); }
    } else {
      var i :| 0 <= i < |r| - 1 && r[i].reader == Idle && r[i + 1].reader != Idle && !ReadyToGet(r[i]);
      assert Next(r[i], r[i + 1]);
      if Inv(r[i]) { EarlyCallBreaks(r[i], r[i + 1]); }
    }
  }

  lemma EarlyCallBreaks(s: State, s': State)
    requires Inv(s) && Next(s, s') && s.reader == Idle && s'.reader != Idle && !ReadyToGet(s)
    ensures !Inv(s')
  {
    if t :| t in s.senders && SendStep(s, t, s') { SendMoves(s, t, s'); assert false; }
    ReadyBitMeansPublished(s);
    assert forall t, n :: Fills(s', t, n) <==> Fills(s, t, n);
    assert !Published(s', |s'.delivered|);
  }

  // ----- and a run in which such a call costs two messages

  lemma Then(r: seq<State>, s: State) returns (r': seq<State>)
    requires Run(r) && Next(r[|r| - 1], s)
    ensures Run(r') && r'[|r'| - 1] == s
  {
    r' := r + [s];
    hide Next;
  }

  lemma ThenSend(r: seq<State>, t: Tid, s: State) returns (r': seq<State>)
    requires Run(r) && t in r[|r| - 1].senders && SendStep(r[|r| - 1], t, s)
    ensures Run(r') && r'[|r'| - 1] == s
  {
    hide Run, SendStep;
    r' := Then(r, s);
  }

  /** Thread t, undisturbed, takes a free slot. */
  lemma SendUntilEntered(r: seq<State>, t: Tid, x: Info) returns (r': seq<State>)
    requires Run(r) && var s := r[|r| - 1]; t in s.senders && s.senders[t] == Out && s.free > 0
    ensures Run(r')
    ensures var s, s' := r[|r| - 1], r'[|r'| - 1];
      s' == Go(s, t, ReserveTry(x)).(free := s.free - 1, monitor := s'.monitor)
  {
    var s := r[|r| - 1];
    hide Run;
    assert SendCall(s, t, x, Go(s, t, EnterTry(x)));
    r' := ThenSend(r, t, Go(s, t, EnterTry(x)));
    var m := Ldrex(s.monitor, t, Free);
    r' := ThenSend(r', t, Go(s, t, EnterLoaded(x, s.free)).(monitor := m));
    r' := ThenSend(r', t, Go(s, t, ReserveTry(x)).(free := s.free - 1, monitor := Stored(m, Free)));
  }

  /** And draws a ticket. */
  lemma SendUntilTicket(r: seq<State>, t: Tid, x: Info) returns (r': seq<State>)
    requires Run(r) && var s := r[|r| - 1]; t in s.senders && s.senders[t] == Out && s.free > 0 && s.wrpos + 1 < WORD
    ensures Run(r')
    ensures var s, s' := r[|r| - 1], r'[|r'| - 1];
      s' == Go(s, t, WriteSigno(x, |s.reserved|, s.wrpos % MAX)).(
              free := s.free - 1, wrpos := s.wrpos + 1, reserved := s.reserved + [x], monitor := s'.monitor)
  {
    var s := r[|r| - 1];
    r' := SendUntilEntered(r, t, x);
    hide Run;
    var s1 := r'[|r'| - 1];
    var m := Ldrex(s1.monitor, t, WrPos);
    r' := ThenSend(r', t, Go(s1, t, ReserveLoaded(x, s.wrpos)).(monitor := m));
    r' := ThenSend(r', t, Go(s1, t, WriteSigno(x, |s.reserved|, s.wrpos % MAX)).(
                            wrpos := s.wrpos + 1, monitor := Stored(m, WrPos), reserved := s.reserved + [x]));
  }

  /** And does the first of its two stores. */
  lemma SendUntilValue(r: seq<State>, t: Tid, x: Info) returns (r': seq<State>)
    requires Run(r) && var s := r[|r| - 1]; t in s.senders && s.senders[t] == Out && s.free > 0 && s.wrpos + 1 < WORD
    ensures Run(r')
    ensures var s, s' := r[|r| - 1], r'[|r'| - 1]; var slot := s.wrpos % MAX;
      s' == Go(s, t, WriteValue(x, |s.reserved|, slot)).(
              free := s.free - 1, wrpos := s.wrpos + 1, reserved := s.reserved + [x], monitor := s'.monitor,
              info := s.info[slot := s.info[slot].(signo := x.signo)])
  {
    var s := r[|r| - 1];
    r' := SendUntilTicket(r, t, x);
    hide Run;
    var s1, slot := r'[|r'| - 1], s.wrpos % MAX;
    r' := ThenSend(r', t, Go(s1, t, WriteValue(x, |s.reserved|, slot)).(
                            info := s.info[slot := s.info[slot].(signo := x.signo)]));
  }

  /** And as far as to the end. */
  lemma SendAll(r: seq<State>, t: Tid, x: Info) returns (r': seq<State>)
    requires Run(r) && var s := r[|r| - 1]; t in s.senders && s.senders[t] == Out && s.free > 0 && s.wrpos + 1 < WORD
    ensures Run(r')
    ensures var s, s' := r[|r| - 1], r'[|r'| - 1]; var slot := s.wrpos % MAX;
      s' == s.(free := s.free - 1, wrpos := s.wrpos + 1, reserved := s.reserved + [x], monitor := s'.monitor,
               info := s.info[slot := x], ready := s.ready + {slot})
  {
    var s := r[|r| - 1];
    r' := SendUntilValue(r, t, x);
    hide Run;
    var s1 := r'[|r'| - 1].(info := s.info[s.wrpos % MAX := x]);
    r' := ThenSend(r', t, Go(s1, t, PublishTry(x, |s.reserved|, s.wrpos % MAX)));
    var m := Ldrex(s1.monitor, t, ReadyWord);
    r' := ThenSend(r', t, Go(s1, t, PublishLoaded(x, |s.reserved|, s.wrpos % MAX, s.ready)).(monitor := m));
    var s2 := Go(s1, t, Out).(ready := s.ready + {s.wrpos % MAX}, monitor := Stored(m, ReadyWord));
    r' := ThenSend(r', t, s2);
    assert s2.senders == s.senders;
  }

  /** The same k times over, from position 1 on: the 32nd entry goes into slot 0. */
  lemma {:induction false} SendMany(r: seq<State>, t: Tid, x: Info, k: nat) returns (r': seq<State>)
    requires Run(r) && k <= MAX
    requires var s := r[|r| - 1]; t in s.senders && s.senders[t] == Out && s.free == MAX && s.wrpos == 1
    ensures Run(r')
    ensures var s, s' := r[|r| - 1], r'[|r'| - 1];
      && s' == s.(free := MAX - k, wrpos := 1 + k, reserved := s.reserved + seq(k, _ => x), monitor := s'.monitor,
                  info := s'.info, ready := s'.ready)
      && (if k < MAX then s'.info[0] == s.info[0] else s'.info[0] == x && 0 in s'.ready)
  {
    r' := r;
    if k > 0 {
      r' := SendMany(r, t, x, k - 1);
      assert seq(k, _ => x) == seq(k - 1, _ => x) + [x];
      hide Run;
      r' := SendAll(r', t, x);
    }
  }

  lemma ThenGetAlone(r: seq<State>) returns (r': seq<State>)
    requires Run(r) && r[|r| - 1].reader == Idle
    ensures Run(r') && r'[|r'| - 1] == GetAlone(r[|r| - 1])
  {
    var s := r[|r| - 1];
    var q := GetAloneIsACall(s);
    r' := r + q[1..];
  }

  /** A sender has stored the first half of its entry when the reader calls: the caller gets half a message, and the
      slot counts as given back. Another sender may then draw the ticket of the same slot, fill it and publish it
      before the first one stores its second half there: what is published is nobody's message. */
  lemma EarlyGetCosts() returns (r: seq<State>)
    ensures Run(r)
    ensures var s := r[|r| - 1];
      && s.delivered == [Info(1, 0)] && Info(1, 0) !in s.reserved
      && 0 in s.ready && s.info[0] == Info(2, 1) && Info(2, 1) !in s.reserved
    ensures !Disciplined(r)
  {
    var zeros: Ring := seq(MAX, _ => Info(0, 0));
    var x, y := Info(1, 1), Info(2, 2);
    var s0 := State(MAX, 0, 0, {}, zeros, map[], map[1 := Out, 2 := Out], Idle, [], []);
    r := [s0];
    r := SendUntilValue(r, 1, x);
    r := ThenGetAlone(r);
    r := SendMany(r, 2, y, MAX);
    var s := r[|r| - 1];
    r := ThenSend(r, 1, Go(s, 1, PublishTry(x, 0, 0)).(info := s.info[0 := s.info[0].(value := 1)]));
    NotAMessage(r, Info(1, 0));
  }

  lemma NotAMessage(r: seq<State>, x: Info)
    requires Run(r) && var s := r[|r| - 1]; x in s.delivered && x !in s.reserved
    ensures !Disciplined(r)
  {
    if Disciplined(r) { DeliveredInReservationOrder(r, |r| - 1); }
  }

  /** signal_queue_init puts the ring into the state the runs start from. */
  method QueueInit(info: Ring) returns (free: int, wrpos: nat, rdpos: nat, ready: set<nat>)
    ensures Init(State(free, wrpos, rdpos, ready, info, map[], map[], Idle, [], []))
  {
    ready := {};
    wrpos := 0;
    rdpos := 0;
    free := MAX;
  }
}
