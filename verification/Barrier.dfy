/** pthread.c:558-578: a barrier made of a counter and a semaphore, used over and over by the same threads. */
module Barrier {
  import opened Counting
  import opened Exclusive

  datatype Cell = Arrivals | Tokens

  datatype Pc =
    | Out
    // atomic_fetch_add
    | AddTry
    | AddLoaded(c: int)
    // the last to arrive sets the semaphore
    | Release
    // sem_wait
    | WaitTry
    | WaitLoaded(c: int)
    | Blocked
    // atomic_fetch_sub
    | SubTry
    | SubLoaded(c: int)
    | Left(serial: bool)

  /** A log: `round` counts the calls each thread has made before the one it is in or has just left, and `serial`
      holds the round of every call that returned PTHREAD_BARRIER_SERIAL_THREAD. */
  datatype State = State(
    count: int,
    threshold: int,
    tokens: int,
    monitor: Monitor<Cell>,
    pc: map<Tid, Pc>,
    round: map<Tid, nat>,
    serial: multiset<nat>)

  function Go(s: State, t: Tid, p: Pc): State { s.(pc := s.pc[t := p]) }

  /** The steps of pthread_barrier_wait. A thread that has left may call again at any moment. */
  ghost predicate Step(s: State, t: Tid, s': State)
    requires t in s.pc && t in s.round
  {
    match s.pc[t]
    case Out => s' == Go(s, t, AddTry)
    case AddTry => s' == Go(s, t, AddLoaded(s.count)).(monitor := Ldrex(s.monitor, t, Arrivals))
    case AddLoaded(c) =>
      || (Holds(s.monitor, t, Arrivals)
          && s' == Go(s, t, if c < s.threshold then WaitTry else Release).(count := c + 1,
                                                                          monitor := Stored(s.monitor, Arrivals)))
      || s' == Go(s, t, AddTry).(monitor := Clrex(s.monitor, t))
    case Release => s' == Go(s, t, SubTry).(tokens := s.threshold, monitor := Stored(s.monitor, Tokens))
    case WaitTry =>
      if s.tokens == 0 then s' == Go(s, t, Blocked).(monitor := Clrex(s.monitor, t))
      else s' == Go(s, t, WaitLoaded(s.tokens)).(monitor := Ldrex(s.monitor, t, Tokens))
    case WaitLoaded(c) =>
      || (Holds(s.monitor, t, Tokens)
          && s' == Go(s, t, SubTry).(tokens := c - 1, monitor := Stored(s.monitor, Tokens)))
      || s' == Go(s, t, WaitTry).(monitor := Clrex(s.monitor, t))
    case Blocked =>
      s.tokens > 0 && s' == Go(s, t, SubTry).(tokens := s.tokens - 1, monitor := Stored(s.monitor, Tokens))
    case SubTry => s' == Go(s, t, SubLoaded(s.count)).(monitor := Ldrex(s.monitor, t, Arrivals))
    case SubLoaded(c) =>
      || (Holds(s.monitor, t, Arrivals)
          && s' == Go(s, t, Left(c == 1)).(count := c - 1, monitor := Stored(s.monitor, Arrivals),
                                           serial := if c == 1 then s.serial + multiset{s.round[t]} else s.serial))
      || s' == Go(s, t, SubTry).(monitor := Clrex(s.monitor, t))
    case Left(_) => s' == Go(s, t, AddTry).(round := s.round[t := s.round[t] + 1])
  }

  ghost predicate StepOf(s: State, t: Tid, s': State) { t in s.pc && t in s.round && Step(s, t, s') }

  /** pthread_barrier_init for the threads that will use the barrier. */
  ghost predicate Init(s: State) {
    && s.pc != map[] && s.count == 0 && s.tokens == 0 && s.threshold == |s.pc| - 1
    && s.monitor == map[] && s.serial == multiset{}
    && s.round.Keys == s.pc.Keys
    && forall t :: t in s.pc ==> s.pc[t] == Out && s.round[t] == 0
  }

  /** A run and the threads whose steps it is made of. */
  ghost predicate Run(r: seq<State>, who: seq<Tid>) {
    && r != [] && |who| == |r| - 1
    && Init(r[0])
    && forall i :: 0 <= i < |who| ==> StepOf(r[i], who[i], r[i + 1])
  }

  // ----- what a barrier is for

  /** Between its fetch_add and its fetch_sub. */
  predicate Inside(p: Pc) { !p.Out? && !p.AddTry? && !p.AddLoaded? && !p.Left? }

  /** Past the waiting. */
  predicate Past(p: Pc) { p.SubTry? || p.SubLoaded? || p.Left? }

  predicate ArrivedIn(s: State, u: Tid, n: nat)
    requires u in s.pc && u in s.round
  {
    s.round[u] > n || (s.round[u] == n && (Inside(s.pc[u]) || s.pc[u].Left?))
  }

  /** Thread u has done its fetch_sub of round n. */
  predicate Done(s: State, u: Tid, n: nat) {
    u in s.pc && u in s.round && (s.round[u] > n || (s.round[u] == n && s.pc[u].Left?))
  }

  ghost predicate AllDone(s: State, n: nat) { forall u :: u in s.pc ==> Done(s, u, n) }

  /** Some thread is past the barrier in a round that another has not reached. */
  ghost predicate Early(s: State) {
    exists t, u :: t in s.pc && u in s.pc && t in s.round && u in s.round &&
      Past(s.pc[t]) && !ArrivedIn(s, u, s.round[t])
  }

  /** The step is an arrival. */
  predicate Arrives(s: State, t: Tid, s': State) {
    t in s.pc && t in s'.pc && s.pc[t].AddLoaded? && (s'.pc[t].WaitTry? || s'.pc[t].Release?)
  }

  /** Nobody arrives for a round before everyone has left the last one. */
  ghost predicate CleanStep(s: State, t: Tid, s': State) {
    Arrives(s, t, s') && t in s.round && s.round[t] > 0 ==> AllDone(s, s.round[t] - 1)
  }

  ghost predicate Clean(r: seq<State>, who: seq<Tid>, m: nat)
    requires m <= |who| < |r|
  {
    forall i :: 0 <= i < m ==> CleanStep(r[i], who[i], r[i + 1])
  }

  // ----- what holds in every run

  ghost predicate Current(s: State, t: Tid)
    requires t in s.pc
  {
    match s.pc[t]
    case AddLoaded(c) => Holds(s.monitor, t, Arrivals) ==> c == s.count
    case SubLoaded(c) => Holds(s.monitor, t, Arrivals) ==> c == s.count
    case WaitLoaded(c) => c > 0 && (Holds(s.monitor, t, Tokens) ==> c == s.tokens)
    case _ => true
  }

  /** The counter counts the threads between arrival and departure. */
  ghost predicate Counted(s: State) {
    && s.pc != map[] && s.round.Keys == s.pc.Keys && s.threshold == |s.pc| - 1 && s.tokens >= 0
    && s.count == Count(s.pc, Inside)
    && forall t :: t in s.pc ==> Current(s, t)
  }

  lemma Moves(s: State, t: Tid, s': State)
    requires StepOf(s, t, s')
    ensures t in s'.pc && s'.pc == s.pc[t := s'.pc[t]] && s'.pc.Keys == s.pc.Keys && |s'.pc| == |s.pc|
    ensures s'.threshold == s.threshold
    ensures s'.round == if s.pc[t].Left? then s.round[t := s.round[t] + 1] else s.round
  {
    match s.pc[t] {
      case Out => case AddTry => case AddLoaded(_) => case Release => case WaitTry => case WaitLoaded(_) =>
      case Blocked => case SubTry => case SubLoaded(_) => case Left(_) =>
    }
    assert s'.pc.Keys == s.pc.Keys;
    assert |s'.pc| == |s'.pc.Keys| && |s.pc| == |s.pc.Keys|;
  }

  /** What each step does to the counters. */
  lemma Deltas(s: State, t: Tid, s': State)
    requires StepOf(s, t, s') && Current(s, t) && t in s'.pc
    ensures var p, p' := s.pc[t], s'.pc[t];
      && s'.count == s.count + Bit(Inside(p')) - Bit(Inside(p))
      && (Waits(p) && !Waits(p') ==> s.tokens > 0)
      && s'.tokens == (if p.Release? then s.threshold else s.tokens - Bit(Waits(p) && !Waits(p')))
      && s'.serial == if p.SubLoaded? && p'.Left? && s.count == 1 then s.serial + multiset{s.round[t]} else s.serial
  {
    match s.pc[t] {
      case Out => case AddTry => case AddLoaded(_) => case Release => case WaitTry => case WaitLoaded(_) =>
      case Blocked => case SubTry => case SubLoaded(_) => case Left(_) =>
    }
  }

  predicate Waits(p: Pc) { p.WaitTry? || p.WaitLoaded? || p.Blocked? }

  /** And where it takes the thread. */
  lemma Places(s: State, t: Tid, s': State)
    requires StepOf(s, t, s') && Current(s, t) && t in s'.pc
    ensures var p, p' := s.pc[t], s'.pc[t];
      match p {
        case Out => p'.AddTry?
        case AddTry => p'.AddLoaded?
        case AddLoaded(_) => p'.AddTry? || p' == if s.count < s.threshold then WaitTry else Release
        case Release => p'.SubTry?
        case WaitTry => p'.Blocked? || p'.WaitLoaded?
        case WaitLoaded(_) => p'.WaitTry? || p'.SubTry?
        case Blocked => p'.SubTry?
        case SubTry => p'.SubLoaded?
        case SubLoaded(_) => p'.SubTry? || p' == Left(s.count == 1)
        case Left(_) => p'.AddTry?
      }
  {
    match s.pc[t] {
      case Out => case AddTry => case AddLoaded(_) => case Release => case WaitTry => case WaitLoaded(_) =>
      case Blocked => case SubTry => case SubLoaded(_) => case Left(_) =>
    }
  }

  lemma OthersUntouched(s: State, t: Tid, u: Tid, s': State)
    requires StepOf(s, t, s') && u != t && u in s.pc
    ensures u in s'.pc && s'.pc[u] == s.pc[u]
    ensures Holds(s'.monitor, u, Arrivals) ==> Holds(s.monitor, u, Arrivals) && s'.count == s.count
    ensures Holds(s'.monitor, u, Tokens) ==> Holds(s.monitor, u, Tokens) && s'.tokens == s.tokens
  {
    match s.pc[t] {
      case Out => case AddTry => case AddLoaded(_) => case Release => case WaitTry => case WaitLoaded(_) =>
      case Blocked => case SubTry => case SubLoaded(_) => case Left(_) =>
    }
  }

  lemma StaysCurrent(s: State, t: Tid, s': State)
    requires StepOf(s, t, s') && s.tokens >= 0 && Current(s, t)
    ensures t in s'.pc && Current(s', t)
  {
    match s.pc[t] {
      case Out => case AddTry => case AddLoaded(_) => case Release => case WaitTry => case WaitLoaded(_) =>
      case Blocked => case SubTry => case SubLoaded(_) => case Left(_) =>
    }
  }

  lemma StepKeepsCounted(s: State, t: Tid, s': State)
    requires Counted(s) && StepOf(s, t, s')
    ensures Counted(s')
  {
    assert Current(s, t);
    assert |s.pc| >= 1 by { assert s.pc.Keys != {}; assert |s.pc| == |s.pc.Keys|; }
    Moves(s, t, s');
    Deltas(s, t, s');
    StaysCurrent(s, t, s');
    CountUpdate(s.pc, t, s'.pc[t], Inside);
    forall u | u in s'.pc && u != t ensures Current(s', u) {
      assert Current(s, u);
      OthersUntouched(s, t, u, s');
      hide StepOf, Step;
    }
    hide StepOf, Step, Current;
  }

  // ----- the phases of a run in which nobody comes back early

  /** Where a thread is, seen from one round. */
  datatype Place = Before | Waiting | Releasing | Passing | After

  function PlaceOf(p: Pc, k: nat, n: nat): Place {
    if k < n then Before
    else if k > n then After
    else
      match p
      case Out => Before
      case AddTry => Before
      case AddLoaded(_) => Before
      case Release => Releasing
      case WaitTry => Waiting
      case WaitLoaded(_) => Waiting
      case Blocked => Waiting
      case SubTry => Passing
      case SubLoaded(_) => Passing
      case Left(_) => After
  }

  ghost function Seen(s: State, n: nat): map<Tid, Place>
    requires s.round.Keys == s.pc.Keys
  {
    map t | t in s.pc :: PlaceOf(s.pc[t], s.round[t], n)
  }

  function Is(x: Place): Place -> bool { y => y == x }

  /** Everyone is in round n, or has just left it and not arrived for the next, or has not yet come back for it. */
  predicate InPhase(s: State, n: nat, t: Tid) {
    && t in s.pc && t in s.round
    && (|| s.round[t] == n
        || (s.round[t] == n + 1 && (s.pc[t].AddTry? || s.pc[t].AddLoaded?))
        || (s.round[t] + 1 == n && s.pc[t].Left?))
  }

  ghost predicate Balanced(m: map<Tid, Place>, count: int, tokens: int, threshold: int, serial: int) {
    var all, b, w, x, p, g := |m|, Count(m, Is(Before)), Count(m, Is(Waiting)), Count(m, Is(Releasing)),
                              Count(m, Is(Passing)), Count(m, Is(After));
    && all == b + w + x + p + g && all > 0 && threshold == all - 1 && count == w + x + p
    && (if b == 0 && x == 0 then tokens == w else tokens == 0 && p == 0 && g == 0 && x == Bit(b == 0))
    && serial == Bit(g == all)
  }

  ghost predicate Inv(s: State, n: nat) {
    && Counted(s)
    && (forall t :: t in s.pc ==> InPhase(s, n, t))
    && Balanced(Seen(s, n), s.count, s.tokens, s.threshold, s.serial[n])
    && (forall k: nat :: k != n ==> s.serial[k] == if k < n then 1 else 0)
  }

  lemma CountBounded<K, V>(m: map<K, V>, p: V -> bool)
    ensures Count(m, p) <= |m|
    ensures Count(m, p) == |m| <==> forall k :: k in m ==> p(m[k])
  {
    assert Where(m, p) <= m.Keys;
    if Count(m, p) == |m| {
      assert |m.Keys - Where(m, p)| == |m.Keys| - |Where(m, p)|;
      assert m.Keys - Where(m, p) == {};
      forall k | k in m ensures p(m[k]) { assert k in Where(m, p); }
    }
    if forall k :: k in m ==> p(m[k]) { assert Where(m, p) == m.Keys; }
    assert |Where(m, p)| + |m.Keys - Where(m, p)| == |m.Keys| by {
      assert m.Keys == Where(m, p) + (m.Keys - Where(m, p));
    }
  }

  /** One thread moves from y to y'. */
  ghost predicate Shifts(y: Place, y': Place, count: int, tokens: int, threshold: int, serial: int,
                         count': int, tokens': int, serial': int) {
    match y
    case Before =>
      || (y' == Before && count' == count && tokens' == tokens && serial' == serial)
      || (y' == (if count < threshold then Waiting else Releasing)
          && count' == count + 1 && tokens' == tokens && serial' == serial)
    case Waiting =>
      || (y' == Waiting && count' == count && tokens' == tokens && serial' == serial)
      || (y' == Passing && tokens > 0 && count' == count && tokens' == tokens - 1 && serial' == serial)
    case Releasing => y' == Passing && count' == count && tokens' == threshold && serial' == serial
    case Passing =>
      || (y' == Passing && count' == count && tokens' == tokens && serial' == serial)
      || (y' == After && count' == count - 1 && tokens' == tokens && serial' == serial + Bit(count == 1))
    case After => y' == After && count' == count && tokens' == tokens && serial' == serial
  }

  lemma CountsShift(m: map<Tid, Place>, t: Tid, y': Place)
    requires t in m
    ensures |m[t := y']| == |m|
    ensures Count(m[t := y'], Is(Before)) == Count(m, Is(Before)) - Bit(m[t] == Before) + Bit(y' == Before)
    ensures Count(m[t := y'], Is(Waiting)) == Count(m, Is(Waiting)) - Bit(m[t] == Waiting) + Bit(y' == Waiting)
    ensures Count(m[t := y'], Is(Releasing)) == Count(m, Is(Releasing)) - Bit(m[t] == Releasing) + Bit(y' == Releasing)
    ensures Count(m[t := y'], Is(Passing)) == Count(m, Is(Passing)) - Bit(m[t] == Passing) + Bit(y' == Passing)
    ensures Count(m[t := y'], Is(After)) == Count(m, Is(After)) - Bit(m[t] == After) + Bit(y' == After)
    ensures Count(m, Is(m[t])) >= 1
  {
    CountUpdate(m, t, y', Is(Before));
    CountUpdate(m, t, y', Is(Waiting));
    CountUpdate(m, t, y', Is(Releasing));
    CountUpdate(m, t, y', Is(Passing));
    CountUpdate(m, t, y', Is(After));
    CountPositive(m, t, Is(m[t]));
    assert m[t := y'].Keys == m.Keys;
    assert |m[t := y']| == |m[t := y'].Keys| && |m| == |m.Keys|;
  }

  lemma ShiftKeepsBalance(m: map<Tid, Place>, t: Tid, y': Place, count: int, tokens: int, threshold: int, serial: int,
                          count': int, tokens': int, serial': int)
    requires t in m && Balanced(m, count, tokens, threshold, serial)
    requires Shifts(m[t], y', count, tokens, threshold, serial, count', tokens', serial')
    ensures Balanced(m[t := y'], count', tokens', threshold, serial')
  {
    CountsShift(m, t, y');
    hide Count, Is;
  }

  lemma SeenMoves(s: State, t: Tid, s': State, n: nat)
    requires StepOf(s, t, s') && s.round.Keys == s.pc.Keys
    ensures t in s'.pc && t in s'.round && s'.round.Keys == s'.pc.Keys
    ensures Seen(s', n) == Seen(s, n)[t := PlaceOf(s'.pc[t], s'.round[t], n)]
  {
    hide StepOf, Step, PlaceOf;
    Moves(s, t, s');
    assert s'.round.Keys == s.round.Keys;
  }

  /** What a step in or around round n looks like from that round. */
  lemma StepShifts(s: State, t: Tid, s': State, n: nat)
    requires Counted(s) && StepOf(s, t, s') && InPhase(s, n, t) && (Arrives(s, t, s') ==> s.round[t] == n)
    ensures t in s'.pc && t in s'.round && s'.round.Keys == s'.pc.Keys && InPhase(s', n, t)
    ensures var y' := PlaceOf(s'.pc[t], s'.round[t], n);
      && Shifts(PlaceOf(s.pc[t], s.round[t], n), y', s.count, s.tokens, s.threshold, s.serial[n],
                s'.count, s'.tokens, s'.serial[n])
      && Seen(s', n) == Seen(s, n)[t := y']
    ensures forall k: nat :: k != n ==> s'.serial[k] == s.serial[k]
  {
    hide StepOf, Step, Current, Seen;
    assert Current(s, t);
    Moves(s, t, s');
    Deltas(s, t, s');
    Places(s, t, s');
    SeenMoves(s, t, s', n);
  }

  lemma OthersStayInPhase(s: State, t: Tid, s': State, n: nat)
    requires StepOf(s, t, s') && forall u :: u in s.pc ==> InPhase(s, n, u)
    requires InPhase(s', n, t)
    ensures forall u :: u in s'.pc ==> InPhase(s', n, u)
  {
    Moves(s, t, s');
    hide StepOf, Step;
    forall u | u in s'.pc ensures InPhase(s', n, u) {
      assert u != t ==> InPhase(s, n, u);
    }
  }

  lemma StepStaysInRound(s: State, t: Tid, s': State, n: nat)
    requires Inv(s, n) && StepOf(s, t, s') && (Arrives(s, t, s') ==> s.round[t] == n)
    ensures Inv(s', n)
  {
    assert InPhase(s, n, t);
    StepShifts(s, t, s', n);
    OthersStayInPhase(s, t, s', n);
    StepKeepsCounted(s, t, s');
    Moves(s, t, s');
    hide StepOf, Step, Counted, Balanced, Shifts, InPhase, PlaceOf;
    var y' := PlaceOf(s'.pc[t], s'.round[t], n);
    ShiftKeepsBalance(Seen(s, n), t, y', s.count, s.tokens, s.threshold, s.serial[n],
                      s'.count, s'.tokens, s'.serial[n]);
  }

  lemma AllIn(m: map<Tid, Place>, x: Place)
    requires forall t :: t in m ==> m[t] == x
    ensures Count(m, Is(x)) == |m| && forall y :: y != x ==> Count(m, Is(y)) == 0
  {
    CountBounded(m, Is(x));
    forall y | y != x ensures Count(m, Is(y)) == 0 { CountZero(m, Is(y)); }
  }

  lemma InvMeans(s: State, n: nat)
    requires Inv(s, n)
    ensures Counted(s) && s.round.Keys == s.pc.Keys && s.pc != map[] && forall t :: t in s.pc ==> InPhase(s, n, t)
    ensures Balanced(Seen(s, n), s.count, s.tokens, s.threshold, s.serial[n])
    ensures forall k: nat :: k != n ==> s.serial[k] == if k < n then 1 else 0
  {}

  /** One round over is the next one not begun. */
  lemma SeenFromBoth(s: State, n: nat)
    requires s.round.Keys == s.pc.Keys && (forall t :: t in s.pc ==> InPhase(s, n, t)) && AllDone(s, n)
    ensures forall t :: t in s.pc ==> InPhase(s, n + 1, t)
    ensures Count(Seen(s, n), Is(After)) == |Seen(s, n)| == |s.pc|
    ensures Count(Seen(s, n + 1), Is(Before)) == |Seen(s, n + 1)| == |s.pc|
    ensures forall y :: y != After ==> Count(Seen(s, n), Is(y)) == 0
    ensures forall y :: y != Before ==> Count(Seen(s, n + 1), Is(y)) == 0
  {
    forall t | t in s.pc ensures Seen(s, n)[t] == After && Seen(s, n + 1)[t] == Before && InPhase(s, n + 1, t) {
      assert InPhase(s, n, t) && Done(s, t, n);
    }
    AllIn(Seen(s, n), After);
    AllIn(Seen(s, n + 1), Before);
    assert Seen(s, n).Keys == s.pc.Keys && Seen(s, n + 1).Keys == s.pc.Keys;
    hide Count, Is, Seen, InPhase, AllDone;
    assert |Seen(s, n)| == |Seen(s, n).Keys| && |Seen(s, n + 1)| == |Seen(s, n + 1).Keys| && |s.pc| == |s.pc.Keys|;
  }

  /** When everyone has left round n, the barrier is as it was made, and that is the start of round n + 1. */
  lemma NextRound(s: State, n: nat)
    requires Inv(s, n) && AllDone(s, n)
    ensures Inv(s, n + 1) && s.count == 0 && s.tokens == 0 && s.serial[n] == 1
  {
    hide Count, Is, Seen, InPhase, AllDone, Counted;
    InvMeans(s, n);
    SeenFromBoth(s, n);
  }

  lemma CleanStepKeepsInv(s: State, t: Tid, s': State, n: nat) returns (n': nat)
    requires Inv(s, n) && StepOf(s, t, s') && CleanStep(s, t, s')
    ensures Inv(s', n')
  {
    hide Inv, StepOf, AllDone;
    InvMeans(s, n);
    Moves(s, t, s');
    assert InPhase(s, n, t);
    n' := n;
    if Arrives(s, t, s') && s.round[t] == n + 1 {
      n' := n + 1;
      NextRound(s, n);
    }
    StepStaysInRound(s, t, s', n');
  }

  lemma InitHasInv(s: State)
    requires Init(s)
    ensures Inv(s, 0)
  {
    assert |s.pc| > 0 by { assert s.pc.Keys != {}; assert |s.pc| == |s.pc.Keys|; }
    CountZero(s.pc, Inside);
    AllIn(Seen(s, 0), Before);
    assert Seen(s, 0).Keys == s.pc.Keys;
    assert |Seen(s, 0)| == |Seen(s, 0).Keys| && |s.pc| == |s.pc.Keys|;
  }

  lemma StepAt(r: seq<State>, who: seq<Tid>, i: nat)
    requires Run(r, who) && i < |who|
    ensures |who| == |r| - 1 && StepOf(r[i], who[i], r[i + 1])
  {}

  lemma {:induction false} RunKeepsCounted(r: seq<State>, who: seq<Tid>, i: nat)
    requires Run(r, who) && i < |r|
    ensures Counted(r[i])
  {
    hide Run, Inv, Counted, StepOf;
    RunStarts(r, who);
    if i == 0 {
      InitHasInv(r[0]);
      InvMeans(r[0], 0);
    } else {
      StepAt(r, who, i - 1);
      RunKeepsCounted(r, who, i - 1);
      StepKeepsCounted(r[i - 1], who[i - 1], r[i]);
    }
  }

  lemma RunStarts(r: seq<State>, who: seq<Tid>)
    requires Run(r, who)
    ensures r != [] && |who| == |r| - 1 && Init(r[0])
  {}

  /** As long as every arrival was clean, all threads are in one phase and the counters are right for it. */
  lemma {:induction false} CleanRunKeepsInv(r: seq<State>, who: seq<Tid>, i: nat)
    requires Run(r, who) && |who| == |r| - 1 && i < |r| && Clean(r, who, i)
    ensures exists n :: Inv(r[i], n)
  {
    hide Run, Inv, StepOf, CleanStep;
    RunStarts(r, who);
    if i == 0 {
      InitHasInv(r[0]);
    } else {
      StepAt(r, who, i - 1);
      assert Clean(r, who, i - 1);
      CleanRunKeepsInv(r, who, i - 1);
      var n :| Inv(r[i - 1], n);
      var k := i - 1;
      assert CleanStep(r[k], who[k], r[k + 1]);
      var n' := CleanStepKeepsInv(r[i - 1], who[i - 1], r[i], n);
    }
  }

  // ----- main results

  lemma PassingMeansNoneBefore(m: map<Tid, Place>, t: Tid, u: Tid, count: int, tokens: int, threshold: int, serial: int)
    requires Balanced(m, count, tokens, threshold, serial) && t in m && u in m && (m[t] == Passing || m[t] == After)
    ensures m[u] != Before
  {
    CountPositive(m, t, Is(m[t]));
    if m[u] == Before { CountPositive(m, u, Is(Before)); }
  }

  lemma InPhaseNobodyIsEarly(s: State, n: nat, t: Tid, u: Tid)
    requires Inv(s, n) && t in s.pc && u in s.pc && Past(s.pc[t])
    ensures t in s.round && u in s.round && ArrivedIn(s, u, s.round[t])
  {
    hide Counted, Balanced;
    InvMeans(s, n);
    assert InPhase(s, n, t) && InPhase(s, n, u);
    if s.round[t] == n {
      PassingMeansNoneBefore(Seen(s, n), t, u, s.count, s.tokens, s.threshold, s.serial[n]);
    }
  }

  /** While every arrival is clean, no thread is past the barrier in a round that another has not reached. */
  lemma NobodyPassesEarly(r: seq<State>, who: seq<Tid>, i: nat)
    requires Run(r, who) && |who| == |r| - 1 && i < |r| && Clean(r, who, i)
    ensures !Early(r[i])
  {
    CleanRunKeepsInv(r, who, i);
    var s := r[i];
    var n :| Inv(s, n);
    hide Inv, Run;
    forall t, u | t in s.pc && u in s.pc && t in s.round && u in s.round && Past(s.pc[t])
      ensures ArrivedIn(s, u, s.round[t])
    {
      InPhaseNobodyIsEarly(s, n, t, u);
    }
  }

  /** And no round has two serial returns, while one that everybody has left has exactly one. */
  lemma OneSerialThread(r: seq<State>, who: seq<Tid>, i: nat, k: nat)
    requires Run(r, who) && |who| == |r| - 1 && i < |r| && Clean(r, who, i)
    ensures r[i].serial[k] <= 1
    ensures r[i].serial[k] == 1 <==> AllDone(r[i], k)
  {
    CleanRunKeepsInv(r, who, i);
    var s := r[i];
    var n :| Inv(s, n);
    hide Run;
    SerialMeansDone(s, n, k);
  }

  lemma SerialMeansDone(s: State, n: nat, k: nat)
    requires Inv(s, n)
    ensures s.serial[k] <= 1 && (s.serial[k] == 1 <==> AllDone(s, k))
  {
    var m := Seen(s, n);
    CountBounded(m, Is(After));
    assert exists t :: t in s.pc;
    forall t | t in s.pc ensures InPhase(s, n, t) && (k == n ==> (m[t] == After <==> Done(s, t, k)))
      && (k < n ==> Done(s, t, k)) && (k > n ==> !Done(s, t, k)) {}
    hide Count, InPhase, Counted, Is, Done;
  }

  /** The thread with the serial return is the last to leave its round. */
  lemma SerialIsLast(r: seq<State>, who: seq<Tid>, i: nat, t: Tid)
    requires Run(r, who) && |who| == |r| - 1 && i < |who| && Clean(r, who, i + 1)
    requires t in r[i].pc && t in r[i].round && !r[i].pc[t].Left? && t in r[i + 1].pc && r[i + 1].pc[t] == Left(true)
    ensures AllDone(r[i + 1], r[i].round[t])
  {
    StepAt(r, who, i);
    var s, s' := r[i], r[i + 1];
    RunKeepsCounted(r, who, i);
    if who[i] != t { OthersUntouched(s, who[i], t, s'); }
    assert Current(s, t);
    Deltas(s, t, s');
    Places(s, t, s');
    hide Run, StepOf, Clean, Counted, Current;
    OneSerialThread(r, who, i + 1, s.round[t]);
  }

  /** When everyone has left, both counters are back at zero. */
  lemma CountersReturn(r: seq<State>, who: seq<Tid>, i: nat, k: nat)
    requires Run(r, who) && |who| == |r| - 1 && i < |r| && Clean(r, who, i)
    requires forall t :: t in r[i].pc ==> t in r[i].round && r[i].round[t] == k && r[i].pc[t].Left?
    ensures r[i].count == 0 && r[i].tokens == 0
  {
    hide Run, Clean, Counted, Seen, Count, Is;
    CleanRunKeepsInv(r, who, i);
    var s := r[i];
    var n :| Inv(s, n);
    InvMeans(s, n);
    var t :| t in s.pc;
    assert InPhase(s, n, t);
    if k == n {
      NextRound(s, n);
    } else {
      NoneBegun(s, n);
    }
  }

  lemma NoneBegun(s: State, n: nat)
    requires Inv(s, n) && forall t :: t in s.pc ==> t in s.round && s.round[t] < n
    ensures s.count == 0 && s.tokens == 0
  {
    AllIn(Seen(s, n), Before);
    hide Count, Is;
  }

  // ----- nobody waits in vain

  lemma NextOf(r: seq<State>, who: seq<Tid>, i: nat)
    requires Run(r, who) && |who| == |r| - 1 && i < |who|
    ensures StepOf(r[i], who[i], r[i + 1])
  {}

  /** A thread is blocked only when it finds the semaphore at zero. */
  lemma BlocksOnlyAtZero(r: seq<State>, who: seq<Tid>, i: nat, t: Tid)
    requires Run(r, who) && |who| == |r| - 1 && i < |who| && t in r[i].pc && t in r[i + 1].pc
    requires r[i].pc[t] != Blocked && r[i + 1].pc[t] == Blocked
    ensures r[i].pc[t] == WaitTry && r[i].tokens == 0
  {
    NextOf(r, who, i);
    hide Run;
    if who[i] != t { OthersUntouched(r[i], who[i], t, r[i + 1]); }
    match r[i].pc[t] {
      case Out => case AddTry => case AddLoaded(_) => case Release => case WaitTry => case WaitLoaded(_) =>
      case SubTry => case SubLoaded(_) => case Left(_) =>
    }
  }

  lemma CountIs(m: map<Tid, Place>, x: Place)
    requires forall u :: u in m ==> m[u] != x
    ensures Count(m, Is(x)) == 0
  {
    CountZero(m, Is(x));
  }

  /** Once everybody has arrived and the last one has set the semaphore, it is the number of threads that wait. */
  lemma TokenForEachWaiter(r: seq<State>, who: seq<Tid>, i: nat, t: Tid)
    requires Run(r, who) && |who| == |r| - 1 && i < |r| && Clean(r, who, i)
    requires t in r[i].pc && t in r[i].round && Waits(r[i].pc[t])
    requires forall u :: u in r[i].pc && u in r[i].round ==>
      ArrivedIn(r[i], u, r[i].round[t]) && !r[i].pc[u].Release?
    ensures r[i].tokens == Count(r[i].pc, Waits) > 0
  {
    CleanRunKeepsInv(r, who, i);
    var n :| Inv(r[i], n);
    hide Run, Inv;
    WaitersHaveTokens(r[i], n, t);
    CountPositive(r[i].pc, t, Waits);
  }

  lemma WaitersHaveTokens(s: State, n: nat, t: Tid)
    requires Inv(s, n) && t in s.pc && t in s.round && Waits(s.pc[t])
    requires forall u :: u in s.pc && u in s.round ==> ArrivedIn(s, u, s.round[t]) && !s.pc[u].Release?
    ensures s.tokens == Count(s.pc, Waits)
  {
    hide Counted, Balanced, Count, Where;
    InvMeans(s, n);
    assert InPhase(s, n, t) && s.round[t] == n;
    var m := Seen(s, n);
    forall u | u in m ensures m[u] != Before && m[u] != Releasing && (m[u] == Waiting <==> Waits(s.pc[u])) {
      assert InPhase(s, n, u);
    }
    CountIs(m, Before);
    CountIs(m, Releasing);
    SameCount(m, s.pc);
    TokensAreWaiters(m, s.count, s.tokens, s.threshold, s.serial[n]);
  }

  lemma SameCount(m: map<Tid, Place>, pc: map<Tid, Pc>)
    requires m.Keys == pc.Keys && forall u :: u in m ==> (m[u] == Waiting <==> Waits(pc[u]))
    ensures Count(m, Is(Waiting)) == Count(pc, Waits)
  {
    assert Where(m, Is(Waiting)) == Where(pc, Waits);
  }

  lemma TokensAreWaiters(m: map<Tid, Place>, count: int, tokens: int, threshold: int, serial: int)
    requires Balanced(m, count, tokens, threshold, serial) && Count(m, Is(Before)) == 0 && Count(m, Is(Releasing)) == 0
    ensures tokens == Count(m, Is(Waiting))
  {}

  /** r are steps of thread t from inside a call to its end. */
  ghost predicate Alone(r: seq<State>, t: Tid) {
    && r != [] && t in r[|r| - 1].pc && r[|r| - 1].pc[t].Left?
    && forall i :: 0 <= i < |r| - 1 ==> t in r[i].pc && !r[i].pc[t].Left? && StepOf(r[i], t, r[i + 1])
  }

  lemma AloneThen(s: State, t: Tid, q: seq<State>)
    requires Alone(q, t) && t in s.pc && !s.pc[t].Left? && StepOf(s, t, q[0])
    ensures Alone([s] + q, t)
  {
    hide StepOf;
    var r := [s] + q;
    forall i | 0 <= i < |r| - 1 ensures t in r[i].pc && !r[i].pc[t].Left? && StepOf(r[i], t, r[i + 1]) {
      if i > 0 { assert r[i] == q[i - 1] && r[i + 1] == q[i - 1 + 1]; }
    }
  }

  function StepsLeft(s: State, t: Tid): nat
    requires t in s.pc
  {
    match s.pc[t]
    case Left(_) => 0
    case SubLoaded(_) => if Holds(s.monitor, t, Arrivals) then 1 else 3
    case SubTry => 2
    case Blocked => 4
    case WaitLoaded(_) => if Holds(s.monitor, t, Tokens) then 5 else 7
    case WaitTry => 6
    case Release => 8
    case AddLoaded(_) => if Holds(s.monitor, t, Arrivals) then 9 else 11
    case AddTry => 10
    case Out => 12
  }

  /** A thread has to wait: it arrives before the last one, or has arrived, and the semaphore is at zero. */
  predicate MustWait(s: State, t: Tid)
    requires t in s.pc
  {
    && s.tokens == 0
    && (Waits(s.pc[t]) || (s.count < s.threshold && (s.pc[t].Out? || s.pc[t].AddTry? || s.pc[t].AddLoaded?)))
  }

  lemma GoOn(s: State, t: Tid) returns (s': State)
    requires t in s.pc && t in s.round && !s.pc[t].Left? && Current(s, t) && s.tokens >= 0 && !MustWait(s, t)
    requires s.threshold >= 0
    ensures StepOf(s, t, s') && t in s'.pc && t in s'.round && StepsLeft(s', t) < StepsLeft(s, t) && !MustWait(s', t)
    ensures s'.tokens >= 0 && Current(s', t) && s'.threshold == s.threshold
  {
    var m := Clrex(s.monitor, t);
    match s.pc[t] {
      case Out => s' := Go(s, t, AddTry);
      case AddTry => s' := Go(s, t, AddLoaded(s.count)).(monitor := Ldrex(s.monitor, t, Arrivals));
      case AddLoaded(c) =>
        s' := if Holds(s.monitor, t, Arrivals)
              then Go(s, t, if c < s.threshold then WaitTry else Release).(count := c + 1,
                                                                           monitor := Stored(s.monitor, Arrivals))
              else Go(s, t, AddTry).(monitor := m);
      case Release => s' := Go(s, t, SubTry).(tokens := s.threshold, monitor := Stored(s.monitor, Tokens));
      case WaitTry => s' := Go(s, t, WaitLoaded(s.tokens)).(monitor := Ldrex(s.monitor, t, Tokens));
      case WaitLoaded(c) =>
        s' := if Holds(s.monitor, t, Tokens)
              then Go(s, t, SubTry).(tokens := c - 1, monitor := Stored(s.monitor, Tokens))
              else Go(s, t, WaitTry).(monitor := m);
      case Blocked => s' := Go(s, t, SubTry).(tokens := s.tokens - 1, monitor := Stored(s.monitor, Tokens));
      case SubTry => s' := Go(s, t, SubLoaded(s.count)).(monitor := Ldrex(s.monitor, t, Arrivals));
      case SubLoaded(c) =>
        s' := if Holds(s.monitor, t, Arrivals)
              then Go(s, t, Left(c == 1)).(count := c - 1, monitor := Stored(s.monitor, Arrivals),
                     serial := if c == 1 then s.serial + multiset{s.round[t]} else s.serial)
              else Go(s, t, SubTry).(monitor := m);
    }
  }

  lemma {:induction false} CanEnd(s: State, t: Tid) returns (r: seq<State>)
    requires t in s.pc && t in s.round && !s.pc[t].Left? && Current(s, t) && s.tokens >= 0 && !MustWait(s, t)
    requires s.threshold >= 0
    ensures Alone(r, t) && r[0] == s
    decreases StepsLeft(s, t)
  {
    hide StepOf, StepsLeft, MustWait, Current;
    var s' := GoOn(s, t);
    if s'.pc[t].Left? { r := [s']; } else { r := CanEnd(s', t); }
    AloneThen(s, t, r);
    r := [s] + r;
  }

  /** In every state of every run whoever has not to wait can leave without the others. */
  lemma EveryCallCanEnd(r: seq<State>, who: seq<Tid>, i: nat, t: Tid)
    requires Run(r, who) && |who| == |r| - 1 && i < |r| && t in r[i].pc && !r[i].pc[t].Left? && !MustWait(r[i], t)
    ensures exists q :: Alone(q, t) && q[0] == r[i]
  {
    RunKeepsCounted(r, who, i);
    hide Run, Counted, Alone, MustWait, Current;
    CountedMeans(r[i], t);
    var q := CanEnd(r[i], t);
  }

  // ----- and the runs in which somebody does come back early

  /** Round n has no serial return so far, and either it is over or t waits in the next one. */
  ghost predicate Spoiled(s: State, t: Tid, n: nat) {
    && s.serial[n] == 0 && t in s.pc && t in s.round
    && (AllDone(s, n) || (s.round[t] == n + 1 && Inside(s.pc[t]) && !Past(s.pc[t])))
  }

  lemma TwoInside(s: State, t: Tid, u: Tid)
    requires Counted(s) && t != u && t in s.pc && u in s.pc && Inside(s.pc[t]) && Inside(s.pc[u])
    ensures s.count >= 2
  {
    var both := {t, u};
    assert both <= Where(s.pc, Inside);
    assert Where(s.pc, Inside) == both + (Where(s.pc, Inside) - both);
    assert |both| == 2;
  }

  lemma DoneStays(s: State, t: Tid, s': State, u: Tid, n: nat)
    requires StepOf(s, t, s') && Counted(s) && Done(s, u, n)
    ensures Done(s', u, n)
  {
    assert Current(s, t);
    Moves(s, t, s');
    Places(s, t, s');
    hide StepOf, Step, Current;
  }

  /** Whoever is past the waiting of round n + 1 has everybody done with round n, unless it is early. */
  lemma NotEarlyMeansDone(s: State, t: Tid, n: nat)
    requires t in s.pc && s.round.Keys == s.pc.Keys && Past(s.pc[t]) && s.round[t] == n + 1 && !Early(s)
    ensures AllDone(s, n)
  {
    forall u | u in s.pc ensures Done(s, u, n) {
      assert ArrivedIn(s, u, s.round[t]);
    }
  }

  lemma SpoiledStays(s: State, v: Tid, s': State, t: Tid, n: nat)
    requires Counted(s) && StepOf(s, v, s') && Spoiled(s, t, n) && !Early(s')
    ensures Spoiled(s', t, n)
  {
    hide StepOf, Step, Early, Counted;
    NoSerialNow(s, v, s', t, n);
    assert s.round.Keys == s.pc.Keys by { CountedMeans(s, v); }
    Moves(s, v, s');
    if AllDone(s, n) {
      forall u | u in s'.pc ensures Done(s', u, n) { DoneStays(s, v, s', u, n); }
    } else if v == t {
      CountedMeans(s, t);
      Places(s, t, s');
      assert s'.round == s.round;
      if Past(s'.pc[t]) { NotEarlyMeansDone(s', t, n); }
    }
  }

  lemma CountedMeans(s: State, t: Tid)
    requires Counted(s)
    ensures s.round.Keys == s.pc.Keys && s.tokens >= 0 && s.threshold >= 0 && (t in s.pc ==> Current(s, t))
  {
    assert s.pc.Keys != {} && |s.pc| == |s.pc.Keys|;
  }

  /** A serial return needs a counter of one, and thread t is counted as well. */
  lemma NoSerialNow(s: State, v: Tid, s': State, t: Tid, n: nat)
    requires Counted(s) && StepOf(s, v, s') && Spoiled(s, t, n)
    ensures s'.serial[n] == 0
  {
    hide StepOf, Step, Counted, Current;
    CountedMeans(s, v);
    Moves(s, v, s');
    Deltas(s, v, s');
    if s.pc[v].SubLoaded? && s.round[v] == n {
      assert !Done(s, v, n);
      TwoInside(s, t, v);
    }
  }

  lemma {:induction false} SpoiledToTheEnd(r: seq<State>, who: seq<Tid>, i: nat, j: nat, t: Tid, n: nat)
    requires Run(r, who) && i <= j < |r| && Spoiled(r[i], t, n)
    requires forall m :: i <= m < |r| ==> !Early(r[m])
    ensures Spoiled(r[j], t, n)
    decreases j
  {
    hide Run, Spoiled, Early, StepOf;
    if i < j {
      RunStarts(r, who);
      SpoiledToTheEnd(r, who, i, j - 1, t, n);
      StepAt(r, who, j - 1);
      RunKeepsCounted(r, who, j - 1);
      SpoiledStays(r[j - 1], who[j - 1], r[j], t, n);
    }
  }

  /** The first arrival that is not clean spoils the round before it. */
  lemma UncleanSpoils(s: State, t: Tid, s': State, n: nat) returns (k: nat)
    requires Inv(s, n) && StepOf(s, t, s') && !CleanStep(s, t, s')
    ensures t in s.round && s.round[t] == k + 1 && Spoiled(s', t, k)
  {
    hide StepOf, Step, Inv, AllDone, Counted, Balanced;
    InvMeans(s, n);
    Moves(s, t, s');
    assert InPhase(s, n, t);
    k := s.round[t] - 1;
    if s.round[t] == n { EarlierDone(s, n); assert false; }
    SerialMeansDone(s, n, n);
    CountedMeans(s, t);
    Deltas(s, t, s');
    hide Current;
  }

  lemma EarlierDone(s: State, n: nat)
    requires Inv(s, n) && n > 0
    ensures AllDone(s, n - 1)
  {
    hide Counted, Balanced;
    forall u | u in s.pc ensures Done(s, u, n - 1) { assert InPhase(s, n, u); }
  }

  lemma {:induction false} FirstUnclean(r: seq<State>, who: seq<Tid>, m: nat) returns (i: nat)
    requires m <= |who| < |r| && !Clean(r, who, m)
    ensures i < m && Clean(r, who, i) && !CleanStep(r[i], who[i], r[i + 1])
  {
    hide CleanStep;
    if m > 0 && !Clean(r, who, m - 1) {
      i := FirstUnclean(r, who, m - 1);
    } else {
      i := m - 1;
    }
  }

  /** Everybody has made and finished n + 1 calls. */
  ghost predicate Finished(s: State, n: nat) {
    forall t :: t in s.pc ==> t in s.round && s.round[t] == n && s.pc[t].Left?
  }

  /** What a barrier promises of n + 1 rounds: nobody is early, and every round has one serial return. */
  ghost predicate Sound(r: seq<State>, n: nat) {
    && r != []
    && (forall i :: 0 <= i < |r| ==> !Early(r[i]))
    && OneSerialEach(r[|r| - 1], n)
  }

  ghost predicate OneSerialEach(s: State, n: nat) { forall k: nat :: k <= n ==> s.serial[k] == 1 }

  /** A run of finished rounds keeps the promise if and only if nobody ever arrived for a round while another thread
      had still to leave the round before. */
  lemma SoundIff(r: seq<State>, who: seq<Tid>, n: nat)
    requires Run(r, who) && |who| == |r| - 1 && Finished(r[|who|], n)
    ensures Sound(r, n) <==> Clean(r, who, |who|)
  {
    hide Run, Early;
    if Clean(r, who, |who|) {
      CleanIsSound(r, who, n);
    } else {
      UncleanFails(r, who, n);
    }
  }

  lemma CleanIsSound(r: seq<State>, who: seq<Tid>, n: nat)
    requires Run(r, who) && |who| == |r| - 1 && Finished(r[|who|], n) && Clean(r, who, |who|)
    ensures Sound(r, n)
  {
    hide Run, Early, CleanStep;
    forall i | 0 <= i < |r| ensures !Early(r[i]) {
      assert Clean(r, who, i);
      NobodyPassesEarly(r, who, i);
    }
    forall k: nat | k <= n ensures r[|who|].serial[k] == 1 {
      assert AllDone(r[|who|], k);
      OneSerialThread(r, who, |who|, k);
    }
  }

  lemma UncleanFails(r: seq<State>, who: seq<Tid>, n: nat)
    requires Run(r, who) && |who| == |r| - 1 && Finished(r[|who|], n) && !Clean(r, who, |who|)
    ensures !Sound(r, n)
  {
    hide Run, Early, CleanStep, Inv, StepOf, Clean;
    var i := FirstUnclean(r, who, |who|);
    CleanRunKeepsInv(r, who, i);
    var m :| Inv(r[i], m);
    StepAt(r, who, i);
    var k := UncleanSpoils(r[i], who[i], r[i + 1], m);
    RoundsOnlyGrow(r, who, i, |who|, who[i]);
    if Sound(r, n) { SpoiledToTheEnd(r, who, i + 1, |who|, who[i], k); }
  }

  lemma {:induction false} RoundsOnlyGrow(r: seq<State>, who: seq<Tid>, i: nat, j: nat, t: Tid)
    requires Run(r, who) && i <= j < |r| && t in r[i].round && t in r[i].pc
    ensures t in r[j].round && t in r[j].pc && r[j].round[t] >= r[i].round[t]
    decreases j
  {
    hide Run, StepOf;
    if i < j {
      RunStarts(r, who);
      RoundsOnlyGrow(r, who, i, j - 1, t);
      StepAt(r, who, j - 1);
      Moves(r[j - 1], who[j - 1], r[j]);
    }
  }

  // ----- such a run

  function Two(count: int, tokens: int, m: Monitor<Cell>, p0: Pc, p1: Pc, n: nat): State {
    State(count, 1, tokens, m, map[0 := p0, 1 := p1], map[0 := 0, 1 := n], multiset{})
  }

  lemma Then(r: seq<State>, who: seq<Tid>, t: Tid, s: State) returns (r': seq<State>, who': seq<Tid>)
    requires Run(r, who) && |who| == |r| - 1 && StepOf(r[|who|], t, s)
    ensures Run(r', who') && |who'| == |r'| - 1 && r'[|who'|] == s
  {
    r', who' := r + [s], who + [t];
    forall i | 0 <= i < |who'| ensures StepOf(r'[i], who'[i], r'[i + 1]) {
      if i < |who| { assert StepOf(r[i], who[i], r[i + 1]); }
    }
    hide StepOf;
  }

  /** Two threads: 0 waits, 1 arrives last and leaves, comes back before 0 has been released, and again takes itself
      for the last to arrive: it is past the barrier of its second round while 0 is still in the first. */
  lemma ComingBackEarlyFails() returns (r: seq<State>, who: seq<Tid>)
    ensures Run(r, who) && |who| == |r| - 1 && !Clean(r, who, |who|) && Early(r[|who|])
    ensures r[|who|] == Two(2, 1, map[], Blocked, SubTry, 1)
  {
    hide Run, Clean, Early;
    r, who := OneLeaves();
    var a, m := map[1 := Arrivals], map[];
    r, who := Then(r, who, 1, Two(1, 1, m, Blocked, AddTry, 1));
    r, who := Then(r, who, 1, Two(1, 1, a, Blocked, AddLoaded(1), 1));
    r, who := Then(r, who, 1, Two(2, 1, m, Blocked, Release, 1));
    r, who := Then(r, who, 1, Two(2, 1, m, Blocked, SubTry, 1));
    OneIsEarly(r[|who|]);
    if Clean(r, who, |who|) { NobodyPassesEarly(r, who, |who|); }
  }

  lemma OneIsEarly(s: State)
    requires s == Two(2, 1, map[], Blocked, SubTry, 1)
    ensures Early(s)
  {
    assert Past(s.pc[1]) && !ArrivedIn(s, 0, s.round[1]);
  }

  lemma OneLeaves() returns (r: seq<State>, who: seq<Tid>)
    ensures Run(r, who) && |who| == |r| - 1 && r[|who|] == Two(1, 1, map[], Blocked, Left(false), 0)
  {
    hide Run;
    r, who := ZeroBlocks();
    var a, m := map[1 := Arrivals], map[];
    r, who := Then(r, who, 1, Two(1, 0, m, Blocked, AddTry, 0));
    r, who := Then(r, who, 1, Two(1, 0, a, Blocked, AddLoaded(1), 0));
    r, who := Then(r, who, 1, Two(2, 0, m, Blocked, Release, 0));
    r, who := Then(r, who, 1, Two(2, 1, m, Blocked, SubTry, 0));
    r, who := Then(r, who, 1, Two(2, 1, a, Blocked, SubLoaded(2), 0));
    r, who := Then(r, who, 1, Two(1, 1, m, Blocked, Left(false), 0));
  }

  lemma NewForTwo() returns (r: seq<State>, who: seq<Tid>)
    ensures Run(r, who) && |who| == |r| - 1 && r[|who|] == Two(0, 0, map[], Out, Out, 0)
  {
    var s := Two(0, 0, map[], Out, Out, 0);
    r, who := [s], [];
    assert s.pc.Keys == {0, 1} && |s.pc| == |s.pc.Keys|;
  }

  lemma ZeroBlocks() returns (r: seq<State>, who: seq<Tid>)
    ensures Run(r, who) && |who| == |r| - 1 && r[|who|] == Two(1, 0, map[], Blocked, Out, 0)
  {
    hide Run;
    r, who := NewForTwo();
    r, who := Then(r, who, 0, Two(0, 0, map[], AddTry, Out, 0));
    r, who := Then(r, who, 0, Two(0, 0, map[0 := Arrivals], AddLoaded(0), Out, 0));
    r, who := Then(r, who, 0, Two(1, 0, map[], WaitTry, Out, 0));
    r, who := Then(r, who, 0, Two(1, 0, map[], Blocked, Out, 0));
  }

  /** pthread_barrier_init for as many threads as will use the barrier. */
  method BarrierInit(count: nat) returns (arrived: int, threshold: int, tokens: int)
    ensures forall pc: map<Tid, Pc>, round: map<Tid, nat> ::
      |pc| == count > 0 && round.Keys == pc.Keys && (forall t :: t in pc ==> pc[t] == Out && round[t] == 0)
      ==> Init(State(arrived, threshold, tokens, map[], pc, round, multiset{}))
  {
    arrived, threshold, tokens := 0, count - 1, 0;
  }
}
