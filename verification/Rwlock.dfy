/** pthread.c:482-537: a readers-writer lock in one counter. */
module Rwlock {
  import opened Exclusive

  datatype Cell = Count

  datatype Pc =
    | Idle
    | WrTry(wait: bool)
    | WrLoaded(c: int, wait: bool)
    | Waiting
    | RdTry
    | RdLoaded(c: int)
    | UnlockTry
    | UnlockLoaded(c: int)

  /** `writers` and `readers` are the acquisitions not yet released, with their threads. */
  datatype State = State(
    count: int,
    monitor: Monitor<Cell>,
    pc: map<Tid, Pc>,
    writers: multiset<Tid>,
    readers: multiset<Tid>)

  function Go(s: State, t: Tid, p: Pc): State { s.(pc := s.pc[t := p]) }

  /** A failed call and a lost reservation leave the lock alone. */
  ghost predicate Step(s: State, t: Tid, s': State)
    requires t in s.pc
  {
    match s.pc[t]
    case Idle =>
      || s' == Go(s, t, WrTry(false))
      || s' == Go(s, t, WrTry(true))
      || s' == Go(s, t, RdTry)
      || (t in s.writers + s.readers && s' == Go(s, t, UnlockTry))
    case WrTry(wait) => s' == Go(s, t, WrLoaded(s.count, wait)).(monitor := Ldrex(s.monitor, t, Count))
    case WrLoaded(c, wait) =>
      if c <= 0 then s' == Go(s, t, if wait then Waiting else Idle)
      else
        || (Holds(s.monitor, t, Count)
            && s' == Go(s, t, Idle).(count := 0, monitor := Stored(s.monitor, Count),
                                     writers := s.writers + multiset{t}))
        || s' == Go(s, t, WrTry(wait)).(monitor := Clrex(s.monitor, t))
    case Waiting =>
      && s.count > 0
      && s' == Go(s, t, Idle).(count := s.count - 1, monitor := Stored(s.monitor, Count),
                               writers := s.writers + multiset{t})
    case RdTry => s' == Go(s, t, RdLoaded(s.count)).(monitor := Ldrex(s.monitor, t, Count))
    case RdLoaded(c) =>
      if c == 0 then s' == Go(s, t, Idle)
      else
        || (Holds(s.monitor, t, Count)
            && s' == Go(s, t, Idle).(count := c - 2, monitor := Stored(s.monitor, Count),
                                     readers := s.readers + multiset{t}))
        || s' == Go(s, t, RdTry).(monitor := Clrex(s.monitor, t))
    case UnlockTry => s' == Go(s, t, UnlockLoaded(s.count)).(monitor := Ldrex(s.monitor, t, Count))
    case UnlockLoaded(c) =>
      || (Holds(s.monitor, t, Count)
          && s' == Go(s, t, Idle).(count := if c == 0 then 1 else c + 2, monitor := Stored(s.monitor, Count),
                                   writers := if t in s.writers then s.writers - multiset{t} else s.writers,
                                   readers := if t in s.writers then s.readers else s.readers - multiset{t}))
      || s' == Go(s, t, UnlockTry).(monitor := Clrex(s.monitor, t))
  }

  ghost predicate Next(s: State, s': State) { exists t :: t in s.pc && Step(s, t, s') }

  /** No one at the lock yet; pthread_rwlock_init sets the count to 1, PTHREAD_RWLOCK_INITIALIZER to 0. */
  ghost predicate Init(s: State, count: int) {
    && s.count == count && s.monitor == map[] && s.writers == multiset{} && s.readers == multiset{}
    && forall t :: t in s.pc ==> s.pc[t] == Idle
  }

  ghost predicate Run(r: seq<State>, count: int) {
    && r != []
    && Init(r[0], count)
    && forall i :: 0 <= i < |r| - 1 ==> Next(r[i], r[i + 1])
  }

  /** What the counter says. */
  predicate Counted(s: State) {
    || (s.count == 0 && |s.writers| == 1 && |s.readers| == 0)
    || (s.count == 1 - 2 * |s.readers| && |s.writers| == 0)
  }

  ghost predicate Current(s: State, t: Tid)
    requires t in s.pc
  {
    match s.pc[t]
    case WrLoaded(c, _) => Holds(s.monitor, t, Count) ==> c == s.count
    case RdLoaded(c) => Holds(s.monitor, t, Count) ==> c == s.count
    case UnlockTry => t in s.writers + s.readers
    case UnlockLoaded(c) => t in s.writers + s.readers && (Holds(s.monitor, t, Count) ==> c == s.count)
    case _ => true
  }

  ghost predicate Inv(s: State) {
    Counted(s) && forall t :: t in s.pc ==> Current(s, t)
  }

  lemma OnlyMember(m: multiset<Tid>, t: Tid)
    requires |m| == 1 && t in m
    ensures m == multiset{t}
  {
    assert m == multiset{t} + (m - multiset{t});
  }

  lemma StepCounts(s: State, t: Tid, s': State)
    requires Counted(s) && t in s.pc && Current(s, t) && Step(s, t, s')
    ensures Counted(s')
  {
    match s.pc[t] {
      case Idle => case WrTry(_) => case WrLoaded(_, _) => case Waiting => case RdTry => case RdLoaded(_) =>
      case UnlockTry =>
      case UnlockLoaded(_) =>
        if t in s.writers { OnlyMember(s.writers, t); }
    }
  }

  /** What a step leaves of the other threads: their places, acquisitions and, if it stored, no reservation. */
  lemma OthersUntouched(s: State, t: Tid, u: Tid, s': State)
    requires t in s.pc && Step(s, t, s') && u != t && u in s.pc
    ensures u in s'.pc && s'.pc[u] == s.pc[u] && s'.writers[u] == s.writers[u] && s'.readers[u] == s.readers[u]
    ensures Holds(s'.monitor, u, Count) ==> Holds(s.monitor, u, Count) && s'.count == s.count
  {
    match s.pc[t] {
      case Idle => case WrTry(_) => case WrLoaded(_, _) => case Waiting => case RdTry => case RdLoaded(_) =>
      case UnlockTry => case UnlockLoaded(_) =>
    }
  }

  lemma StaysCurrent(s: State, t: Tid, s': State)
    requires t in s.pc && Current(s, t) && Step(s, t, s')
    ensures t in s'.pc && s'.pc.Keys == s.pc.Keys && Current(s', t)
  {
    match s.pc[t] {
      case Idle => case WrTry(_) => case WrLoaded(_, _) => case Waiting => case RdTry => case RdLoaded(_) =>
      case UnlockTry => case UnlockLoaded(_) =>
    }
  }

  lemma StepKeepsInv(s: State, t: Tid, s': State)
    requires Inv(s) && t in s.pc && Step(s, t, s')
    ensures Inv(s')
  {
    assert Current(s, t);
    StepCounts(s, t, s');
    StaysCurrent(s, t, s');
    hide Step, Counted;
    forall u | u in s'.pc && u != t ensures Current(s', u) {
      assert Current(s, u);
      OthersUntouched(s, t, u, s');
    }
  }

  lemma {:induction false} RunKeepsInv(r: seq<State>, i: nat)
    requires Run(r, 1) && i < |r|
    ensures Inv(r[i])
  {
    if i > 0 {
      RunKeepsInv(r, i - 1);
      var t :| t in r[i - 1].pc && Step(r[i - 1], t, r[i]);
      StepKeepsInv(r[i - 1], t, r[i]);
    }
  }

  // ----- main results

  /** The counter is 0 exactly when one writer holds the lock and no reader does; else it counts the readers. */
  lemma CountTells(r: seq<State>, i: nat)
    requires Run(r, 1) && i < |r|
    ensures r[i].count == 0 <==> |r[i].writers| == 1
    ensures r[i].count == 0 ==> |r[i].readers| == 0
    ensures r[i].count != 0 ==> |r[i].writers| == 0 && r[i].count == 1 - 2 * |r[i].readers|
  {
    RunKeepsInv(r, i);
  }

  /** An unlock takes the branch of the caller's own kind. */
  lemma UnlockMatches(r: seq<State>, i: nat, t: Tid)
    requires Run(r, 1) && i + 1 < |r| && t in r[i].pc && Step(r[i], t, r[i + 1])
    requires r[i].pc[t].UnlockLoaded? && t in r[i + 1].pc && r[i + 1].pc[t] == Idle
    ensures t in r[i].writers <==> r[i].pc[t].c == 0
    ensures t in r[i].writers ==> r[i + 1].count == 1 && |r[i + 1].writers| == 0
    ensures t !in r[i].writers ==> t in r[i].readers && |r[i + 1].readers| == |r[i].readers| - 1
  {
    RunKeepsInv(r, i);
    assert Current(r[i], t);
    if t in r[i].writers { OnlyMember(r[i].writers, t); }
  }

  /** A writer that had to wait gets in only when nobody is in. */
  lemma WaiterEntersAlone(r: seq<State>, i: nat, t: Tid)
    requires Run(r, 1) && i + 1 < |r| && t in r[i].pc && r[i].pc[t] == Waiting && Step(r[i], t, r[i + 1])
    ensures |r[i].writers| == 0 && |r[i].readers| == 0
    ensures r[i + 1].count == 0 && r[i + 1].writers == multiset{t}
  {
    RunKeepsInv(r, i);
  }

  // ----- who is turned away

  lemma MovesByItself(s: State, s': State, t: Tid)
    requires Next(s, s') && t in s.pc && t in s'.pc && s'.pc[t] != s.pc[t]
    ensures Step(s, t, s')
  {
    var u :| u in s.pc && Step(s, u, s');
    if u != t { OthersUntouched(s, u, t, s'); }
  }

  lemma NextOf(r: seq<State>, count: int, i: nat)
    requires Run(r, count) && i + 1 < |r|
    ensures Next(r[i], r[i + 1])
  {}

  lemma ThreadsStay(s: State, s': State)
    requires Next(s, s')
    ensures s'.pc.Keys == s.pc.Keys
  {
    var u :| u in s.pc && Step(s, u, s');
    match s.pc[u] {
      case Idle => case WrTry(_) => case WrLoaded(_, _) => case Waiting => case RdTry => case RdLoaded(_) =>
      case UnlockTry => case UnlockLoaded(_) =>
    }
  }

  /** Thread t read the counter in step j of its loop, and has done nothing since. */
  ghost predicate ReadAt(r: seq<State>, j: nat, i: nat, t: Tid)
    requires i < |r|
  {
    && j < i && t in r[j].pc && t in r[i].pc
    && (forall k :: j < k <= i ==> t in r[k].pc && r[k].pc[t] == r[i].pc[t])
    && match r[i].pc[t] {
         case WrLoaded(c, wait) => r[j].pc[t] == WrTry(wait) && c == r[j].count
         case RdLoaded(c) => r[j].pc[t] == RdTry && c == r[j].count
         case _ => false
       }
  }

  lemma LoadsCount(s: State, t: Tid, s': State)
    requires t in s.pc && t in s'.pc && Step(s, t, s')
    ensures s'.pc[t].WrLoaded? ==> s.pc[t] == WrTry(s'.pc[t].wait) && s'.pc[t].c == s.count
    ensures s'.pc[t].RdLoaded? ==> s.pc[t] == RdTry && s'.pc[t].c == s.count
  {
    match s.pc[t] {
      case Idle => case WrTry(_) => case WrLoaded(_, _) => case Waiting => case RdTry => case RdLoaded(_) =>
      case UnlockTry => case UnlockLoaded(_) =>
    }
  }

  lemma ReadStays(r: seq<State>, j: nat, i: nat, t: Tid)
    requires i + 1 < |r| && ReadAt(r, j, i, t) && t in r[i + 1].pc && r[i + 1].pc[t] == r[i].pc[t]
    ensures ReadAt(r, j, i + 1, t)
  {}

  lemma ReadNow(r: seq<State>, i: nat, t: Tid)
    requires i + 1 < |r| && t in r[i].pc && t in r[i + 1].pc
    requires match r[i + 1].pc[t] {
        case WrLoaded(c, wait) => r[i].pc[t] == WrTry(wait) && c == r[i].count
        case RdLoaded(c) => r[i].pc[t] == RdTry && c == r[i].count
        case _ => false
      }
    ensures ReadAt(r, i, i + 1, t)
  {}

  lemma {:induction false} ReadEarlier(r: seq<State>, count: int, i: nat, t: Tid) returns (j: nat)
    requires Run(r, count) && i < |r| && t in r[i].pc && (r[i].pc[t].WrLoaded? || r[i].pc[t].RdLoaded?)
    ensures ReadAt(r, j, i, t)
  {
    hide Run, Next, Step, ReadAt;
    IdleAtFirst(r, count);
    if i > 0 {
      j := i - 1;
      NextOf(r, count, j);
      ThreadsStay(r[j], r[j + 1]);
      if r[j].pc[t] == r[i].pc[t] {
        j := ReadEarlier(r, count, i - 1, t);
        ReadStays(r, j, i - 1, t);
      } else {
        MovesByItself(r[j], r[j + 1], t);
        LoadsCount(r[j], t, r[j + 1]);
        ReadNow(r, j, t);
      }
    }
  }

  lemma IdleAtFirst(r: seq<State>, count: int)
    requires Run(r, count)
    ensures forall t :: t in r[0].pc ==> r[0].pc[t] == Idle
  {}

  lemma RefusalWhere(s: State, t: Tid, s': State)
    requires t in s.pc && t in s'.pc && Step(s, t, s')
    requires s.pc[t].WrLoaded? || s.pc[t].RdLoaded?
    requires s'.pc[t] == Waiting || (s'.pc[t] == Idle && s'.writers == s.writers && s'.readers == s.readers)
    ensures s.pc[t].WrLoaded? ==> s.pc[t].c <= 0
    ensures s.pc[t].RdLoaded? ==> s.pc[t].c == 0
  {
    assert (s.writers + multiset{t})[t] == s.writers[t] + 1 && (s.readers + multiset{t})[t] == s.readers[t] + 1;
  }

  /** Turned away: a writer that has to wait or is told EBUSY, and a reader told EBUSY. */
  ghost predicate TurnedAway(s: State, t: Tid, s': State) {
    && t in s.pc && t in s'.pc && (s.pc[t].WrLoaded? || s.pc[t].RdLoaded?)
    && (s'.pc[t] == Waiting || (s'.pc[t] == Idle && s'.writers == s.writers && s'.readers == s.readers))
  }

  /** A writer is turned away only if somebody was in when it looked, a reader only if a writer was. */
  lemma BusyMeansTaken(r: seq<State>, i: nat, t: Tid) returns (j: nat)
    requires Run(r, 1) && i + 1 < |r| && TurnedAway(r[i], t, r[i + 1])
    ensures ReadAt(r, j, i, t)
    ensures r[i].pc[t].WrLoaded? ==> |r[j].writers| + |r[j].readers| > 0
    ensures r[i].pc[t].RdLoaded? ==> |r[j].writers| == 1
  {
    NextOf(r, 1, i);
    j := ReadEarlier(r, 1, i, t);
    RunKeepsInv(r, j);
    hide Run, Next, Step;
    MovesByItself(r[i], r[i + 1], t);
    RefusalWhere(r[i], t, r[i + 1]);
  }

  // ----- a thread alone

  /** r are steps of thread t from inside a call to its end. */
  ghost predicate Alone(r: seq<State>, t: Tid) {
    && r != [] && t in r[|r| - 1].pc && r[|r| - 1].pc[t] == Idle
    && forall i :: 0 <= i < |r| - 1 ==> t in r[i].pc && r[i].pc[t] != Idle && Step(r[i], t, r[i + 1])
  }

  lemma AloneThen(s: State, t: Tid, q: seq<State>)
    requires Alone(q, t) && t in s.pc && s.pc[t] != Idle && Step(s, t, q[0])
    ensures Alone([s] + q, t)
  {
    hide Step;
    var r := [s] + q;
    forall i | 0 <= i < |r| - 1 ensures t in r[i].pc && r[i].pc[t] != Idle && Step(r[i], t, r[i + 1]) {
      if i > 0 { assert r[i] == q[i - 1] && r[i + 1] == q[i - 1 + 1]; }
    }
  }

  /** An undisturbed writer gets in exactly when the counter is positive, and else waits or is told so. */
  lemma WriteAlone(s: State, t: Tid) returns (r: seq<State>)
    requires t in s.pc && s.pc[t].WrTry? && (s.count > 0 || !s.pc[t].wait)
    ensures Alone(r, t) && r[0] == s
    ensures var s' := r[|r| - 1];
      s' == if s.count > 0 then Go(s, t, Idle).(count := 0, writers := s.writers + multiset{t}, monitor := s'.monitor)
            else Go(s, t, Idle).(monitor := s'.monitor)
  {
    var m, wait := Ldrex(s.monitor, t, Count), s.pc[t].wait;
    var s1 := Go(s, t, WrLoaded(s.count, wait)).(monitor := m);
    var s2 := if s.count > 0
              then Go(s, t, Idle).(count := 0, monitor := Stored(m, Count), writers := s.writers + multiset{t})
              else Go(s, t, Idle).(monitor := m);
    r := [s, s1, s2];
    assert s2.pc == s1.pc[t := Idle];
  }

  lemma WaitAlone(s: State, t: Tid) returns (r: seq<State>)
    requires t in s.pc && s.pc[t] == Waiting && s.count > 0
    ensures Alone(r, t) && r[0] == s
  {
    var s1 := Go(s, t, Idle).(count := s.count - 1, monitor := Stored(s.monitor, Count),
                              writers := s.writers + multiset{t});
    r := [s, s1];
  }

  /** An undisturbed reader gets in exactly when the counter is not 0. */
  lemma ReadAlone(s: State, t: Tid) returns (r: seq<State>)
    requires t in s.pc && s.pc[t] == RdTry
    ensures Alone(r, t) && r[0] == s
    ensures var s' := r[|r| - 1];
      s' == if s.count != 0
            then Go(s, t, Idle).(count := s.count - 2, readers := s.readers + multiset{t}, monitor := s'.monitor)
            else Go(s, t, Idle).(monitor := s'.monitor)
  {
    var m := Ldrex(s.monitor, t, Count);
    var s1 := Go(s, t, RdLoaded(s.count)).(monitor := m);
    var entered := Go(s, t, Idle).(count := s.count - 2, readers := s.readers + multiset{t},
                                   monitor := Stored(m, Count));
    var s2 := if s.count != 0 then entered else Go(s, t, Idle).(monitor := m);
    r := [s, s1, s2];
    assert s2.pc == s1.pc[t := Idle];
  }

  /** An undisturbed unlock gives one acquisition back. */
  lemma UnlockAlone(s: State, t: Tid) returns (r: seq<State>)
    requires t in s.pc && s.pc[t] == UnlockTry && t in s.writers + s.readers
    ensures Alone(r, t) && r[0] == s
    ensures var s' := r[|r| - 1];
      && s'.count == (if s.count == 0 then 1 else s.count + 2)
      && s'.writers + s'.readers == s.writers + s.readers - multiset{t}
  {
    var m := Ldrex(s.monitor, t, Count);
    var s1 := Go(s, t, UnlockLoaded(s.count)).(monitor := m);
    var s2 := Go(s1, t, Idle).(count := if s.count == 0 then 1 else s.count + 2, monitor := Stored(m, Count),
                writers := if t in s.writers then s.writers - multiset{t} else s.writers,
                readers := if t in s.writers then s.readers else s.readers - multiset{t});
    r := [s, s1, s2];
  }

  /** What keeps a writer: the lock is taken, and it is to wait. */
  predicate Kept(s: State, t: Tid) {
    t in s.pc && s.count <= 0
    && (s.pc[t] == Waiting || (s.pc[t].WrTry? && s.pc[t].wait) || (s.pc[t].WrLoaded? && s.pc[t].wait))
  }

  /** In every state whoever is in a call, and not kept waiting, can end it without the others. */
  lemma CanEnd(s: State, t: Tid) returns (r: seq<State>)
    requires t in s.pc && s.pc[t] != Idle && !Kept(s, t) && Current(s, t)
    ensures Alone(r, t) && r[0] == s
  {
    var m := Clrex(s.monitor, t);
    match s.pc[t] {
      case WrTry(_) => r := WriteAlone(s, t);
      case RdTry => r := ReadAlone(s, t);
      case UnlockTry => r := UnlockAlone(s, t);
      case Waiting => r := WaitAlone(s, t);
      case WrLoaded(c, wait) =>
        if c > 0 {
          r := WriteAlone(Go(s, t, WrTry(wait)).(monitor := m), t);
        } else if wait {
          r := WaitAlone(Go(s, t, Waiting), t);
        } else {
          r := [Go(s, t, Idle)];
        }
        AloneThen(s, t, r);
        r := [s] + r;
      case RdLoaded(c) =>
        if c == 0 { r := [Go(s, t, Idle)]; } else { r := ReadAlone(Go(s, t, RdTry).(monitor := m), t); }
        AloneThen(s, t, r);
        r := [s] + r;
      case UnlockLoaded(_) =>
        r := UnlockAlone(Go(s, t, UnlockTry).(monitor := m), t);
        AloneThen(s, t, r);
        r := [s] + r;
    }
  }

  /** In every state of every run, by itself, pthread_rwlock_trywrlock gets in exactly when nobody is in,
      pthread_rwlock_wrlock does so then, and pthread_rwlock_tryrdlock gets in exactly when no writer is. */
  lemma TryAlone(r: seq<State>, i: nat, t: Tid) returns (w: seq<State>, l: seq<State>, d: seq<State>)
    requires Run(r, 1) && i < |r| && t in r[i].pc && r[i].pc[t] == Idle
    ensures var s, free := r[i], |r[i].writers| == 0 && |r[i].readers| == 0;
      && Alone(w, t) && Step(s, t, w[0]) && w[0].pc[t] == WrTry(false)
      && w[|w| - 1].writers == s.writers + (if free then multiset{t} else multiset{}) && w[|w| - 1].readers == s.readers
      && (free ==> Alone(l, t) && Step(s, t, l[0]) && l[0].pc[t] == WrTry(true)
                   && l[|l| - 1].writers == multiset{t} && l[|l| - 1].readers == s.readers)
      && Alone(d, t) && Step(s, t, d[0]) && d[0].pc[t] == RdTry && d[|d| - 1].writers == s.writers
      && d[|d| - 1].readers == s.readers + if |s.writers| == 0 then multiset{t} else multiset{}
  {
    RunKeepsInv(r, i);
    var s := r[i];
    hide Run, Alone;
    w := WriteAlone(Go(s, t, WrTry(false)), t);
    if s.count > 0 { l := WriteAlone(Go(s, t, WrTry(true)), t); } else { l := w; }
    d := ReadAlone(Go(s, t, RdTry), t);
  }

  /** And pthread_rwlock_unlock gives one acquisition of the caller back. */
  lemma GiveBackAlone(s: State, t: Tid) returns (u: seq<State>)
    requires t in s.pc && s.pc[t] == Idle && t in s.writers + s.readers
    ensures Alone(u, t) && Step(s, t, u[0]) && u[0].pc[t] == UnlockTry
    ensures u[|u| - 1].writers + u[|u| - 1].readers == s.writers + s.readers - multiset{t}
  {
    u := UnlockAlone(Go(s, t, UnlockTry), t);
  }

  /** A lock left as the static initialiser makes it never lets anyone in. */
  lemma {:induction false} StaticInitializerStaysShut(r: seq<State>, i: nat)
    requires Run(r, 0) && i < |r|
    ensures r[i].count == 0 && r[i].writers == multiset{} && r[i].readers == multiset{}
    ensures forall t :: t in r[i].pc ==> Shut(r[i], t)
  {
    if i > 0 {
      StaticInitializerStaysShut(r, i - 1);
      var t :| t in r[i - 1].pc && Step(r[i - 1], t, r[i]);
      assert Shut(r[i - 1], t);
      ShutStays(r[i - 1], t, r[i]);
    }
  }

  ghost predicate Shut(s: State, t: Tid)
    requires t in s.pc
  {
    match s.pc[t]
    case WrLoaded(c, _) => c == 0
    case RdLoaded(c) => c == 0
    case UnlockTry => false
    case UnlockLoaded(_) => false
    case _ => true
  }

  lemma ShutStays(s: State, t: Tid, s': State)
    requires s.count == 0 && s.writers == multiset{} && s.readers == multiset{} && t in s.pc && Step(s, t, s')
    requires forall u :: u in s.pc ==> Shut(s, u)
    ensures s'.count == 0 && s'.writers == multiset{} && s'.readers == multiset{}
    ensures forall u :: u in s'.pc ==> Shut(s', u)
  {
    assert Shut(s, t);
    forall u | u in s'.pc ensures Shut(s', u) {
      assert u == t || Shut(s, u);
      match s.pc[t] {
        case Idle => case WrTry(_) => case WrLoaded(_, _) => case Waiting => case RdTry => case RdLoaded(_) =>
      }
    }
    match s.pc[t] {
      case Idle => case WrTry(_) => case WrLoaded(_, _) => case Waiting => case RdTry => case RdLoaded(_) =>
    }
  }

  /** pthread_rwlock_init: with any threads the runs may start. */
  method RwlockInit() returns (count: int)
    ensures forall pc: map<Tid, Pc> ::
      (forall t :: t in pc ==> pc[t] == Idle) ==> Init(State(count, map[], pc, multiset{}, multiset{}), 1)
  {
    count := 1;
  }
}
