/** Mutual exclusion, FIFO order and semaphore accounting of the mailbox, in every run. */
module MboxTheorems {
  import opened MboxMachine

  datatype Role =
    | Inside                          // in a critical section
    | Fetching                        // past sem_read, message not yet taken off the queue
    | Unsignalled                     // message on the queue, sem_read not yet signalled

  predicate Plays(pc: Pc, role: Role) {
    match role
    case Inside =>
      pc.PostStore? || pc.PostHead? || pc.PostCount? || pc.PostUnlock?
      || pc.FetchLoad? || pc.FetchTail? || pc.FetchCount? || pc.FetchUnlock?
    case Fetching => pc.FetchLock? || pc.FetchLoad? || pc.FetchTail? || pc.FetchCount?
    case Unsignalled => pc.PostUnlock? || pc.PostSignal?
  }

  function Cast(threads: map<Tid, Pc>, role: Role): set<Tid> {
    set t | t in threads && Plays(threads[t], role)
  }

  function Critical(h: Hw): set<Tid> {
    Cast(h.threads, Inside)
  }

  /** The abstract queue: posted and not yet fetched. */
  function Queue(g: Log): seq<Msg>
    requires |g.fetched| <= |g.posted|
  {
    g.posted[|g.fetched|..]
  }

  /** The slots from `from` on hold q. */
  ghost predicate Ring(msgs: Slots, from: int, q: seq<Msg>) {
    forall i :: 0 <= i < |q| ==> msgs[Wrap(from + i)] == q[i]
  }

  ghost predicate Settled(h: Hw, q: seq<Msg>) {
    && 0 <= h.head < 32 && 0 <= h.tail < 32
    && h.count == |q| <= 32
    && h.head == Wrap(h.tail + |q|)
    && Ring(h.msgs, h.tail, q)
  }

  /** What the fields look like while the thread inside the critical section is at pc. */
  ghost predicate Shape(h: Hw, g: Log, pc: Pc)
    requires |g.fetched| <= |g.posted|
  {
    var q := Queue(g);
    match pc
    case PostStore(_) => Settled(h, q) && |q| < 32
    case PostHead(m) => Settled(h, q) && |q| < 32 && h.msgs[h.head] == m
    case PostCount(m) =>
      && 0 <= h.tail < 32 && h.count == |q| < 32 && h.head == Wrap(h.tail + |q| + 1)
      && Ring(h.msgs, h.tail, q + [m])
    case PostUnlock => Settled(h, q)
    case FetchLoad => Settled(h, q) && q != []
    case FetchTail(m) => Settled(h, q) && q != [] && m == q[0]
    case FetchCount(m) =>
      && 0 <= h.tail < 32 && h.count == |q| <= 32 && q != [] && m == q[0]
      && h.head == Wrap(h.tail + |q| - 1) && 0 <= h.head < 32
      && Ring(h.msgs, h.tail, q[1..])
    case FetchUnlock(m) => Settled(h, q) && g.fetched != [] && m == g.fetched[|g.fetched| - 1]
    case _ => true
  }

  ghost predicate Locking(h: Hw) {
    h.lock.cap && h.lock.pending + |Critical(h)| == 1
  }

  ghost predicate Fields(s: State) {
    && |s.log.fetched| <= |s.log.posted|
    && s.log.fetched == s.log.posted[..|s.log.fetched|]
    && (Critical(s.hw) == {} ==> Settled(s.hw, Queue(s.log)))
    && (forall t :: t in Critical(s.hw) ==> Shape(s.hw, s.log, s.hw.threads[t]))
  }

  /** Every message on the queue is announced by exactly one of four things. */
  ghost predicate Accounting(s: State) {
    && |s.log.fetched| <= |s.log.posted|
    && s.hw.read.pending + |Cast(s.hw.threads, Fetching)| + |Cast(s.hw.threads, Unsignalled)| + s.log.lost
         == |Queue(s.log)|
  }

  ghost predicate Inv(s: State) {
    Locking(s.hw) && s.hw.read.cap && Fields(s) && Accounting(s)
  }

  // --- How one thread's move changes the casts -------------------------------------------------

  function One(b: bool): nat {
    if b then 1 else 0
  }

  /** Only the thread that moves joins or leaves a cast. */
  lemma Moved(threads: map<Tid, Pc>, t: Tid, pc: Pc, role: Role)
    ensures var a, b := Cast(threads, role), Cast(threads[t := pc], role);
      && b == (if Plays(pc, role) then a + {t} else a - {t})
      && |b| == |a| - One(t in a) + One(Plays(pc, role))
  {
    var a, b := Cast(threads, role), Cast(threads[t := pc], role);
    assert b == (if Plays(pc, role) then a + {t} else a - {t});
  }

  lemma Left(threads: map<Tid, Pc>, t: Tid, role: Role)
    ensures var a, b := Cast(threads, role), Cast(threads - {t}, role);
      b == a - {t} && |b| == |a| - One(t in a)
  {
    var a, b := Cast(threads, role), Cast(threads - {t}, role);
    assert b == a - {t};
  }

  /** The statement moves thread t to `pc`, or out of the mailbox. */
  predicate Moves(h: Hw, h': Hw, t: Tid, pc: Pc, leaves: bool) {
    h'.threads == if leaves then h.threads - {t} else h.threads[t := pc]
  }

  lemma CastAfter(h: Hw, h': Hw, t: Tid, pc: Pc, leaves: bool, role: Role)
    requires Moves(h, h', t, pc, leaves)
    ensures var a, b := Cast(h.threads, role), Cast(h'.threads, role);
      && b == (if !leaves && Plays(pc, role) then a + {t} else a - {t})
      && |b| == |a| - One(t in a) + One(!leaves && Plays(pc, role))
  {
    if leaves {
      Left(h.threads, t, role);
    } else {
      Moved(h.threads, t, pc, role);
    }
  }

  // --- The fields, statement by statement ------------------------------------------------------

  lemma WrapAdd(a: int, b: int)
    ensures Wrap(Wrap(a) + b) == Wrap(a + b)
  {
  }

  lemma WrapsDiffer(from: int, i: nat, j: nat)
    requires i < j < i + 32
    ensures Wrap(from + i) != Wrap(from + j)
  {
  }

  /** Storing at the head leaves a ring of q intact, whatever is stored, exactly when q is not full. */
  lemma StoreAtHead(msgs: Slots, tail: int, q: seq<Msg>, m: Msg)
    requires Ring(msgs, tail, q) && |q| < 32
    ensures Ring(msgs[Wrap(tail + |q|) := m], tail, q)
  {
    var after := msgs[Wrap(tail + |q|) := m];
    forall i | 0 <= i < |q|
      ensures after[Wrap(tail + i)] == q[i]
    {
      WrapsDiffer(tail, i, |q|);
    }
  }

  lemma StoreStep(h: Hw, g: Log, m: Msg)
    requires |g.fetched| <= |g.posted| && Shape(h, g, PostStore(m))
    ensures Shape(h.(msgs := h.msgs[Wrap(h.head) := m]), g, PostHead(m))
  {
    StoreAtHead(h.msgs, h.tail, Queue(g), m);
  }

  lemma HeadStep(h: Hw, g: Log, m: Msg)
    requires |g.fetched| <= |g.posted| && Shape(h, g, PostHead(m))
    ensures Shape(h.(head := Wrap(h.head + 1)), g, PostCount(m))
  {
    var q := Queue(g);
    WrapAdd(h.tail + |q|, 1);
    assert Ring(h.msgs, h.tail, q + [m]);
  }

  lemma CountStep(h: Hw, g: Log, m: Msg)
    requires |g.fetched| <= |g.posted| && Shape(h, g, PostCount(m))
    ensures Shape(h.(count := h.count + 1), g.(posted := g.posted + [m]), PostUnlock)
  {
    assert Queue(g.(posted := g.posted + [m])) == Queue(g) + [m];
  }

  lemma LoadStep(h: Hw, g: Log)
    requires |g.fetched| <= |g.posted| && Shape(h, g, FetchLoad)
    ensures Shape(h, g, FetchTail(h.msgs[Wrap(h.tail)]))
  {
    assert h.msgs[Wrap(h.tail + 0)] == Queue(g)[0];
  }

  lemma TailStep(h: Hw, g: Log, m: Msg)
    requires |g.fetched| <= |g.posted| && Shape(h, g, FetchTail(m))
    ensures Shape(h.(tail := Wrap(h.tail + 1)), g, FetchCount(m))
  {
    var q := Queue(g);
    forall i | 0 <= i < |q| - 1
      ensures h.msgs[Wrap(Wrap(h.tail + 1) + i)] == q[1..][i]
    {
      WrapAdd(h.tail + 1, i);
      assert h.msgs[Wrap(h.tail + (i + 1))] == q[i + 1];
    }
    WrapAdd(h.tail + 1, |q| - 1);
  }

  lemma UncountStep(h: Hw, g: Log, m: Msg)
    requires |g.fetched| <= |g.posted| && Shape(h, g, FetchCount(m))
    ensures var g' := g.(fetched := g.fetched + [m]);
      |g'.fetched| <= |g'.posted| && Shape(h.(count := h.count - 1), g', FetchUnlock(m))
  {
    assert Queue(g.(fetched := g.fetched + [m])) == Queue(g)[1..];
  }

  lemma UnlockStep(h: Hw, g: Log, pc: Pc, lock: Sem)
    requires |g.fetched| <= |g.posted| && Shape(h, g, pc) && (pc.PostUnlock? || pc.FetchUnlock?)
    ensures Settled(h.(lock := lock), Queue(g))
  {
  }

  /** Whether it is settled is a matter of the ring and its fields. */
  lemma ShapeFrame(h: Hw, h': Hw, g: Log, pc: Pc)
    requires |g.fetched| <= |g.posted|
    requires h'.msgs == h.msgs && h'.head == h.head && h'.tail == h.tail && h'.count == h.count
    ensures Shape(h', g, pc) <==> Shape(h, g, pc)
    ensures Settled(h', Queue(g)) <==> Settled(h, Queue(g))
  {
  }

  /** The critical section, one statement at a time. */
  lemma InsideStep(s: State, t: Tid, coalesce: bool)
    requires |s.log.fetched| <= |s.log.posted| && t in s.hw.threads
    requires Plays(s.hw.threads[t], Inside) && Shape(s.hw, s.log, s.hw.threads[t])
    ensures var n := Next(s, Step(t, coalesce));
      && |n.log.fetched| <= |n.log.posted|
      && if t in n.hw.threads && Plays(n.hw.threads[t], Inside) then Shape(n.hw, n.log, n.hw.threads[t])
         else Settled(n.hw, Queue(n.log))
  {
    hide Shape, Settled, Queue, Signal;
    var h, g, n := s.hw, s.log, Next(s, Step(t, coalesce));
    match h.threads[t] {
      case PostStore(m) =>
        StoreStep(h, g, m);
        ShapeFrame(h.(msgs := h.msgs[Wrap(h.head) := m]), n.hw, g, PostHead(m));
      case PostHead(m) =>
        HeadStep(h, g, m);
        ShapeFrame(h.(head := Wrap(h.head + 1)), n.hw, g, PostCount(m));
      case PostCount(m) =>
        CountStep(h, g, m);
        ShapeFrame(h.(count := h.count + 1), n.hw, n.log, PostUnlock);
      case FetchLoad =>
        LoadStep(h, g);
        ShapeFrame(h, n.hw, g, FetchTail(h.msgs[Wrap(h.tail)]));
      case FetchTail(m) =>
        TailStep(h, g, m);
        ShapeFrame(h.(tail := Wrap(h.tail + 1)), n.hw, g, FetchCount(m));
      case FetchCount(m) =>
        UncountStep(h, g, m);
        ShapeFrame(h.(count := h.count - 1), n.hw, n.log, FetchUnlock(m));
      case PostUnlock =>
        UnlockStep(h, g, PostUnlock, n.hw.lock);
        ShapeFrame(h.(lock := n.hw.lock), n.hw, g, PostUnlock);
      case FetchUnlock(m) =>
        UnlockStep(h, g, FetchUnlock(m), n.hw.lock);
        ShapeFrame(h.(lock := n.hw.lock), n.hw, g, FetchUnlock(m));
    }
  }

  // --- Preservation ----------------------------------------------------------------------------

  lemma OnlyInside(h: Hw, t: Tid)
    requires Locking(h) && t in Critical(h)
    ensures Critical(h) == {t} && h.lock.pending == 0
  {
    var rest := Critical(h) - {t};
    assert Critical(h) == rest + {t};
    assert |Critical(h)| == |rest| + 1;
  }

  /** Where the next statement of thread t leads. */
  function Landing(h: Hw, t: Tid): Pc
    requires t in h.threads
  {
    match h.threads[t]
    case PostLock(m) => PostStore(m)
    case PostStore(m) => PostHead(m)
    case PostHead(m) => PostCount(m)
    case PostCount(_) => PostUnlock
    case PostUnlock => PostSignal
    case PostSignal => PostSignal
    case FetchWait => FetchLock
    case FetchLock => FetchLoad
    case FetchLoad => FetchTail(h.msgs[Wrap(h.tail)])
    case FetchTail(m) => FetchCount(m)
    case FetchCount(m) => FetchUnlock(m)
    case FetchUnlock(m) => FetchUnlock(m)
  }

  predicate Leaves(pc: Pc) {
    pc.PostSignal? || pc.FetchUnlock?
  }

  predicate Stuck(h: Hw, t: Tid)
    requires t in h.threads
  {
    var pc := h.threads[t];
    ((pc.PostLock? || pc.FetchLock?) && Blocked(h.lock)) || (pc.FetchWait? && Blocked(h.read))
  }

  lemma StepMoves(h: Hw, t: Tid, coalesce: bool)
    requires t in h.threads && !Stuck(h, t)
    ensures Moves(h, StepHw(h, Step(t, coalesce)), t, Landing(h, t), Leaves(h.threads[t]))
  {
  }

  lemma LockingKeeps(s: State, t: Tid, coalesce: bool)
    requires Locking(s.hw) && t in s.hw.threads && !Stuck(s.hw, t)
    ensures Locking(Next(s, Step(t, coalesce)).hw)
  {
    var h := s.hw;
    StepMoves(h, t, coalesce);
    CastAfter(h, StepHw(h, Step(t, coalesce)), t, Landing(h, t), Leaves(h.threads[t]), Inside);
    if t in Critical(h) {
      OnlyInside(h, t);
    }
  }

  /** A fetcher past the wait finds a message. */
  lemma FetcherFindsMessage(s: State, t: Tid)
    requires Accounting(s) && t in s.hw.threads && Plays(s.hw.threads[t], Fetching)
    ensures Queue(s.log) != []
  {
    assert t in Cast(s.hw.threads, Fetching);
  }

  lemma RoleChange(h: Hw, t: Tid)
    requires t in h.threads
    ensures var pc, to := h.threads[t], Landing(h, t);
      && One(!Leaves(pc) && Plays(to, Fetching)) - One(Plays(pc, Fetching)) ==
           One(pc.FetchWait?) - One(pc.FetchCount?)
      && One(!Leaves(pc) && Plays(to, Unsignalled)) - One(Plays(pc, Unsignalled)) ==
           One(pc.PostCount?) - One(pc.PostSignal?)
  {
  }

  lemma CastSize(h: Hw, t: Tid, coalesce: bool, role: Role)
    requires t in h.threads && !Stuck(h, t)
    ensures |Cast(StepHw(h, Step(t, coalesce)).threads, role)| ==
      |Cast(h.threads, role)| - One(Plays(h.threads[t], role))
      + One(!Leaves(h.threads[t]) && Plays(Landing(h, t), role))
  {
    StepMoves(h, t, coalesce);
    hide StepHw;
    CastAfter(h, StepHw(h, Step(t, coalesce)), t, Landing(h, t), Leaves(h.threads[t]), role);
    assert t in Cast(h.threads, role) <==> Plays(h.threads[t], role);
  }

  /** How the queue, the pending signals and the lost ones change. */
  lemma TokenStep(s: State, t: Tid, coalesce: bool)
    requires t in s.hw.threads && !Stuck(s.hw, t) && s.hw.read.cap
    requires |s.log.fetched| <= |s.log.posted|
    requires s.hw.threads[t].FetchCount? ==> Queue(s.log) != []
    ensures var n, pc := Next(s, Step(t, coalesce)), s.hw.threads[t];
      && |n.log.fetched| <= |n.log.posted|
      && |Queue(n.log)| == |Queue(s.log)| + One(pc.PostCount?) - One(pc.FetchCount?)
      && n.hw.read.pending + n.log.lost ==
           s.hw.read.pending + s.log.lost + One(pc.PostSignal?) - One(pc.FetchWait?)
  {
  }

  lemma AccountingKeeps(s: State, t: Tid, coalesce: bool)
    requires Accounting(s) && s.hw.read.cap && t in s.hw.threads && !Stuck(s.hw, t)
    ensures Accounting(Next(s, Step(t, coalesce)))
  {
    if s.hw.threads[t].FetchCount? {
      FetcherFindsMessage(s, t);
    }
    RoleChange(s.hw, t);
    CastSize(s.hw, t, coalesce, Fetching);
    CastSize(s.hw, t, coalesce, Unsignalled);
    TokenStep(s, t, coalesce);
    hide StepHw, StepLog, Cast, Queue, Plays, Landing, Leaves, One;
  }

  lemma InsideFields(s: State, t: Tid, coalesce: bool)
    requires Locking(s.hw) && Fields(s) && t in s.hw.threads && Plays(s.hw.threads[t], Inside)
    ensures Fields(Next(s, Step(t, coalesce)))
  {
    var h, n := s.hw, Next(s, Step(t, coalesce));
    assert t in Critical(h);
    OnlyInside(h, t);
    InsideStep(s, t, coalesce);
    StepMoves(h, t, coalesce);
    CastAfter(h, n.hw, t, Landing(h, t), Leaves(h.threads[t]), Inside);
    assert n.log.fetched == n.log.posted[..|n.log.fetched|];
    hide Shape, Settled;
    assert Critical(n.hw) <= {t};
    assert t in Critical(n.hw) ==> t in n.hw.threads && Plays(n.hw.threads[t], Inside);
  }

  lemma EnterFields(s: State, t: Tid, coalesce: bool)
    requires Inv(s) && t in s.hw.threads && !Stuck(s.hw, t)
    requires s.hw.threads[t].PostLock? || s.hw.threads[t].FetchLock?
    requires HasRoom(s.hw, Step(t, coalesce))
    ensures Fields(Next(s, Step(t, coalesce)))
  {
    var h, n := s.hw, Next(s, Step(t, coalesce));
    assert Critical(h) == {};
    if h.threads[t].FetchLock? {
      FetcherFindsMessage(s, t);
    }
    StepMoves(h, t, coalesce);
    CastAfter(h, n.hw, t, Landing(h, t), Leaves(h.threads[t]), Inside);
    assert Critical(n.hw) == {t};
    assert Settled(n.hw, Queue(n.log));
    assert Shape(n.hw, n.log, n.hw.threads[t]);
    hide Shape, Settled;
  }

  lemma OutsideFields(s: State, t: Tid, coalesce: bool)
    requires Locking(s.hw) && Fields(s) && t in s.hw.threads && !Stuck(s.hw, t)
    requires s.hw.threads[t].PostSignal? || s.hw.threads[t].FetchWait?
    ensures Fields(Next(s, Step(t, coalesce)))
  {
    var h, n := s.hw, Next(s, Step(t, coalesce));
    StepMoves(h, t, coalesce);
    CastAfter(h, n.hw, t, Landing(h, t), Leaves(h.threads[t]), Inside);
    assert Critical(n.hw) == Critical(h);
    FieldsFrame(s, n);
  }

  /** Fields depend on the ring, the critical threads and the record only. */
  lemma FieldsFrame(s: State, n: State)
    requires Fields(s) && Critical(n.hw) == Critical(s.hw)
    requires forall t :: t in Critical(s.hw) ==> n.hw.threads[t] == s.hw.threads[t]
    requires n.hw.msgs == s.hw.msgs && n.hw.head == s.hw.head && n.hw.tail == s.hw.tail
    requires n.hw.count == s.hw.count
    requires n.log.posted == s.log.posted && n.log.fetched == s.log.fetched
    ensures Fields(n)
  {
    assert Critical(n.hw) == {} ==> Settled(s.hw, Queue(s.log));
    forall t | t in Critical(n.hw)
      ensures Shape(n.hw, n.log, n.hw.threads[t])
    {
      assert Shape(s.hw, s.log, s.hw.threads[t]);
    }
  }

  lemma CallKeeps(s: State, l: Label)
    requires Inv(s) && !l.Step?
    ensures Inv(Next(s, l))
  {
    var h, n := s.hw, Next(s, l);
    if l.t !in h.threads {
      var pc := if l.CallPost? then PostLock(l.m) else FetchWait;
      CastAfter(h, n.hw, l.t, pc, false, Inside);
      CastAfter(h, n.hw, l.t, pc, false, Fetching);
      CastAfter(h, n.hw, l.t, pc, false, Unsignalled);
      assert Critical(n.hw) == Critical(h);
      FieldsFrame(s, n);
    }
  }

  lemma StepKeeps(s: State, l: Label)
    requires Inv(s) && HasRoom(s.hw, l)
    ensures Inv(Next(s, l))
  {
    if !l.Step? {
      CallKeeps(s, l);
    } else if l.t in s.hw.threads && !Stuck(s.hw, l.t) {
      LockingKeeps(s, l.t, l.coalesce);
      AccountingKeeps(s, l.t, l.coalesce);
      var pc := s.hw.threads[l.t];
      hide Locking, Accounting, Fields, Next, HasRoom;
      if Plays(pc, Inside) {
        InsideFields(s, l.t, l.coalesce);
      } else if pc.PostLock? || pc.FetchLock? {
        EnterFields(s, l.t, l.coalesce);
      } else {
        OutsideFields(s, l.t, l.coalesce);
      }
    } else {
      assert Next(s, l) == s;
    }
  }

  lemma {:induction false} RoomyRunKeeps(s: State, labels: seq<Label>)
    requires Inv(s) && RoomyRun(s, labels)
    ensures Inv(Run(s, labels))
  {
    if labels != [] {
      var n := |labels| - 1;
      RoomyRunKeeps(s, labels[..n]);
      hide Inv, Next;
      StepKeeps(Run(s, labels[..n]), labels[n]);
    }
  }

  /** The invariant holds in every run in which no poster finds the mailbox full. */
  lemma EveryRun(msgs: Slots, labels: seq<Label>)
    requires RoomyRun(Start(msgs, true, true), labels)
    ensures Inv(Run(Start(msgs, true, true), labels))
  {
    RoomyRunKeeps(Start(msgs, true, true), labels);
  }
}
