/**
  The mailbox of sys_arch.h as a machine of atomic statements, run by any number of threads.

  A semaphore is a capability and its pending signals.  A null capability makes waiting return
  at once and signalling do nothing, as the code has it.  A signal on a semaphore that already
  has one pending may be counted or may coalesce with it; each signal is free to do either.
*/
module MboxMachine {
  type Msg = nat                      // a pointer; null is a message like any other
  type Tid = nat
  type Slots = s: seq<Msg> | |s| == 32 witness seq<Msg>(32, _ => 0)

  /** The next statement of a thread that is inside sys_mbox_post or sys_arch_mbox_fetch. */
  datatype Pc =
    | PostLock(m: Msg)
    | PostStore(m: Msg)               // msgs[head] = msg
    | PostHead(m: Msg)                // head = (head + 1) % 32
    | PostCount(m: Msg)               // count++
    | PostUnlock
    | PostSignal
    | FetchWait
    | FetchLock
    | FetchLoad                       // *msg = msgs[tail]
    | FetchTail(m: Msg)               // tail = (tail + 1) % 32
    | FetchCount(m: Msg)              // count--
    | FetchUnlock(m: Msg)

  datatype Sem = Sem(cap: bool, pending: nat)

  datatype Hw = Hw(
    msgs: Slots, head: int, tail: int, count: int, lock: Sem, read: Sem, threads: map<Tid, Pc>)

  datatype Log = Log(
    posted: seq<Msg>,                 // in the order of the critical sections
    fetched: seq<Msg>,                // likewise
    lost: nat)                        // read signals that coalesced with a pending one

  datatype State = State(hw: Hw, log: Log)

  datatype Label =
    | CallPost(t: Tid, m: Msg)
    | CallFetch(t: Tid)
    | Step(t: Tid, coalesce: bool)    // thread t executes its next statement, if not blocked

  predicate Blocked(s: Sem) {
    s.cap && s.pending == 0
  }

  function Wait(s: Sem): Sem {
    if s.cap && s.pending > 0 then s.(pending := s.pending - 1) else s
  }

  function Signal(s: Sem, coalesce: bool): Sem {
    if !s.cap || (coalesce && s.pending > 0) then s else s.(pending := s.pending + 1)
  }

  /** What waiting and signalling do: nothing on a null capability, else one signal less or more. */
  lemma Semaphores(s: Sem, coalesce: bool)
    ensures !s.cap ==> !Blocked(s) && Wait(s) == s && Signal(s, coalesce) == s
    ensures s.cap ==> (Blocked(s) <==> s.pending == 0)
    ensures s.cap && s.pending > 0 ==> Wait(s) == Sem(true, s.pending - 1)
    ensures s.cap ==> Signal(s, coalesce) == Sem(true, if coalesce && s.pending > 0 then s.pending else s.pending + 1)
  {
  }

  function Go(h: Hw, t: Tid, pc: Pc): Hw {
    h.(threads := h.threads[t := pc])
  }

  function Leave(h: Hw, t: Tid): Hw {
    h.(threads := h.threads - {t})
  }

  /** C's remainder by SYS_MBOX_SIZE = 32, for the non-negative operands it is applied to here. */
  function Wrap(i: int): int {
    i % 32
  }

  function StepHw(h: Hw, l: Label): Hw {
    match l
    case CallPost(t, m) => if t in h.threads then h else Go(h, t, PostLock(m))
    case CallFetch(t) => if t in h.threads then h else Go(h, t, FetchWait)
    case Step(t, coalesce) =>
      if t !in h.threads then h
      else
        match h.threads[t]
        case PostLock(m) => if Blocked(h.lock) then h else Go(h.(lock := Wait(h.lock)), t, PostStore(m))
        case PostStore(m) => Go(h.(msgs := h.msgs[Wrap(h.head) := m]), t, PostHead(m))
        case PostHead(m) => Go(h.(head := Wrap(h.head + 1)), t, PostCount(m))
        case PostCount(_) => Go(h.(count := h.count + 1), t, PostUnlock)
        case PostUnlock => Go(h.(lock := Signal(h.lock, coalesce)), t, PostSignal)
        case PostSignal => Leave(h.(read := Signal(h.read, coalesce)), t)
        case FetchWait => if Blocked(h.read) then h else Go(h.(read := Wait(h.read)), t, FetchLock)
        case FetchLock => if Blocked(h.lock) then h else Go(h.(lock := Wait(h.lock)), t, FetchLoad)
        case FetchLoad => Go(h, t, FetchTail(h.msgs[Wrap(h.tail)]))
        case FetchTail(m) => Go(h.(tail := Wrap(h.tail + 1)), t, FetchCount(m))
        case FetchCount(m) => Go(h.(count := h.count - 1), t, FetchUnlock(m))
        case FetchUnlock(_) => Leave(h.(lock := Signal(h.lock, coalesce)), t)
  }

  function StepLog(h: Hw, g: Log, l: Label): Log {
    if l.Step? && l.t in h.threads then
      match h.threads[l.t]
      case PostCount(m) => g.(posted := g.posted + [m])
      case FetchCount(m) => g.(fetched := g.fetched + [m])
      case PostSignal => if l.coalesce && h.read.pending > 0 then g.(lost := g.lost + 1) else g
      case _ => g
    else g
  }

  function Next(s: State, l: Label): State {
    State(StepHw(s.hw, l), StepLog(s.hw, s.log, l))
  }

  function Run(s: State, labels: seq<Label>): State {
    if labels == [] then s
    else Next(Run(s, labels[..|labels| - 1]), labels[|labels| - 1])
  }

  /** sys_mbox_new, then an init that fills in the capabilities and gives the mutex its token. */
  function Start(msgs: Slots, lockCap: bool, readCap: bool): State {
    State(Hw(msgs, 0, 0, 0, Sem(lockCap, 1), Sem(readCap, 0), map[]), Log([], [], 0))
  }

  /** The action is not a poster entering its critical section on a full mailbox. */
  predicate HasRoom(h: Hw, l: Label) {
    l.Step? && l.t in h.threads && h.threads[l.t].PostLock? && !Blocked(h.lock) ==> h.count < 32
  }

  /** Posting never finds more than 31 messages outstanding. */
  predicate RoomyRun(s: State, labels: seq<Label>) {
    labels == [] ||
    (var n := |labels| - 1;
     RoomyRun(s, labels[..n]) && HasRoom(Run(s, labels[..n]).hw, labels[n]))
  }

  lemma RunExtends(s: State, labels: seq<Label>, l: Label)
    ensures Run(s, labels + [l]) == Next(Run(s, labels), l)
    ensures RoomyRun(s, labels + [l]) <==> RoomyRun(s, labels) && HasRoom(Run(s, labels).hw, l)
  {
    assert (labels + [l])[..|labels|] == labels;
  }
}
