/** The mailbox over its fields: single statements by any thread, and undisturbed calls. */
module Mbox {
  import opened MboxMachine
  import opened MboxTheorems
  import opened MboxResults

  class SysMbox {
    var msgs: array<Msg>
    var head: int
    var tail: int
    var count: int
    var lock: Sem
    var read: Sem
    var threads: map<Tid, Pc>         // the calls in progress

    const lockCap: bool
    const readCap: bool
    ghost var first: Slots
    ghost var trace: seq<Label>
    ghost var spec: State

    ghost function Memory(): Hw
      reads this, msgs
      requires msgs.Length == 32
    {
      Hw(msgs[..], head, tail, count, lock, read, threads)
    }

    ghost predicate Valid()
      reads this, msgs
    {
      && msgs.Length == 32 && Memory() == spec.hw
      && spec == Run(Start(first, lockCap, readCap), trace)
    }

    /** sys_mbox_new, and the capabilities and mutex token that init supplies. */
    constructor (lockCap: bool, readCap: bool)
      ensures Valid() && fresh(msgs) && this.lockCap == lockCap && this.readCap == readCap
      ensures trace == [] && spec == Start(first, lockCap, readCap)
    {
      this.lockCap, this.readCap := lockCap, readCap;
      msgs := new Msg[32];
      head, tail, count := 0, 0, 0;
      lock, read, threads := Sem(lockCap, 1), Sem(readCap, 0), map[];
      new;
      first, trace := msgs[..], [];
      spec := Start(first, lockCap, readCap);
    }

    ghost method Record(labels: seq<Label>)
      requires spec == Run(Start(first, lockCap, readCap), trace)
      modifies `trace, `spec
      ensures trace == old(trace) + labels && spec == Run(old(spec), labels)
      ensures spec == Run(Start(first, lockCap, readCap), trace)
    {
      RunConcat(Start(first, lockCap, readCap), trace, labels);
      trace := trace + labels;
      spec := Run(spec, labels);
    }

    /** One statement of one thread. */
    method Act(l: Label)
      requires Valid()
      modifies this, msgs
      ensures Valid() && msgs == old(msgs) && first == old(first)
      ensures trace == old(trace) + [l] && spec == Next(old(spec), l)
    {
      match l {
        case CallPost(t, m) =>
          if t !in threads {
            threads := threads[t := PostLock(m)];
          }
        case CallFetch(t) =>
          if t !in threads {
            threads := threads[t := FetchWait];
          }
        case Step(t, coalesce) =>
          if t in threads {
            Statement(t, coalesce);
          }
      }
      RunExtends(spec, [], l);
      assert [] + [l] == [l];
      Record([l]);
    }

    method Statement(t: Tid, coalesce: bool)
      requires msgs.Length == 32 && t in threads
      modifies `head, `tail, `count, `lock, `read, `threads, msgs
      ensures Memory() == StepHw(old(Memory()), Step(t, coalesce))
    {
      match threads[t] {
        case PostLock(m) =>
          if !Blocked(lock) {
            lock, threads := Wait(lock), threads[t := PostStore(m)];
          }
        case PostStore(m) =>
          msgs[Wrap(head)], threads := m, threads[t := PostHead(m)];
          assert msgs[..] == old(msgs[..])[Wrap(head) := m];
        case PostHead(m) => head, threads := (head + 1) % 32, threads[t := PostCount(m)];
        case PostCount(_) => count, threads := count + 1, threads[t := PostUnlock];
        case PostUnlock => lock, threads := Signal(lock, coalesce), threads[t := PostSignal];
        case PostSignal => read, threads := Signal(read, coalesce), threads - {t};
        case FetchWait =>
          if !Blocked(read) {
            read, threads := Wait(read), threads[t := FetchLock];
          }
        case FetchLock =>
          if !Blocked(lock) {
            lock, threads := Wait(lock), threads[t := FetchLoad];
          }
        case FetchLoad => threads := threads[t := FetchTail(msgs[Wrap(tail)])];
        case FetchTail(m) => tail, threads := (tail + 1) % 32, threads[t := FetchCount(m)];
        case FetchCount(m) => count, threads := count - 1, threads[t := FetchUnlock(m)];
        case FetchUnlock(_) => lock, threads := Signal(lock, coalesce), threads - {t};
      }
    }

    /** Any schedule of any threads. */
    method RunSchedule(labels: seq<Label>)
      requires Valid()
      modifies this, msgs
      ensures Valid() && msgs == old(msgs) && first == old(first)
      ensures trace == old(trace) + labels && spec == Run(old(spec), labels)
    {
      for i := 0 to |labels|
        invariant Valid() && msgs == old(msgs) && first == old(first)
        invariant trace == old(trace) + labels[..i] && spec == Run(old(spec), labels[..i])
      {
        RunExtends(old(spec), labels[..i], labels[i]);
        assert labels[..i + 1] == labels[..i] + [labels[i]];
        Act(labels[i]);
      }
      assert labels[..|labels|] == labels;
    }

    /** sys_mbox_post, undisturbed: the message joins the end of the queue unless 32 are outstanding. */
    method Post(t: Tid, m: Msg, coalesce: bool)
      requires Valid() && lockCap && readCap && Quiet(spec.hw)
      modifies this, msgs
      ensures Valid() && Quiet(spec.hw) && msgs == old(msgs) && first == old(first)
      ensures trace == old(trace) + Whole(CallPost(t, m), coalesce)
      ensures spec.log.posted == old(spec).log.posted + [m] && spec.log.fetched == old(spec).log.fetched
      ensures old(count) < 32 && Inv(old(spec)) ==>
        Inv(spec) && count == old(count) + 1 && Queue(spec.log) == Queue(old(spec).log) + [m]
    {
      hide Locking, Fields, Run, Whole;
      lock := Wait(lock);
      msgs[head] := m;
      assert msgs[..] == old(msgs[..])[old(head) := m];
      head := (head + 1) % 32;
      count := count + 1;
      lock := Signal(lock, coalesce);
      read := Signal(read, coalesce);
      PostAlone(spec, t, m, coalesce);
      ghost var labels := Whole(CallPost(t, m), coalesce);
      if old(count) < 32 && Inv(spec) {
        PostAppends(spec, t, m, coalesce);
      }
      Record(labels);
    }

    /** sys_arch_mbox_fetch, undisturbed and with a signal pending: returns the oldest message. */
    method Fetch(t: Tid) returns (m: Msg)
      requires Valid() && lockCap && readCap && Quiet(spec.hw) && read.cap && read.pending > 0
      modifies this, msgs
      ensures Valid() && Quiet(spec.hw) && msgs == old(msgs) && first == old(first)
      ensures trace == old(trace) + Whole(CallFetch(t), false)
      ensures spec.log.posted == old(spec).log.posted && spec.log.fetched == old(spec).log.fetched + [m]
      ensures Inv(old(spec)) ==>
        Inv(spec) && count == old(count) - 1 && Queue(old(spec).log) == [m] + Queue(spec.log)
    {
      hide Locking, Fields, Run, Whole;
      read := Wait(read);
      lock := Wait(lock);
      m := msgs[tail];
      tail := (tail + 1) % 32;
      count := count - 1;
      lock := Signal(lock, false);
      FetchAlone(spec, t, false);
      ghost var labels := Whole(CallFetch(t), false);
      if Inv(spec) {
        FetchRemovesFirst(spec, t, false);
      }
      Record(labels);
    }
  }
}
