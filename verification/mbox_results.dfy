/** The mailbox theorems, and the exact conditions under which they hold. */
module MboxResults {
  import opened MboxMachine
  import opened MboxTheorems

  // --- With the capabilities init is expected to supply ----------------------------------------

  lemma {:induction false} LockingHolds(msgs: Slots, readCap: bool, labels: seq<Label>)
    ensures Locking(Run(Start(msgs, true, readCap), labels).hw)
  {
    if labels != [] {
      var n := |labels| - 1;
      LockingHolds(msgs, readCap, labels[..n]);
      var s, l := Run(Start(msgs, true, readCap), labels[..n]), labels[n];
      if !l.Step? {
        if l.t !in s.hw.threads {
          var pc := if l.CallPost? then PostLock(l.m) else FetchWait;
          CastAfter(s.hw, Next(s, l).hw, l.t, pc, false, Inside);
        }
      } else if l.t in s.hw.threads && !Stuck(s.hw, l.t) {
        LockingKeeps(s, l.t, l.coalesce);
      }
    }
  }

  /** FIFO: what was fetched, in lock order, is a prefix of what was posted, in lock order. */
  lemma FetchedIsPrefixOfPosted(msgs: Slots, labels: seq<Label>)
    requires RoomyRun(Start(msgs, true, true), labels)
    ensures var g := Run(Start(msgs, true, true), labels).log; g.fetched <= g.posted
  {
    EveryRun(msgs, labels);
  }

  /**
    While the lock is free the fields represent the queue: count is its length, at most 32,
    head is (tail + count) % 32 and slot (tail + i) % 32 holds the i-th message.
  */
  lemma FieldsWhenLockIsFree(msgs: Slots, labels: seq<Label>)
    requires RoomyRun(Start(msgs, true, true), labels)
    requires Critical(Run(Start(msgs, true, true), labels).hw) == {}
    ensures var s := Run(Start(msgs, true, true), labels);
      |s.log.fetched| <= |s.log.posted| && Settled(s.hw, Queue(s.log))
  {
    hide Settled, Shape;
    EveryRun(msgs, labels);
  }

  /**
    Each message on the queue is accounted for by a pending read signal, a fetcher past the wait,
    a poster yet to signal, or a signal that coalesced with an earlier one: never more of the
    first three than messages, however signals behave.
  */
  lemma SignalsNeverExceedMessages(msgs: Slots, labels: seq<Label>)
    requires RoomyRun(Start(msgs, true, true), labels)
    ensures var s := Run(Start(msgs, true, true), labels);
      && |s.log.fetched| <= |s.log.posted|
      && s.hw.read.pending + |Cast(s.hw.threads, Fetching)| + |Cast(s.hw.threads, Unsignalled)|
           == |Queue(s.log)| - s.log.lost <= |Queue(s.log)|
  {
    EveryRun(msgs, labels);
  }

  /** The thread about to read a slot reads the oldest message, and returns what it dequeued. */
  lemma FetcherReadsTheOldest(msgs: Slots, labels: seq<Label>, t: Tid)
    requires RoomyRun(Start(msgs, true, true), labels)
    requires t in Run(Start(msgs, true, true), labels).hw.threads
    ensures var s := Run(Start(msgs, true, true), labels);
      && |s.log.fetched| <= |s.log.posted|
      && (s.hw.threads[t].FetchLoad? ==>
            Queue(s.log) != [] && s.hw.msgs[Wrap(s.hw.tail)] == Queue(s.log)[0])
      && (s.hw.threads[t].FetchUnlock? ==>
            s.log.fetched != [] && s.hw.threads[t].m == s.log.fetched[|s.log.fetched| - 1])
  {
    EveryRun(msgs, labels);
    var s := Run(Start(msgs, true, true), labels);
    if Plays(s.hw.threads[t], Inside) {
      assert t in Critical(s.hw);
      assert Shape(s.hw, s.log, s.hw.threads[t]);
      if s.hw.threads[t].FetchLoad? {
        assert s.hw.msgs[Wrap(s.hw.tail + 0)] == Queue(s.log)[0];
      }
    }
  }

  /** A poster signals while a signal is pending, and the two become one. */
  predicate Merges(h: Hw, l: Label) {
    l.Step? && l.t in h.threads && h.threads[l.t].PostSignal? && l.coalesce && h.read.pending > 0
  }

  predicate NeverMerges(s: State, labels: seq<Label>) {
    labels == [] ||
    (var n := |labels| - 1;
     NeverMerges(s, labels[..n]) && !Merges(Run(s, labels[..n]).hw, labels[n]))
  }

  /** Signals are lost exactly when a poster signals beside a pending signal and the two merge. */
  lemma {:induction false} NothingLostExactlyWhenNothingMerges(s: State, labels: seq<Label>)
    requires s.log.lost == 0
    ensures Run(s, labels).log.lost == 0 <==> NeverMerges(s, labels)
  {
    if labels != [] {
      NothingLostExactlyWhenNothingMerges(s, labels[..|labels| - 1]);
      hide StepHw;
    }
  }

  /**
    A message is queued, every thread that is there waits for a signal, and none is pending: no
    step of these threads will ever serve it.
  */
  predicate Stranded(s: State) {
    && |s.log.fetched| < |s.log.posted| && Blocked(s.hw.read) && s.hw.threads != map[]
    && forall t :: t in s.hw.threads ==> s.hw.threads[t].FetchWait?
  }

  /**
    Unless signals merge no wake-up is lost: a queued message that no fetcher is on the way to and
    no poster is about to announce has a pending signal, so a waiting fetcher is not stuck.
  */
  lemma NoLostWakeupUnlessSignalsMerge(msgs: Slots, labels: seq<Label>)
    requires RoomyRun(Start(msgs, true, true), labels) && NeverMerges(Start(msgs, true, true), labels)
    ensures var s := Run(Start(msgs, true, true), labels);
      && |s.log.fetched| <= |s.log.posted|
      && (Queue(s.log) != [] && Cast(s.hw.threads, Fetching) == {} && Cast(s.hw.threads, Unsignalled) == {}
          ==> s.hw.read.pending > 0)
      && !Stranded(s)
  {
    EveryRun(msgs, labels);
    NothingLostExactlyWhenNothingMerges(Start(msgs, true, true), labels);
    hide Run, RoomyRun, NeverMerges, Locking, Fields;
    var s := Run(Start(msgs, true, true), labels);
    if Stranded(s) {
      StrandedMeansLost(s);
    }
  }

  lemma StrandedMeansLost(s: State)
    requires Inv(s) && Stranded(s)
    ensures s.log.lost > 0
  {
    hide Locking, Fields;
    assert Cast(s.hw.threads, Fetching) == {} && Cast(s.hw.threads, Unsignalled) == {};
  }

  // --- Calls that run without interruption -----------------------------------------------------

  function Steps(t: Tid, coalesce: bool, k: nat): seq<Label> {
    seq(k, _ => Step(t, coalesce))
  }

  lemma {:induction false} RunConcat(s: State, a: seq<Label>, b: seq<Label>)
    ensures Run(s, a + b) == Run(Run(s, a), b)
    ensures RoomyRun(s, a + b) <==> RoomyRun(s, a) && RoomyRun(Run(s, a), b)
  {
    if b == [] {
      assert a + b == a;
    } else {
      var n := |b| - 1;
      RunConcat(s, a, b[..n]);
      RunExtends(s, a + b[..n], b[n]);
      assert a + b == (a + b[..n]) + [b[n]];
    }
  }

  /** The state after a call and k statements of its body, by one thread in a row. */
  function After(s: State, l: Label, coalesce: bool, k: nat): State {
    if k == 0 then Next(s, l) else Next(After(s, l, coalesce, k - 1), Step(l.t, coalesce))
  }

  lemma AfterStep(s: State, l: Label, coalesce: bool, k: nat)
    ensures After(s, l, coalesce, k + 1) == Next(After(s, l, coalesce, k), Step(l.t, coalesce))
  {
  }

  /** A whole call: both bodies have six statements. */
  function Whole(l: Label, coalesce: bool): seq<Label> {
    Part(l, coalesce, 6)
  }

  /** The call and the first k statements. */
  function Part(l: Label, coalesce: bool, k: nat): seq<Label> {
    [l] + Steps(l.t, coalesce, k)
  }

  lemma PartGrows(l: Label, coalesce: bool, k: nat)
    ensures Part(l, coalesce, 0) == [] + [l]
    ensures k > 0 ==> Part(l, coalesce, k) == Part(l, coalesce, k - 1) + [Step(l.t, coalesce)]
  {
  }

  lemma {:induction false} AfterIsRun(s: State, l: Label, coalesce: bool, k: nat)
    ensures Run(s, Part(l, coalesce, k)) == After(s, l, coalesce, k)
    ensures RoomyRun(s, Part(l, coalesce, k)) <==>
      HasRoom(s.hw, l) && forall i :: 0 <= i < k ==> HasRoom(After(s, l, coalesce, i).hw, Step(l.t, coalesce))
  {
    PartGrows(l, coalesce, k);
    hide Part, HasRoom, Next;
    if k == 0 {
      RunExtends(s, [], l);
    } else {
      AfterIsRun(s, l, coalesce, k - 1);
      RunExtends(s, Part(l, coalesce, k - 1), Step(l.t, coalesce));
    }
  }

  /** No call in progress. */
  predicate Quiet(h: Hw) {
    h.threads == map[] && h.lock == Sem(true, 1) && 0 <= h.head < 32 && 0 <= h.tail < 32
  }

  /** A lone thread stays alone. */
  lemma Lone(t: Tid, pc: Pc, pc': Pc)
    ensures map[t := pc][t := pc'] == map[t := pc'] && map[t := pc] - {t} == map[]
  {
  }

  lemma PostAloneStores(s: State, t: Tid, m: Msg, coalesce: bool)
    requires Quiet(s.hw)
    ensures var l := CallPost(t, m);
      && After(s, l, coalesce, 0).hw == s.hw.(threads := map[t := PostLock(m)])
      && After(s, l, coalesce, 1).hw == s.hw.(lock := Sem(true, 0), threads := map[t := PostStore(m)])
      && After(s, l, coalesce, 2).hw == s.hw.(lock := Sem(true, 0), msgs := s.hw.msgs[s.hw.head := m],
                                              threads := map[t := PostHead(m)])
      && After(s, l, coalesce, 2).log == s.log
  {
    Lone(t, PostLock(m), PostStore(m));
    Lone(t, PostStore(m), PostHead(m));
    var s0, s1 := After(s, CallPost(t, m), coalesce, 0), After(s, CallPost(t, m), coalesce, 1);
    assert s0.hw == s.hw.(threads := map[t := PostLock(m)]);
    assert s1.hw == s.hw.(lock := Sem(true, 0), threads := map[t := PostStore(m)]);
  }

  lemma PostAloneCounts(s: State, t: Tid, m: Msg, coalesce: bool)
    requires s.hw.threads == map[t := PostHead(m)]
    requires s.hw.lock == Sem(true, 0)
    ensures var st := Step(t, coalesce); var a := Next(s, st); var b := Next(a, st); var c := Next(b, st);
      && a.hw == s.hw.(head := Wrap(s.hw.head + 1), threads := map[t := PostCount(m)])
      && b.hw == a.hw.(count := s.hw.count + 1, threads := map[t := PostUnlock])
      && c.hw == b.hw.(lock := Sem(true, 1), threads := map[t := PostSignal])
      && a.log == s.log && c.log == b.log == s.log.(posted := s.log.posted + [m])
  {
    Lone(t, PostHead(m), PostCount(m));
    Lone(t, PostCount(m), PostUnlock);
    Lone(t, PostUnlock, PostSignal);
    var a := Next(s, Step(t, coalesce));
    assert a.hw == s.hw.(head := Wrap(s.hw.head + 1), threads := map[t := PostCount(m)]);
    var b := Next(a, Step(t, coalesce));
    assert b.hw == a.hw.(count := s.hw.count + 1, threads := map[t := PostUnlock]);
  }

  lemma PostAloneSignals(s: State, t: Tid, coalesce: bool)
    requires s.hw.threads == map[t := PostSignal]
    ensures var e := Next(s, Step(t, coalesce));
      && e.hw == s.hw.(read := Signal(s.hw.read, coalesce), threads := map[])
      && e.log.posted == s.log.posted && e.log.fetched == s.log.fetched
  {
    Lone(t, PostSignal, PostSignal);
  }

  /** The six states between the statements of an undisturbed post. */
  lemma PostAloneStates(s: State, t: Tid, m: Msg, coalesce: bool)
    requires Quiet(s.hw)
    ensures var l := CallPost(t, m);
      && After(s, l, coalesce, 0).hw.threads == map[t := PostLock(m)]
      && After(s, l, coalesce, 0).hw.count == s.hw.count && !Blocked(After(s, l, coalesce, 0).hw.lock)
      && (forall i :: 1 <= i < 6 ==>
            After(s, l, coalesce, i).hw.threads.Keys == {t} &&
            !After(s, l, coalesce, i).hw.threads[t].PostLock?)
    ensures var e := After(s, CallPost(t, m), coalesce, 6);
      && e.hw == s.hw.(msgs := s.hw.msgs[s.hw.head := m], head := Wrap(s.hw.head + 1),
                       count := s.hw.count + 1, read := Signal(s.hw.read, coalesce))
      && e.log.posted == s.log.posted + [m] && e.log.fetched == s.log.fetched
  {
    var l := CallPost(t, m);
    hide After, Next, StepHw, StepLog, Signal, Wrap;
    PostAloneStores(s, t, m, coalesce);
    hide Quiet;
    var s2, s5 := After(s, l, coalesce, 2), After(s, l, coalesce, 5);
    AfterStep(s, l, coalesce, 2);
    AfterStep(s, l, coalesce, 3);
    AfterStep(s, l, coalesce, 4);
    AfterStep(s, l, coalesce, 5);
    PostAloneCounts(s2, t, m, coalesce);
    PostAloneSignals(s5, t, coalesce);
  }

  lemma PostAlone(s: State, t: Tid, m: Msg, coalesce: bool)
    requires Quiet(s.hw)
    ensures var e := Run(s, Whole(CallPost(t, m), coalesce));
      && e.hw == s.hw.(msgs := s.hw.msgs[s.hw.head := m], head := Wrap(s.hw.head + 1),
                       count := s.hw.count + 1, read := Signal(s.hw.read, coalesce))
      && e.log.posted == s.log.posted + [m] && e.log.fetched == s.log.fetched
    ensures RoomyRun(s, Whole(CallPost(t, m), coalesce)) <==> s.hw.count < 32
  {
    hide After, RoomyRun, Run, Signal;
    AfterIsRun(s, CallPost(t, m), coalesce, 6);
    PostAloneStates(s, t, m, coalesce);
    assert HasRoom(After(s, CallPost(t, m), coalesce, 0).hw, Step(t, coalesce)) <==> s.hw.count < 32;
  }

  lemma FetchAloneLoads(s: State, t: Tid, coalesce: bool)
    requires Quiet(s.hw) && !Blocked(s.hw.read)
    ensures var l := CallFetch(t); var h := s.hw.(read := Wait(s.hw.read));
      && After(s, l, coalesce, 0).hw == s.hw.(threads := map[t := FetchWait])
      && After(s, l, coalesce, 1).hw == h.(threads := map[t := FetchLock])
      && After(s, l, coalesce, 2).hw == h.(lock := Sem(true, 0), threads := map[t := FetchLoad])
      && After(s, l, coalesce, 2).log == s.log
  {
    Lone(t, FetchWait, FetchLock);
    Lone(t, FetchLock, FetchLoad);
    var s0, s1 := After(s, CallFetch(t), coalesce, 0), After(s, CallFetch(t), coalesce, 1);
    assert s0.hw == s.hw.(threads := map[t := FetchWait]);
    assert s1.hw == s.hw.(read := Wait(s.hw.read), threads := map[t := FetchLock]);
  }

  lemma FetchAloneTakes(s: State, t: Tid, coalesce: bool)
    requires s.hw.threads == map[t := FetchLoad]
    ensures var st := Step(t, coalesce); var a := Next(s, st); var b := Next(a, st); var c := Next(b, st);
      var m := s.hw.msgs[Wrap(s.hw.tail)];
      && a.hw == s.hw.(threads := map[t := FetchTail(m)])
      && b.hw == s.hw.(tail := Wrap(s.hw.tail + 1), threads := map[t := FetchCount(m)])
      && c.hw == b.hw.(count := s.hw.count - 1, threads := map[t := FetchUnlock(m)])
      && a.log == b.log == s.log && c.log == s.log.(fetched := s.log.fetched + [m])
  {
    var m := s.hw.msgs[Wrap(s.hw.tail)];
    Lone(t, FetchLoad, FetchTail(m));
    Lone(t, FetchTail(m), FetchCount(m));
    Lone(t, FetchCount(m), FetchUnlock(m));
    var a := Next(s, Step(t, coalesce));
    assert a.hw == s.hw.(threads := map[t := FetchTail(m)]);
    var b := Next(a, Step(t, coalesce));
    assert b.hw == s.hw.(tail := Wrap(s.hw.tail + 1), threads := map[t := FetchCount(m)]);
  }

  lemma FetchAloneUnlocks(s: State, t: Tid, m: Msg, coalesce: bool)
    requires s.hw.threads == map[t := FetchUnlock(m)] && s.hw.lock == Sem(true, 0)
    ensures Next(s, Step(t, coalesce)) == State(s.hw.(lock := Sem(true, 1), threads := map[]), s.log)
  {
    Lone(t, FetchUnlock(m), FetchUnlock(m));
  }

  lemma FetchAloneStates(s: State, t: Tid, coalesce: bool)
    requires Quiet(s.hw) && !Blocked(s.hw.read)
    ensures forall i :: 0 <= i < 6 ==>
      After(s, CallFetch(t), coalesce, i).hw.threads.Keys == {t} &&
      !After(s, CallFetch(t), coalesce, i).hw.threads[t].PostLock?
    ensures var e := After(s, CallFetch(t), coalesce, 6);
      && e.hw == s.hw.(tail := Wrap(s.hw.tail + 1), count := s.hw.count - 1, read := Wait(s.hw.read))
      && e.log == s.log.(fetched := s.log.fetched + [s.hw.msgs[s.hw.tail]])
  {
    var l := CallFetch(t);
    hide After, Next, StepHw, StepLog, Wait;
    FetchAloneLoads(s, t, coalesce);
    var s2, s5 := After(s, l, coalesce, 2), After(s, l, coalesce, 5);
    AfterStep(s, l, coalesce, 2);
    AfterStep(s, l, coalesce, 3);
    AfterStep(s, l, coalesce, 4);
    AfterStep(s, l, coalesce, 5);
    FetchAloneTakes(s2, t, coalesce);
    FetchAloneUnlocks(s5, t, s.hw.msgs[s.hw.tail], coalesce);
  }

  lemma FetchAlone(s: State, t: Tid, coalesce: bool)
    requires Quiet(s.hw) && !Blocked(s.hw.read)
    ensures var e := Run(s, Whole(CallFetch(t), coalesce));
      && e.hw == s.hw.(tail := Wrap(s.hw.tail + 1), count := s.hw.count - 1, read := Wait(s.hw.read))
      && e.log == s.log.(fetched := s.log.fetched + [s.hw.msgs[s.hw.tail]])
    ensures RoomyRun(s, Whole(CallFetch(t), coalesce))
  {
    hide After, RoomyRun, Run, Wait;
    AfterIsRun(s, CallFetch(t), coalesce, 6);
    FetchAloneStates(s, t, coalesce);
  }

  /** An undisturbed post with room appends its message to the queue. */
  lemma PostAppends(s: State, t: Tid, m: Msg, coalesce: bool)
    requires Inv(s) && Quiet(s.hw) && s.hw.count < 32
    ensures var e := Run(s, Whole(CallPost(t, m), coalesce));
      Inv(e) && Queue(e.log) == Queue(s.log) + [m]
  {
    var e := Run(s, Whole(CallPost(t, m), coalesce));
    PostAlone(s, t, m, coalesce);
    RoomyRunKeeps(s, Whole(CallPost(t, m), coalesce));
    hide Locking, Fields, Whole;
    assert (s.log.posted + [m])[|s.log.fetched|..] == s.log.posted[|s.log.fetched|..] + [m];
  }

  /** An undisturbed fetch removes the message at the front of the queue. */
  lemma FetchRemovesFirst(s: State, t: Tid, coalesce: bool)
    requires Inv(s) && Quiet(s.hw) && s.hw.read.pending > 0
    ensures var e := Run(s, Whole(CallFetch(t), coalesce));
      Inv(e) && Queue(s.log) == [s.hw.msgs[s.hw.tail]] + Queue(e.log)
  {
    var e := Run(s, Whole(CallFetch(t), coalesce));
    FetchAlone(s, t, coalesce);
    RoomyRunKeeps(s, Whole(CallFetch(t), coalesce));
    var k := |s.log.fetched|;
    assert e.log.fetched[k] == e.log.posted[k];
    hide Locking, Fields, Whole, Accounting;
    assert s.log.posted[k..] == [s.log.posted[k]] + s.log.posted[k + 1..];
  }

  /** k undisturbed fetches, one after the other. */
  function Fetches(k: nat): seq<Label> {
    if k == 0 then [] else Fetches(k - 1) + Whole(CallFetch(0), false)
  }

  /** Each takes one pending signal and one message. */
  lemma {:induction false} FetchesServe(s: State, k: nat)
    requires Inv(s) && Quiet(s.hw) && k <= s.hw.read.pending
    ensures var e := Run(s, Fetches(k));
      && Inv(e) && Quiet(e.hw) && e.hw.read.pending == s.hw.read.pending - k && e.log.lost == s.log.lost
  {
    if k > 0 {
      FetchesServe(s, k - 1);
      var before := Run(s, Fetches(k - 1));
      hide Run, RoomyRun, Whole, Locking, Fields, Accounting;
      RunConcat(s, Fetches(k - 1), Whole(CallFetch(0), false));
      FetchAlone(before, 0, false);
      FetchRemovesFirst(before, 0, false);
    }
  }

  /** With no call in progress, what is queued is announced by a pending signal, or its signal was lost. */
  lemma QuietQueue(s: State)
    requires Inv(s) && Quiet(s.hw)
    ensures |Queue(s.log)| == s.hw.read.pending + s.log.lost
  {
    assert Cast(s.hw.threads, Fetching) == {} && Cast(s.hw.threads, Unsignalled) == {};
  }

  /** One more fetcher is stranded exactly if no signal is left for it and a message is. */
  lemma LateFetcher(s: State)
    requires Inv(s) && Quiet(s.hw)
    ensures Stranded(Next(s, CallFetch(1))) <==> s.hw.read.pending == 0 && s.log.lost > 0
  {
    QuietQueue(s);
    hide Locking, Fields, Accounting;
    var n := Next(s, CallFetch(1));
    assert n.hw == s.hw.(threads := map[1 := FetchWait]) && n.log == s.log;
  }

  lemma FetchesThenOne(s: State, k: nat)
    requires Inv(s) && Quiet(s.hw) && k <= s.hw.read.pending
    ensures Stranded(Run(s, Fetches(k) + [CallFetch(1)])) <==> k == s.hw.read.pending && s.log.lost > 0
  {
    hide Run, RoomyRun, Whole, Inv, Stranded;
    FetchesServe(s, k);
    RunExtends(s, Fetches(k), CallFetch(1));
    LateFetcher(Run(s, Fetches(k)));
  }

  /**
    With no call in progress, some number of fetches leaves the next fetcher stranded beside a
    queued message if and only if a signal has been lost.
  */
  lemma FetcherIsStrandedExactlyWhenSignalsWereLost(s: State)
    requires Inv(s) && Quiet(s.hw)
    ensures (exists k: nat :: k <= s.hw.read.pending && Stranded(Run(s, Fetches(k) + [CallFetch(1)])))
      <==> s.log.lost > 0
  {
    hide Run, Inv, Quiet, Stranded, Fetches;
    forall k: nat | k <= s.hw.read.pending
      ensures Stranded(Run(s, Fetches(k) + [CallFetch(1)])) <==> k == s.hw.read.pending && s.log.lost > 0
    {
      FetchesThenOne(s, k);
    }
    if s.log.lost > 0 {
      assert Stranded(Run(s, Fetches(s.hw.read.pending) + [CallFetch(1)]));
    }
  }

  /** In terms of the run that led there: if and only if a poster's signal merged with a pending one. */
  lemma FetcherIsStrandedExactlyWhenSignalsMerged(msgs: Slots, labels: seq<Label>)
    requires RoomyRun(Start(msgs, true, true), labels) && Quiet(Run(Start(msgs, true, true), labels).hw)
    ensures var s := Run(Start(msgs, true, true), labels);
      (exists k: nat :: k <= s.hw.read.pending && Stranded(Run(s, Fetches(k) + [CallFetch(1)])))
      <==> !NeverMerges(Start(msgs, true, true), labels)
  {
    EveryRun(msgs, labels);
    NothingLostExactlyWhenNothingMerges(Start(msgs, true, true), labels);
    hide Run, RoomyRun, NeverMerges, Inv, Quiet, Stranded, Fetches, Start;
    FetcherIsStrandedExactlyWhenSignalsWereLost(Run(Start(msgs, true, true), labels));
  }

  // --- Where the assumptions are needed --------------------------------------------------------

  /**
    Two posts whose signals coalesce, then two fetches: the second fetcher is stuck at the wait
    although a message is queued, and no thread that is there can wake it.
  */
  lemma CoalescingLosesWakeup(msgs: Slots)
    ensures exists labels ::
      && RoomyRun(Start(msgs, true, true), labels)
      && var s := Run(Start(msgs, true, true), labels);
         && |s.log.fetched| <= |s.log.posted| && Queue(s.log) != []
         && s.hw.threads == map[1 := FetchWait] && Stuck(s.hw, 1) && Stranded(s)
  {
    var s := Start(msgs, true, true);
    var post, fetch := Whole(CallPost(0, 7), true), Whole(CallFetch(0), true);
    PostAlone(s, 0, 7, true);
    var s1 := Run(s, post);
    RunConcat(s, post, post);
    PostAlone(s1, 0, 7, true);
    var s2 := Run(s1, post);
    RunConcat(s, post + post, fetch);
    FetchAlone(s2, 0, true);
    var labels := post + post + fetch;
    var s3 := Run(s, labels);
    RunExtends(s, labels, CallFetch(1));
    var s4 := Run(s, labels + [CallFetch(1)]);
    assert s4.hw.threads == map[1 := FetchWait];
    assert Queue(s4.log) == [7];
  }

  function Stored(h: Hw, m: Msg): Slots {
    h.msgs[Wrap(h.head) := m]
  }

  lemma FullStoreOverwrites(h: Hw, q: seq<Msg>)
    requires Settled(h, q) && |q| == 32
    ensures !Ring(Stored(h, q[0] + 1), h.tail, q)
  {
    assert h.head == h.tail == Wrap(h.tail + 0);
    hide Settled, Wrap;
    assert Stored(h, q[0] + 1)[Wrap(h.tail + 0)] == q[0] + 1;
  }

  /**
    A store at the head keeps the queued messages, whatever is stored, if and only if fewer than
    32 are outstanding: the test sys_mbox_post does not make.
  */
  lemma StoreIsSafeExactlyWithRoom(h: Hw, q: seq<Msg>)
    requires Settled(h, q)
    ensures (forall m: Msg :: Ring(Stored(h, m), h.tail, q)) <==> h.count < 32
  {
    if h.count < 32 {
      hide Ring;
      forall m: Msg
        ensures Ring(Stored(h, m), h.tail, q)
      {
        StoreAtHead(h.msgs, h.tail, q, m);
      }
    } else {
      FullStoreOverwrites(h, q);
    }
  }

  function Posts(k: nat, m: Msg): seq<Label> {
    if k == 0 then [] else Posts(k - 1, m) + Whole(CallPost(0, m), false)
  }

  /** k posts of m on a new mailbox, and no fetch. */
  predicate Filled(s: State, k: nat, m: Msg) {
    && Quiet(s.hw) && s.hw.count == k && s.hw.head == Wrap(k) && s.hw.tail == 0 && s.hw.read == Sem(true, k)
    && s.log.posted == seq(k, _ => m) && s.log.fetched == []
  }

  lemma PostFills(s: State, k: nat, m: Msg)
    requires Filled(s, k, m)
    ensures Filled(Run(s, Whole(CallPost(0, m), false)), k + 1, m)
  {
    hide Run, RoomyRun, Whole;
    PostAlone(s, 0, m, false);
    WrapAdd(k, 1);
    assert Signal(s.hw.read, false) == Sem(true, k + 1);
    hide Wrap, Signal;
    assert seq(k, _ => m) + [m] == seq(k + 1, _ => m);
  }

  lemma {:induction false} PostsFill(msgs: Slots, k: nat, m: Msg)
    requires k <= 32
    ensures RoomyRun(Start(msgs, true, true), Posts(k, m))
    ensures Filled(Run(Start(msgs, true, true), Posts(k, m)), k, m)
  {
    if k > 0 {
      PostsFill(msgs, k - 1, m);
      var s := Start(msgs, true, true);
      var before := Run(s, Posts(k - 1, m));
      assert Quiet(before.hw) && before.hw.count < 32;
      hide Run, RoomyRun, Start, Whole, Filled, Quiet, Wrap, Signal;
      RunConcat(s, Posts(k - 1, m), Whole(CallPost(0, m), false));
      PostAlone(before, 0, m, false);
      PostFills(before, k - 1, m);
    }
  }

  /** 32 posts of m, one of m', and a fetch. */
  function Overfill(m: Msg, m': Msg): seq<Label> {
    Posts(32, m) + Whole(CallPost(0, m'), false) + Whole(CallFetch(0), false)
  }

  /** The code does get there: 32 posts without a fetch fill the mailbox, and nothing stops the 33rd. */
  lemma FullMailboxIsReachable(msgs: Slots, m: Msg, m': Msg)
    ensures var s := Run(Start(msgs, true, true), Posts(32, m));
      && RoomyRun(Start(msgs, true, true), Posts(32, m))
      && s.hw.count == 32
      && Run(s, Whole(CallPost(0, m'), false)).hw.count == 33
  {
    PostsFill(msgs, 32, m);
    PostAlone(Run(Start(msgs, true, true), Posts(32, m)), 0, m', false);
  }

  /** The 33rd message overwrites the first, so the next fetch returns it: first in is not first out. */
  lemma OverfullBreaksOrder(msgs: Slots, m: Msg, m': Msg)
    requires m' != m
    ensures var g := Run(Start(msgs, true, true), Overfill(m, m')).log;
      |g.posted| == 33 && g.posted[0] == m && g.fetched == [m'] && !(g.fetched <= g.posted)
  {
    var s, last, fetch := Start(msgs, true, true), Whole(CallPost(0, m'), false), Whole(CallFetch(0), false);
    PostsFill(msgs, 32, m);
    var full := Run(s, Posts(32, m));
    assert full.hw.head == 0 == full.hw.tail && full.log.posted[0] == m;
    hide Run, RoomyRun, Start, Whole, Posts;
    RunConcat(s, Posts(32, m), last);
    RunConcat(s, Posts(32, m) + last, fetch);
    PostAlone(full, 0, m', false);
    FetchAlone(Run(full, last), 0, false);
    var g := Run(s, Overfill(m, m')).log;
    assert g.fetched[0] != g.posted[0];
  }

  /** Two fetchers that a null lock lets into the critical section together. */
  lemma NullLockAdmitsTwo(msgs: Slots, readCap: bool)
    ensures exists labels :: |Critical(Run(Start(msgs, false, readCap), labels).hw)| == 2
  {
    var s := Start(msgs, false, readCap);
    var labels: seq<Label> := [];
    RunExtends(s, labels, CallPost(0, 7));
    labels := labels + [CallPost(0, 7)];
    RunExtends(s, labels, Step(0, false));
    labels := labels + [Step(0, false)];
    RunExtends(s, labels, CallPost(1, 8));
    labels := labels + [CallPost(1, 8)];
    RunExtends(s, labels, Step(1, false));
    labels := labels + [Step(1, false)];
    var h := Run(s, labels).hw;
    assert h.threads == map[0 := PostStore(7), 1 := PostStore(8)];
    assert Critical(h) == {0, 1};
  }

  /** Mutual exclusion holds in every run, of any number of threads, exactly if init supplied the lock. */
  lemma MutualExclusionExactlyWithLock(msgs: Slots, lockCap: bool, readCap: bool)
    ensures (forall labels :: |Critical(Run(Start(msgs, lockCap, readCap), labels).hw)| <= 1) <==> lockCap
  {
    if lockCap {
      forall labels
        ensures |Critical(Run(Start(msgs, lockCap, readCap), labels).hw)| <= 1
      {
        LockingHolds(msgs, readCap, labels);
      }
    } else {
      NullLockAdmitsTwo(msgs, readCap);
    }
  }

  /** Some thread is about to read a slot while no message is queued. */
  predicate ReadsEmpty(s: State) {
    |s.log.fetched| >= |s.log.posted| && exists t :: t in s.hw.threads && s.hw.threads[t].FetchLoad?
  }

  /** A fetcher that a null semaphore lets through on a fresh mailbox. */
  lemma NullSemaphoreReadsEmpty(msgs: Slots)
    ensures var labels := [CallFetch(0), Step(0, false), Step(0, false)];
      RoomyRun(Start(msgs, true, false), labels) && ReadsEmpty(Run(Start(msgs, true, false), labels))
  {
    var s := Start(msgs, true, false);
    var one, two := [CallFetch(0)], [CallFetch(0), Step(0, false)];
    var three := [CallFetch(0), Step(0, false), Step(0, false)];
    assert [] + one == one && one + [Step(0, false)] == two && two + [Step(0, false)] == three;
    RunExtends(s, [], CallFetch(0));
    RunExtends(s, one, Step(0, false));
    RunExtends(s, two, Step(0, false));
    var a := Next(s, CallFetch(0));
    var b := Next(a, Step(0, false));
    var c := Next(b, Step(0, false));
    assert RoomyRun(s, []) && Run(s, []) == s;
    hide Run, RoomyRun;
    assert a.hw.threads == map[0 := FetchWait];
    assert b.hw.threads == map[0 := FetchLock];
    assert c.hw.threads[0] == FetchLoad;
  }

  lemma NeverReadsEmpty(msgs: Slots, labels: seq<Label>)
    requires RoomyRun(Start(msgs, true, true), labels)
    ensures !ReadsEmpty(Run(Start(msgs, true, true), labels))
  {
    hide Run, RoomyRun;
    var e := Run(Start(msgs, true, true), labels);
    forall t | t in e.hw.threads && e.hw.threads[t].FetchLoad?
      ensures |e.log.fetched| < |e.log.posted|
    {
      FetcherReadsTheOldest(msgs, labels, t);
    }
  }

  /** No run reads an empty slot, exactly if init supplied the read semaphore. */
  lemma NeverReadsEmptyExactlyWithSemaphore(msgs: Slots, readCap: bool)
    ensures (forall labels :: RoomyRun(Start(msgs, true, readCap), labels) ==>
               !ReadsEmpty(Run(Start(msgs, true, readCap), labels))) <==> readCap
  {
    hide Run, RoomyRun, ReadsEmpty, Start;
    if readCap {
      forall labels | RoomyRun(Start(msgs, true, true), labels)
        ensures !ReadsEmpty(Run(Start(msgs, true, true), labels))
      {
        NeverReadsEmpty(msgs, labels);
      }
    } else {
      NullSemaphoreReadsEmpty(msgs);
    }
  }
}
