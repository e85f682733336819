/**
  What holds in every run of the receive queue, stated on the memory alone: buffer ownership,
  delivery, the counters, and the refinement of two unbounded queues that carry frames by value.
*/
module RxTheorems {
  import opened Words
  import opened RxMachine
  import opened RxInvariant

  /** The available slots between the device's position and avail->idx. */
  function Unconsumed(h: Hw): seq<Slot> {
    seq(Gap16(h.devIdx, h.availIdx), i requires 0 <= i => h.avail[(h.devIdx + i) % 256])
  }

  /** The loop's position in the used ring, one ahead of last_rx_idx while it works on an element. */
  function ReadIdx(h: Hw): u16 {
    if h.pc.Head? || h.pc.Fetch? then h.lastIdx else Inc16(h.lastIdx)
  }

  /** The completions the loop has not read yet, with the bytes now in their buffers. */
  function Unread(h: Hw): seq<Frame> {
    seq(Gap16(ReadIdx(h), h.usedIdx), i requires 0 <= i =>
      var e := h.used[(ReadIdx(h) + i) % 256];
      Frame(e.id, h.bufs[e.id][..e.len]))
  }

  lemma UnconsumedIsOffered(s: State)
    requires Inv(s)
    ensures Unconsumed(s.hw) == s.log.offered[s.log.taken..]
  {
    var k := s.log.taken;
    GapIsExact(k, |s.log.offered|);
    assert |Unconsumed(s.hw)| == |s.log.offered| - k && s.hw.devIdx == k % 0x10000;
    hide Counters, Ownership, UsedSlots, Contents, Locals, Delivered;
    forall i | 0 <= i < |s.log.offered| - k
      ensures Unconsumed(s.hw)[i] == s.log.offered[k + i]
    {
      SlotSurvivesWrap(k, i);
      assert s.hw.avail[(k + i) % 256] == s.log.offered[k + i];
    }
  }

  lemma ReadIdxCounts(s: State)
    requires Counters(s)
    ensures ReadIdx(s.hw) == Consumed(s) % 0x10000
  {
    IncrementWraps(s.log.processed);
  }

  lemma UnreadAt(s: State, i: nat)
    requires UsedSlots(s) && Contents(s) && Consumed(s) + i < |s.log.published|
    ensures var c := Consumed(s);
      var e := s.hw.used[(c % 0x10000 + i) % 256];
      Frame(e.id, s.hw.bufs[e.id][..e.len]) == s.log.published[c + i]
  {
    var c := Consumed(s);
    hide Consumed;
    SlotSurvivesWrap(c, i);
    assert Holds(s.hw.bufs, s.log.published[c + i]);
    assert s.hw.used[(c + i) % 256] == Announced(s.log.published[c + i]);
  }

  lemma UnreadIsPublished(s: State)
    requires Inv(s)
    ensures Unread(s.hw) == s.log.published[Consumed(s)..]
  {
    var c := Consumed(s);
    ReadIdxCounts(s);
    GapIsExact(c, |s.log.published|);
    assert |Unread(s.hw)| == |s.log.published| - c;
    hide Counters, Ownership, AvailSlots, UsedSlots, Contents, Locals, Delivered, Consumed;
    forall i | 0 <= i < |s.log.published| - c
      ensures Unread(s.hw)[i] == s.log.published[c + i]
    {
      UnreadAt(s, i);
    }
  }

  /**
    Buffer ownership.  In every reachable state each of the 256 descriptors is in exactly one
    of four places, once: an unconsumed available slot, the device, an unread used slot, or the
    hands of the interrupt loop.
  */
  lemma EveryBufferHasOneOwner(bufs: Buffers, labels: seq<Label>, id: Slot)
    ensures var h := Run(Start(bufs), labels).hw;
      multiset(Unconsumed(h))[id] + h.held[id] + multiset(Ids(Unread(h)))[id] + InHand(h.pc)[id] == 1
  {
    hide Run, Start;
    EveryRun(bufs, labels);
    InvGivesOneOwner(Run(Start(bufs), labels), id);
  }

  lemma IdsSplit(frames: seq<Frame>, i: nat, j: nat)
    requires i <= j <= |frames|
    ensures Ids(frames[i..]) == Ids(frames)[i..]
    ensures Ids(frames[..j]) == Ids(frames[..i]) + Ids(frames[i..j])
  {
  }

  lemma InvGivesOneOwner(s: State, id: Slot)
    requires Inv(s)
    ensures multiset(Unconsumed(s.hw))[id] + s.hw.held[id] + multiset(Ids(Unread(s.hw)))[id]
      + InHand(s.hw.pc)[id] == 1
  {
    UnconsumedIsOffered(s);
    UnreadIsPublished(s);
    EachSlotOnce(id);
    IdsSplit(s.log.published, Consumed(s), Consumed(s));
    hide Unconsumed, Unread, Counters, UsedSlots, Contents, AvailSlots, Locals, Delivered, AllSlots, InHand,
      Ids, Consumed;
    var avail, held, unread, inHand :=
      multiset(s.log.offered[s.log.taken..]), s.hw.held, multiset(Ids(s.log.published)[Consumed(s)..]),
      InHand(s.hw.pc);
    assert (avail + held + unread + inHand)[id] == multiset(AllSlots())[id];
  }

  /**
    Exactly-once, in-order delivery.  What the loop found in memory, iteration by iteration, is
    what the device published, in that order; netif.input received those frames, skipping
    exactly the ones whose allocation failed, and data_available says whether there was any.
  */
  lemma DeliveryIsExact(bufs: Buffers, labels: seq<Label>)
    ensures Run(Start(bufs), labels).hw.ready <==> Run(Start(bufs), labels).log.input != []
    ensures var g := Run(Start(bufs), labels).log;
      && g.handled <= g.published
      && g.processed <= |g.handled| == |g.kept| <= g.processed + 1
      && g.input == Kept(g.handled, g.kept)
  {
    EveryRun(bufs, labels);
  }

  ghost predicate Extends(g: Log, g': Log) {
    g.published <= g'.published && g.handled <= g'.handled && g.kept <= g'.kept && g.input <= g'.input
  }

  lemma StepExtends(s: State, l: Label)
    ensures Extends(s.log, Next(s, l).log)
  {
  }

  /** No record is ever rewritten: a longer run only appends to what was published and handled. */
  lemma {:induction false} RecordsOnlyGrow(s: State, labels: seq<Label>, k: nat)
    requires k <= |labels|
    ensures Extends(Run(s, labels[..k]).log, Run(s, labels).log)
  {
    if k == |labels| {
      assert labels[..k] == labels;
    } else {
      var n := |labels| - 1;
      RecordsOnlyGrow(s, labels[..n], k);
      assert labels[..n][..k] == labels[..k];
      StepExtends(Run(s, labels[..n]), labels[n]);
    }
  }

  /** How many of the handled completions have had their id offered again. */
  function Returned(s: State): int {
    |s.log.handled| - (if s.hw.pc.Return? || s.hw.pc.Offer? then 1 else 0)
  }

  /** Everything ever offered: the pre-fill, then the ids of the completions handled, in order. */
  ghost predicate OffersFollowCompletions(s: State) {
    && 0 <= Returned(s)
    && s.log.offered == AllSlots() + Ids(s.log.handled[..Returned(s)])
    && (s.hw.pc.Return? || s.hw.pc.Offer? ==> s.hw.pc.id == s.log.handled[|s.log.handled| - 1].id)
  }

  lemma OffersKeepFollowing(s: State, l: Label)
    requires OffersFollowCompletions(s)
    ensures OffersFollowCompletions(Next(s, l))
  {
    var t := Next(s, l);
    if l.Driver? && s.hw.pc.Copy? {
      assert t.log.handled[..Returned(t)] == s.log.handled[..Returned(s)];
    } else if l.Driver? && s.hw.pc.Offer? {
      var n := Returned(s);
      assert s.log.handled[..n + 1] == s.log.handled[..n] + [s.log.handled[n]];
      assert Ids(s.log.handled[..n + 1]) == Ids(s.log.handled[..n]) + [s.hw.pc.id];
    }
  }

  /** Each processed buffer is offered again, once and in order, and nothing else ever is. */
  lemma {:induction false} EveryIdIsOfferedAgain(bufs: Buffers, labels: seq<Label>)
    ensures OffersFollowCompletions(Run(Start(bufs), labels))
  {
    if labels == [] {
      assert Ids([]) == [];
    } else {
      var n := |labels| - 1;
      EveryIdIsOfferedAgain(bufs, labels[..n]);
      OffersKeepFollowing(Run(Start(bufs), labels[..n]), labels[n]);
    }
  }

  /** What was processed is what was handled, and all of it is on offer again. */
  ghost predicate Settled(g: Log) {
    && g.processed <= |g.published| && g.handled == g.published[..g.processed]
    && g.offered == AllSlots() + Ids(g.handled)
  }

  /** Between iterations the record is settled. */
  lemma SettledAtHead(bufs: Buffers, labels: seq<Label>)
    requires Run(Start(bufs), labels).hw.pc.Head?
    ensures Settled(Run(Start(bufs), labels).log)
  {
    EveryRun(bufs, labels);
    EveryIdIsOfferedAgain(bufs, labels);
    hide Run, Start, Kept;
    var g := Run(Start(bufs), labels).log;
    assert g.handled[..|g.handled|] == g.handled;
  }

  /**
    What the loop did between two of its heads: it processed the completions from one count to
    the other, offered the ids of exactly these, in their order of publication, and passed on
    their bytes, less the ones whose allocation failed.
  */
  ghost predicate Handled(g: Log, g': Log) {
    && g.processed <= g'.processed <= |g'.published|
    && g'.handled == g'.published[..g'.processed]
    && g'.offered == g.offered + Ids(g'.published[g.processed..g'.processed])
    && |g'.kept| == |g'.handled| && g'.input == Kept(g'.handled, g'.kept)
    && Extends(g, g')
  }

  lemma OffersBetween(g: Log, g': Log)
    requires Settled(g) && Settled(g') && g.handled <= g'.handled && g.published <= g'.published
    ensures g.processed <= g'.processed
    ensures g'.offered == g.offered + Ids(g'.published[g.processed..g'.processed])
  {
    var i, j := g.processed, g'.processed;
    assert |g.handled| == i && |g'.handled| == j;
    assert g.handled == g'.published[..i];
    IdsSplit(g'.published, i, j);
    hide Ids, AllSlots;
    var before, between := Ids(g.handled), Ids(g'.published[i..j]);
    assert (AllSlots() + before) + between == AllSlots() + (before + between);
  }

  lemma HandledBetweenHeads(bufs: Buffers, labels: seq<Label>, k: nat)
    requires k <= |labels|
    requires Run(Start(bufs), labels[..k]).hw.pc.Head? && Run(Start(bufs), labels).hw.pc.Head?
    ensures Handled(Run(Start(bufs), labels[..k]).log, Run(Start(bufs), labels).log)
  {
    hide Run, Start, Kept, Ids, Settled;
    var g, g' := Run(Start(bufs), labels[..k]).log, Run(Start(bufs), labels).log;
    SettledAtHead(bufs, labels[..k]);
    SettledAtHead(bufs, labels);
    RecordsOnlyGrow(Start(bufs), labels, k);
    DeliveryIsExact(bufs, labels);
    OffersBetween(g, g');
    SettledCounts(g');
    hide Extends;
  }

  lemma SettledCounts(g: Log)
    requires Settled(g)
    ensures g.processed <= |g.published| && g.handled == g.published[..g.processed]
  {
  }

  lemma {:induction false} KeptJoin(a: seq<Frame>, f: seq<bool>, b: seq<Frame>, g: seq<bool>)
    requires |a| == |f| && |b| == |g|
    ensures Kept(a + b, f + g) == Kept(a, f) + Kept(b, g)
  {
    if g == [] {
      assert a + b == a && f + g == f;
    } else {
      var n := |g| - 1;
      KeptJoin(a, f, b[..n], g[..n]);
      assert (a + b)[..|a| + n] == a + b[..n] && (f + g)[..|f| + n] == f + g[..n];
    }
  }

  /** As many frames are kept as there were successful allocations. */
  lemma {:induction false} KeptCount(frames: seq<Frame>, flags: seq<bool>)
    requires |frames| == |flags|
    ensures |Kept(frames, flags)| == multiset(flags)[true]
  {
    if flags != [] {
      var n := |flags| - 1;
      KeptCount(frames[..n], flags[..n]);
      assert flags == flags[..n] + [flags[n]];
    }
  }

  /** A frame whose allocation succeeded is kept, in the place that the successes before it give it. */
  lemma {:induction false} KeptPlace(frames: seq<Frame>, flags: seq<bool>, i: nat)
    requires |frames| == |flags| && i < |flags| && flags[i]
    ensures var place := multiset(flags[..i])[true];
      place < |Kept(frames, flags)| && Kept(frames, flags)[place] == frames[i].data
  {
    var n := |flags| - 1;
    if i == n {
      KeptCount(frames[..n], flags[..n]);
    } else {
      assert flags[..n][..i] == flags[..i];
      KeptPlace(frames[..n], flags[..n], i);
    }
  }

  /** What the network got in between is what was processed in between, less the failed allocations. */
  lemma KeptBetween(g: Log, g': Log, flags: seq<bool>)
    requires Handled(g, g) && Handled(g, g') && g'.kept == g.kept + flags
    ensures |flags| == g'.processed - g.processed
    ensures g'.input == g.input + Kept(g'.published[g.processed..g'.processed], flags)
  {
    var i, j := g.processed, g'.processed;
    assert g.handled == g'.published[..i];
    assert g'.handled == g'.published[..i] + g'.published[i..j];
    KeptJoin(g.handled, g.kept, g'.published[i..j], flags);
  }

  ghost predicate CountersAgree(s: State) {
    && s.log.processed <= |s.log.published| <= s.log.taken <= |s.log.offered|
    && |s.log.offered| <= s.log.processed + 257
    && (s.hw.lastIdx != s.hw.usedIdx <==> s.log.processed < |s.log.published|)
    && (s.hw.devIdx != s.hw.availIdx <==> s.log.taken < |s.log.offered|)
    && s.hw.usedIdx % 256 == |s.log.published| % 256
    && s.hw.availIdx % 256 == |s.log.offered| % 256
  }

  ghost predicate LoopHeadAgrees(s: State) {
    && |s.log.offered| == s.log.processed + 256
    && s.hw.availIdx == (s.hw.lastIdx + 256) % 0x10000
    && Gap16(s.hw.lastIdx, s.hw.usedIdx) == |s.log.published| - s.log.processed <= 256
  }

  lemma InvGivesCounters(s: State)
    requires Inv(s)
    ensures CountersAgree(s)
  {
    GapIsExact(s.log.processed, |s.log.published|);
    GapIsExact(s.log.taken, |s.log.offered|);
    SlotSurvivesWrap(|s.log.published|, 0);
    SlotSurvivesWrap(|s.log.offered|, 0);
  }

  lemma InvGivesLoopHead(s: State)
    requires Inv(s) && s.hw.pc.Head?
    ensures LoopHeadAgrees(s)
  {
    GapIsExact(s.log.processed, |s.log.published|);
    WordPlus(s.log.processed, 256);
  }

  lemma WordPlus(n: nat, k: nat)
    ensures (n + k) % 0x10000 == (n % 0x10000 + k) % 0x10000
  {
  }

  /**
    The counters.  processed <= used <= taken <= available, available is processed + 256 except
    for the one id the loop is moving, and the 16-bit comparisons made by the driver and by the
    device decide the unbounded ones exactly.
  */
  lemma CountersRefineNaturals(bufs: Buffers, labels: seq<Label>)
    ensures var s := Run(Start(bufs), labels);
      CountersAgree(s) && (s.hw.pc.Head? ==> LoopHeadAgrees(s))
  {
    var s := Run(Start(bufs), labels);
    EveryRun(bufs, labels);
    InvGivesCounters(s);
    if s.hw.pc.Head? {
      InvGivesLoopHead(s);
    }
  }

  // --- Refinement of unbounded queues ---------------------------------------------------------

  datatype Stage = Idle | Pending | Carrying(frame: Frame) | Returning(id: Slot) | Offering(id: Slot) | Closing

  /** The queue as its users think of it: no rings, no indices, and frames carried by value. */
  datatype Queues = Queues(
    avail: seq<Slot>, held: multiset<Slot>, bufs: Buffers, done: seq<Frame>,
    stage: Stage, input: seq<seq<Byte>>)

  function QueueStep(q: Queues, l: Label): Queues {
    match l
    case Take =>
      if q.avail == [] then q
      else q.(avail := q.avail[1..], held := q.held + multiset{q.avail[0]})
    case Fill(id, data) => if id !in q.held then q else q.(bufs := q.bufs[id := data])
    case Complete(e) =>
      if e.id !in q.held then q
      else q.(done := q.done + [Frame(e.id, q.bufs[e.id][..e.len])], held := q.held - multiset{e.id})
    case Driver(allocOk) =>
      match q.stage
      case Idle => if q.done == [] then q else q.(stage := Pending)
      case Pending => if q.done == [] then q else q.(stage := Carrying(q.done[0]), done := q.done[1..])
      case Carrying(f) =>
        q.(stage := Returning(f.id), input := if allocOk then q.input + [f.data] else q.input)
      case Returning(id) => q.(stage := Offering(id))
      case Offering(id) => q.(stage := Closing, avail := q.avail + [id])
      case Closing => q.(stage := Idle)
  }

  function StageOf(h: Hw): Stage {
    match h.pc
    case Head => Idle
    case Fetch => Pending
    case Copy(e) => Carrying(Frame(e.id, h.bufs[e.id][..e.len]))
    case Return(id) => Returning(id)
    case Offer(id) => Offering(id)
    case Advance => Closing
  }

  /** The queues that the rings, their wrapped indices and the buffers stand for. */
  function Abstract(s: State): Queues {
    Queues(Unconsumed(s.hw), s.hw.held, s.hw.bufs, Unread(s.hw), StageOf(s.hw), s.log.input)
  }

  /** The same queues read off the unbounded record. */
  ghost function FromLog(s: State): Queues
    requires Counters(s)
  {
    Queues(s.log.offered[s.log.taken..], s.hw.held, s.hw.bufs, s.log.published[Consumed(s)..],
           StageOf(s.hw), s.log.input)
  }

  lemma AbstractIsFromLog(s: State)
    requires Inv(s)
    ensures Abstract(s) == FromLog(s)
  {
    UnconsumedIsOffered(s);
    UnreadIsPublished(s);
  }

  lemma TakeRefines(s: State)
    requires Counters(s) && Counters(Next(s, Take))
    requires s.hw.devIdx == s.hw.availIdx <==> s.log.taken == |s.log.offered|
    requires s.log.taken < |s.log.offered| ==>
               s.hw.avail[s.hw.devIdx % 256] == s.log.offered[s.log.taken]
    ensures FromLog(Next(s, Take)) == QueueStep(FromLog(s), Take)
  {
  }

  lemma FillRefines(s: State, id: Slot, data: Buffer)
    requires Counters(s) && Counters(Next(s, Fill(id, data)))
    requires id in s.hw.held ==> id !in InHand(s.hw.pc)
    ensures FromLog(Next(s, Fill(id, data))) == QueueStep(FromLog(s), Fill(id, data))
  {
  }

  lemma CompleteRefines(s: State, e: Elem)
    requires Counters(s) && Counters(Next(s, Complete(e)))
    ensures FromLog(Next(s, Complete(e))) == QueueStep(FromLog(s), Complete(e))
  {
    assert Consumed(s) <= |s.log.published| && s.log.taken <= |s.log.offered|;
    hide Counters;
    if e.id in s.hw.held {
      var f := Frame(e.id, s.hw.bufs[e.id][..e.len]);
      assert (s.log.published + [f])[Consumed(s)..] == s.log.published[Consumed(s)..] + [f];
    }
  }

  lemma HeadRefines(s: State, allocOk: bool)
    requires Counters(s) && Counters(Next(s, Driver(allocOk))) && s.hw.pc.Head?
    requires s.hw.lastIdx != s.hw.usedIdx <==> s.log.processed < |s.log.published|
    ensures FromLog(Next(s, Driver(allocOk))) == QueueStep(FromLog(s), Driver(allocOk))
  {
  }

  lemma FetchRefines(s: State, allocOk: bool)
    requires Counters(s) && Counters(Next(s, Driver(allocOk))) && s.hw.pc.Fetch?
    requires s.log.processed < |s.log.published|
    requires var f := s.log.published[s.log.processed];
      s.hw.used[s.hw.lastIdx % 256] == Announced(f) && Holds(s.hw.bufs, f)
    ensures FromLog(Next(s, Driver(allocOk))) == QueueStep(FromLog(s), Driver(allocOk))
  {
  }

  lemma OfferRefines(s: State, allocOk: bool)
    requires Counters(s) && Counters(Next(s, Driver(allocOk))) && s.hw.pc.Offer?
    ensures FromLog(Next(s, Driver(allocOk))) == QueueStep(FromLog(s), Driver(allocOk))
  {
    var k := s.log.taken;
    assert Consumed(s) <= |s.log.published| && k <= |s.log.offered|;
    hide Counters;
    assert (s.log.offered + [s.hw.pc.id])[k..] == s.log.offered[k..] + [s.hw.pc.id];
  }

  lemma AdvanceRefines(s: State, allocOk: bool)
    requires Counters(s) && Counters(Next(s, Driver(allocOk))) && s.hw.pc.Advance?
    ensures FromLog(Next(s, Driver(allocOk))) == QueueStep(FromLog(s), Driver(allocOk))
  {
    assert Consumed(s) == Consumed(Next(s, Driver(allocOk))) <= |s.log.published|;
    assert s.log.taken <= |s.log.offered|;
    hide Counters;
  }

  lemma QuietStagesRefine(s: State, allocOk: bool)
    requires Counters(s) && Counters(Next(s, Driver(allocOk)))
    requires s.hw.pc.Copy? || s.hw.pc.Return?
    ensures FromLog(Next(s, Driver(allocOk))) == QueueStep(FromLog(s), Driver(allocOk))
  {
    assert Consumed(s) <= |s.log.published| && s.log.taken <= |s.log.offered|;
    hide Counters;
  }

  lemma LogStepRefines(s: State, l: Label)
    requires Inv(s) && Counters(Next(s, l))
    ensures FromLog(Next(s, l)) == QueueStep(FromLog(s), l)
  {
    match l
    case Take =>
      TakeCounters(s);
      TakeRefines(s);
    case Fill(id, data) =>
      if id in s.hw.held {
        HeldIsNotInHand(s, id);
      }
      FillRefines(s, id, data);
    case Complete(e) => CompleteRefines(s, e);
    case Driver(allocOk) =>
      if s.hw.pc.Head? {
        HeadDecides(s);
        HeadRefines(s, allocOk);
      } else if s.hw.pc.Fetch? {
        FetchReads(s);
        FetchRefines(s, allocOk);
      } else if s.hw.pc.Offer? {
        OfferRefines(s, allocOk);
      } else if s.hw.pc.Advance? {
        AdvanceRefines(s, allocOk);
      } else {
        QuietStagesRefine(s, allocOk);
      }
  }

  lemma StepRefines(s: State, l: Label)
    requires Inv(s)
    ensures Abstract(Next(s, l)) == QueueStep(Abstract(s), l)
  {
    StepKeeps(s, l);
    AbstractIsFromLog(s);
    AbstractIsFromLog(Next(s, l));
    LogStepRefines(s, l);
  }

  function QueueRun(q: Queues, labels: seq<Label>): Queues {
    if labels == [] then q
    else QueueStep(QueueRun(q, labels[..|labels| - 1]), labels[|labels| - 1])
  }

  /** The rings and their 16-bit counters behave as the queues under every interleaving. */
  lemma {:induction false} RingsRefineQueues(bufs: Buffers, labels: seq<Label>)
    ensures Abstract(Run(Start(bufs), labels)) ==
      QueueRun(Queues(AllSlots(), multiset{}, bufs, [], Idle, []), labels)
  {
    var s := Start(bufs);
    StartHolds(bufs);
    if labels == [] {
      UnconsumedIsOffered(s);
      UnreadIsPublished(s);
      assert s.log.offered[0..] == AllSlots();
    } else {
      var n := |labels| - 1;
      RingsRefineQueues(bufs, labels[..n]);
      EveryRun(bufs, labels[..n]);
      StepRefines(Run(s, labels[..n]), labels[n]);
    }
  }
}
