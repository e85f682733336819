/** The invariant of the receive queue and its preservation by every micro-step. */
module RxInvariant {
  import opened Words
  import opened RxMachine

  /** The completions the loop has read out of the used ring. */
  ghost function Consumed(s: State): nat {
    s.log.processed + (if s.hw.pc.Head? || s.hw.pc.Fetch? then 0 else 1)
  }

  /** The descriptor the interrupt loop is holding, if any. */
  function InHand(pc: Pc): multiset<Slot> {
    match pc
    case Copy(e) => multiset{e.id}
    case Return(id) => multiset{id}
    case Offer(id) => multiset{id}
    case _ => multiset{}
  }

  /** processed <= used <= taken <= available == processed + 256, and the 16-bit views of them. */
  ghost predicate Counters(s: State) {
    && s.hw.availIdx == |s.log.offered| % 0x10000
    && s.hw.devIdx == s.log.taken % 0x10000
    && s.hw.usedIdx == |s.log.published| % 0x10000
    && s.hw.lastIdx == s.log.processed % 0x10000
    && Consumed(s) <= |s.log.published| <= s.log.taken <= |s.log.offered|
    && |s.log.offered| + |InHand(s.hw.pc)| == Consumed(s) + 256
    && |s.hw.held| == s.log.taken - |s.log.published|
  }

  /** Every descriptor is in exactly one place. */
  ghost predicate Ownership(s: State)
    requires s.log.taken <= |s.log.offered| && Consumed(s) <= |s.log.published|
  {
    multiset(s.log.offered[s.log.taken..]) + s.hw.held
    + multiset(Ids(s.log.published)[Consumed(s)..]) + InHand(s.hw.pc)
    == multiset(AllSlots())
  }

  ghost predicate AvailSlots(s: State) {
    && (forall i :: s.log.taken <= i < |s.log.offered| ==> s.hw.avail[i % 256] == s.log.offered[i])
    && (s.hw.pc.Offer? ==> s.hw.avail[|s.log.offered| % 256] == s.hw.pc.id)
  }

  /** The used element that announces a completion. */
  function Announced(f: Frame): UsedElem {
    UsedElem(f.id, |f.data|)
  }

  ghost predicate UsedSlots(s: State) {
    forall i :: Consumed(s) <= i < |s.log.published| ==>
      s.hw.used[i % 256] == Announced(s.log.published[i])
  }

  ghost predicate Holds(bufs: Buffers, f: Frame) {
    |f.data| <= 1536 && bufs[f.id][..|f.data|] == f.data
  }

  ghost predicate Contents(s: State) {
    forall i :: Consumed(s) <= i < |s.log.published| ==> Holds(s.hw.bufs, s.log.published[i])
  }

  ghost predicate Locals(s: State) {
    && (s.hw.pc.Fetch? ==> s.log.processed < |s.log.published|)
    && (s.hw.pc.Copy? ==>
          && s.log.processed < |s.log.published|
          && s.hw.pc.elem == Announced(s.log.published[s.log.processed])
          && Holds(s.hw.bufs, s.log.published[s.log.processed]))
  }

  ghost predicate Delivered(s: State) {
    && |s.log.handled| == s.log.processed
         + (if s.hw.pc.Return? || s.hw.pc.Offer? || s.hw.pc.Advance? then 1 else 0)
    && |s.log.kept| == |s.log.handled| <= |s.log.published|
    && s.log.handled == s.log.published[..|s.log.handled|]
    && s.log.input == Kept(s.log.handled, s.log.kept)
    && s.hw.ready == (s.log.input != [])
  }

  ghost predicate Inv(s: State) {
    && Counters(s)
    && Ownership(s)
    && AvailSlots(s)
    && UsedSlots(s)
    && Contents(s)
    && Locals(s)
    && Delivered(s)
  }

  lemma {:induction false} IotaCount(n: nat, x: Slot)
    requires n <= 256
    ensures multiset(seq(n, i requires 0 <= i < n => i as Slot))[x] == (if x < n then 1 else 0)
  {
    if n > 0 {
      var s := seq(n, i requires 0 <= i < n => i as Slot);
      assert s == seq(n - 1, i requires 0 <= i < n - 1 => i as Slot) + [n - 1];
      IotaCount(n - 1, x);
    }
  }

  lemma EachSlotOnce(x: Slot)
    ensures multiset(AllSlots())[x] == 1
  {
    assert AllSlots() == seq(256, i requires 0 <= i < 256 => i as Slot);
    IotaCount(256, x);
  }

  lemma StartHolds(bufs: Buffers)
    ensures Inv(Start(bufs))
  {
    var s := Start(bufs);
    assert s.log.offered[0..] == AllSlots();
    assert Ids(s.log.published)[0..] == [];
  }

  /** A descriptor the device holds is in no unprocessed completion. */
  lemma HeldIsNotPublished(s: State, id: Slot, i: nat)
    requires Counters(s) && Ownership(s) && id in s.hw.held
    requires Consumed(s) <= i < |s.log.published|
    ensures s.log.published[i].id != id
  {
    EachSlotOnce(id);
    var u := Ids(s.log.published)[Consumed(s)..];
    assert multiset(u)[id] == 0;
    assert u[i - Consumed(s)] in multiset(u);
  }

  lemma HeldIsNotInHand(s: State, id: Slot)
    requires Counters(s) && Ownership(s) && id in s.hw.held
    ensures id !in InHand(s.hw.pc)
  {
    EachSlotOnce(id);
  }

  // --- Each step, conjunct by conjunct ---------------------------------------------------------

  lemma TakeCounters(s: State)
    requires Counters(s) && AvailSlots(s)
    ensures s.hw.devIdx == s.hw.availIdx <==> s.log.taken == |s.log.offered|
    ensures s.log.taken < |s.log.offered| ==>
              s.hw.avail[s.hw.devIdx % 256] == s.log.offered[s.log.taken]
    ensures Counters(Next(s, Take))
  {
    var k := s.log.taken;
    GapIsExact(k, |s.log.offered|);
    SlotSurvivesWrap(k, 0);
    IncrementWraps(k);
  }

  /** Consuming one available id and holding it moves one descriptor, and no other. */
  lemma MoveOne(avail: seq<Slot>, held: multiset<Slot>, rest: multiset<Slot>, held': multiset<Slot>)
    requires avail != [] && held' == held + multiset{avail[0]}
    ensures multiset(avail[1..]) + held' + rest == multiset(avail) + held + rest
  {
    assert avail == [avail[0]] + avail[1..];
  }

  lemma TakeOwnership(s: State)
    requires Counters(s) && Counters(Next(s, Take)) && Ownership(s)
    requires s.hw.devIdx == s.hw.availIdx <==> s.log.taken == |s.log.offered|
    requires s.log.taken < |s.log.offered| ==>
               s.hw.avail[s.hw.devIdx % 256] == s.log.offered[s.log.taken]
    ensures Ownership(Next(s, Take))
  {
    var t, k := Next(s, Take), s.log.taken;
    if k < |s.log.offered| {
      assert t.hw.pc == s.hw.pc && t.log == s.log.(taken := k + 1);
      assert t.hw.held == s.hw.held + multiset{s.log.offered[k..][0]};
      assert Consumed(t) == Consumed(s) <= |s.log.published|;
      hide Counters, Next, StepHw, StepLog;
      var u, h := multiset(Ids(s.log.published)[Consumed(s)..]), InHand(s.hw.pc);
      MoveOne(s.log.offered[k..], s.hw.held, u + h, t.hw.held);
      assert s.log.offered[k..][1..] == t.log.offered[t.log.taken..];
      var a, a' := multiset(s.log.offered[k..]), multiset(t.log.offered[t.log.taken..]);
      assert a' + t.hw.held + u + h == a' + t.hw.held + (u + h);
      assert a + s.hw.held + u + h == a + s.hw.held + (u + h);
    }
  }

  lemma TakeKeeps(s: State)
    requires Inv(s)
    ensures Inv(Next(s, Take))
  {
    hide Counters, Ownership;
    TakeCounters(s);
    TakeOwnership(s);
  }

  lemma FillContents(s: State, id: Slot, data: Buffer)
    requires Counters(s) && Ownership(s) && Contents(s) && Locals(s) && id in s.hw.held
    ensures var t := Next(s, Fill(id, data)); Contents(t) && Locals(t)
  {
    var t := Next(s, Fill(id, data));
    HeldIsNotInHand(s, id);
    forall i | Consumed(s) <= i < |s.log.published|
      ensures Holds(t.hw.bufs, t.log.published[i])
    {
      HeldIsNotPublished(s, id, i);
      assert Holds(s.hw.bufs, s.log.published[i]);
    }
  }

  lemma FillOwnership(s: State, id: Slot, data: Buffer)
    requires Counters(s) && Ownership(s)
    ensures var t := Next(s, Fill(id, data)); Counters(t) && Ownership(t)
  {
  }

  lemma FillKeeps(s: State, id: Slot, data: Buffer)
    requires Inv(s)
    ensures Inv(Next(s, Fill(id, data)))
  {
    hide Counters, Ownership, Contents, Locals;
    FillOwnership(s, id, data);
    if id in s.hw.held {
      FillContents(s, id, data);
    }
  }

  lemma CompleteCounters(s: State, e: Elem)
    requires Counters(s) && e.id in s.hw.held
    ensures Counters(Next(s, Complete(e)))
  {
    IncrementWraps(|s.log.published|);
  }

  lemma CompleteOwnership(s: State, e: Elem)
    requires Counters(s) && Ownership(s) && e.id in s.hw.held
    ensures var t := Next(s, Complete(e)); Counters(t) && Ownership(t)
  {
    CompleteCounters(s, e);
    var t := Next(s, Complete(e));
    var c := Consumed(s);
    assert Ids(t.log.published)[c..] == Ids(s.log.published)[c..] + [e.id];
    assert multiset(Ids(t.log.published)[c..]) == multiset(Ids(s.log.published)[c..]) + multiset{e.id};
    assert s.hw.held == t.hw.held + multiset{e.id};
  }

  lemma CompleteSlots(s: State, e: Elem)
    requires Counters(s) && UsedSlots(s) && Contents(s) && e.id in s.hw.held
    ensures var t := Next(s, Complete(e)); UsedSlots(t) && Contents(t)
  {
    var t := Next(s, Complete(e));
    var n := |s.log.published|;
    assert s.hw.usedIdx % 256 == n % 256 by {
      SlotSurvivesWrap(n, 0);
    }
    forall i | Consumed(s) <= i < n
      ensures t.hw.used[i % 256] == s.hw.used[i % 256]
    {
      SlotsDiffer(i, n);
    }
  }

  /** Completions only join the end of the record, so what was delivered stays a prefix of it. */
  lemma CompleteDelivered(s: State, e: Elem)
    requires Delivered(s) && e.id in s.hw.held
    ensures Delivered(Next(s, Complete(e)))
  {
    hide Kept;
    var t := Next(s, Complete(e));
    assert t.log.handled == t.log.published[..|t.log.handled|];
  }

  lemma CompleteKeeps(s: State, e: Elem)
    requires Inv(s)
    ensures Inv(Next(s, Complete(e)))
  {
    if e.id in s.hw.held {
      CompleteOwnership(s, e);
      CompleteSlots(s, e);
      CompleteDelivered(s, e);
      hide Counters, Ownership, UsedSlots, Contents, Delivered;
    }
  }

  /** The 16-bit comparison of the loop decides exactly whether a completion is pending. */
  lemma HeadDecides(s: State)
    requires Counters(s) && s.hw.pc.Head?
    ensures s.hw.lastIdx != s.hw.usedIdx <==> s.log.processed < |s.log.published|
  {
    GapIsExact(s.log.processed, |s.log.published|);
  }

  lemma HeadKeeps(s: State, allocOk: bool)
    requires Inv(s) && s.hw.pc.Head?
    ensures Inv(Next(s, Driver(allocOk)))
  {
    HeadDecides(s);
  }

  lemma FetchReads(s: State)
    requires Counters(s) && UsedSlots(s) && Contents(s) && Locals(s) && s.hw.pc.Fetch?
    ensures s.log.processed < |s.log.published|
    ensures var f := s.log.published[s.log.processed];
      s.hw.used[s.hw.lastIdx % 256] == Announced(f) && Holds(s.hw.bufs, f)
  {
    var p := s.log.processed;
    SlotSurvivesWrap(p, 0);
    assert Holds(s.hw.bufs, s.log.published[p]);
  }

  lemma FetchOwnership(s: State, allocOk: bool)
    requires Counters(s) && Ownership(s) && s.hw.pc.Fetch? && s.log.processed < |s.log.published|
    requires s.hw.used[s.hw.lastIdx % 256].id == s.log.published[s.log.processed].id
    ensures var t := Next(s, Driver(allocOk)); Counters(t) && Ownership(t)
  {
    var p := s.log.processed;
    var u := Ids(s.log.published);
    assert u[p..] == [u[p]] + u[p + 1..];
  }

  lemma FetchKeeps(s: State, allocOk: bool)
    requires Inv(s) && s.hw.pc.Fetch?
    ensures Inv(Next(s, Driver(allocOk)))
  {
    FetchReads(s);
    hide Counters, Ownership;
    FetchOwnership(s, allocOk);
  }

  lemma CopyDelivers(s: State, allocOk: bool)
    requires Counters(s) && Locals(s) && Delivered(s) && s.hw.pc.Copy?
    ensures Delivered(Next(s, Driver(allocOk)))
  {
    var t := Next(s, Driver(allocOk));
    var p := s.log.processed;
    assert t.log.handled == t.log.published[..p + 1];
    assert t.log.handled[..p] == s.log.handled && t.log.kept[..p] == s.log.kept;
  }

  lemma CopyKeeps(s: State, allocOk: bool)
    requires Inv(s) && s.hw.pc.Copy?
    ensures Inv(Next(s, Driver(allocOk)))
  {
    hide Delivered;
    CopyDelivers(s, allocOk);
  }

  lemma ReturnSlots(s: State, allocOk: bool)
    requires Counters(s) && AvailSlots(s) && s.hw.pc.Return?
    ensures AvailSlots(Next(s, Driver(allocOk)))
  {
    var t := Next(s, Driver(allocOk));
    var n := |s.log.offered|;
    SlotSurvivesWrap(n, 0);
    forall i | s.log.taken <= i < n
      ensures t.hw.avail[i % 256] == s.hw.avail[i % 256]
    {
      SlotsDiffer(i, n);
    }
  }

  lemma ReturnKeeps(s: State, allocOk: bool)
    requires Inv(s) && s.hw.pc.Return?
    ensures Inv(Next(s, Driver(allocOk)))
  {
    hide AvailSlots;
    ReturnSlots(s, allocOk);
  }

  lemma OfferCounters(s: State, allocOk: bool)
    requires Counters(s) && AvailSlots(s) && s.hw.pc.Offer?
    ensures var t := Next(s, Driver(allocOk)); Counters(t) && AvailSlots(t)
  {
    IncrementWraps(|s.log.offered|);
  }

  lemma OfferOwnership(s: State, allocOk: bool)
    requires Counters(s) && Ownership(s) && Counters(Next(s, Driver(allocOk))) && s.hw.pc.Offer?
    ensures Ownership(Next(s, Driver(allocOk)))
  {
    var t, k, id := Next(s, Driver(allocOk)), s.log.taken, s.hw.pc.id;
    assert t.log == s.log.(offered := s.log.offered + [id]) && t.hw.held == s.hw.held && t.hw.pc == Advance;
    assert Consumed(t) == Consumed(s) && k <= |s.log.offered|;
    hide Counters, Next, StepHw, StepLog;
    assert t.log.offered[k..] == s.log.offered[k..] + [id];
    assert multiset(t.log.offered[k..]) == multiset(s.log.offered[k..]) + multiset{id};
  }

  lemma OfferKeeps(s: State, allocOk: bool)
    requires Inv(s) && s.hw.pc.Offer?
    ensures Inv(Next(s, Driver(allocOk)))
  {
    hide Counters, Ownership, AvailSlots;
    OfferCounters(s, allocOk);
    OfferOwnership(s, allocOk);
  }

  lemma AdvanceCounters(s: State, allocOk: bool)
    requires Counters(s) && s.hw.pc.Advance?
    ensures Counters(Next(s, Driver(allocOk)))
  {
    IncrementWraps(s.log.processed);
  }

  lemma AdvanceKeeps(s: State, allocOk: bool)
    requires Inv(s) && s.hw.pc.Advance?
    ensures Inv(Next(s, Driver(allocOk)))
  {
    AdvanceCounters(s, allocOk);
  }

  lemma StepKeeps(s: State, l: Label)
    requires Inv(s)
    ensures Inv(Next(s, l))
  {
    hide Inv;
    match l
    case Take => TakeKeeps(s);
    case Fill(id, data) => FillKeeps(s, id, data);
    case Complete(e) => CompleteKeeps(s, e);
    case Driver(allocOk) =>
      match s.hw.pc {
        case Head => HeadKeeps(s, allocOk);
        case Fetch => FetchKeeps(s, allocOk);
        case Copy(_) => CopyKeeps(s, allocOk);
        case Return(_) => ReturnKeeps(s, allocOk);
        case Offer(_) => OfferKeeps(s, allocOk);
        case Advance => AdvanceKeeps(s, allocOk);
      }
  }

  lemma {:induction false} RunKeeps(s: State, labels: seq<Label>)
    requires Inv(s)
    ensures Inv(Run(s, labels))
  {
    hide Inv, Next;
    if labels != [] {
      var n := |labels| - 1;
      RunKeeps(s, labels[..n]);
      StepKeeps(Run(s, labels[..n]), labels[n]);
    }
  }

  /** The invariant holds in every reachable state. */
  lemma EveryRun(bufs: Buffers, labels: seq<Label>)
    ensures Inv(Run(Start(bufs), labels))
  {
    hide Inv;
    StartHolds(bufs);
    RunKeeps(Start(bufs), labels);
  }
}
