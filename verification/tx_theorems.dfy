/** FIFO order and in-flight stability of the transmit queue. */
module TxTheorems {
  import opened Words
  import opened TxMachine

  /** Sends whose id the driver has made available. */
  ghost function Offered(s: State): nat {
    if s.hw.pc.Describe? || s.hw.pc.List? || s.hw.pc.Bump? then
      (if s.log.sent == [] then 0 else |s.log.sent| - 1)
    else |s.log.sent|
  }

  /** Sends whose descriptor is filled in. */
  ghost function Described(s: State): nat {
    if s.hw.pc.Describe? then (if s.log.sent == [] then 0 else |s.log.sent| - 1) else |s.log.sent|
  }

  ghost predicate Counters(s: State) {
    && (!s.hw.pc.Idle? ==> s.log.sent != [])
    && s.hw.txIdx == (if s.hw.pc.Idle? then |s.log.sent| else |s.log.sent| - 1) % 0x10000
    && s.hw.availIdx == Offered(s) % 0x10000
    && s.hw.devIdx == |s.log.seen| % 0x10000
    && |s.log.seen| <= Offered(s)
  }

  /** All but the latest 256 frames are finished; only taken frames are. */
  ghost predicate Window(s: State) {
    && (forall n :: 0 <= n && n + 256 < |s.log.sent| ==> n in s.log.finished)
    && (forall n :: n in s.log.finished ==> n < |s.log.seen|)
  }

  ghost predicate Holding(s: State) {
    && |s.hw.held| == |s.log.heldNo|
    && (forall i :: 0 <= i < |s.log.heldNo| ==>
          && s.hw.held[i] == s.log.heldNo[i] % 256
          && s.log.heldNo[i] < |s.log.seen|
          && s.log.heldNo[i] !in s.log.finished)
    && (forall i, j :: 0 <= i < j < |s.log.heldNo| ==> s.log.heldNo[i] != s.log.heldNo[j])
  }

  ghost predicate AvailSlots(s: State) {
    && (forall n :: |s.log.seen| <= n < Offered(s) ==> s.hw.avail[n % 256] == n % 256)
    && (s.hw.pc.Bump? ==> s.hw.avail[Offered(s) % 256] == Offered(s) % 256)
    && (s.hw.pc.Describe? || s.hw.pc.List? || s.hw.pc.Bump? ==> s.hw.pc.slot == Offered(s) % 256)
  }

  /** The n-th frame is in its buffer as it was sent. */
  ghost predicate Intact(s: State, n: nat)
    requires n < |s.log.sent|
  {
    s.hw.bufs[n % 256][..|s.log.sent[n]|] == s.log.sent[n]
  }

  ghost predicate InFlight(s: State) {
    && (forall n :: 0 <= n < |s.log.sent| && n !in s.log.finished ==> Intact(s, n))
    && (forall n :: 0 <= n < Described(s) && n !in s.log.finished ==>
          s.hw.desc[n % 256] == Descriptor(n % 256, |s.log.sent[n]|))
    && (s.hw.pc.Describe? && s.log.sent != [] ==> s.hw.pc.len == |s.log.sent[|s.log.sent| - 1]|)
  }

  ghost predicate Seen(s: State) {
    && |s.log.seen| <= |s.log.sent|
    && (forall n :: 0 <= n < |s.log.seen| ==> s.log.seen[n] == s.log.sent[n])
    && s.log.wire.Keys == s.log.finished
    && (forall n :: n in s.log.wire ==> n < |s.log.sent| && s.log.wire[n] == s.log.sent[n])
  }

  ghost predicate Inv(s: State) {
    Counters(s) && Window(s) && Holding(s) && AvailSlots(s) && InFlight(s) && Seen(s)
  }

  lemma InFlightReads(s: State, n: nat)
    requires InFlight(s) && n < Described(s) && n !in s.log.finished
    ensures Read(s.hw, n % 256) == s.log.sent[n]
  {
    assert Intact(s, n);
  }

  lemma TakeDecides(s: State)
    requires Counters(s) && Window(s)
    ensures s.hw.devIdx == s.hw.availIdx <==> |s.log.seen| == Offered(s)
    ensures s.hw.devIdx % 256 == |s.log.seen| % 256
  {
    assert |s.log.seen| !in s.log.finished;
    GapIsExact(|s.log.seen|, Offered(s));
    SlotSurvivesWrap(|s.log.seen|, 0);
  }

  lemma TakeKeeps(s: State)
    requires Inv(s)
    ensures Inv(Next(s, Take))
  {
    TakeDecides(s);
    var n, t := |s.log.seen|, Next(s, Take);
    if n < Offered(s) {
      assert n !in s.log.finished;
      InFlightReads(s, n);
      assert Counters(t) by { IncrementWraps(n); }
      hide Counters;
      assert Window(t) && AvailSlots(t);
      assert Holding(t);
      assert InFlight(t);
    }
  }

  lemma FinishHolding(s: State, k: nat)
    requires Holding(s) && k < |s.hw.held|
    ensures Holding(Next(s, Finish(k)))
  {
    var t := Next(s, Finish(k));
    assert forall i :: 0 <= i < |t.log.heldNo| ==>
      t.log.heldNo[i] == s.log.heldNo[if i < k then i else i + 1] &&
      t.hw.held[i] == s.hw.held[if i < k then i else i + 1];
  }

  lemma FinishKeeps(s: State, k: nat)
    requires Inv(s)
    ensures Inv(Next(s, Finish(k)))
  {
    if k < |s.hw.held| {
      var n := s.log.heldNo[k];
      assert n !in s.log.finished && s.hw.held[k] == n % 256;
      assert n < |s.log.seen| <= Described(s);
      FinishHolding(s, k);
      hide Counters, AvailSlots, Holding, Without;
      InFlightReads(s, n);
    }
  }

  /** Sending frame n touches no buffer whose frame is less than 256 sends old. */
  lemma BeginInFlight(s: State, p: Payload)
    requires Counters(s) && Window(s) && InFlight(s) && s.hw.pc.Idle? && Paced(s)
    ensures InFlight(Next(s, Begin(p)))
  {
    var t, n := Next(s, Begin(p)), |s.log.sent|;
    SlotSurvivesWrap(n, 0);
    assert s.hw.txIdx % 256 == n % 256;
    hide Counters;
    forall m | 0 <= m < |t.log.sent| && m !in t.log.finished
      ensures Intact(t, m)
    {
      if m < n {
        assert Intact(s, m);
        SlotsDiffer(m, n);
      }
    }
  }

  lemma BeginKeeps(s: State, p: Payload)
    requires Inv(s) && (s.hw.pc.Idle? ==> Paced(s))
    ensures Inv(Next(s, Begin(p)))
  {
    if s.hw.pc.Idle? {
      BeginInFlight(s, p);
      hide InFlight;
      SlotSurvivesWrap(|s.log.sent|, 0);
    }
  }

  lemma DescribeKeeps(s: State)
    requires Inv(s) && s.hw.pc.Describe?
    ensures Inv(Next(s, Driver))
  {
    var t, n := Next(s, Driver), |s.log.sent| - 1;
    assert s.hw.pc.slot == n % 256;
    assert InFlight(t) by {
      hide Counters, AvailSlots;
      forall m | 0 <= m < n && m !in s.log.finished
        ensures t.hw.desc[m % 256] == s.hw.desc[m % 256]
      {
        SlotsDiffer(m, n);
      }
      assert forall m :: 0 <= m < |t.log.sent| && m !in t.log.finished ==> Intact(s, m);
    }
    hide InFlight;
  }

  lemma ListKeeps(s: State)
    requires Inv(s) && s.hw.pc.List?
    ensures Inv(Next(s, Driver))
  {
    var t, n := Next(s, Driver), |s.log.sent| - 1;
    assert AvailSlots(t) by {
      SlotSurvivesWrap(n, 0);
      assert |s.log.seen| !in s.log.finished;
      forall m | |s.log.seen| <= m < n
        ensures t.hw.avail[m % 256] == s.hw.avail[m % 256]
      {
        SlotsDiffer(m, n);
      }
    }
    hide AvailSlots;
    assert InFlight(t) by {
      assert forall m :: 0 <= m < |t.log.sent| && m !in t.log.finished ==> Intact(s, m);
    }
    hide InFlight;
  }

  lemma BumpOrCountKeeps(s: State)
    requires Inv(s) && (s.hw.pc.Bump? || s.hw.pc.Count?)
    ensures Inv(Next(s, Driver))
  {
    var t := Next(s, Driver);
    assert Counters(t) by {
      IncrementWraps(|s.log.sent| - 1);
    }
    hide Counters;
    assert InFlight(t) by {
      assert forall m :: 0 <= m < |t.log.sent| && m !in t.log.finished ==> Intact(s, m);
    }
    hide InFlight;
  }

  lemma StepKeeps(s: State, l: Label)
    requires Inv(s) && (l.Begin? && s.hw.pc.Idle? ==> Paced(s))
    ensures Inv(Next(s, l))
  {
    match l
    case Begin(p) => BeginKeeps(s, p);
    case Take => TakeKeeps(s);
    case Finish(k) => FinishKeeps(s, k);
    case Driver =>
      match s.hw.pc {
        case Idle =>
        case Describe(_, _) => DescribeKeeps(s);
        case List(_) => ListKeeps(s);
        case Bump(_) => BumpOrCountKeeps(s);
        case Count => BumpOrCountKeeps(s);
      }
  }

  lemma {:induction false} EveryPacedRun(bufs: Buffers, labels: seq<Label>)
    requires PacedRun(Start(bufs), labels)
    ensures Inv(Run(Start(bufs), labels))
  {
    if labels != [] {
      var n := |labels| - 1;
      EveryPacedRun(bufs, labels[..n]);
      hide Inv, Next;
      StepKeeps(Run(Start(bufs), labels[..n]), labels[n]);
    }
  }

  /**
    FIFO.  In every paced run the device has read, when taking them and again when finishing
    them, exactly the payloads that were sent, frame by frame in the order of sending.
  */
  lemma DeviceSeesSendsInOrder(bufs: Buffers, labels: seq<Label>)
    requires PacedRun(Start(bufs), labels)
    ensures var s := Run(Start(bufs), labels);
      && |s.log.seen| <= |s.log.sent| && s.log.seen == s.log.sent[..|s.log.seen|]
      && s.log.wire.Keys == s.log.finished
      && (forall n :: n in s.log.finished ==> n < |s.log.sent| && s.log.wire[n] == s.log.sent[n])
  {
    EveryPacedRun(bufs, labels);
  }

  /** Both driver counters count the sends; within a send each is one behind until its statement. */
  ghost predicate IndicesCount(s: State) {
    && (s.hw.pc.Idle? || s.log.sent != [])
    && s.hw.availIdx == Offered(s) % 0x10000
    && s.hw.txIdx == (if s.hw.pc.Idle? then |s.log.sent| else |s.log.sent| - 1) % 0x10000
  }

  lemma IndicesKeepCounting(s: State, l: Label)
    requires IndicesCount(s)
    ensures IndicesCount(Next(s, l))
  {
    if s.log.sent != [] {
      IncrementWraps(|s.log.sent| - 1);
    }
  }

  /** Between sends the two driver counters agree, and both count the sends: in every run, paced or not. */
  lemma {:induction false} IndicesAgreeBetweenSends(bufs: Buffers, labels: seq<Label>)
    ensures var s := Run(Start(bufs), labels);
      && IndicesCount(s)
      && (s.hw.pc.Idle? ==> s.hw.txIdx == s.hw.availIdx == |s.log.sent| % 0x10000)
  {
    if labels != [] {
      var n := |labels| - 1;
      IndicesAgreeBetweenSends(bufs, labels[..n]);
      IndicesKeepCounting(Run(Start(bufs), labels[..n]), labels[n]);
      hide Next;
    }
  }

  /** No action of the run alters a frame the device has not finished. */
  lemma UnfinishedFramesAreStable(bufs: Buffers, labels: seq<Label>, n: nat)
    requires PacedRun(Start(bufs), labels)
    requires n < |Run(Start(bufs), labels).log.sent| && n !in Run(Start(bufs), labels).log.finished
    ensures Intact(Run(Start(bufs), labels), n)
  {
    EveryPacedRun(bufs, labels);
  }

  // --- Pacing is exactly what is needed --------------------------------------------------------

  /** Every frame the device had not finished survives the next action. */
  ghost predicate Spares(s: State, l: Label) {
    forall n :: 0 <= n < |s.log.sent| && n !in s.log.finished ==> Intact(Next(s, l), n)
  }

  /** A payload that differs from frame m in its first byte. */
  function Clash(frame: Payload): Payload
    requires frame != []
  {
    [if frame[0] == 0 then 1 else 0]
  }

  lemma UnpacedSendOverwrites(s: State)
    requires Inv(s) && s.hw.pc.Idle? && !Paced(s)
    requires s.log.sent[|s.log.sent| - 256] != []
    ensures !Intact(Next(s, Begin(Clash(s.log.sent[|s.log.sent| - 256]))), |s.log.sent| - 256)
  {
    var n := |s.log.sent|;
    var m := n - 256;
    var t := Next(s, Begin(Clash(s.log.sent[m])));
    SlotSurvivesWrap(n, 0);
    assert m % 256 == n % 256;
    assert t.hw.bufs[m % 256][..|s.log.sent[m]|][0] != s.log.sent[m][0];
  }

  /**
    Starting a send spares every unfinished frame, whatever the payload, if and only if the
    device has finished the frame of 256 sends ago (or that frame was empty).  The driver makes
    no such check.
  */
  lemma SendIsSafeExactlyWhenPaced(s: State)
    requires Inv(s) && s.hw.pc.Idle?
    ensures (forall p: Payload :: Spares(s, Begin(p))) <==>
            Paced(s) || s.log.sent[|s.log.sent| - 256] == []
  {
    if Paced(s) || s.log.sent[|s.log.sent| - 256] == [] {
      forall p: Payload
        ensures Spares(s, Begin(p))
      {
        SparedWhenPaced(s, p);
      }
    } else {
      UnpacedSendOverwrites(s);
      assert !Spares(s, Begin(Clash(s.log.sent[|s.log.sent| - 256])));
    }
  }

  lemma RunExtends(s: State, labels: seq<Label>, l: Label)
    ensures Run(s, labels + [l]) == Next(Run(s, labels), l)
    ensures PacedRun(s, labels + [l]) <==>
      PacedRun(s, labels) && (l.Begin? && Run(s, labels).hw.pc.Idle? ==> Paced(Run(s, labels)))
  {
    assert (labels + [l])[..|labels|] == labels;
  }

  /** The first k actions of sending p, after `labels`, the device doing nothing. */
  function Sending(labels: seq<Label>, p: Payload, k: nat): seq<Label> {
    if k == 0 then labels
    else Sending(labels, p, k - 1) + [if k == 1 then Begin(p) else Driver]
  }

  /** The statements of a send follow each other. */
  predicate Stage(pc: Pc, k: nat) {
    match k
    case 0 => pc.Idle?
    case 1 => pc.Describe?
    case 2 => pc.List?
    case 3 => pc.Bump?
    case 4 => pc.Count?
    case _ => pc.Idle?
  }

  lemma StageAdvances(s: State, l: Label, k: nat)
    requires k < 5 && Stage(s.hw.pc, k) && (if k == 0 then l.Begin? else l.Driver?)
    ensures Stage(Next(s, l).hw.pc, k + 1) && Next(s, l).log.finished == s.log.finished
    ensures Next(s, l).log.sent == if k == 0 then s.log.sent + [l.payload] else s.log.sent
  {
  }

  lemma {:induction false} SendRuns(r: State, labels: seq<Label>, p: Payload, k: nat)
    requires k <= 5 && Run(r, labels).hw.pc.Idle? && PacedRun(r, labels) && Paced(Run(r, labels))
    ensures var e := Run(r, Sending(labels, p, k));
      && PacedRun(r, Sending(labels, p, k)) && Stage(e.hw.pc, k)
      && e.log.finished == Run(r, labels).log.finished
      && e.log.sent == (if k == 0 then Run(r, labels).log.sent else Run(r, labels).log.sent + [p])
  {
    if k > 0 {
      hide Run, PacedRun, Paced, Next;
      SendRuns(r, labels, p, k - 1);
      var l := if k == 1 then Begin(p) else Driver;
      assert k == 1 ==> Sending(labels, p, k - 1) == labels;
      RunExtends(r, Sending(labels, p, k - 1), l);
      StageAdvances(Run(r, Sending(labels, p, k - 1)), l, k - 1);
    }
  }

  /** k sends of one payload while the device does nothing. */
  function Burst(k: nat, p: Payload): seq<Label> {
    if k == 0 then [] else Sending(Burst(k - 1, p), p, 5)
  }

  lemma {:induction false} BurstRuns(bufs: Buffers, k: nat, p: Payload)
    requires k <= 256
    ensures PacedRun(Start(bufs), Burst(k, p))
    ensures var s := Run(Start(bufs), Burst(k, p));
      && s.hw.pc.Idle? && s.log.finished == {} && |s.log.sent| == k
      && forall i :: 0 <= i < k ==> s.log.sent[i] == p
  {
    if k > 0 {
      BurstRuns(bufs, k - 1, p);
      hide Run, PacedRun, Sending;
      SendRuns(Start(bufs), Burst(k - 1, p), p, 5);
    }
  }

  /**
    The driver does get there: 256 sends to a device that has not begun leave an unpaced queue.
    Unless they were empty, the first frame is then still unfinished, and a further send that
    differs from it in the first byte destroys it.
  */
  lemma UnpacedIsReachable(bufs: Buffers, p: Payload)
    ensures var s := Run(Start(bufs), Burst(256, p));
      && PacedRun(Start(bufs), Burst(256, p)) && s.hw.pc.Idle? && !Paced(s)
      && |s.log.sent| == 256 && s.log.sent[0] == p && 0 !in s.log.finished && Intact(s, 0)
      && (p != [] ==> !Intact(Next(s, Begin(Clash(p))), 0))
  {
    var s := Run(Start(bufs), Burst(256, p));
    BurstRuns(bufs, 256, p);
    EveryPacedRun(bufs, Burst(256, p));
    assert Intact(s, 0);
    hide Run, PacedRun, Burst, Inv;
    if p != [] {
      UnpacedSendOverwrites(s);
    }
  }

  lemma SparedWhenPaced(s: State, p: Payload)
    requires Inv(s) && s.hw.pc.Idle?
    requires Paced(s) || s.log.sent[|s.log.sent| - 256] == []
    ensures Spares(s, Begin(p))
  {
    var n, t := |s.log.sent|, Next(s, Begin(p));
    SlotSurvivesWrap(n, 0);
    assert s.hw.txIdx % 256 == n % 256;
    hide Counters;
    forall m | 0 <= m < n && m !in s.log.finished
      ensures Intact(t, m)
    {
      assert Intact(s, m);
      if m + 256 > n {
        SlotsDiffer(m, n);
      } else {
        assert m + 256 == n;
      }
    }
  }
}
