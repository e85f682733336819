/** The receive half of the network driver, over the arrays it shares with the device. */
module RxDriver {
  import opened Words
  import opened RxMachine
  import opened RxInvariant
  import opened RxTheorems

  type DeviceAction = l: Label | !l.Driver? witness Take

  /** What the device does in the i-th gap between statements of the handler. */
  function Turn(device: seq<seq<DeviceAction>>, i: nat): seq<Label> {
    if i < |device| then device[i] else []
  }

  function Drop(device: seq<seq<DeviceAction>>, n: nat): seq<seq<DeviceAction>> {
    if n <= |device| then device[n..] else []
  }

  /** One iteration: six statements, the device acting after each; one of them asks the allocator. */
  function Iteration(device: seq<seq<DeviceAction>>, allocOk: bool): seq<Label> {
    FirstHalf(device, allocOk) + SecondHalf(Drop(device, 2))
  }

  function FirstHalf(device: seq<seq<DeviceAction>>, allocOk: bool): seq<Label> {
    [Driver(true)] + Turn(device, 0) + [Driver(true)] + Turn(device, 1) + [Driver(allocOk)]
  }

  function SecondHalf(device: seq<seq<DeviceAction>>): seq<Label> {
    Turn(device, 0) + [Driver(true)] + Turn(device, 1) + [Driver(true)] + Turn(device, 2) + [Driver(true)]
    + Turn(device, 3)
  }

  /** The outcomes of the first n allocations. */
  function Flags(alloc: nat -> bool, n: nat): (r: seq<bool>)
    ensures |r| == n && forall i :: 0 <= i < n ==> r[i] == alloc(i)
  {
    seq(n, i requires 0 <= i => alloc(i))
  }

  /** n iterations, given what the device does meanwhile and which allocations succeed. */
  function Schedule(device: seq<seq<DeviceAction>>, alloc: nat -> bool, n: nat): seq<Label> {
    if n == 0 then []
    else Schedule(device, alloc, n - 1) + Iteration(Drop(device, 6 * (n - 1)), alloc(n - 1))
  }

  lemma DropIsShorter(device: seq<seq<DeviceAction>>)
    ensures |Drop(device, 6)| <= |device| && (device != [] ==> |Drop(device, 6)| < |device|)
  {
  }

  lemma DropNext(device: seq<seq<DeviceAction>>, m: nat, n: nat)
    ensures Turn(Drop(device, m), n) == Turn(device, m + n)
    ensures Drop(Drop(device, m), n) == Drop(device, m + n)
    ensures Drop(device, 0) == device && (device == [] ==> Drop(device, m) == [])
  {
  }

  lemma ScheduleNext(device: seq<seq<DeviceAction>>, alloc: nat -> bool, n: nat)
    ensures Schedule(device, alloc, n + 1) ==
      Schedule(device, alloc, n) + Iteration(Drop(device, 6 * n), alloc(n))
    ensures Flags(alloc, n + 1) == Flags(alloc, n) + [alloc(n)]
    ensures Drop(Drop(device, 6 * n), 6) == Drop(device, 6 * (n + 1))
  {
    hide Iteration;
  }

  lemma NothingScheduled(device: seq<seq<DeviceAction>>, alloc: nat -> bool)
    ensures Schedule(device, alloc, 0) == [] && Flags(alloc, 0) == [] && Drop(device, 0) == device
  {
  }

  lemma Join(a: seq<Label>, b: seq<Label>, c: seq<Label>)
    ensures (a + b) + c == a + (b + c)
  {
  }

  lemma JoinFirst(done: seq<Label>, device: seq<seq<DeviceAction>>, allocOk: bool)
    ensures done + [Driver(true)] + Turn(device, 0) + [Driver(true)] + Turn(device, 1) + [Driver(allocOk)] ==
      done + FirstHalf(device, allocOk)
  {
    hide Turn;
    var one := [Driver(true)];
    Join(done, one, Turn(device, 0));
    Join(done, one + Turn(device, 0), one);
    Join(done, one + Turn(device, 0) + one, Turn(device, 1));
    Join(done, one + Turn(device, 0) + one + Turn(device, 1), [Driver(allocOk)]);
  }

  lemma JoinSecond(done: seq<Label>, device: seq<seq<DeviceAction>>)
    ensures done + Turn(device, 0) + [Driver(true)] + Turn(device, 1) + [Driver(true)] + Turn(device, 2)
      + [Driver(true)] + Turn(device, 3) == done + SecondHalf(device)
  {
    hide Turn;
    var one, t0, t1, t2 := [Driver(true)], Turn(device, 0), Turn(device, 1), Turn(device, 2);
    Join(done, t0, one);
    Join(done, t0 + one, t1);
    Join(done, t0 + one + t1, one);
    Join(done, t0 + one + t1 + one, t2);
    Join(done, t0 + one + t1 + one + t2, one);
    Join(done, t0 + one + t1 + one + t2 + one, Turn(device, 3));
  }

  lemma TurnGrows(turn: seq<Label>, i: nat)
    requires i < |turn|
    ensures turn[..i + 1] == turn[..i] + [turn[i]]
  {
  }

  lemma DeviceLeavesDriver(s: State, l: DeviceAction)
    ensures Next(s, l).log.processed == s.log.processed && Next(s, l).log.kept == s.log.kept
  {
  }

  class RxQueue {
    var availRing: array<Slot>
    var availIdx: u16
    var usedRing: array<Elem>
    var usedIdx: u16
    var rxBuffer: array<Buffer>
    var lastRxIdx: u16
    var dataAvailable: bool
    var received: seq<seq<Byte>>      // the frames handed to netif.input

    // The device's own state.
    var devIdx: u16
    var held: multiset<Slot>

    ghost var pc: Pc
    ghost var first: Buffers          // what the buffers held when the device was started
    ghost var trace: seq<Label>       // every action since then
    ghost var spec: State             // the machine's state after these actions

    ghost predicate Shaped()
      reads this
    {
      availRing.Length == 256 && usedRing.Length == 256 && rxBuffer.Length == 256
    }

    ghost function Memory(): Hw
      reads this, availRing, usedRing, rxBuffer
      requires Shaped()
    {
      Hw(availRing[..], availIdx, usedRing[..], usedIdx, rxBuffer[..], devIdx, held, lastRxIdx, pc, dataAvailable)
    }

    /** The arrays hold, and the network got, exactly what the machine says after the recorded actions. */
    ghost predicate Valid()
      reads this, availRing, usedRing, rxBuffer
    {
      Shaped() && Memory() == spec.hw && received == spec.log.input && spec == Run(Start(first), trace)
    }

    /** The RX pre-fill of virtio_init_hardware. */
    constructor (buffers: array<Buffer>)
      requires buffers.Length == 256
      ensures Valid() && fresh(availRing) && fresh(usedRing) && rxBuffer == buffers
      ensures trace == [] && first == buffers[..] && pc.Head? && received == []
    {
      availRing := new Slot[256](_ => 0);
      usedRing := new Elem[256](_ => UsedElem(0, 0));
      rxBuffer := buffers;
      usedIdx, lastRxIdx, devIdx, held, dataAvailable := 0, 0, 0, multiset{}, false;
      availIdx, received := 0, [];
      pc, first, trace, spec := Head, buffers[..], [], Start(buffers[..]);
      new;
      for i := 0 to 256
        invariant Shaped() && fresh(availRing) && fresh(usedRing) && rxBuffer == buffers
        invariant first == buffers[..]
        invariant forall j :: 0 <= j < i ==> availRing[j] == j
        invariant forall j :: 0 <= j < 256 ==> usedRing[j] == UsedElem(0, 0)
        invariant usedIdx == lastRxIdx == devIdx == 0 && held == multiset{} && !dataAvailable && received == []
        invariant pc == Head && trace == [] && spec == Start(first)
      {
        availRing[i] := i;
      }
      availIdx := 256;
      assert availRing[..] == AllSlots();
      assert usedRing[..] == Start(first).hw.used;
    }

    ghost method Record(l: Label)
      requires spec == Run(Start(first), trace)
      modifies `trace, `spec
      ensures trace == old(trace) + [l] && spec == Next(old(spec), l) == Run(Start(first), trace)
    {
      RunExtends(Start(first), trace, l);
      trace := trace + [l];
      spec := Next(spec, l);
    }

    method DeviceTake()
      requires Valid()
      modifies this`devIdx, this`held, this`trace, this`spec
      ensures Valid() && trace == old(trace) + [Take] && spec == Next(old(spec), Take)
    {
      hide Run;
      if devIdx != availIdx {
        held := held + multiset{availRing[devIdx % 256]};
        devIdx := Inc16(devIdx);
      }
      Record(Take);
    }

    method DeviceFill(id: Slot, data: Buffer)
      requires Valid()
      modifies this`trace, this`spec, rxBuffer
      ensures Valid() && trace == old(trace) + [Fill(id, data)]
      ensures spec == Next(old(spec), Fill(id, data))
    {
      hide Run;
      if id in held {
        rxBuffer[id] := data;
        assert rxBuffer[..] == old(rxBuffer[..])[id := data];
      }
      Record(Fill(id, data));
    }

    method DeviceComplete(e: Elem)
      requires Valid()
      modifies this`held, this`usedIdx, this`trace, this`spec, usedRing
      ensures Valid() && trace == old(trace) + [Complete(e)]
      ensures spec == Next(old(spec), Complete(e))
    {
      hide Run;
      if e.id in held {
        usedRing[usedIdx % 256] := e;
        assert usedRing[..] == old(usedRing[..])[old(usedIdx) % 256 := e];
        usedIdx := Inc16(usedIdx);
        held := held - multiset{e.id};
      }
      Record(Complete(e));
    }

    /** One action of the device on the shared memory. */
    method DeviceAct(l: DeviceAction)
      requires Valid()
      modifies this`devIdx, this`held, this`usedIdx, this`trace, this`spec, usedRing, rxBuffer
      ensures Valid() && trace == old(trace) + [l] && spec == Next(old(spec), l)
    {
      match l {
        case Take => DeviceTake();
        case Fill(id, data) => DeviceFill(id, data);
        case Complete(e) => DeviceComplete(e);
      }
    }

    /** What every step of the handler leaves in place. */
    twostate predicate Continues()
      reads this
    {
      && availRing == old(availRing) && usedRing == old(usedRing) && rxBuffer == old(rxBuffer)
      && first == old(first) && old(trace) <= trace
    }

    method DeviceActs(turn: seq<DeviceAction>)
      requires Valid()
      modifies this, usedRing, rxBuffer
      ensures Continues() && Valid() && pc == old(pc) && trace == old(trace) + turn
      ensures spec.log.processed == old(spec).log.processed && spec.log.kept == old(spec).log.kept
    {
      hide Valid, Memory, Run, Next;
      ghost var done, all: seq<Label> := trace, turn;
      assert all[..0] == [];
      for i := 0 to |turn|
        invariant Continues() && Valid() && pc == old(pc) && trace == done + all[..i]
        invariant spec.log.processed == old(spec).log.processed && spec.log.kept == old(spec).log.kept
      {
        DeviceLeavesDriver(spec, all[i]);
        DeviceAct(turn[i]);
        TurnGrows(all, i);
        Join(done, all[..i], [all[i]]);
      }
      assert all[..|turn|] == all;
    }

    /** What the device does between two statements of the handler. */
    method DeviceTurn(turns: seq<seq<DeviceAction>>) returns (rest: seq<seq<DeviceAction>>)
      requires Valid()
      modifies this, usedRing, rxBuffer
      ensures Continues() && Valid() && pc == old(pc)
      ensures rest == Drop(turns, 1) && trace == old(trace) + Turn(turns, 0)
      ensures spec.log.processed == old(spec).log.processed && spec.log.kept == old(spec).log.kept
      ensures turns == [] ==> |spec.log.published| == |old(spec).log.published|
    {
      hide Valid, Memory, Run, Next;
      if turns == [] {
        return [];
      }
      DeviceActs(turns[0]);
      rest := turns[1..];
    }

    /** A step of the loop that leaves the counts of the record alone. */
    twostate predicate QuietStep(l: Label)
      reads this
    {
      && trace == old(trace) + [l]
      && spec.log.processed == old(spec).log.processed && spec.log.kept == old(spec).log.kept
      && |spec.log.published| == |old(spec).log.published|
    }

    // The statements of the loop body, one atomic action each.

    /** The loop condition came out true. */
    ghost method EnterBody()
      requires Valid() && pc.Head? && lastRxIdx != usedIdx
      modifies `pc, `trace, `spec
      ensures Valid() && pc.Fetch? && QuietStep(Driver(true))
    {
      hide Run;
      pc := Fetch;
      Record(Driver(true));
    }

    method ReadElement() returns (elem: Elem)
      requires Valid() && pc.Fetch?
      modifies `pc, `trace, `spec
      ensures Valid() && pc == Copy(elem) && QuietStep(Driver(true))
    {
      hide Run;
      elem := usedRing[lastRxIdx % 256];
      pc := Copy(elem);
      Record(Driver(true));
    }

    /** pbuf_alloc may fail; when it does not, the bytes in the buffer go to netif.input. */
    method CopyOut(elem: Elem, allocOk: bool)
      requires Valid() && pc == Copy(elem)
      modifies `pc, `trace, `spec, `dataAvailable, `received
      ensures Valid() && pc == Return(elem.id)
      ensures spec.log.handled == old(spec).log.handled + [Frame(elem.id, rxBuffer[elem.id][..elem.len])]
      ensures spec.log.kept == old(spec).log.kept + [allocOk]
      ensures received == if allocOk then old(received) + [rxBuffer[elem.id][..elem.len]] else old(received)
      ensures dataAvailable == (old(dataAvailable) || allocOk) && trace == old(trace) + [Driver(allocOk)]
      ensures spec.log.processed == old(spec).log.processed
      ensures |spec.log.published| == |old(spec).log.published|
    {
      hide Run;
      if allocOk {
        var payload := rxBuffer[elem.id][..elem.len];
        received := received + [payload];
        dataAvailable := true;
      }
      pc := Return(elem.id);
      Record(Driver(allocOk));
    }

    method ReturnId(id: Slot)
      requires Valid() && pc == Return(id)
      modifies `pc, `trace, `spec, availRing
      ensures Valid() && pc == Offer(id) && QuietStep(Driver(true))
    {
      hide Run;
      availRing[availIdx % 256] := id;
      assert availRing[..] == old(availRing[..])[availIdx % 256 := id];
      pc := Offer(id);
      Record(Driver(true));
    }

    method BumpAvail()
      requires Valid() && pc.Offer?
      modifies `pc, `trace, `spec, `availIdx
      ensures Valid() && pc == Advance && QuietStep(Driver(true))
    {
      hide Run;
      availIdx := Inc16(availIdx);
      pc := Advance;
      Record(Driver(true));
    }

    method BumpLast()
      requires Valid() && pc.Advance?
      modifies `pc, `trace, `spec, `lastRxIdx
      ensures Valid() && pc == Head && trace == old(trace) + [Driver(true)]
      ensures spec.log.processed == old(spec).log.processed + 1 && spec.log.kept == old(spec).log.kept
      ensures |spec.log.published| == |old(spec).log.published|
    {
      hide Run;
      lastRxIdx := Inc16(lastRxIdx);
      pc := Head;
      Record(Driver(true));
    }

    /** First half of an iteration: read the used element and copy the frame out. */
    method Receive(turns: seq<seq<DeviceAction>>, allocOk: bool) returns (rest: seq<seq<DeviceAction>>, id: Slot)
      requires Valid() && pc.Head? && lastRxIdx != usedIdx
      modifies this, usedRing, rxBuffer
      ensures Continues() && Valid() && pc == Return(id)
      ensures rest == Drop(turns, 2) && trace == old(trace) + FirstHalf(turns, allocOk)
      ensures spec.log.processed == old(spec).log.processed
      ensures spec.log.kept == old(spec).log.kept + [allocOk]
      ensures turns == [] ==> |spec.log.published| == |old(spec).log.published|
    {
      hide Valid, Memory, Run, Next, StepHw, StepLog, Drop, Turn;
      DropNext(turns, 1, 0);
      DropNext(turns, 1, 1);
      EnterBody();
      rest := DeviceTurn(turns);
      var elem := ReadElement();
      rest := DeviceTurn(rest);
      CopyOut(elem, allocOk);
      id := elem.id;
      JoinFirst(old(trace), turns, allocOk);
    }

    /** Second half: give the buffer back and advance. */
    method GiveBack(turns: seq<seq<DeviceAction>>, id: Slot) returns (rest: seq<seq<DeviceAction>>)
      requires Valid() && pc == Return(id)
      modifies this, availRing, usedRing, rxBuffer
      ensures Continues() && Valid() && pc.Head?
      ensures rest == Drop(turns, 4) && trace == old(trace) + SecondHalf(turns)
      ensures spec.log.processed == old(spec).log.processed + 1 && spec.log.kept == old(spec).log.kept
      ensures turns == [] ==> |spec.log.published| == |old(spec).log.published|
    {
      hide Valid, Memory, Run, Next, StepHw, StepLog, Drop, Turn;
      DropNext(turns, 1, 0);
      DropNext(turns, 1, 1);
      DropNext(turns, 2, 0);
      DropNext(turns, 2, 1);
      DropNext(turns, 3, 0);
      DropNext(turns, 3, 1);
      rest := DeviceTurn(turns);
      ReturnId(id);
      rest := DeviceTurn(rest);
      BumpAvail();
      rest := DeviceTurn(rest);
      BumpLast();
      rest := DeviceTurn(rest);
      JoinSecond(old(trace), turns);
    }

    /** The loop body. */
    method Iterate(turns: seq<seq<DeviceAction>>, allocOk: bool) returns (rest: seq<seq<DeviceAction>>)
      requires Valid() && pc.Head? && lastRxIdx != usedIdx
      modifies this, availRing, usedRing, rxBuffer
      ensures Continues() && Valid() && pc.Head?
      ensures rest == Drop(turns, 6) && trace == old(trace) + Iteration(turns, allocOk)
      ensures spec.log.processed == old(spec).log.processed + 1
      ensures spec.log.kept == old(spec).log.kept + [allocOk]
      ensures turns == [] ==> |spec.log.published| == |old(spec).log.published|
    {
      hide Valid, Memory, FirstHalf, SecondHalf, Drop;
      DropNext(turns, 2, 4);
      var id;
      rest, id := Receive(turns, allocOk);
      rest := GiveBack(rest, id);
      Join(old(trace), FirstHalf(turns, allocOk), SecondHalf(Drop(turns, 2)));
    }

    /** The loop; alloc(i) is whether the allocation of its i-th iteration succeeds. */
    method Drain(device: seq<seq<DeviceAction>>, alloc: nat -> bool) returns (iterations: nat, notified: bool)
      requires Valid() && pc.Head?
      modifies this, availRing, usedRing, rxBuffer
      ensures Continues() && Valid() && pc.Head? && LoopHeadAgrees(spec)
      ensures spec.log.processed == old(spec).log.processed + iterations
      ensures trace == old(trace) + Schedule(device, alloc, iterations)
      ensures spec.log.kept == old(spec).log.kept + Flags(alloc, iterations)
      ensures lastRxIdx == usedIdx
      ensures notified <==> iterations % 0x10000 != 0
    {
      var numProcessed: u16 := 0;
      var turns := device;
      iterations := 0;
      AtHead();
      NothingScheduled(device, alloc);
      while lastRxIdx != usedIdx
        invariant Continues() && Valid() && pc.Head? && LoopHeadAgrees(spec)
        invariant spec.log.processed == old(spec).log.processed + iterations
        invariant turns == Drop(device, 6 * iterations)
        invariant trace == old(trace) + Schedule(device, alloc, iterations)
        invariant spec.log.kept == old(spec).log.kept + Flags(alloc, iterations)
        invariant numProcessed == iterations % 0x10000
        decreases |turns|, |spec.log.published| - spec.log.processed
      {
        hide Valid, Memory, LoopHeadAgrees, Iteration, Schedule, Drop, Flags;
        ghost var taken := Iteration(turns, alloc(iterations));
        DropIsShorter(turns);
        turns := Iterate(turns, alloc(iterations));
        AtHead();
        IncrementWraps(iterations);
        ScheduleNext(device, alloc, iterations);
        Join(old(trace), Schedule(device, alloc, iterations), taken);
        iterations := iterations + 1;
        numProcessed := Inc16(numProcessed);
      }
      notified := numProcessed > 0;
    }

    lemma AtHead()
      requires Valid() && pc.Head?
      ensures LoopHeadAgrees(spec) && spec.log.processed <= |spec.log.published|
      ensures lastRxIdx == usedIdx <==> spec.log.processed == |spec.log.published|
    {
      CountersRefineNaturals(first, trace);
    }

    lemma SinceHead(before: State, done: seq<Label>, flags: seq<bool>)
      requires Valid() && pc.Head? && done <= trace
      requires before == Run(Start(first), done) && before.hw.pc.Head?
      requires spec.log.kept == before.log.kept + flags
      ensures Handled(before.log, spec.log) && spec.log.processed <= |spec.log.published|
      ensures |flags| == spec.log.processed - before.log.processed
      ensures received == before.log.input +
        Kept(spec.log.published[before.log.processed..spec.log.processed], flags)
    {
      hide Run;
      assert trace[..|done|] == done;
      HandledBetweenHeads(first, trace, |done|);
      assert done[..|done|] == done;
      HandledBetweenHeads(first, done, |done|);
      KeptBetween(before.log, spec.log, flags);
    }

    /**
      The interrupt handler.  `device` lists what the device does meanwhile, turn by turn, and
      alloc(i) is whether the allocation of the i-th iteration succeeds.  Returns the number of
      iterations and whether the queue was notified: the 16-bit counter num_processed reads zero
      again after every 65536 iterations.
    */
    method HandleIrq(regsMapped: bool, isr: nat, device: seq<seq<DeviceAction>>, alloc: nat -> bool)
      returns (iterations: nat, notified: bool)
      requires Valid() && pc.Head?
      modifies this, availRing, usedRing, rxBuffer
      ensures Continues() && Valid() && pc.Head?
      ensures !regsMapped || isr % 2 == 0 ==> spec == old(spec) && iterations == 0
      ensures regsMapped && isr % 2 == 1 ==>
        && Gap16(old(lastRxIdx), old(usedIdx)) <= 256
        && iterations == Gap16(old(lastRxIdx), old(usedIdx))
             + (|spec.log.published| - |old(spec).log.published|)
        && spec.log.processed == |spec.log.published|
        && lastRxIdx == usedIdx && availIdx == (lastRxIdx + 256) % 0x10000
      ensures trace == old(trace) + Schedule(device, alloc, iterations)
      ensures spec.log.processed == old(spec).log.processed + iterations <= |spec.log.published|
      ensures Handled(old(spec).log, spec.log)
      ensures received == old(received) +
        Kept(spec.log.published[old(spec).log.processed..spec.log.processed], Flags(alloc, iterations))
      ensures notified <==> iterations % 0x10000 != 0
    {
      hide Handled, Run, Schedule;
      iterations, notified := 0, false;
      NothingScheduled(device, alloc);
      SinceHead(spec, trace, []);
      if !regsMapped {
        return;
      }
      if isr % 2 == 1 {
        AtHead();
        iterations, notified := Drain(device, alloc);
        AtHead();
        SinceHead(old(spec), old(trace), Flags(alloc, iterations));
      }
    }
  }
}
