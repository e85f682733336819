/** The transmit half of the network driver, over the arrays it shares with the device. */
module TxDriver {
  import opened Words
  import opened TxMachine
  import opened TxTheorems

  type DeviceAction = l: Label | l.Take? || l.Finish? witness Take

  class TxQueue {
    var desc: array<Descriptor>
    var availRing: array<Slot>
    var availIdx: u16
    var txIdx: u16
    var txBuffer: array<Buffer>

    // The device's own state.
    var devIdx: u16
    var held: seq<Slot>

    ghost var pc: Pc
    ghost var first: Buffers
    ghost var trace: seq<Label>       // every action since the queue was set up
    ghost var spec: State             // the machine's state after these actions

    ghost predicate Shaped()
      reads this
    {
      desc.Length == 256 && availRing.Length == 256 && txBuffer.Length == 256
    }

    ghost function Memory(): Hw
      reads this, desc, availRing, txBuffer
      requires Shaped()
    {
      Hw(desc[..], availRing[..], availIdx, txIdx, txBuffer[..], pc, devIdx, held)
    }

    ghost predicate Valid()
      reads this, desc, availRing, txBuffer
    {
      Shaped() && Memory() == spec.hw && spec == Run(Start(first), trace)
    }

    twostate predicate Continues()
      reads this
    {
      && desc == old(desc) && availRing == old(availRing) && txBuffer == old(txBuffer)
      && first == old(first) && old(trace) <= trace
    }

    constructor (buffers: array<Buffer>)
      requires buffers.Length == 256
      ensures Valid() && fresh(desc) && fresh(availRing) && txBuffer == buffers
      ensures trace == [] && first == buffers[..]
    {
      desc := new Descriptor[256](_ => Descriptor(0, 0));
      availRing := new Slot[256](_ => 0);
      txBuffer := buffers;
      availIdx, txIdx, devIdx, held := 0, 0, 0, [];
      pc, first, trace, spec := Idle, buffers[..], [], Start(buffers[..]);
      new;
      assert desc[..] == spec.hw.desc && availRing[..] == spec.hw.avail;
    }

    ghost method Record(l: Label)
      requires spec == Run(Start(first), trace)
      modifies `trace, `spec
      ensures trace == old(trace) + [l] && spec == Next(old(spec), l) == Run(Start(first), trace)
      ensures PacedRun(Start(first), trace) <==>
        PacedRun(Start(first), old(trace)) && (l.Begin? && old(spec).hw.pc.Idle? ==> Paced(old(spec)))
    {
      RunExtends(Start(first), trace, l);
      trace := trace + [l];
      spec := Next(spec, l);
    }

    /** What a step other than the start of a send leaves in place. */
    twostate predicate SameSends()
      reads this
    {
      && spec.log.sent == old(spec.log.sent)
      && (PacedRun(Start(first), trace) <==> PacedRun(Start(old(first)), old(trace)))
    }

    /** The record grew by this one action. */
    twostate predicate OneStep(l: Label)
      reads this
    {
      trace == old(trace) + [l] && spec == Next(old(spec), l)
    }

    method DeviceAct(l: DeviceAction)
      requires Valid()
      modifies `devIdx, `held, `trace, `spec
      ensures Continues() && Valid() && pc == old(pc) && OneStep(l) && SameSends()
    {
      hide Run, PacedRun;
      match l {
        case Take =>
          if devIdx != availIdx {
            held := held + [availRing[devIdx % 256]];
            devIdx := Inc16(devIdx);
          }
        case Finish(k) =>
          if k < |held| {
            held := held[..k] + held[k + 1..];
          }
      }
      Record(l);
    }

    method DeviceTurn(turn: seq<DeviceAction>)
      requires Valid()
      modifies `devIdx, `held, `trace, `spec
      ensures Continues() && Valid() && pc == old(pc) && SameSends()
    {
      for i := 0 to |turn|
        invariant Continues() && Valid() && pc == old(pc) && SameSends()
      {
        hide Valid;
        DeviceAct(turn[i]);
      }
    }

    // The statements of a send, one atomic action each.

    method CopyPayload(payload: Payload)
      requires Valid() && pc.Idle?
      modifies `trace, `spec, `pc, txBuffer
      ensures Continues() && Valid() && pc == Describe(txIdx % 256, |payload|) && OneStep(Begin(payload))
      ensures spec.log.sent == old(spec.log.sent) + [payload]
      ensures PacedRun(Start(first), trace) <==> PacedRun(Start(first), old(trace)) && Paced(old(spec))
    {
      hide Run, PacedRun;
      var slot := txIdx % 256;
      txBuffer[slot] := payload + txBuffer[slot][|payload|..];
      assert txBuffer[..] == old(txBuffer[..])[slot := txBuffer[slot]];
      pc := Describe(slot, |payload|);
      Record(Begin(payload));
    }

    method FillDescriptor(slot: Slot, len: nat)
      requires Valid() && pc == Describe(slot, len)
      modifies `trace, `spec, `pc, desc
      ensures Continues() && Valid() && pc == List(slot) && OneStep(Driver) && SameSends()
    {
      hide Run, PacedRun;
      desc[slot] := Descriptor(slot, len);
      assert desc[..] == old(desc[..])[slot := desc[slot]];
      pc := List(slot);
      Record(Driver);
    }

    method ListSlot(slot: Slot)
      requires Valid() && pc == List(slot)
      modifies `trace, `spec, `pc, availRing
      ensures Continues() && Valid() && pc == Bump(slot) && OneStep(Driver) && SameSends()
    {
      hide Run, PacedRun;
      availRing[availIdx % 256] := slot;
      assert availRing[..] == old(availRing[..])[availIdx % 256 := slot];
      pc := Bump(slot);
      Record(Driver);
    }

    method BumpAvail()
      requires Valid() && pc.Bump?
      modifies `trace, `spec, `pc, `availIdx
      ensures Continues() && Valid() && pc == Count && OneStep(Driver) && SameSends()
    {
      hide Run, PacedRun;
      availIdx := Inc16(availIdx);
      pc := Count;
      Record(Driver);
    }

    method BumpTx()
      requires Valid() && pc.Count?
      modifies `trace, `spec, `pc, `txIdx
      ensures Continues() && Valid() && pc == Idle && OneStep(Driver) && SameSends()
    {
      hide Run, PacedRun;
      txIdx := Inc16(txIdx);
      pc := Idle;
      Record(Driver);
    }

    /** First half of a send: the frame and its descriptor. */
    method Prepare(payload: Payload, slot: Slot, device: seq<seq<DeviceAction>>)
      requires Valid() && pc.Idle? && |device| == 5 && slot == txIdx % 256
      modifies this, desc, txBuffer
      ensures Continues() && Valid() && pc == List(slot)
      ensures spec.log.sent == old(spec.log.sent) + [payload]
      ensures PacedRun(Start(first), trace) <==> PacedRun(Start(first), old(trace)) && Paced(old(spec))
    {
      hide Valid, Run, PacedRun, Paced;
      CopyPayload(payload);
      DeviceTurn(device[0]);
      FillDescriptor(slot, |payload|);
      DeviceTurn(device[1]);
    }

    /** Second half: the available ring and the two counters. */
    method Publish(slot: Slot, device: seq<seq<DeviceAction>>)
      requires Valid() && pc == List(slot) && |device| == 5
      modifies this, availRing
      ensures Continues() && Valid() && pc.Idle? && SameSends()
    {
      hide Valid, Run, PacedRun;
      ListSlot(slot);
      DeviceTurn(device[2]);
      BumpAvail();
      DeviceTurn(device[3]);
      BumpTx();
      DeviceTurn(device[4]);
    }

    /**
      low_level_output and netif_output, which has the same statements.  `device` lists what the
      device does after each of the five.  The payload joins the record as one more send, and the
      run stays paced if the queue was paced on entry.
    */
    method LowLevelOutput(payload: Payload, device: seq<seq<DeviceAction>>)
      requires Valid() && pc.Idle? && |device| == 5
      modifies this, desc, availRing, txBuffer
      ensures Continues() && Valid() && pc.Idle?
      ensures spec.log.sent == old(spec.log.sent) + [payload]
      ensures PacedRun(Start(first), trace) <==> PacedRun(Start(first), old(trace)) && Paced(old(spec))
      ensures txIdx == availIdx == |spec.log.sent| % 0x10000
    {
      hide Run, PacedRun, Paced;
      var slot := txIdx % 256;
      Prepare(payload, slot, device);
      Publish(slot, device);
      IndicesAgreeBetweenSends(first, trace);
    }
  }
}
