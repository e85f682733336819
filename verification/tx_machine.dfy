/**
  The transmit virtqueue: the statements of a send interleaved with a device that takes frames
  in ring order and finishes them in any order.  The driver never reads this queue's used ring.
*/
module TxMachine {
  import opened Words

  type Payload = p: seq<Byte> | |p| <= 1536 witness []

  datatype Descriptor = Descriptor(buf: Slot, len: nat)

  type Table = s: seq<Descriptor> | |s| == 256 witness seq<Descriptor>(256, _ => Descriptor(0, 0))

  /** Where a send stands. */
  datatype Pc =
    | Idle
    | Describe(slot: Slot, len: nat)  // payload copied, about to fill in the descriptor
    | List(slot: Slot)                // about to write the available slot
    | Bump(slot: Slot)                // about to increment avail->idx
    | Count                           // about to increment tx_idx

  datatype Hw = Hw(
    desc: Table, avail: AvailRing, availIdx: u16, txIdx: u16, bufs: Buffers, pc: Pc,
    devIdx: u16, held: seq<Slot>)     // the device's position and the descriptors it works on

  datatype Log = Log(
    sent: seq<Payload>,               // payload of every send begun
    seen: seq<seq<Byte>>,             // what the device read when it took each frame
    heldNo: seq<nat>,                 // number of each frame the device works on
    finished: set<nat>,               // numbers of the frames the device is done with
    wire: map<nat, seq<Byte>>)        // what the buffer held when the device finished the frame

  datatype State = State(hw: Hw, log: Log)

  datatype Label =
    | Begin(payload: Payload)         // a send starts: memcpy into the next buffer
    | Driver                          // the next statement of the send in progress
    | Take                            // device: consume the next available id
    | Finish(k: nat)                  // device: done with the k-th descriptor it works on

  /** memcpy of the payload to the start of a buffer. */
  function Overlay(b: Buffer, p: Payload): Buffer {
    p + b[|p|..]
  }

  /** It changes the first |p| bytes and no other. */
  lemma OverlayIsMemcpy(b: Buffer, p: Payload)
    ensures Overlay(b, p)[..|p|] == p && Overlay(b, p)[|p|..] == b[|p|..]
  {
  }

  /** The bytes a descriptor designates. */
  function Read(h: Hw, slot: Slot): seq<Byte> {
    var d := h.desc[slot];
    if d.len <= 1536 then h.bufs[d.buf][..d.len] else h.bufs[d.buf]
  }

  function Without<T>(s: seq<T>, k: nat): seq<T>
    requires k < |s|
  {
    s[..k] + s[k + 1..]
  }

  function StepHw(h: Hw, l: Label): Hw {
    match l
    case Begin(p) =>
      if !h.pc.Idle? then h
      else
        h.(bufs := h.bufs[h.txIdx % 256 := Overlay(h.bufs[h.txIdx % 256], p)],
           pc := Describe(h.txIdx % 256, |p|))
    case Driver =>
      (match h.pc
       case Idle => h
       case Describe(slot, len) => h.(desc := h.desc[slot := Descriptor(slot, len)], pc := List(slot))
       case List(slot) => h.(avail := h.avail[h.availIdx % 256 := slot], pc := Bump(slot))
       case Bump(_) => h.(availIdx := Inc16(h.availIdx), pc := Count)
       case Count => h.(txIdx := Inc16(h.txIdx), pc := Idle))
    case Take =>
      if h.devIdx == h.availIdx then h
      else h.(held := h.held + [h.avail[h.devIdx % 256]], devIdx := Inc16(h.devIdx))
    case Finish(k) =>
      if k >= |h.held| then h else h.(held := Without(h.held, k))
  }

  function StepLog(h: Hw, g: Log, l: Label): Log {
    match l
    case Begin(p) => if !h.pc.Idle? then g else g.(sent := g.sent + [p])
    case Driver => g
    case Take =>
      if h.devIdx == h.availIdx then g
      else g.(heldNo := g.heldNo + [|g.seen|], seen := g.seen + [Read(h, h.avail[h.devIdx % 256])])
    case Finish(k) =>
      if k >= |h.held| || k >= |g.heldNo| then g
      else g.(heldNo := Without(g.heldNo, k),
              finished := g.finished + {g.heldNo[k]},
              wire := g.wire[g.heldNo[k] := Read(h, h.held[k])])
  }

  function Next(s: State, l: Label): State {
    State(StepHw(s.hw, l), StepLog(s.hw, s.log, l))
  }

  function Run(s: State, labels: seq<Label>): State {
    if labels == [] then s
    else Next(Run(s, labels[..|labels| - 1]), labels[|labels| - 1])
  }

  function Start(bufs: Buffers): State {
    State(
      Hw(seq<Descriptor>(256, _ => Descriptor(0, 0)), seq<Slot>(256, _ => 0), 0, 0, bufs, Idle, 0, []),
      Log([], [], [], {}, map[]))
  }

  /** The device is done with the frame that was sent 256 sends ago, if there was one. */
  predicate Paced(s: State) {
    |s.log.sent| < 256 || |s.log.sent| - 256 in s.log.finished
  }

  /** Every send of the run started on a paced queue. */
  predicate PacedRun(s: State, labels: seq<Label>) {
    labels == [] ||
    (var n := |labels| - 1;
     && PacedRun(s, labels[..n])
     && (labels[n].Begin? && Run(s, labels[..n]).hw.pc.Idle? ==> Paced(Run(s, labels[..n]))))
  }
}
