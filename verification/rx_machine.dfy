/**
  The receive virtqueue: every micro-step of the driver's interrupt loop and of the device.

  `Hw` is what exists in memory: the two rings, their 16-bit indices, the packet buffers, the
  device's private state and the driver's program counter with its locals.  `Log` records
  what happened, with unbounded counters; no step of `Hw` looks at it.
*/
module RxMachine {
  import opened Words

  datatype UsedElem = UsedElem(id: Slot, len: nat)
  type Elem = e: UsedElem | e.len <= 1536 witness UsedElem(0, 0)

  type UsedRing = s: seq<Elem> | |s| == 256 witness seq(256, _ => UsedElem(0, 0))

  /** Where the interrupt loop stands; between interrupts it rests at `Head`. */
  datatype Pc =
    | Head                            // about to compare last_rx_idx with used->idx
    | Fetch                           // about to read the used element
    | Copy(elem: Elem)                // about to allocate a pbuf and copy the frame out
    | Return(id: Slot)                // about to write the id into the available ring
    | Offer(id: Slot)                 // about to increment avail->idx
    | Advance                         // about to increment last_rx_idx

  datatype Hw = Hw(
    avail: AvailRing, availIdx: u16,
    used: UsedRing, usedIdx: u16,
    bufs: Buffers,
    devIdx: u16,                      // the device's own position in the available ring
    held: multiset<Slot>,             // descriptors the device has taken and not completed
    lastIdx: u16, pc: Pc,             // last_rx_idx and the loop's position
    ready: bool)                      // data_available

  /** A completion: the descriptor and the bytes the device left in its buffer. */
  datatype Frame = Frame(id: Slot, data: seq<Byte>)

  datatype Log = Log(
    offered: seq<Slot>,               // ids ever placed in the available ring
    taken: nat,                       // how many of them the device consumed
    published: seq<Frame>,            // completions, in the order of used->idx
    handled: seq<Frame>,              // what the loop found in memory, one entry per iteration
    kept: seq<bool>,                  // whether pbuf_alloc succeeded in that iteration
    input: seq<seq<Byte>>,            // frames handed to netif.input
    processed: nat)                   // increments of last_rx_idx

  datatype State = State(hw: Hw, log: Log)

  /** One atomic action. A device action that its state does not allow does nothing. */
  datatype Label =
    | Take                            // device: consume the next available id
    | Fill(id: Slot, data: Buffer)    // device: write into a buffer it holds
    | Complete(elem: Elem)            // device: publish a buffer it holds
    | Driver(allocOk: bool)           // the interrupt loop's next statement

  function StepHw(h: Hw, l: Label): Hw {
    match l
    case Take =>
      if h.devIdx == h.availIdx then h
      else h.(held := h.held + multiset{h.avail[h.devIdx % 256]}, devIdx := Inc16(h.devIdx))
    case Fill(id, data) =>
      if id !in h.held then h else h.(bufs := h.bufs[id := data])
    case Complete(e) =>
      if e.id !in h.held then h
      else h.(used := h.used[h.usedIdx % 256 := e], usedIdx := Inc16(h.usedIdx),
              held := h.held - multiset{e.id})
    case Driver(allocOk) =>
      match h.pc
      case Head => if h.lastIdx != h.usedIdx then h.(pc := Fetch) else h
      case Fetch => h.(pc := Copy(h.used[h.lastIdx % 256]))
      case Copy(e) => h.(pc := Return(e.id), ready := h.ready || allocOk)
      case Return(id) => h.(avail := h.avail[h.availIdx % 256 := id], pc := Offer(id))
      case Offer(_) => h.(availIdx := Inc16(h.availIdx), pc := Advance)
      case Advance => h.(lastIdx := Inc16(h.lastIdx), pc := Head)
  }

  function StepLog(h: Hw, g: Log, l: Label): Log {
    match l
    case Take => if h.devIdx == h.availIdx then g else g.(taken := g.taken + 1)
    case Fill(_, _) => g
    case Complete(e) =>
      if e.id !in h.held then g
      else g.(published := g.published + [Frame(e.id, h.bufs[e.id][..e.len])])
    case Driver(allocOk) =>
      match h.pc
      case Copy(e) =>
        var data := h.bufs[e.id][..e.len];
        g.(handled := g.handled + [Frame(e.id, data)],
           kept := g.kept + [allocOk],
           input := if allocOk then g.input + [data] else g.input)
      case Offer(id) => g.(offered := g.offered + [id])
      case Advance => g.(processed := g.processed + 1)
      case _ => g
  }

  function Next(s: State, l: Label): State {
    State(StepHw(s.hw, l), StepLog(s.hw, s.log, l))
  }

  /** The state after a finite interleaving of driver and device actions. */
  function Run(s: State, labels: seq<Label>): State {
    if labels == [] then s
    else Next(Run(s, labels[..|labels| - 1]), labels[|labels| - 1])
  }

  function AllSlots(): (s: seq<Slot>)
    ensures |s| == 256 && forall i :: 0 <= i < 256 ==> s[i] == i
  {
    seq(256, i requires 0 <= i < 256 => i)
  }

  /** The state the pre-fill leaves: all 256 descriptors on offer, nothing completed. */
  function Start(bufs: Buffers): State {
    State(
      Hw(AllSlots(), 256, seq(256, _ => UsedElem(0, 0)), 0, bufs, 0, multiset{}, 0, Head, false),
      Log(AllSlots(), 0, [], [], [], [], 0))
  }

  lemma RunExtends(s: State, labels: seq<Label>, l: Label)
    ensures Run(s, labels + [l]) == Next(Run(s, labels), l)
  {
    assert (labels + [l])[..|labels|] == labels;
  }

  /** The frames of the iterations whose allocation succeeded, in order. */
  function Kept(frames: seq<Frame>, flags: seq<bool>): (r: seq<seq<Byte>>)
    requires |frames| == |flags|
  {
    if flags == [] then []
    else
      var n := |flags| - 1;
      Kept(frames[..n], flags[..n]) + (if flags[n] then [frames[n].data] else [])
  }

  function Ids(frames: seq<Frame>): (r: seq<Slot>)
    ensures |r| == |frames|
  {
    seq(|frames|, i requires 0 <= i < |frames| => frames[i].id)
  }
}
