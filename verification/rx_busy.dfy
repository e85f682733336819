/**
  A device that completes one more buffer before the interrupt loop looks again: executions of
  the handler with any number of iterations, among them the 65536 after which its 16-bit count of
  processed buffers reads zero.
*/
module RxBusy {
  import opened Words
  import opened RxMachine
  import opened RxInvariant

  /** Whenever the driver evaluates its loop condition, it enters the body. */
  predicate StaysInLoop(s: State, labels: seq<Label>) {
    labels == [] ||
    (var n := |labels| - 1;
     && StaysInLoop(s, labels[..n])
     && (labels[n].Driver? && Run(s, labels[..n]).hw.pc.Head? ==>
           Run(s, labels[..n]).hw.lastIdx != Run(s, labels[..n]).hw.usedIdx))
  }

  lemma LoopExtends(s: State, labels: seq<Label>, l: Label)
    requires l.Driver? && Run(s, labels).hw.pc.Head? ==>
      Run(s, labels).hw.lastIdx != Run(s, labels).hw.usedIdx
    ensures Run(s, labels + [l]) == Next(Run(s, labels), l)
    ensures StaysInLoop(s, labels + [l]) <==> StaysInLoop(s, labels)
  {
    assert (labels + [l])[..|labels|] == labels;
  }

  /** The statements of the loop body, by the position of the loop. */
  function Position(pc: Pc): nat {
    match pc
    case Head => 0
    case Fetch => 1
    case Copy(_) => 2
    case Return(_) => 3
    case Offer(_) => 4
    case Advance => 5
  }

  /** The loop is at a position of its body, having processed k of the `total` completions. */
  ghost predicate At(s: State, position: nat, k: nat, total: nat) {
    && Inv(s) && Position(s.hw.pc) == position
    && s.log.processed == k && |s.log.published| == s.log.taken == total
  }

  lemma PcMoves(s: State)
    requires s.hw.pc.Head? ==> s.hw.lastIdx != s.hw.usedIdx
    ensures var t := Next(s, Driver(true));
      && Position(t.hw.pc) == (Position(s.hw.pc) + 1) % 6
      && t.log.published == s.log.published && t.log.taken == s.log.taken
      && t.log.processed == s.log.processed + (if Position(s.hw.pc) == 5 then 1 else 0)
  {
  }

  lemma HeadIsPending(s: State)
    requires Inv(s) && s.hw.pc.Head?
    ensures s.hw.lastIdx != s.hw.usedIdx <==> s.log.processed < |s.log.published|
    ensures s.log.processed <= |s.log.published|
  {
    HeadDecides(s);
  }

  lemma StatementAdvances(s: State, position: nat, k: nat, total: nat)
    requires At(s, position, k, total) && k < total
    ensures s.hw.pc.Head? ==> s.hw.lastIdx != s.hw.usedIdx
    ensures At(Next(s, Driver(true)), (position + 1) % 6, if position == 5 then k + 1 else k, total)
  {
    hide Inv, Next;
    if s.hw.pc.Head? {
      HeadIsPending(s);
    }
    PcMoves(s);
    StepKeeps(s, Driver(true));
  }

  /** n statements of the driver. */
  function Statements(labels: seq<Label>, n: nat): seq<Label> {
    if n == 0 then labels else Statements(labels, n - 1) + [Driver(true)]
  }

  /** With a completion pending, the loop gets to any position of its body. */
  lemma {:induction false} BodyRuns(r: State, labels: seq<Label>, k: nat, total: nat, n: nat)
    requires n <= 5 && k < total && StaysInLoop(r, labels) && At(Run(r, labels), 0, k, total)
    ensures StaysInLoop(r, Statements(labels, n)) && At(Run(r, Statements(labels, n)), n, k, total)
  {
    hide Run, StaysInLoop, At, Next;
    if n > 0 {
      BodyRuns(r, labels, k, total, n - 1);
      var before := Statements(labels, n - 1);
      StatementAdvances(Run(r, before), n - 1, k, total);
      LoopExtends(r, before, Driver(true));
    }
  }

  /** It gets back to its condition, one completion further. */
  lemma BodyEnds(r: State, labels: seq<Label>, k: nat, total: nat)
    requires k < total && StaysInLoop(r, labels) && At(Run(r, labels), 5, k, total)
    ensures var all := labels + [Driver(true)]; StaysInLoop(r, all) && At(Run(r, all), 0, k + 1, total)
  {
    hide Run, StaysInLoop, At, Next;
    StatementAdvances(Run(r, labels), 5, k, total);
    LoopExtends(r, labels, Driver(true));
  }

  /** The device takes the next buffer on offer and completes it at once. */
  function Answer(s: State): seq<Label> {
    [Take, Complete(UsedElem(s.hw.avail[s.hw.devIdx % 256], 0))]
  }

  lemma AnswerPublishes(s: State, position: nat, k: nat, total: nat)
    requires At(s, position, k, total) && total < |s.log.offered|
    ensures At(Next(Next(s, Answer(s)[0]), Answer(s)[1]), position, k, total + 1)
  {
    TakeCounters(s);
    StepKeeps(s, Take);
    var a := Next(s, Take);
    assert a.hw.held == s.hw.held + multiset{s.hw.avail[s.hw.devIdx % 256]};
    StepKeeps(a, Answer(s)[1]);
    hide Inv;
  }

  lemma AnswerRuns(r: State, labels: seq<Label>, position: nat, k: nat, total: nat)
    requires StaysInLoop(r, labels) && At(Run(r, labels), position, k, total)
    requires total < |Run(r, labels).log.offered|
    ensures var all := labels + Answer(Run(r, labels));
      StaysInLoop(r, all) && At(Run(r, all), position, k, total + 1)
  {
    hide Run, StaysInLoop, At, Next;
    var s := Run(r, labels);
    AnswerPublishes(s, position, k, total);
    LoopExtends(r, labels, Answer(s)[0]);
    LoopExtends(r, labels + [Answer(s)[0]], Answer(s)[1]);
    assert labels + [Answer(s)[0]] + [Answer(s)[1]] == labels + Answer(s);
  }

  /** One iteration: the device completes another buffer just before last_rx_idx is incremented. */
  function Round(r: State, labels: seq<Label>): seq<Label> {
    var body := Statements(labels, 5);
    body + Answer(Run(r, body)) + [Driver(true)]
  }

  lemma BuffersAreOnOffer(s: State, k: nat)
    requires At(s, 5, k, k + 1)
    ensures k + 1 < |s.log.offered|
  {
  }

  lemma RoundRuns(r: State, labels: seq<Label>, k: nat)
    requires StaysInLoop(r, labels) && At(Run(r, labels), 0, k, k + 1)
    ensures StaysInLoop(r, Round(r, labels)) && At(Run(r, Round(r, labels)), 0, k + 1, k + 2)
  {
    hide Run, StaysInLoop, At, Next, Statements;
    var body := Statements(labels, 5);
    BodyRuns(r, labels, k, k + 1, 5);
    BuffersAreOnOffer(Run(r, body), k);
    AnswerRuns(r, body, 5, k, k + 1);
    BodyEnds(r, body + Answer(Run(r, body)), k, k + 2);
  }

  /** From the pre-fill: one completion before the interrupt, then n rounds. */
  function Rounds(bufs: Buffers, n: nat): seq<Label> {
    if n == 0 then [] + Answer(Start(bufs)) else Round(Start(bufs), Rounds(bufs, n - 1))
  }

  /**
    For every n there is a run in which the loop, once entered, is never left, has processed n
    completions, and is back at its condition with one more pending.
  */
  lemma {:induction false} LoopRunsOn(bufs: Buffers, n: nat)
    ensures var s := Run(Start(bufs), Rounds(bufs, n));
      && StaysInLoop(Start(bufs), Rounds(bufs, n)) && At(s, 0, n, n + 1)
      && s.hw.pc.Head? && s.hw.lastIdx != s.hw.usedIdx
  {
    if n == 0 {
      StartHolds(bufs);
      assert At(Start(bufs), 0, 0, 0) && Run(Start(bufs), []) == Start(bufs);
      AnswerRuns(Start(bufs), [], 0, 0, 0);
    } else {
      LoopRunsOn(bufs, n - 1);
      RoundRuns(Start(bufs), Rounds(bufs, n - 1), n - 1);
    }
    hide Run, StaysInLoop, Start, Rounds, Inv;
    HeadIsPending(Run(Start(bufs), Rounds(bufs, n)));
  }

  /** The same with the device silent in the last round: the handler then leaves its loop. */
  function Execution(bufs: Buffers, n: nat): seq<Label>
    requires n > 0
  {
    Statements(Rounds(bufs, n - 1), 5) + [Driver(true)]
  }

  /**
    The handler can make any positive number of iterations in one go: starting with one
    completion pending it stays in its loop until it has processed n, and then finds none left.
  */
  lemma HandlerMakesAnyNumberOfIterations(bufs: Buffers, n: nat)
    requires n > 0
    ensures var s := Run(Start(bufs), Execution(bufs, n));
      && StaysInLoop(Start(bufs), Execution(bufs, n))
      && s.hw.pc.Head? && s.log.processed == |s.log.published| == n && s.hw.lastIdx == s.hw.usedIdx
  {
    hide Run, StaysInLoop, Start, Rounds, Inv, Statements;
    LoopRunsOn(bufs, n - 1);
    BodyRuns(Start(bufs), Rounds(bufs, n - 1), n - 1, n, 5);
    BodyEnds(Start(bufs), Statements(Rounds(bufs, n - 1), 5), n - 1, n);
    HeadIsPending(Run(Start(bufs), Execution(bufs, n)));
  }

  /** num_processed after n increments. */
  function NumProcessed(n: nat): u16 {
    if n == 0 then 0 else Inc16(NumProcessed(n - 1))
  }

  lemma {:induction false} NumProcessedWraps(n: nat)
    ensures NumProcessed(n) == n % 0x10000
  {
    if n > 0 {
      NumProcessedWraps(n - 1);
    }
  }

  /**
    After 65536 iterations in one go the handler has given back 65536 buffers, and its count of
    them, which decides whether it notifies the queue, is zero.
  */
  lemma NotificationIsSkipped(bufs: Buffers)
    ensures var s := Run(Start(bufs), Execution(bufs, 0x10000));
      && StaysInLoop(Start(bufs), Execution(bufs, 0x10000)) && s.hw.pc.Head? && s.hw.lastIdx == s.hw.usedIdx
      && s.log.processed == 0x10000 && NumProcessed(s.log.processed) == 0
      && |s.log.offered| == 256 + 0x10000
  {
    hide Run, StaysInLoop, Execution, NumProcessed;
    HandlerMakesAnyNumberOfIterations(bufs, 0x10000);
    EveryRun(bufs, Execution(bufs, 0x10000));
    NumProcessedWraps(0x10000);
  }
}
