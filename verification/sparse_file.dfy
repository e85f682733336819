/** Sparse, zero-extended files: as a byte sequence, and as the history of the writes made. */
module SparseFile {
  import opened Words

  const DISK_SIZE := 1024 * 1024

  /** One call of disk_write: `amount` is checked and sizes the file, `data` is what is copied. */
  datatype Write = Write(offset: nat, amount: nat, data: seq<Byte>)

  predicate Fits(w: Write) {
    w.offset + w.amount <= DISK_SIZE
  }

  predicate Covers(w: Write, pos: nat) {
    w.offset <= pos < w.offset + |w.data|
  }

  /** The byte the latest successful write left at a position, or zero. */
  function Latest(ws: seq<Write>, pos: nat): Byte {
    if ws == [] then 0
    else
      var w := ws[|ws| - 1];
      if Fits(w) && Covers(w, pos) then w.data[pos - w.offset] else Latest(ws[..|ws| - 1], pos)
  }

  function Max(a: nat, b: nat): nat {
    if a < b then b else a
  }

  /** The greatest end of a successful write. */
  function End(ws: seq<Write>): (r: nat)
    ensures r <= DISK_SIZE
  {
    if ws == [] then 0
    else
      var w := ws[|ws| - 1];
      if Fits(w) then Max(End(ws[..|ws| - 1]), w.offset + w.amount) else End(ws[..|ws| - 1])
  }

  /** A write succeeds exactly if it ends within the first megabyte. */
  lemma FitsExactly(w: Write)
    ensures Fits(w) <==> w.offset + w.amount <= 1_048_576
  {
  }

  /** The end is that of some successful write, and no successful write ends later. */
  lemma {:induction false} EndIsGreatest(ws: seq<Write>)
    ensures forall k :: 0 <= k < |ws| && Fits(ws[k]) ==> ws[k].offset + ws[k].amount <= End(ws)
    ensures End(ws) == 0 || exists k :: 0 <= k < |ws| && Fits(ws[k]) && ws[k].offset + ws[k].amount == End(ws)
  {
    if ws != [] {
      var n := |ws| - 1;
      EndIsGreatest(ws[..n]);
      forall k | 0 <= k < |ws| && Fits(ws[k])
        ensures ws[k].offset + ws[k].amount <= End(ws)
      {
        assert k < n ==> ws[..n][k] == ws[k];
      }
      if End(ws) != 0 && !(Fits(ws[n]) && End(ws) == ws[n].offset + ws[n].amount) {
        var k :| 0 <= k < n && Fits(ws[..n][k]) && ws[..n][k].offset + ws[..n][k].amount == End(ws[..n]);
        assert ws[k] == ws[..n][k];
      }
    }
  }

  /** The latest byte is that of the last successful write over the position, and zero if there is none. */
  lemma {:induction false} LatestIsLast(ws: seq<Write>, pos: nat, k: nat)
    requires k <= |ws| && forall j :: k <= j < |ws| ==> !(Fits(ws[j]) && Covers(ws[j], pos))
    ensures k == 0 ==> Latest(ws, pos) == 0
    ensures k > 0 && Fits(ws[k - 1]) && Covers(ws[k - 1], pos) ==>
      Latest(ws, pos) == ws[k - 1].data[pos - ws[k - 1].offset]
  {
    if ws != [] && k < |ws| {
      assert forall j :: k <= j < |ws| - 1 ==> ws[..|ws| - 1][j] == ws[j];
      LatestIsLast(ws[..|ws| - 1], pos, k);
    }
  }

  lemma LatestAfter(ws: seq<Write>, w: Write, pos: nat)
    ensures Latest(ws + [w], pos) ==
      (if Fits(w) && Covers(w, pos) then w.data[pos - w.offset] else Latest(ws, pos))
    ensures End(ws + [w]) == (if Fits(w) then Max(End(ws), w.offset + w.amount) else End(ws))
  {
    assert (ws + [w])[..|ws|] == ws;
  }

  /** No write copies more bytes than it announces; the VFS shim announces exactly what it copies. */
  predicate Sized(ws: seq<Write>) {
    forall w :: w in ws ==> |w.data| <= w.amount
  }

  lemma {:induction false} NothingPastTheEnd(ws: seq<Write>, pos: nat)
    requires Sized(ws) && pos >= End(ws)
    ensures Latest(ws, pos) == 0
  {
    if ws != [] {
      NothingPastTheEnd(ws[..|ws| - 1], pos);
    }
  }

  /** What disk_read puts at one position: the stored byte, or zero from the end of the file on. */
  function Visible(ws: seq<Write>, pos: nat): Byte {
    if pos < End(ws) then Latest(ws, pos) else 0
  }

  /** Every byte read is the one written last, or zero if none was: holes, short files and all. */
  lemma ReadsSeeTheLatestWrite(ws: seq<Write>, pos: nat)
    requires Sized(ws)
    ensures Visible(ws, pos) == Latest(ws, pos)
  {
    if pos >= End(ws) {
      NothingPastTheEnd(ws, pos);
    }
  }

  /** Every byte a read returns is the latest one written, or zero. */
  ghost predicate ReadsAreLatest(ws: seq<Write>) {
    forall pos: nat :: Visible(ws, pos) == Latest(ws, pos)
  }

  /** The bytes the write leaves at or past the end of the file it leaves are zero. */
  predicate LeavesNoSurplus(ws: seq<Write>, w: Write) {
    var end := if Fits(w) then Max(End(ws), w.offset + w.amount) else End(ws);
    Fits(w) ==> forall i :: 0 <= i < |w.data| && w.offset + i >= end ==> w.data[i] == 0
  }

  /**
    A write that copies more than it announces may put bytes where reads see zeros.  Whatever
    came before, reads go on to return the latest bytes after a write exactly if what it copies
    past the end of the file is zero: a test on the write and the current size.
  */
  lemma SurplusIsInvisible(ws: seq<Write>, w: Write)
    requires ReadsAreLatest(ws)
    ensures ReadsAreLatest(ws + [w]) <==> LeavesNoSurplus(ws, w)
  {
    var after := ws + [w];
    forall pos: nat
      ensures Latest(after, pos) == (if Fits(w) && Covers(w, pos) then w.data[pos - w.offset] else Latest(ws, pos))
      ensures pos >= End(ws) ==> Latest(ws, pos) == 0
    {
      LatestAfter(ws, w, pos);
      assert Visible(ws, pos) == Latest(ws, pos);
    }
    LatestAfter(ws, w, 0);
    hide Latest, End;
    if ReadsAreLatest(after) && Fits(w) {
      forall i | 0 <= i < |w.data| && w.offset + i >= End(after)
        ensures w.data[i] == 0
      {
        assert Visible(after, w.offset + i) == Latest(after, w.offset + i);
      }
    }
  }

  /** It does notice sometimes: two bytes of 2 written as one, and the second reads as zero. */
  lemma SurplusIsNoticed()
    ensures !ReadsAreLatest([Write(0, 1, [2, 2])])
  {
    var w := Write(0, 1, [2, 2]);
    assert ReadsAreLatest([]);
    assert [] + [w] == [w] && w.data[1] == 2;
    SurplusIsInvisible([], w);
  }

  /** Each write of the history left no surplus behind. */
  predicate NeverSurplus(ws: seq<Write>) {
    ws == [] || (NeverSurplus(ws[..|ws| - 1]) && LeavesNoSurplus(ws[..|ws| - 1], ws[|ws| - 1]))
  }

  lemma {:induction false} NoSurplusReadsLatest(ws: seq<Write>)
    requires NeverSurplus(ws)
    ensures ReadsAreLatest(ws)
  {
    if ws != [] {
      var before, w := ws[..|ws| - 1], ws[|ws| - 1];
      NoSurplusReadsLatest(before);
      hide ReadsAreLatest, LeavesNoSurplus;
      SurplusIsInvisible(before, w);
      assert before + [w] == ws;
    }
  }

  // --- Files as byte sequences -----------------------------------------------------------------

  /** Overlay data on a file at an offset, zero-extending it as far as needed. */
  function Splice(f: seq<Byte>, offset: nat, data: seq<Byte>): (r: seq<Byte>)
    ensures |r| == Max(|f|, offset + |data|)
  {
    seq(Max(|f|, offset + |data|), i requires 0 <= i =>
      if offset <= i < offset + |data| then data[i - offset]
      else if i < |f| then f[i]
      else 0)
  }

  function WriteFile(f: seq<Byte>, offset: nat, data: seq<Byte>): seq<Byte> {
    if offset + |data| <= DISK_SIZE then Splice(f, offset, data) else f
  }

  function ReadFile(f: seq<Byte>, offset: nat, n: nat): (r: seq<Byte>)
    ensures |r| == n
  {
    seq(n, i requires 0 <= i => if offset + i < |f| then f[offset + i] else 0)
  }

  /** The file a history of shim writes produces. */
  function FileOf(ws: seq<Write>): seq<Byte> {
    if ws == [] then []
    else WriteFile(FileOf(ws[..|ws| - 1]), ws[|ws| - 1].offset, ws[|ws| - 1].data)
  }

  predicate Exact(ws: seq<Write>) {
    forall w :: w in ws ==> |w.data| == w.amount
  }

  /** The file and the history agree: its length is the greatest end, its bytes the latest ones. */
  lemma {:induction false} FileIsHistory(ws: seq<Write>)
    requires Exact(ws)
    ensures |FileOf(ws)| == End(ws)
    ensures forall pos :: 0 <= pos < End(ws) ==> FileOf(ws)[pos] == Latest(ws, pos)
  {
    if ws != [] {
      var before, w := ws[..|ws| - 1], ws[|ws| - 1];
      FileIsHistory(before);
      forall pos | 0 <= pos < End(ws)
        ensures FileOf(ws)[pos] == Latest(ws, pos)
      {
        if pos >= End(before) {
          NothingPastTheEnd(before, pos);
        }
      }
    }
  }

  /** Reading the file is reading, position by position, what the history makes visible. */
  lemma ReadFileIsVisible(ws: seq<Write>, offset: nat, n: nat)
    requires Exact(ws)
    ensures forall i :: 0 <= i < n ==> ReadFile(FileOf(ws), offset, n)[i] == Visible(ws, offset + i)
  {
    FileIsHistory(ws);
  }

  lemma WritesReadBack(f: seq<Byte>, offset: nat, data: seq<Byte>, at: nat, n: nat)
    requires offset + |data| <= DISK_SIZE
    ensures var r := ReadFile(WriteFile(f, offset, data), at, n);
      forall i :: 0 <= i < n ==>
        r[i] == if offset <= at + i < offset + |data| then data[at + i - offset]
                else ReadFile(f, at, n)[i]
  {
  }

  lemma DisjointWritesCommute(f: seq<Byte>, o: nat, d: seq<Byte>, o': nat, d': seq<Byte>)
    requires o + |d| <= o'
    ensures WriteFile(WriteFile(f, o, d), o', d') == WriteFile(WriteFile(f, o', d'), o, d)
  {
  }

  lemma AdjacentWritesFuse(f: seq<Byte>, o: nat, d: seq<Byte>, d': seq<Byte>)
    requires o + |d| + |d'| <= DISK_SIZE
    ensures WriteFile(WriteFile(f, o, d), o + |d|, d') == WriteFile(f, o, d + d')
  {
  }

  lemma ReadSplits(f: seq<Byte>, o: nat, m: nat, n: nat)
    ensures ReadFile(f, o, m + n) == ReadFile(f, o, m) + ReadFile(f, o + m, n)
  {
  }
}
