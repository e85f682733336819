/** The block device of the Storage component and the VFS shim the ledger puts over it. */
module Storage {
  import opened Words
  import opened SparseFile

  class BlockDevice {
    const physicalDisk: array<Byte>
    var currentFileSize: int
    ghost var history: seq<Write>     // every disk_write, successful or not

    ghost predicate Valid()
      reads this, physicalDisk
    {
      && physicalDisk.Length == DISK_SIZE
      && currentFileSize == End(history)
      && forall pos :: 0 <= pos < DISK_SIZE ==> physicalDisk[pos] == Latest(history, pos)
    }

    constructor ()
      ensures Valid() && fresh(physicalDisk) && history == []
    {
      physicalDisk := new Byte[DISK_SIZE](_ => 0);
      currentFileSize, history := 0, [];
    }

    /** memcpy into a buffer. */
    static method CopyInto(dst: array<Byte>, at: nat, src: seq<Byte>)
      requires at + |src| <= dst.Length
      modifies dst
      ensures dst[at..at + |src|] == src
      ensures forall i :: 0 <= i < dst.Length && !(at <= i < at + |src|) ==> dst[i] == old(dst[i])
    {
      for k := 0 to |src|
        invariant forall i :: 0 <= i < k ==> dst[at + i] == src[i]
        invariant forall i :: 0 <= i < dst.Length && !(at <= i < at + k) ==> dst[i] == old(dst[i])
      {
        dst[at + k] := src[k];
      }
    }

    /**
      disk_read. `allocOk` is whether the allocator finds memory: past the end of the file its
      failure still reports success, with no buffer.
    */
    method DiskRead(offset: int, amount: int, allocOk: bool)
      returns (rc: int, size: int, buf: array?<Byte>)
      requires Valid() && 0 <= offset && 0 <= amount && offset + amount <= INT_MAX
      ensures rc == (if allocOk || offset >= currentFileSize then 0 else -1)
      ensures size == (if rc == 0 then amount else 0)
      ensures (buf != null) == allocOk
      ensures buf != null ==> fresh(buf) && buf.Length == amount
      ensures buf != null ==> forall i :: 0 <= i < amount ==> buf[i] == Visible(history, offset + i)
    {
      rc, size, buf := 0, 0, null;
      if offset >= currentFileSize {
        if allocOk {
          buf := new Byte[amount](_ => 0);
        }
        size := amount;
        return;
      }
      var bytesToRead := amount;
      if offset + amount > currentFileSize {
        bytesToRead := currentFileSize - offset;
      }
      if !allocOk {
        rc := -1;
        return;
      }
      buf := new Byte[amount](_ => 0);
      var stored := physicalDisk[offset..offset + bytesToRead];
      CopyInto(buf, 0, stored);
      assert forall i :: 0 <= i < bytesToRead ==> buf[i] == buf[0..|stored|][i] == physicalDisk[offset + i];
      size := amount;
    }

    /** disk_write. The copied bytes must lie on the disk whenever the announced amount does. */
    method DiskWrite(offset: int, amount: int, data: seq<Byte>) returns (rc: int)
      requires Valid() && 0 <= offset && 0 <= amount && offset + amount <= INT_MAX
      requires offset + amount <= DISK_SIZE ==> offset + |data| <= DISK_SIZE
      modifies this, physicalDisk
      ensures Valid() && history == old(history) + [Write(offset, amount, data)]
      ensures rc == (if offset + amount <= 1_048_576 then 0 else -1)
    {
      ghost var w := Write(offset, amount, data);
      forall pos: nat
        ensures Latest(history + [w], pos) ==
          if Fits(w) && Covers(w, pos) then data[pos - offset] else Latest(history, pos)
      {
        LatestAfter(history, w, pos);
      }
      LatestAfter(history, w, 0);
      history := history + [w];
      if offset + amount > DISK_SIZE {
        return -1;
      }
      CopyInto(physicalDisk, offset, data);
      forall i | 0 <= i < |data|
        ensures physicalDisk[offset + i] == data[i]
      {
        assert physicalDisk[offset..offset + |data|][i] == data[i];
      }
      if offset + amount > currentFileSize {
        currentFileSize := offset + amount;
      }
      rc := 0;
    }

    method DiskGetSize() returns (rc: int, size: int)
      requires Valid()
      ensures rc == 0 && size == End(history) <= DISK_SIZE
    {
      rc, size := 0, currentFileSize;
    }
  }

  datatype Sqlite = SQLITE_OK | SQLITE_IOERR | SQLITE_IOERR_READ | SQLITE_IOERR_WRITE

  /** A database file: every write goes through the shim, which announces what it copies. */
  class Vfs {
    const disk: BlockDevice

    ghost predicate Valid()
      reads this, disk, disk.physicalDisk
    {
      disk.Valid() && Exact(disk.history)
    }

    /** The file as its clients see it. */
    ghost function File(): seq<Byte>
      reads this, disk
    {
      FileOf(disk.history)
    }

    constructor (disk: BlockDevice)
      requires disk.Valid() && disk.history == []
      ensures Valid() && this.disk == disk && File() == []
    {
      this.disk := disk;
    }

    method XRead(buf: array<Byte>, amount: int, offset: int, allocOk: bool) returns (rc: Sqlite)
      requires Valid() && 0 <= offset && 0 <= amount <= buf.Length && offset + amount <= INT_MAX
      requires buf != disk.physicalDisk
      modifies buf
      ensures Valid() && File() == old(File())
      ensures rc == if allocOk then SQLITE_OK else SQLITE_IOERR_READ
      ensures rc == SQLITE_OK ==> buf[..amount] == ReadFile(File(), offset, amount)
      ensures buf[amount..] == old(buf[amount..])
      ensures rc != SQLITE_OK ==> buf[..] == old(buf[..])
    {
      var code, size, out := disk.DiskRead(offset, amount, allocOk);
      if code != 0 || out == null {
        return SQLITE_IOERR_READ;
      }
      ReadFileIsVisible(disk.history, offset, amount);
      var bytes := out[..];
      BlockDevice.CopyInto(buf, 0, bytes);
      assert buf[..amount] == buf[0..0 + |bytes|] == bytes;
      assert bytes == ReadFile(File(), offset, amount);
      rc := SQLITE_OK;
    }

    method XWrite(data: seq<Byte>, offset: int) returns (rc: Sqlite)
      requires Valid() && 0 <= offset && offset + |data| <= INT_MAX
      modifies disk, disk.physicalDisk
      ensures Valid()
      ensures File() == WriteFile(old(File()), offset, data)
      ensures rc == if offset + |data| <= DISK_SIZE then SQLITE_OK else SQLITE_IOERR_WRITE
      ensures rc != SQLITE_OK ==> File() == old(File())
    {
      ghost var before := disk.history;
      var code := disk.DiskWrite(offset, |data|, data);
      assert disk.history[..|before|] == before;
      rc := if code == 0 then SQLITE_OK else SQLITE_IOERR_WRITE;
    }

    method XFileSize() returns (rc: Sqlite, size: int)
      requires Valid()
      ensures rc == SQLITE_OK && size == |File()|
    {
      FileIsHistory(disk.history);
      var code;
      code, size := disk.DiskGetSize();
      rc := if code == 0 then SQLITE_OK else SQLITE_IOERR;
    }
  }
}
