/** The operations of src/mmio.c on one file, run one after the other.  What several threads do at the same
    time is the subject of RedoCrash, UndoCrash, Bravo and EntryLocks. */
module Mmio {
  import opened Pmem
  import opened BlockLog
  import opened Geometry
  import opened Arithmetic
  import opened MmioData
  import RadixLog
  import opened Recovery
  import opened MmioSpec
  import opened FileLocks

  /** mmio_t.  `policy` is never assigned after the file is opened: determine_policy only computes a new one. */
  class File {
    var file: seq<byte>
    var tables: map<nat, Table>
    var epoch: nat
    var read: nat
    var write: nat
    var fsize: nat
    const policy: Policy
    const coverage: Pos
    const lock: FileLock

    /** get_new_mmio (src/allocator.c:396-432) on a file with this content.  The radix shortcut covers what is mapped
        now; a file of up to 2 MB has its one table, without a log size. */
    constructor (content: seq<byte>, policy: Policy)
      requires |content| <= 0x1_0000_0000_0000
      ensures Valid() && Home() && fresh(lock) && lock.Free() && this.policy == policy && epoch == 0
              && fsize == |content|
      ensures file == (if content == [] then Zeros(DEFAULT_MMAP_SIZE) else content) && View() == file
      ensures RightSoFar(Now(), policy, 0) && Recovered(Now(), policy, 0) == file && read == 0 && write == 0
      ensures coverage == RadixLog.Span(RadixLog.DeepestTableType(|file| - 1)) && |file| <= coverage * REGION
      ensures AllSized(Logs()) <==> |file| > REGION
    {
      file := if |content| == 0 then Zeros(DEFAULT_MMAP_SIZE) else content;
      var maxoff := (if |content| == 0 then DEFAULT_MMAP_SIZE else |content|) - 1;
      var cov: Pos := RadixLog.Span(RadixLog.DeepestTableType(maxoff));
      coverage := cov;
      tables := if cov == 1 then map[0 := Table(UNSIZED, map[])] else map[];
      fsize, epoch, read, write := |content|, 0, 0, 0;
      this.policy := policy;
      lock := new FileLock();
      new;
      assert cov == 1 ==> 0 in tables && tables[0].size == UNSIZED;
      assert View() == file;
      assert Recovered(Now(), policy, 0) == file;
    }

    ghost function Logs(): Index
      reads this`tables
    {
      Index(coverage, tables)
    }

    ghost function Now(): Data
      reads this`file, this`tables
    {
      Data(file, Logs())
    }

    /** What holds in every state, whatever the requests. */
    ghost predicate Valid()
      reads this`file, this`tables, this`epoch
    {
      |file| > 0 && Bounded(Logs()) && Dated(Logs(), policy, epoch) && Tidy(Logs())
    }

    /** Under REDO, also: what is logged is where a reader looks for it. */
    ghost predicate Intact()
      reads this`file, this`tables, this`epoch
    {
      Valid() && Sound(Now(), policy, epoch)
    }

    /** ... and belongs to the regions that the radix shortcut tells apart. */
    ghost predicate Home()
      reads this`file, this`tables, this`epoch
    {
      Valid() && Homely(Now(), policy, epoch)
    }

    ghost function View(): seq<byte>
      requires Bounded(Logs())
      reads this`file, this`tables
    {
      ViewOf(Now(), policy)
    }

    // ----- LOCK_ENTRIES (src/mmio.c:17-47)

    /** get_log_table (src/radixlog.c:178-265), which finds the table of the region modulo the coverage:
        RadixLog.Root.GetLogTable. */
    method GetLogTable(r: nat)
      requires Bounded(Logs()) && Dated(Logs(), policy, epoch) && r < coverage
      modifies this`tables
      ensures Bounded(Logs()) && Dated(Logs(), policy, epoch)
      ensures tables == if r in old(tables) then old(tables) else old(tables)[r := Table(UNSIZED, map[])]
    {
      if r !in tables {
        tables := tables[r := Table(UNSIZED, map[])];
      }
    }

    /** get_log_size (src/radixlog.c:281-297): a table that has none gets the least size that holds the request. */
    method GetLogSize(r: nat, off: nat, n: nat) returns (size: LogSize)
      requires Bounded(Logs()) && Dated(Logs(), policy, epoch) && r in tables && n > 0
      modifies this`tables
      ensures Bounded(Logs()) && Dated(Logs(), policy, epoch)
      ensures size == if old(tables)[r].size < UNSIZED then old(tables)[r].size else LeastSize(off, n)
      ensures tables == if old(tables)[r].size < UNSIZED then old(tables) else old(tables)[r := Table(size, map[])]
    {
      if tables[r].size != UNSIZED {
        return tables[r].size;
      }
      size := SetLogSize(off, n);
      tables := tables[r := Table(size, map[])];
    }

    /** get_log_entry (src/radixlog.c:299-316). */
    method GetLogEntry(r: nat, index: nat)
      requires Bounded(Logs()) && Dated(Logs(), policy, epoch)
      requires r in tables && tables[r].size < UNSIZED && index < Slots(tables[r].size)
      modifies this`tables
      ensures Bounded(Logs()) && Dated(Logs(), policy, epoch) && HasEntry(Logs(), Key(r, index))
      ensures tables == old(tables)[r := old(tables)[r].(entries := tables[r].entries)]
      ensures OneMoreEntry(old(tables)[r].entries, tables[r].entries, index, epoch)
    {
      if index !in tables[r].entries {
        var log := FreshLog(Bytes(tables[r].size));
        var e := Entry(Word(Trunc(epoch), 0, 0, UNDO), log, 0);
        AddEntryGrows(Logs(), r, index, e, policy, epoch);
        tables := tables[r := tables[r].(entries := tables[r].entries[index := e])];
      }
    }

    /** The entry of the block that `off` lies in. */
    method GetEntry(off: nat, n: nat) returns (k: Key)
      requires Bounded(Logs()) && Dated(Logs(), policy, epoch) && Tidy(Logs()) && n > 0
      modifies this`tables
      ensures Bounded(Logs()) && Dated(Logs(), policy, epoch) && Tidy(Logs()) && AllSized(Logs())
      ensures Reaches(old(Logs()), Logs(), epoch, off, n) && Grown(old(Logs()), Logs())
      ensures k == KeyOf(Logs(), off) && HasEntry(Logs(), k)
    {
      ghost var t := Logs();
      var r, size := GetTable(off, n);
      ghost var t1 := Logs();
      k := Key(r, TableIndex(size, off));
      GetLogEntry(k.region, k.index);
      EntryReached(t, t1, Logs(), epoch, off, n);
      ReachesGrown(t, Logs(), epoch, off, n);
    }

    /** Its table, which has a log size then. */
    method GetTable(off: nat, n: nat) returns (r: nat, size: LogSize)
      requires Bounded(Logs()) && Dated(Logs(), policy, epoch) && Tidy(Logs()) && n > 0
      modifies this`tables
      ensures Bounded(Logs()) && Dated(Logs(), policy, epoch) && Tidy(Logs()) && AllSized(Logs())
      ensures r == TableOf(Logs(), off) && TableReached(old(Logs()), Logs(), off, n) && tables[r].size == size
    {
      r := (off / REGION) % coverage;
      GetLogTable(r);
      size := GetLogSize(r, off, n);
    }

    /** The list of the entries of a request, the last block in front; it tiles the request as far as its length is an
        int.  A call that meets an entry a second time does not return: a writer spins on its own lock; a reader gets
        through this loop, which makes no new entries from there on, but leaves the list a ring, on which the loops
        that follow do not end.  A call gets past that exactly if its request does not reach one coverage beyond its
        first block. */
    method LockEntries(offset: nat, len: nat) returns (done: bool, keys: seq<Key>, ghost l: Locks)
      requires Bounded(Logs()) && Dated(Logs(), policy, epoch) && Tidy(Logs())
      modifies this`tables
      ensures Bounded(Logs()) && Dated(Logs(), policy, epoch) && Tidy(Logs()) && (Locked(len) > 0 ==> AllSized(Logs()))
      ensures LockedAs(policy, old(Logs()), l, done, epoch, offset, len) && l.t == Logs() && keys == KeysOf(l)
    {
      var n, off := AsInt(len), offset;
      keys := [];
      ghost var t, all := Logs(), Locked(len);
      l := Start(t);
      while n > 0
        invariant Bounded(Logs()) && Dated(Logs(), policy, epoch) && Tidy(Logs()) && Grown(t, Logs())
        invariant LockRun(l, t, epoch, offset, all) && l.t == Logs() && (l.Then? ==> AllSized(Logs()))
        invariant ComesTo(l, offset, off) && keys == KeysOf(l)
        invariant if l.Then? then all > 0 else off == offset
        invariant n == offset + all - off || (n < 0 && all == 0)
        decreases n
      {
        var logLen, again;
        again, keys, l, logLen := LockBlock(keys, l, t, offset, off, n, all);
        if again {
          return false, keys, l;
        }
        n := n - logLen;
        off := off + logLen;
      }
      done := true;
      LockIsLocking(l, t, epoch, offset, off, all);
      LockingDone(t, Logs(), keys, StartsOf(l), offset, off, all);
    }

    /** One turn, on the block at `off`. */
    method LockBlock(keys: seq<Key>, ghost l: Locks, ghost t: Index, offset: nat, off: nat, n: nat, ghost all: nat)
        returns (again: bool, keys': seq<Key>, ghost l': Locks, logLen: nat)
      requires Bounded(Logs()) && Dated(Logs(), policy, epoch) && Tidy(Logs()) && n > 0 && n == offset + all - off
      requires LockRun(l, t, epoch, offset, all) && ComesTo(l, offset, off) && l.t == Logs() && keys == KeysOf(l)
      requires Grown(t, Logs())
      modifies this`tables
      ensures Bounded(Logs()) && Dated(Logs(), policy, epoch) && Tidy(Logs()) && AllSized(Logs()) && Grown(t, Logs())
      ensures LockRun(l', t, epoch, offset, all) && l'.t == Logs() && l'.Then? && keys' == KeysOf(l')
      ensures again ==> !Returns(Logs(), offset, all)
      ensures !again ==> logLen > 0 && ComesTo(l', offset, off + logLen)
    {
      var k := GetEntry(off, n);
      GrownTrans(t, l.t, Logs());
      again, keys', l', logLen := k in keys, keys, l, 0;
      if again {
        LockAgain(l, Logs(), t, epoch, offset, off, all);
      } else {
        LockThen(l, Logs(), t, epoch, offset, off, all);
        var size := Bytes(tables[k.region].size);
        logLen := size - off % size;
        keys', l' := [k] + keys, Then(l, off, Logs());
      }
    }

    // ----- expend_mmio (src/mmio.c:89-119)

    /** The mapping grows by doubling until the request fits; the new part of the file is zero. */
    method Expend(offset: nat, len: nat)
      requires Valid()
      modifies this`file
      ensures Valid() && Now() == Mapped(old(Now()), offset + len)
    {
      ghost var d := Now();
      while |file| < offset + len
        invariant |file| >= |d.file| && file == d.file + Zeros(|file| - |d.file|)
        invariant MappedTo(|file|, offset + len) == MappedTo(|d.file|, offset + len)
        decreases offset + len - |file|
      {
        var newLen := if |file| >= BASIC_MMAP_SIZE then 2 * |file| else BASIC_MMAP_SIZE;
        ZerosMore(d.file, |file| - |d.file|, newLen - |file|);
        file := file + Zeros(newLen - |file|);
      }
    }

    // ----- mmio_write (src/mmio.c:266-418)

    /** Writes `len` bytes of `src`; `wild` is the memory beyond the mapping.  `s` tells all that happens: the blocks
        locked and every turn of the loop.  Entries keep to their blocks whatever the request. The call returns exactly
        if the blocks of the request have entries of their own; what it returns is the sum of the turns, and the entries
        written are of the file's epoch.  `Outcome` tells what follows for the view and for what is committed. */
    method Write(offset: nat, len: nat, src: int -> byte, wild: int -> byte)
        returns (done: bool, ret: nat, ghost s: Story)
      requires Valid()
      modifies this`file, this`tables, this`write, this`fsize
      ensures Valid() && |file| == MappedTo(old(|file|), offset + len) && (Locked(len) > 0 ==> AllSized(Logs()))
      ensures WroteAs(policy, old(Now()), s, Now(), done, ret, epoch, offset, len, src, wild)
      ensures done <==> Returns(Logs(), offset, Locked(len))
      ensures Outcome(policy, old(Now()), Now(), done, ret, epoch, offset, len, src)
      ensures done ==> AllEntries(Logs(), KeysOf(s.l)) && ret == Total(Logs(), KeysOf(s.l), offset, Locked(len))
      ensures done && epoch < EPOCHS ==> Stamped(Logs(), KeysOf(s.l), epoch)
      ensures fsize == (if done then Max(old(fsize), offset + ret) else old(fsize))
      ensures write == old(write) + if done then 1 else 0
    {
      ghost var d := Now();
      done, ret, s := WriteGrown(offset, len, src, wild);
      ghost var d' := Now();
      if done {
        write := write + 1;
        if fsize < offset + ret {
          fsize := offset + ret;
        }
      }
      assert Now() == d';
      WroteAll(policy, d, s, Now(), done, ret, epoch, offset, len, src, wild);
    }

    /** The mapping grows first, if it has to. */
    method WriteGrown(offset: nat, len: nat, src: int -> byte, wild: int -> byte)
        returns (done: bool, ret: nat, ghost s: Story)
      requires Valid()
      modifies this`file, this`tables
      ensures Valid() && (Locked(len) > 0 ==> AllSized(Logs()))
      ensures WroteAs(policy, old(Now()), s, Now(), done, ret, epoch, offset, len, src, wild)
    {
      ghost var d := Now();
      if |file| < offset + len {
        Expend(offset, len);
      } else {
        NoZeros(file);
      }
      done, ret, s := WriteMapped(offset, len, src, wild);
      MappedWrote(policy, d, s, Now(), done, ret, epoch, offset, len, src, wild);
    }

    /** The same within the mapping. */
    method WriteMapped(offset: nat, len: nat, src: int -> byte, wild: int -> byte)
        returns (done: bool, ret: nat, ghost s: Story)
      requires Valid() && offset + len <= |file|
      modifies this`file, this`tables
      ensures Valid() && (Locked(len) > 0 ==> AllSized(Logs()))
      ensures WroteAs(policy, old(Now()), s, Now(), done, ret, epoch, offset, len, src, wild)
    {
      ghost var d := Now();
      var keys;
      ghost var l;
      done, keys, l := LockEntries(offset, len);
      ghost var d1, ms := Now(), [];
      ret := 0;
      if done {
        ret, ms := WriteLocked(keys, StartsOf(l), offset, len, src, wild);
      }
      s := Story(l, ms);
      StoryMade(policy, d, d1, s, Now(), done, ret, epoch, offset, len, src, wild);
    }

    /** The part with the locks held (src/mmio.c:293-400). */
    method WriteLocked(keys: seq<Key>, ghost starts: seq<nat>, offset: nat, len: nat, src: int -> byte,
        wild: int -> byte) returns (ret: nat, ghost ms: seq<Progress>)
      requires Valid() && offset + len <= |file|
      requires Tiling(Logs(), starts, offset, Locked(len)) && Lists(Logs(), keys, starts)
      modifies this`file, this`tables
      ensures Valid() && (old(AllSized(Logs())) ==> AllSized(Logs()))
      ensures Ran(old(Now()), ms, starts, keys, policy, epoch, offset, len, src, wild)
      ensures ms[|ms| - 1].off == offset + ret
      ensures Now() == if policy == UNDO then Stored(old(Now()), ms[|ms| - 1].d, offset, len, src) else ms[|ms| - 1].d
    {
      ghost var d1 := Now();
      ListedEntries(Logs(), keys, starts);
      ret, ms := WriteEntries(keys, offset, Locked(len), src, wild);
      KeptTidy(d1, Now(), policy, epoch);
      if policy == UNDO {
        StoreInPlace(offset, FromFile(src, 0, len));
      }
    }

    /** NTSTORE of the whole request, after the undo logs are in place (src/mmio.c:394-400). */
    method StoreInPlace(offset: nat, data: seq<byte>)
      requires policy == UNDO && Valid() && offset + |data| <= |file|
      modifies this`file
      ensures |file| == old(|file|) && Valid() && tables == old(tables) && file == Splice(old(file), offset, data)
      ensures View() == Splice(old(View()), offset, data)
    {
      UndoView(Now());
      file := Splice(file, offset, data);
      UndoView(Now());
    }

    /** checkpoint_entry (src/mmio.c:249-264): the old log goes to the file and the entry starts anew. */
    method CheckpointEntry(k: Key)
      requires HasEntry(Logs(), k) && InBlock(EntryOf(Logs(), k).word, |EntryOf(Logs(), k).log|)
      modifies this`file, this`tables
      ensures Now() == ResetEntry(old(Now()), k, policy, Trunc(epoch))
    {
      var e := tables[k.region].entries[k.index];
      var w := e.word;
      if w.policy == REDO && e.dst + w.off + w.len <= |file| {
        file := Splice(file, e.dst + w.off, e.log[w.off..w.off + w.len]);
      }
      w := w.(epoch := Trunc(epoch));
      w := w.(policy := policy);
      w := w.(len := 0);
      w := w.(off := 0);
      PutInto(k, e.(word := w));
    }

    method PutInto(k: Key, e: Entry)
      requires HasEntry(Logs(), k)
      modifies this`tables
      ensures Logs() == PutEntry(old(Logs()), k, e)
    {
      tables := tables[k.region := tables[k.region].(entries := tables[k.region].entries[k.index := e])];
    }

    method TurnBlock(k: Key, offset: nat, off: nat, n: nat, src: int -> byte, wild: int -> byte) returns (m: nat)
      requires Bounded(Logs()) && Dated(Logs(), policy, epoch) && HasEntry(Logs(), k) && n > 0
      requires EntryFits(tables[k.region].size, k.index, EntryOf(Logs(), k))
      modifies this`file, this`tables
      ensures Turn(Progress(old(Now()), off, n), k, Progress(Now(), off + m, m), policy, epoch, offset, src, wild)
    {
      m := WriteBlock(k, off, n, Shift(src, off - offset), wild);
    }

    /** The body of the loop for one entry (src/mmio.c:302-382). */
    method WriteBlock(k: Key, off: nat, n: nat, src: int -> byte, wild: int -> byte) returns (m: nat)
      requires Bounded(Logs()) && Dated(Logs(), policy, epoch) && HasEntry(Logs(), k) && n > 0
      requires EntryFits(tables[k.region].size, k.index, EntryOf(Logs(), k))
      modifies this`file, this`tables
      ensures Now() == WriteOne(old(Now()), k, policy, epoch, off, n, src, wild)
      ensures m == StepLength(old(Logs()), k, off, n)
    {
      ghost var d := Now();
      RenewedKeeps(d, k, policy, epoch);
      if tables[k.region].entries[k.index].word.epoch < epoch {
        CheckpointEntry(k);
      }
      ghost var d1 := Now();
      assert d1 == Renewed(d, k, policy, epoch);
      var size := Bytes(tables[k.region].size);
      var lo := Low(off, size);
      m := n;
      if m > size - lo {
        m := size - lo;
      }
      var e' := LogBlock(tables[k.region].entries[k.index], size, lo, m, off, src, wild);
      IsWriteOne(d, d1, k, policy, epoch, off, n, src, wild, lo, m, e');
      PutInto(k, e');
    }

    /** The stores to the log and the new range (src/mmio.c:314-381); `at - lo` is where the block of `at` starts. */
    method LogBlock(e: Entry, size: nat, lo: nat, m: nat, at: nat, src: int -> byte, wild: int -> byte)
        returns (e': Entry)
      requires |e.log| == size && InBlock(e.word, size) && m > 0 && lo + m <= size && lo <= at
      ensures e' == WrittenEntry(e, policy, lo, m, src, Peek(file, wild), at)
    {
      var mem := Peek(file, wild);
      var log := e.log;
      match policy {
        case UNDO => log := Splice(log, lo, FromFile(mem, at, m));
        case REDO => log := Splice(log, lo, FromFile(src, 0, m));
      }
      var w, gapAt, gap, dst := MergeRange(e, lo, m, at);
      log := Splice(log, gapAt, FromFile(mem, at - lo + gapAt, gap));
      e' := Entry(w, log, dst);
    }

    /** The new range of the entry, case by case, and the gap to fill, which is not empty in cases 1 and 6 only. */
    method MergeRange(e: Entry, lo: nat, m: nat, at: nat) returns (w: Word, gapAt: nat, gap: nat, dst: nat)
      requires InBlock(e.word, |e.log|) && m > 0 && lo + m <= |e.log| && lo <= at
      ensures w == WrittenWord(e.word, policy, lo, m, |e.log|)
      ensures Merge(e.word.off, e.word.len, lo, m, |e.log|) == Plan(w.off, w.len, gapAt, gap)
      ensures dst == if e.word.len > 0 && m != |e.log| then e.dst else at - lo
    {
      w, gapAt, gap, dst := e.word, 0, 0, e.dst;
      if w.len > 0 && m != |e.log| {
        var logEnd, prevStart, prevEnd := lo + m, w.off, w.off + w.len;
        match CheckLog(lo, logEnd, prevStart, prevEnd) {
          case 1 =>
            gapAt, gap := logEnd, prevStart - logEnd;
            w := w.(off := lo, len := prevEnd - lo);
          case 2 => w := w.(off := lo, len := prevEnd - lo);
          case 3 => w := w.(off := lo, len := m);
          case 4 =>
          case 5 => w := w.(len := logEnd - prevStart);
          case _ =>
            gapAt, gap := prevEnd, lo - prevEnd;
            w := w.(len := logEnd - prevStart);
        }
      } else {
        w := w.(off := lo, len := m, policy := policy);
        dst := at - lo;
      }
    }

    /** The loop over the locked entries. */
    method WriteEntries(keys: seq<Key>, offset: nat, len: nat, src: int -> byte, wild: int -> byte)
        returns (ret: nat, ghost ms: seq<Progress>)
      requires Bounded(Logs()) && Dated(Logs(), policy, epoch) && AllEntries(Logs(), keys) && (keys != [] ==> len > 0)
      modifies this`file, this`tables
      ensures Kept(old(Now()), Now(), policy, epoch)
      ensures WriteRun(ms, keys, policy, epoch, offset, src, wild)
      ensures ms[0] == Progress(old(Now()), offset, len) && ms[|keys|].d == Now() && ms[|keys|].off == offset + ret
    {
      var i, n, off := 0, len, offset;
      ret := 0;
      ghost var d := Now();
      ms := [Progress(d, offset, len)];
      while i < |keys|
        invariant 0 <= i <= |keys| && off == offset + ret && (keys != [] ==> n > 0)
        invariant Kept(d, Now(), policy, epoch)
        invariant |ms| == i + 1 && ms[0] == Progress(d, offset, len) && ms[i] == Progress(Now(), off, n)
        invariant WriteRun(ms, keys[..i], policy, epoch, offset, src, wild)
      {
        n, ms := WriteTurn(keys, i, d, offset, off, n, src, wild, ms);
        ret := ret + n;
        off := off + n;
        i := i + 1;
      }
      assert keys[..i] == keys;
    }

    method WriteTurn(keys: seq<Key>, i: nat, ghost d: Data, offset: nat, off: nat, n: nat, src: int -> byte,
        wild: int -> byte, ghost ms: seq<Progress>) returns (m: nat, ghost ms': seq<Progress>)
      requires i < |keys| && AllEntries(d.logs, keys) && Kept(d, Now(), policy, epoch) && n > 0
      requires |ms| == i + 1 && ms[i] == Progress(Now(), off, n)
               && WriteRun(ms, keys[..i], policy, epoch, offset, src, wild)
      modifies this`file, this`tables
      ensures m > 0 && Kept(d, Now(), policy, epoch)
      ensures ms' == ms + [Progress(Now(), off + m, m)]
              && WriteRun(ms', keys[..i + 1], policy, epoch, offset, src, wild)
    {
      var k := keys[i];
      SameHas(d.logs, Logs(), k);
      FitsOf(Logs(), k);
      m := TurnBlock(k, offset, off, n, src, wild);
      ghost var next := Progress(Now(), off + m, m);
      ms' := ms + [next];
      TurnMade(d, k, next, policy, epoch, offset, src, wild, ms, keys[..i]);
      PrefixNext(keys, i);
    }

    // ----- mmio_read (src/mmio.c:543-596)

    /** Reads at most `len` bytes, not beyond the file size, within which lseek keeps the offset.  `l` and `cs` tell
        all that happens: the blocks locked and, under REDO, every turn of the loop over them; `ReadOutcome` what
        follows. */
    method Read(offset: nat, len: nat, wild: int -> byte)
        returns (done: bool, ret: nat, buf: seq<byte>, ghost l: Locks, ghost cs: seq<Cursor>)
      requires Valid() && offset <= fsize
      modifies this`tables, this`read
      ensures Valid() && View() == old(View()) && (Locked(len) > 0 ==> AllSized(Logs()))
      ensures (old(Intact()) ==> Intact()) && (old(Home()) ==> Home())
      ensures ReadAs(policy, old(Now()), l, cs, Now(), done, ret, buf, fsize, epoch, offset, len, wild)
      ensures (done <==> Returns(Logs(), offset, Locked(len))) && AllEntries(Logs(), KeysOf(l))
      ensures done ==> ret == Min(len, fsize - offset)
      ensures ReadOutcome(policy, old(Now()), l, Now(), done, ret, buf, epoch, offset, len, wild)
      ensures read == old(read) + if done then 1 else 0
    {
      ghost var d := Now();
      done, ret, buf, l, cs := ReadMapped(offset, len, wild);
      ghost var d' := Now();
      if done {
        read := read + 1;
      }
      assert Now() == d';
      ReadAll(policy, d, l, cs, Now(), done, ret, buf, fsize, epoch, offset, len, wild);
    }

    method ReadMapped(offset: nat, len: nat, wild: int -> byte)
        returns (done: bool, ret: nat, buf: seq<byte>, ghost l: Locks, ghost cs: seq<Cursor>)
      requires Valid() && offset <= fsize
      modifies this`tables
      ensures Valid() && (Locked(len) > 0 ==> AllSized(Logs()))
      ensures ReadAs(policy, old(Now()), l, cs, Now(), done, ret, buf, fsize, epoch, offset, len, wild)
    {
      ghost var d := Now();
      var keys;
      done, keys, l := LockEntries(offset, len);
      ret, buf, cs := 0, [], [];
      if done {
        ret := len;
        if fsize < offset + len {
          ret := fsize - offset;
        }
        ListedEntries(Logs(), keys, StartsOf(l));
        match policy {
          case UNDO => buf := FromFile(Peek(file, wild), offset, ret);
          case REDO => buf, cs := ReadRedolog(keys, offset, ret, wild);
        }
      }
      ReadMade(policy, d, l, cs, Now(), done, ret, buf, fsize, epoch, offset, len, wild);
    }

    /** read_redolog (src/mmio.c:420-541). */
    method ReadRedolog(keys: seq<Key>, offset: nat, n: nat, wild: int -> byte)
        returns (buf: seq<byte>, ghost cs: seq<Cursor>)
      requires Bounded(Logs()) && AllEntries(Logs(), keys)
      ensures ReadRun(Now(), cs, keys, wild) && cs[0] == Cursor(offset, n, []) && cs[|keys|].buf == buf
    {
      var i, off, left := 0, offset, n;
      buf, cs := [], [Cursor(offset, n, [])];
      while i < |keys|
        invariant 0 <= i <= |keys| && 0 <= off && 0 <= left
        invariant |cs| == i + 1 && cs[0] == Cursor(offset, n, []) && cs[i] == Cursor(off, left, buf)
        invariant ReadRun(Now(), cs, keys[..i], wild)
      {
        var k := keys[i];
        FitsOf(Logs(), k);
        var out := CopyBlock(k, off, left, wild);
        ghost var c := Cursor(off + |out|, left - |out|, buf + out);
        ReadAppend(Now(), cs, keys[..i], c, k, wild);
        cs := cs + [c];
        PrefixNext(keys, i);
        buf := buf + out;
        off := off + |out|;
        left := left - |out|;
        i := i + 1;
      }
      assert keys[..i] == keys;
    }

    /** The copies for one entry, case by case (src/mmio.c:429-538). */
    method CopyBlock(k: Key, offset: nat, len: nat, wild: int -> byte) returns (out: seq<byte>)
      requires HasEntry(Logs(), k) && EntryFits(tables[k.region].size, k.index, EntryOf(Logs(), k))
      ensures out == ReadOne(Now(), k, offset, len, wild) && |out| <= len
    {
      var e, size := tables[k.region].entries[k.index], Bytes(tables[k.region].size);
      var lo := Low(offset, size);
      var n := len;
      if n > size - lo {
        n := size - lo;
      }
      var mem := MemAt(file, wild, offset - lo);
      IsReadOne(Now(), k, offset, len, wild, lo, n);
      out := CopyCases(mem, e.log, e.word, lo, n);
    }

    static method CopyCases(mem: int -> byte, log: seq<byte>, w: Word, lo: nat, n: nat) returns (out: seq<byte>)
      requires InBlock(w, |log|) && lo + n <= |log|
      ensures out == ReadBlock(mem, log, w, lo, n)
    {
      if w.len == 0 {
        return FromFile(mem, lo, n);
      }
      var logStart, logEnd, reqStart, reqEnd := w.off, w.off + w.len, lo, lo + n;
      var off := lo;
      match CheckLog(reqStart, reqEnd, logStart, logEnd) {
        case 1 => out := FromFile(mem, off, n);
        case 2 =>
          out := FromFile(mem, off, logStart - reqStart);
          out := out + log[logStart..reqEnd];
        case 3 =>
          out := FromFile(mem, off, logStart - reqStart);
          off := off + (logStart - reqStart);
          out := out + log[logStart..logEnd];
          off := off + (logEnd - logStart);
          out := out + FromFile(mem, off + (logEnd - reqStart), reqEnd - logEnd);
        case 4 => out := log[reqStart..reqEnd];
        case 5 =>
          out := log[reqStart..logEnd];
          off := off + (logEnd - reqStart);
          out := out + FromFile(mem, off, reqEnd - logEnd);
        case _ => out := FromFile(mem, off, reqEnd - reqStart);
      }
    }

    // ----- checkpoint_mmio (src/mmio.c:173-222)

    /** Copies back and drops every entry of an earlier epoch whose lock `tryEntry` grants, one 2 MB region at a time:
        `Checkpointed`.  Under a writer's lock nothing is done at all.  `defined` is false if the loop meets a table
        without a log size: the code then shifts by a negative number (src/mmio.c:192, src/radixlog.h:21).  It does so
        exactly if there is one and the lock is granted. */
    method Checkpoint(tryEntry: Key -> bool) returns (defined: bool)
      requires Valid() && (lock.Free() || lock.Exclusive())
      modifies this`file, this`tables, lock
      ensures Valid() && Transparent(policy, epoch, old(Now()), Now())
      ensures defined <==> old(lock.Exclusive()) || AllSized(old(Logs()))
      ensures defined && old(lock.Free()) ==> Checkpointed(policy, epoch, old(Now()), Now(), tryEntry)
      ensures !defined || old(lock.Exclusive()) ==> Now() == old(Now())
      ensures old(lock.Exclusive()) ==> lock.Exclusive()
      ensures defined && old(lock.Free()) ==> lock.Free()
    {
      ghost var d := Now();
      defined := CheckpointAll(tryEntry);
      RegionsCheckpoint(d, policy, epoch, tryEntry);
      NothingChanged(policy, epoch, d);
    }

    /** The loop. */
    method CheckpointAll(tryEntry: Key -> bool) returns (defined: bool)
      requires Valid() && (lock.Free() || lock.Exclusive())
      modifies this`file, this`tables, lock
      ensures Valid() && (defined <==> old(lock.Exclusive()) || AllSized(old(Logs())))
      ensures Now() == if defined && old(lock.Free())
              then RegionsAfter(old(Now()), RegionsOf(old(|file|)), epoch, tryEntry)
                       else old(Now())
      ensures old(lock.Exclusive()) ==> lock.Exclusive()
      ensures defined && old(lock.Free()) ==> lock.Free()
    {
      var offset, endoff, current := 0, |file|, epoch;
      ghost var d, writer, n := Now(), lock.Exclusive(), 0;
      defined := true;
      while offset < endoff
        invariant Valid() && |file| == endoff && offset == n * REGION && (n > 0 ==> (n - 1) * REGION < endoff)
        invariant if writer then lock.Exclusive() && Now() == d
                  else lock.Free() && Now() == RegionsAfter(d, n, epoch, tryEntry)
        invariant Fewer(d.logs, Logs()) && (offset > 0 ==> writer || AllSized(d.logs))
        decreases endoff - offset
      {
        FewerSized(d.logs, Logs());
        defined, offset := CheckpointStep(offset, n, current, tryEntry);
        if !defined {
          return;
        }
        n := n + 1;
        RegionsGo(d, n, policy, epoch, tryEntry);
      }
      RegionsEnd(n, endoff);
    }

    /** One turn of the loop. */
    method CheckpointStep(offset: nat, ghost n: nat, current: nat, tryEntry: Key -> bool)
        returns (defined: bool, next: nat)
      requires Valid() && (lock.Free() || lock.Exclusive()) && current == epoch && offset == n * REGION
      modifies this`file, this`tables, lock
      ensures Valid() && (defined <==> old(lock.Exclusive()) || AllSized(old(Logs())))
      ensures Now() == if defined && old(lock.Free()) then RegionAfter(old(Now()), n % coverage, epoch, tryEntry)
                       else old(Now())
      ensures old(lock.Exclusive()) ==> lock.Exclusive()
      ensures defined && old(lock.Free()) ==> lock.Free()
      ensures defined ==> next == offset + REGION
    {
      FirstTable(Logs(), offset);
      RegionNumber(n);
      var size;
      defined, size := CheckpointRegion((offset / REGION) % coverage, current, tryEntry);
      TableFillsRegion(size);
      next := offset + Slots(size) * Bytes(size);
    }

    /** The part on the table found for the region at `offset` (src/mmio.c:187-218). */
    method CheckpointRegion(r: nat, current: nat, tryEntry: Key -> bool) returns (defined: bool, size: LogSize)
      requires Valid() && (lock.Free() || lock.Exclusive()) && current == epoch
      modifies this`file, this`tables, lock
      ensures Valid()
      ensures defined <==> old(lock.Exclusive()) || !(r in old(tables) && old(tables)[r].size == UNSIZED)
      ensures Now() == if defined && old(lock.Free()) then RegionAfter(old(Now()), r, epoch, tryEntry) else old(Now())
      ensures old(lock.Exclusive()) ==> lock.Exclusive()
      ensures defined && old(lock.Free()) ==> lock.Free()
    {
      defined, size := true, 0;
      var granted := lock.ReadTrylock();
      if granted == 0 {
        if r in tables {
          if tables[r].size == UNSIZED {
            return false, 0;
          }
          size := tables[r].size;
          CheckpointTable(r, current, tryEntry);
        }
        lock.ReadUnlock();
      }
    }

    /** The loop over the entries of one table (src/mmio.c:192-215). */
    method CheckpointTable(r: nat, current: nat, tryEntry: Key -> bool)
      requires Valid() && r in tables && tables[r].size < UNSIZED && current == epoch
      modifies this`file, this`tables
      ensures Valid() && Now() == RegionAfter(old(Now()), r, epoch, tryEntry)
    {
      var i, count := 0, Slots(tables[r].size);
      ghost var d := Now();
      while i < count
        invariant 0 <= i <= count && Valid() && r in tables && tables[r].size == d.logs.tables[r].size
        invariant Now() == TableAfter(d, r, i, current, tryEntry)
      {
        CheckpointSlot(r, i, current, tryEntry);
        i := i + 1;
      }
    }

    /** One turn of it. */
    method CheckpointSlot(r: nat, i: nat, current: nat, tryEntry: Key -> bool)
      requires Valid() && r in tables && tables[r].size < UNSIZED && i < Slots(tables[r].size)
      modifies this`file, this`tables
      ensures Valid() && r in tables && tables[r].size == old(tables)[r].size
      ensures Now() == SlotAfter(old(Now()), Key(r, i), current, tryEntry)
    {
      if i in tables[r].entries && tables[r].entries[i].word.epoch < current && tryEntry(Key(r, i)) {
        FitsOf(Logs(), Key(r, i));
        Retire(Key(r, i));
      }
    }

    /** Copy back and free one entry (src/mmio.c:198-207). */
    method Retire(k: Key)
      requires Valid() && HasEntry(Logs(), k) && InBlock(EntryOf(Logs(), k).word, |EntryOf(Logs(), k).log|)
      modifies this`file, this`tables
      ensures Valid() && Now() == RetireEntry(old(Now()), k)
    {
      RetireValid(Now(), k, policy, epoch);
      var e := tables[k.region].entries[k.index];
      if e.word.policy == REDO && e.dst + e.word.off + e.word.len <= |file| {
        file := Splice(file, e.dst + e.word.off, e.log[e.word.off..e.word.off + e.word.len]);
      }
      tables := tables[k.region := tables[k.region].(entries := tables[k.region].entries - {k.index})];
    }

    // ----- commit_mmio (src/mmio.c:598-648)

    /** fsync: only the epoch, the counters and the lock change; the nested checkpoint finds the lock taken.  From then
        on recovery finds the view. */
    method Commit(tryEntry: Key -> bool)
      requires Valid() && lock.Free()
      modifies this, lock
      ensures Valid() && epoch == old(epoch) + 1 && file == old(file) && tables == old(tables) && fsize == old(fsize)
      ensures View() == old(View()) && lock.Free() && (old(Intact()) ==> Intact()) && (old(Home()) ==> Home())
      ensures old(Intact()) ==> Recovered(Now(), policy, epoch) == View()
      ensures read == 0 && write == 0 && !lock.rbias
    {
      ghost var d, e := Now(), epoch;
      lock.WriteLock();
      epoch := epoch + 1;
      DeterminePolicy(tryEntry);
      lock.WriteUnlock();
      assert Now() == d;
      Commits(Now(), policy, e);
    }

    /** determine_policy (src/mmio.c:598-620); the policy it computes is compared but not kept. */
    method DeterminePolicy(tryEntry: Key -> bool)
      requires Valid() && lock.Exclusive()
      modifies this`file, this`tables, this`read, this`write, lock
      ensures Valid() && file == old(file) && tables == old(tables) && lock.Exclusive()
      ensures read == 0 && write == 0
    {
      var total := read + write;
      if total > 0 {
        var ratio := write / total * 100;
        var newPolicy := if ratio > 40 then REDO else UNDO;
        read, write := 0, 0;
        if policy != newPolicy {
          var _ := Checkpoint(tryEntry);
        }
      }
    }

    /** Commit and checkpoint: with all locks granted, and all tables with a log size, the physical file is the view. */
    method CommitAndCheckpoint(tryEntry: Key -> bool) returns (defined: bool)
      requires Valid() && lock.Free() && forall k :: tryEntry(k)
      modifies this, lock
      ensures Valid() && (defined <==> AllSized(old(Logs())))
      ensures Transparent(policy, epoch, Data(old(file), old(Logs())), Now())
      ensures defined && old(Intact()) ==>
                Intact() && file == old(View()) && Recovered(Now(), policy, epoch) == file
    {
      ghost var e := epoch;
      assert Dated(Logs(), policy, e);
      Commit(tryEntry);
      ghost var d := Now();
      defined := Checkpoint(tryEntry);
      if defined {
        AllDrained(d, Now(), policy, epoch, tryEntry);
        FileIsView(Now(), policy, e, d.logs);
      }
    }
  }

  /** Some log of the pool; its content is whatever an earlier use left. */
  method FreshLog(size: nat) returns (log: seq<byte>)
    ensures |log| == size
  {
    var content: int -> byte := *;
    log := seq(size, i => content(i));
  }
}
