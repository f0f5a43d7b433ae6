/** What recovery makes of the file and its logs, as LogSystem.RecoverBlock does of one block: under REDO the logs of
    earlier epochs are replayed, under UNDO those of this epoch are put back.  Growing, locking, writing inside a block
    of the coverage and checkpointing do not change it; a commit makes it the current view. */
module Recovery {
  import opened Pmem
  import opened BlockLog
  import opened Geometry
  import opened Arithmetic
  import opened MmioData
  import LogSystem
  import opened Options

  /** Recovery in `epoch` looks at a log with this word. */
  ghost predicate Counts(p: Policy, epoch: nat, w: Word) {
    if p == REDO then w.epoch < epoch else w.epoch == epoch
  }

  ghost predicate LogCounts(t: Index, p: Policy, epoch: nat, i: nat) {
    Logged(t, i) && Counts(p, epoch, EntryOf(t, KeyOf(t, i)).word)
  }

  ghost function RecoveredAt(d: Data, p: Policy, epoch: nat, i: nat): byte
    requires Bounded(d.logs) && i < |d.file|
  {
    if LogCounts(d.logs, p, epoch, i) then EntryOf(d.logs, KeyOf(d.logs, i)).log[i % SizeAt(d.logs, i)] else d.file[i]
  }

  /** The committed content, as long as all goes well. */
  ghost function Recovered(d: Data, p: Policy, epoch: nat): seq<byte>
    requires Bounded(d.logs)
  {
    seq(|d.file|, i requires 0 <= i < |d.file| => RecoveredAt(d, p, epoch, i))
  }

  /** Of a block whose slot is its own this is LogSystem.RecoverBlock. */
  lemma OfBlock(d: Data, p: Policy, epoch: nat, base: nat)
    requires Bounded(d.logs) && Sized(d.logs, base) && StartOf(d.logs, base) == base && Owns(d.logs, base)
    requires HasEntry(d.logs, KeyOf(d.logs, base)) && base + SizeAt(d.logs, base) <= |d.file|
    ensures var end := base + SizeAt(d.logs, base);
            Recovered(d, p, epoch)[base..end]
            == LogSystem.RecoverBlock(p, epoch, BlockAt(d.file[base..end], EntryOf(d.logs, KeyOf(d.logs, base))))
  {
    var e, end := EntryOf(d.logs, KeyOf(d.logs, base)), base + SizeAt(d.logs, base);
    FitsOf(d.logs, KeyOf(d.logs, base));
    var r := LogSystem.RecoverBlock(p, epoch, BlockAt(d.file[base..end], e));
    forall i | 0 <= i < |e.log| ensures |r| == |e.log| && RecoveredAt(d, p, epoch, base + i) == r[i] {
      OfByte(d, p, epoch, base, i);
      ByBlock(p, epoch, d.file[base..end], e, i);
    }
    ByBlock(p, epoch, d.file[base..end], e, 0);
    SliceIs(d, p, epoch, base, r);
  }

  /** The block as a crash that loses nothing leaves it. */
  ghost function BlockAt(file: seq<byte>, e: Entry): LogSystem.BlockImage {
    LogSystem.BlockImage(file, Some(LogSystem.EntryImage(e.word, e.log)))
  }

  lemma OfByte(d: Data, p: Policy, epoch: nat, base: nat, i: nat)
    requires Bounded(d.logs) && Sized(d.logs, base) && StartOf(d.logs, base) == base && Owns(d.logs, base)
    requires HasEntry(d.logs, KeyOf(d.logs, base)) && i < SizeAt(d.logs, base) && base + i < |d.file|
    ensures var e := EntryOf(d.logs, KeyOf(d.logs, base));
            |e.log| == SizeAt(d.logs, base)
            && RecoveredAt(d, p, epoch, base + i)
               == if Covers(e.word, i) && Counts(p, epoch, e.word) then e.log[i] else d.file[base + i]
  {
    BlockSpan(d.logs, base, base + i);
    FitsOf(d.logs, KeyOf(d.logs, base));
  }

  lemma ByBlock(p: Policy, epoch: nat, file: seq<byte>, e: Entry, i: nat)
    requires i < |file| == |e.log|
    ensures var r := LogSystem.RecoverBlock(p, epoch, BlockAt(file, e));
            |r| == |file| && r[i] == if Covers(e.word, i) && Counts(p, epoch, e.word) then e.log[i] else file[i]
  {
  }

  lemma SliceIs(d: Data, p: Policy, epoch: nat, base: nat, r: seq<byte>)
    requires Bounded(d.logs) && base + |r| <= |d.file|
    requires forall i :: 0 <= i < |r| ==> RecoveredAt(d, p, epoch, base + i) == r[i]
    ensures Recovered(d, p, epoch)[base..base + |r|] == r
  {
  }

  /** What is logged, under either policy, is where a reader looks for it and in the coverage. */
  ghost predicate RightSoFar(d: Data, p: Policy, epoch: nat) {
    Bounded(d.logs) && Dated(d.logs, p, epoch) && Placed(d) && AtHome(d.logs)
  }

  /** The request lies in one block, and in the coverage. */
  predicate OneCovered(t: Index, offset: nat, len: nat) {
    OneBlock(t, offset, len) && offset / REGION < t.cov
  }

  ghost function Stored(d: Data, d': Data, offset: nat, len: nat, src: int -> byte): Data
    requires offset + len <= |d.file|
  {
    Data(Splice(d.file, offset, FromFile(src, 0, len)), d'.logs)
  }

  // ----- what leaves it alone

  /** A change of one entry is recovered in its blocks only. */
  lemma ElsewhereRecovers(d: Data, d': Data, p: Policy, epoch: nat, k: Key, i: nat)
    requires Bounded(d.logs) && Bounded(d'.logs) && HasEntry(d.logs, k) && i < |d.file| == |d'.file|
    requires d'.logs == DropEntry(d.logs, k) || exists e :: d'.logs == PutEntry(d.logs, k, e)
    requires d'.file[i] == d.file[i] && KeyOf(d.logs, i) != k
    ensures RecoveredAt(d', p, epoch, i) == RecoveredAt(d, p, epoch, i)
  {
  }

  /** Of the blocks of a slot of an earlier epoch recovery finds what a reader does; of those of the current epoch,
      under REDO, the file. */
  lemma SlotRecovers(d: Data, p: Policy, epoch: nat, i: nat)
    requires Bounded(d.logs) && i < |d.file| && HasEntry(d.logs, KeyOf(d.logs, i))
    ensures EntryOf(d.logs, KeyOf(d.logs, i)).word.epoch < epoch ==>
              RecoveredAt(d, p, epoch, i) == ByteAt(d, p, i)
    ensures EntryOf(d.logs, KeyOf(d.logs, i)).word.epoch == epoch && p == REDO ==>
              RecoveredAt(d, p, epoch, i) == d.file[i]
  {
  }

  lemma RecoveredSame(d: Data, d': Data, p: Policy, epoch: nat)
    requires Bounded(d.logs) && Bounded(d'.logs) && |d'.file| == |d.file|
    requires forall i :: 0 <= i < |d.file| ==> RecoveredAt(d', p, epoch, i) == RecoveredAt(d, p, epoch, i)
    ensures Recovered(d', p, epoch) == Recovered(d, p, epoch)
  {
  }

  /** checkpoint_entry on an entry of an earlier epoch. */
  lemma ResetRecovers(d: Data, k: Key, p: Policy, epoch: nat)
    requires Sound(d, p, epoch) && HasEntry(d.logs, k) && EntryOf(d.logs, k).word.epoch < epoch
    ensures InBlock(EntryOf(d.logs, k).word, |EntryOf(d.logs, k).log|)
    ensures var d' := ResetEntry(d, k, p, epoch);
            Bounded(d'.logs) && Recovered(d', p, epoch) == Recovered(d, p, epoch)
  {
    FitsOf(d.logs, k);
    ResetKeeps(d, k, p, epoch, epoch);
    var d', e := ResetEntry(d, k, p, epoch), EntryOf(d.logs, k).(word := Word(epoch, 0, 0, p));
    forall i | 0 <= i < |d.file| ensures RecoveredAt(d', p, epoch, i) == RecoveredAt(d, p, epoch, i) {
      CopyBackShows(d, k, p, epoch, i);
      SameKey(d.logs, d'.logs, i);
      if KeyOf(d.logs, i) != k {
        ElsewhereRecovers(d, d', p, epoch, k, i);
      } else {
        SlotRecovers(d, p, epoch, i);
      }
    }
    RecoveredSame(d, d', p, epoch);
  }

  /** The checkpointer's removal of one. */
  lemma RetireRecovers(d: Data, k: Key, p: Policy, epoch: nat)
    requires Sound(d, p, epoch) && HasEntry(d.logs, k) && EntryOf(d.logs, k).word.epoch < epoch
    ensures InBlock(EntryOf(d.logs, k).word, |EntryOf(d.logs, k).log|)
    ensures var d' := RetireEntry(d, k);
            Bounded(d'.logs) && Recovered(d', p, epoch) == Recovered(d, p, epoch)
  {
    FitsOf(d.logs, k);
    RetireKeeps(d, k, p, epoch);
    var d' := RetireEntry(d, k);
    forall i | 0 <= i < |d.file| ensures RecoveredAt(d', p, epoch, i) == RecoveredAt(d, p, epoch, i) {
      CopyBackShows(d, k, p, epoch, i);
      if KeyOf(d.logs, i) != k {
        ElsewhereRecovers(d, d', p, epoch, k, i);
      } else {
        SlotRecovers(d, p, epoch, i);
      }
    }
    RecoveredSame(d, d', p, epoch);
  }

  /** LOCK_ENTRIES adds entries that log nothing. */
  lemma GrownRecovers(d: Data, t': Index, p: Policy, epoch: nat)
    requires Bounded(d.logs) && Grown(d.logs, t') && Bounded(t')
    ensures Recovered(d.(logs := t'), p, epoch) == Recovered(d, p, epoch)
  {
    var d' := d.(logs := t');
    forall i | 0 <= i < |d.file| ensures RecoveredAt(d', p, epoch, i) == RecoveredAt(d, p, epoch, i) {
      if Logged(d.logs, i) {
        GrownKey(d.logs, t', KeyOf(d.logs, i));
        GrownStart(d.logs, t', i);
      } else if Logged(t', i) {
        GrownLogs(d.logs, t', KeyOf(t', i));
      }
    }
    RecoveredSame(d, d', p, epoch);
  }

  lemma GrownRight(d: Data, t': Index, p: Policy, epoch: nat)
    requires RightSoFar(d, p, epoch) && Grown(d.logs, t') && Bounded(t') && Dated(t', p, epoch)
    ensures RightSoFar(d.(logs := t'), p, epoch)
  {
    GrownOwns(d.logs, t', epoch, 0);
    var d' := d.(logs := t');
    forall k | HasEntry(t', k) ensures PlacedAt(d', k) {
      if EntryOf(t', k).word.len > 0 {
        GrownLogs(d.logs, t', k);
        assert PlacedAt(d, k);
        GrownStart(d.logs, t', EntryOf(t', k).dst);
      }
    }
  }

  /** A longer mapping has zeros at its end. */
  lemma LongerRecovers(d: Data, d': Data, zeros: seq<byte>, p: Policy, epoch: nat)
    requires RightSoFar(d, p, epoch) && d' == Data(d.file + zeros, d.logs)
    ensures RightSoFar(d', p, epoch) && Recovered(d', p, epoch) == Recovered(d, p, epoch) + zeros
  {
    forall k | HasEntry(d'.logs, k) ensures PlacedAt(d', k) {
      assert PlacedAt(d, k);
    }
    forall i | |d.file| <= i < |d'.file| ensures !Logged(d.logs, i) {
      BeyondUnlogged(d, i);
    }
    LongerSame(d, d', zeros, p, epoch);
  }

  lemma BeyondUnlogged(d: Data, i: nat)
    requires Bounded(d.logs) && Placed(d) && |d.file| <= i
    ensures !Logged(d.logs, i)
  {
    var k := KeyOf(d.logs, i);
    if HasEntry(d.logs, k) {
      assert PlacedAt(d, k);
      StartIsStart(d.logs, i);
    }
  }

  lemma LongerSame(d: Data, d': Data, zeros: seq<byte>, p: Policy, epoch: nat)
    requires Bounded(d.logs) && d' == Data(d.file + zeros, d.logs)
    requires forall i :: |d.file| <= i < |d'.file| ==> !Logged(d.logs, i)
    ensures Recovered(d', p, epoch) == Recovered(d, p, epoch) + zeros
  {
    var r, s := Recovered(d', p, epoch), Recovered(d, p, epoch) + zeros;
    forall i | 0 <= i < |r| ensures r[i] == s[i] {
      assert r[i] == RecoveredAt(d', p, epoch, i);
      assert i < |d.file| ==> RecoveredAt(d', p, epoch, i) == RecoveredAt(d, p, epoch, i);
    }
  }

  /** A commit makes it the view: with the next epoch number all logs are of an earlier one. */
  lemma CommitRecovers(d: Data, p: Policy, epoch: nat)
    requires Sound(d, p, epoch)
    ensures Recovered(d, p, epoch + 1) == ViewOf(d, p)
  {
    var r := Recovered(d, p, epoch + 1);
    forall i | 0 <= i < |r| ensures r[i] == ViewOf(d, p)[i] {
      if Logged(d.logs, i) {
        DatedOf(d.logs, KeyOf(d.logs, i), p, epoch);
        SlotRecovers(d, p, epoch + 1, i);
      }
    }
  }

  // ----- a write in one block of the coverage, under either policy

  /** checkpoint_entry leaves what is logged right, and the slot to the block at hand. */
  lemma RenewedRight(d: Data, k: Key, p: Policy, epoch: nat, off: nat)
    requires RightSoFar(d, p, epoch) && k == KeyOf(d.logs, off) && HasEntry(d.logs, k) && off / REGION < d.logs.cov
    ensures InBlock(EntryOf(d.logs, k).word, |EntryOf(d.logs, k).log|)
    ensures var d1 := Renewed(d, k, p, epoch);
            && RightSoFar(d1, p, epoch) && SameLayout(d.logs, d1.logs) && |d1.file| == |d.file|
            && (p == UNDO ==> d1.file == d.file) && HasEntry(d1.logs, k)
            && EntryFits(d1.logs.tables[k.region].size, k.index, EntryOf(d1.logs, k))
            && (EntryOf(d1.logs, k).word.len == 0 || EntryOf(d1.logs, k).dst == StartOf(d.logs, off))
            && (epoch < EPOCHS ==> EntryOf(d1.logs, k).word.epoch == epoch)
  {
    var d1 := Renewed(d, k, p, epoch);
    FitsOf(d.logs, k);
    RenewedKeeps(d, k, p, epoch);
    CoveredOwns(d, off);
    DatedOf(d.logs, k, p, epoch);
    if EntryOf(d.logs, k).word.epoch < epoch {
      ResetKeeps(d, k, p, epoch, Trunc(epoch));
      var e := EntryOf(d1.logs, k);
      PutPlaced(d, k, e, d1);
      PutHome(d.logs, k, e);
    }
  }

  lemma RenewedIs(d: Data, k: Key, p: Policy, epoch: nat)
    requires HasEntry(d.logs, k) && InBlock(EntryOf(d.logs, k).word, |EntryOf(d.logs, k).log|) && epoch < EPOCHS
    requires EntryOf(d.logs, k).word.epoch < epoch
    ensures Renewed(d, k, p, epoch) == ResetEntry(d, k, p, epoch)
  {
    assert Trunc(epoch) == epoch;
  }

  lemma RenewedRecovers(d: Data, k: Key, p: Policy, epoch: nat)
    requires Sound(d, p, epoch) && HasEntry(d.logs, k) && epoch < EPOCHS
    ensures InBlock(EntryOf(d.logs, k).word, |EntryOf(d.logs, k).log|)
    ensures var d1 := Renewed(d, k, p, epoch); Bounded(d1.logs) && Recovered(d1, p, epoch) == Recovered(d, p, epoch)
  {
    FitsOf(d.logs, k);
    if EntryOf(d.logs, k).word.epoch < epoch {
      ResetRecovers(d, k, p, epoch);
      RenewedIs(d, k, p, epoch);
    }
  }

  /** What is logged of the block at hand is right. */
  lemma PutRight(d: Data, k: Key, e': Entry, d': Data, p: Policy, epoch: nat, off: nat)
    requires RightSoFar(d, p, epoch) && k == KeyOf(d.logs, off) && HasEntry(d.logs, k) && off / REGION < d.logs.cov
    requires d' == d.(logs := PutEntry(d.logs, k, e')) && EntryFits(d.logs.tables[k.region].size, k.index, e')
    requires e'.word.epoch <= epoch && (e'.word.len > 0 ==> e'.word.policy == p)
    requires e'.dst == StartOf(d.logs, off) && e'.dst + e'.word.off + e'.word.len <= |d.file|
    ensures RightSoFar(d', p, epoch) && SameLayout(d.logs, d'.logs) && HasEntry(d'.logs, k)
            && EntryOf(d'.logs, k) == e'
  {
    StartIsStart(d.logs, off);
    PutKeeps(d.logs, k, e', p, epoch);
    PutPlaced(d, k, e', d');
    PutHome(d.logs, k, e');
  }

  /** The entry that a turn leaves: in place, of this epoch. */
  lemma WrittenInPlace(e: Entry, p: Policy, base: nat, lo: nat, n: nat, src: int -> byte, mem: int -> byte, at: nat,
      size: nat)
    requires n > 0 && lo + n <= |e.log| && InBlock(e.word, |e.log|) && at == base + lo && at + n <= size
    requires e.word.len > 0 ==> e.dst == base && base + e.word.off + e.word.len <= size && e.word.policy == p
    ensures var e' := WrittenEntry(e, p, lo, n, src, mem, at);
            && e'.dst == base && base + e'.word.off + e'.word.len <= size && e'.word.epoch == e.word.epoch
            && e'.word.len > 0 && e'.word.policy == p
  {
    WrittenRange(e, p, lo, n);
  }

  lemma TurnRight(m: Progress, k: Key, m': Progress, p: Policy, epoch: nat, offset: nat, src: int -> byte,
      wild: int -> byte)
      returns (d1: Data, e': Entry)
    requires Turn(m, k, m', p, epoch, offset, src, wild) && RightSoFar(m.d, p, epoch) && m.off + m.n <= |m.d.file|
    requires k == KeyOf(m.d.logs, m.off) && OneCovered(m.d.logs, m.off, m.n)
    ensures RightSoFar(m'.d, p, epoch) && SameLayout(m.d.logs, m'.d.logs) && m'.off == m.off + m.n
    ensures d1 == Renewed(m.d, k, p, epoch) && RightSoFar(d1, p, epoch) && HasEntry(d1.logs, k)
    ensures m'.d == d1.(logs := PutEntry(d1.logs, k, e')) && HasEntry(m'.d.logs, k) && EntryOf(m'.d.logs, k) == e'
    ensures e'.word.len > 0
    ensures epoch < EPOCHS ==> e'.word.epoch == epoch && EntryOf(d1.logs, k).word.epoch == epoch
  {
    d1 := Renewed(m.d, k, p, epoch);
    RenewedRight(m.d, k, p, epoch, m.off);
    SameKey(m.d.logs, d1.logs, m.off);
    SameHas(m.d.logs, d1.logs, k);
    StartIsStart(m.d.logs, m.off);
    var lo, e, s := Low(m.off, SizeOf(m.d.logs, k)), EntryOf(d1.logs, k), Shift(src, m.off - offset);
    e' := WrittenEntry(e, p, lo, m.n, s, Peek(d1.file, wild), m.off);
    IsWriteOne(m.d, d1, k, p, epoch, m.off, m.n, s, wild, lo, m.n, e');
    assert PlacedAt(d1, k);
    DatedOf(d1.logs, k, p, epoch);
    WrittenInPlace(e, p, StartOf(m.d.logs, m.off), lo, m.n, s, Peek(d1.file, wild), m.off, |m.d.file|);
    WrittenFits(d1.logs.tables[k.region].size, k.index, e, p, lo, m.n, s, Peek(d1.file, wild), m.off);
    PutRight(d1, k, e', m'.d, p, epoch, m.off);
    LayoutTrans(m.d.logs, d1.logs, m'.d.logs);
  }

  /** Under REDO recovery does not look at entries of this epoch. */
  lemma CurrentRecovers(d: Data, k: Key, e': Entry, d': Data, epoch: nat)
    requires Bounded(d.logs) && Bounded(d'.logs) && HasEntry(d.logs, k) && d' == d.(logs := PutEntry(d.logs, k, e'))
    requires EntryOf(d.logs, k).word.epoch == epoch == e'.word.epoch
    ensures Recovered(d', REDO, epoch) == Recovered(d, REDO, epoch)
  {
    PutLayout(d.logs, k, e');
    forall i | 0 <= i < |d.file| ensures RecoveredAt(d', REDO, epoch, i) == RecoveredAt(d, REDO, epoch, i) {
      SameKey(d.logs, d'.logs, i);
      if KeyOf(d.logs, i) != k {
        ElsewhereRecovers(d, d', REDO, epoch, k, i);
      } else {
        SlotRecovers(d, REDO, epoch, i);
        SlotRecovers(d', REDO, epoch, i);
      }
    }
    RecoveredSame(d, d', REDO, epoch);
  }

  lemma RedoTurnRecovers(m: Progress, k: Key, m': Progress, epoch: nat, offset: nat, src: int -> byte,
      wild: int -> byte)
    requires Turn(m, k, m', REDO, epoch, offset, src, wild) && RightSoFar(m.d, REDO, epoch) && epoch < EPOCHS
    requires m.off + m.n <= |m.d.file| && k == KeyOf(m.d.logs, m.off) && OneCovered(m.d.logs, m.off, m.n)
    ensures RightSoFar(m'.d, REDO, epoch) && Recovered(m'.d, REDO, epoch) == Recovered(m.d, REDO, epoch)
  {
    var d1, e' := TurnRight(m, k, m', REDO, epoch, offset, src, wild);
    RenewedRecovers(m.d, k, REDO, epoch);
    CurrentRecovers(d1, k, e', m'.d, epoch);
  }

  // ----- an UNDO write in one block of the coverage

  /** What UNDO leaves in an entry: it logs the file's bytes where it is written to, and otherwise what it showed. */
  ghost predicate Preserves(e: Entry, e': Entry, mem: int -> byte, base: nat, lo: nat, n: nat) {
    match e'
    case Entry(word, log, dst) =>
      && |log| == |e.log| && dst == base && word.epoch == e.word.epoch
      && forall j: nat :: j < |e.log| ==> PreservesAt(e, e', mem, base, lo, n, j)
  }

  ghost predicate PreservesAt(e: Entry, e': Entry, mem: int -> byte, base: int, lo: nat, n: nat, j: nat)
    requires j < |e.log| == |e'.log|
  {
    if Covers(e'.word, j) then e'.log[j] == if lo <= j < lo + n then mem(base + j) else Shown(e, mem, base, j)
    else !(lo <= j < lo + n) && !Covers(e.word, j)
  }

  lemma WrittenPreserves(e: Entry, e': Entry, mem: int -> byte, base: nat, lo: nat, n: nat, src: int -> byte, at: nat)
    requires n > 0 && lo + n <= |e.log| && InBlock(e.word, |e.log|) && (e.word.len == 0 || e.dst == base)
    requires at == base + lo && e' == WrittenEntry(e, UNDO, lo, n, src, mem, at)
    ensures Preserves(e, e', mem, base, lo, n)
  {
    WrittenHeader(e, e', mem, base, lo, n, src, at);
    forall j: nat | j < |e.log| ensures PreservesAt(e, e', mem, base, lo, n, j) {
      WrittenPreservesByte(e, e', mem, base, lo, n, src, at, j);
    }
  }

  lemma WrittenHeader(e: Entry, e': Entry, mem: int -> byte, base: nat, lo: nat, n: nat, src: int -> byte, at: nat)
    requires n > 0 && lo + n <= |e.log| && InBlock(e.word, |e.log|) && (e.word.len == 0 || e.dst == base)
    requires at == base + lo && e' == WrittenEntry(e, UNDO, lo, n, src, mem, at)
    ensures |e'.log| == |e.log| && e'.dst == base && e'.word.epoch == e.word.epoch
  {
  }

  lemma WrittenPreservesByte(e: Entry, e': Entry, mem: int -> byte, base: nat, lo: nat, n: nat, src: int -> byte,
      at: nat, j: nat)
    requires n > 0 && lo + n <= |e.log| && InBlock(e.word, |e.log|) && j < |e.log|
    requires at == base + lo && e' == WrittenEntry(e, UNDO, lo, n, src, mem, at)
    ensures |e'.log| == |e.log| && PreservesAt(e, e', mem, base, lo, n, j)
  {
    var p := Merge(e.word.off, e.word.len, lo, n, |e.log|);
    WrittenCell(e, lo, n, src, mem, at, j);
    assert at - lo + j == base + j;
    HullPreserves(e, e', mem, base, lo, n, j, p);
  }

  /** What UNDO stores to the log at `j`: file bytes at the request and in the gap. */
  lemma WrittenCell(e: Entry, lo: nat, n: nat, src: int -> byte, mem: int -> byte, at: nat, j: nat)
    requires n > 0 && lo + n <= |e.log| && InBlock(e.word, |e.log|) && lo <= at && j < |e.log|
    ensures var log, p := WrittenLog(e, UNDO, lo, n, src, mem, at), Merge(e.word.off, e.word.len, lo, n, |e.log|);
            && |log| == |e.log|
            && log[j] == if Within(j, p.gapAt, p.gapLen) || Within(j, lo, n) then mem(at - lo + j) else e.log[j]
  {
    var p := Merge(e.word.off, e.word.len, lo, n, |e.log|);
    TwiceSpliced(e.log, mem, at, lo, n, p.gapAt, p.gapLen, j);
  }

  lemma TwiceSpliced(s: seq<byte>, mem: int -> byte, at: nat, lo: nat, n: nat, gapAt: nat, gapLen: nat, j: nat)
    requires lo + n <= |s| && gapAt + gapLen <= |s| && lo <= at && j < |s|
    ensures Splice(Splice(s, lo, FromFile(mem, at, n)), gapAt, FromFile(mem, at - lo + gapAt, gapLen))[j]
            == if Within(j, gapAt, gapLen) || Within(j, lo, n) then mem(at - lo + j) else s[j]
  {
    if Within(j, gapAt, gapLen) {
      assert at - lo + gapAt + (j - gapAt) == at - lo + j;
    } else if Within(j, lo, n) {
      assert at + (j - lo) == at - lo + j;
    }
  }

  lemma HullPreserves(e: Entry, e': Entry, mem: int -> byte, base: nat, lo: nat, n: nat, j: nat, p: Plan)
    requires j < |e.log| == |e'.log| && e'.word.off == p.off && e'.word.len == p.len
    requires IsHull(p, e.word.off, e.word.len, lo, n, |e.log|)
    requires e'.log[j] == if Within(j, p.gapAt, p.gapLen) || Within(j, lo, n) then mem(base + j) else e.log[j]
    ensures PreservesAt(e, e', mem, base, lo, n, j)
  {
    assert Within(j, lo, n) <==> lo <= j < lo + n;
    assert Within(j, p.off, p.len) <==> Covers(e'.word, j);
    assert Within(j, e.word.off, e.word.len) <==> Covers(e.word, j);
  }

  /** Past checkpoint_entry the slot is of this epoch, and puts back what it put back before. */
  lemma RenewedUndone(d: Data, epoch: nat, off: nat)
    requires RightSoFar(d, UNDO, epoch) && epoch < EPOCHS && HasEntry(d.logs, KeyOf(d.logs, off))
    requires off / REGION < d.logs.cov
    requires InBlock(EntryOf(d.logs, KeyOf(d.logs, off)).word, |EntryOf(d.logs, KeyOf(d.logs, off)).log|)
    ensures var k := KeyOf(d.logs, off);
            var d1 := Renewed(d, k, UNDO, epoch);
            && Renews(d, d1, k, epoch)
            && (EntryOf(d1.logs, k).word.len == 0 || EntryOf(d1.logs, k).dst == StartOf(d.logs, off))
  {
    var k := KeyOf(d.logs, off);
    var d1, e := Renewed(d, k, UNDO, epoch), EntryOf(d.logs, k);
    FitsOf(d.logs, k);
    RenewedKeeps(d, k, UNDO, epoch);
    CoveredOwns(d, off);
    DatedOf(d.logs, k, UNDO, epoch);
    if e.word.epoch < epoch {
      ResetKeeps(d, k, UNDO, epoch, Trunc(epoch));
      PutOthers(d.logs, k, EntryOf(d1.logs, k));
      forall i | 0 <= i < |d.file| ensures RecoveredAt(d1, UNDO, epoch, i) == RecoveredAt(d, UNDO, epoch, i) {
        ResetUndone(d, k, d1, epoch, i);
      }
    }
  }

  lemma ResetUndone(d: Data, k: Key, d1: Data, epoch: nat, i: nat)
    requires Bounded(d.logs) && Bounded(d1.logs) && SameLayout(d.logs, d1.logs) && d1.file == d.file && i < |d.file|
    requires HasEntry(d.logs, k) && HasEntry(d1.logs, k) && d1.logs == PutEntry(d.logs, k, EntryOf(d1.logs, k))
    requires EntryOf(d.logs, k).word.epoch != epoch && EntryOf(d1.logs, k).word.len == 0
    ensures RecoveredAt(d1, UNDO, epoch, i) == RecoveredAt(d, UNDO, epoch, i)
  {
    SameKey(d.logs, d1.logs, i);
    SameHas(d.logs, d1.logs, KeyOf(d.logs, i));
    PutOthers(d.logs, k, EntryOf(d1.logs, k));
  }

  /** The state `d1` past checkpoint_entry, for slot `k`: it puts back what `d` does. */
  ghost predicate Renews(d: Data, d1: Data, k: Key, epoch: nat) {
    && Bounded(d.logs) && Bounded(d1.logs) && SameLayout(d.logs, d1.logs) && d1.file == d.file
    && HasEntry(d.logs, k) && HasEntry(d1.logs, k) && EntryOf(d1.logs, k).word.epoch == epoch
    && (forall k' :: HasEntry(d1.logs, k') && k' != k ==>
          HasEntry(d.logs, k') && EntryOf(d1.logs, k') == EntryOf(d.logs, k'))
    && forall i :: 0 <= i < |d.file| ==> RecoveredAt(d1, UNDO, epoch, i) == RecoveredAt(d, UNDO, epoch, i)
  }

  /** A turn on a block of the coverage, seen from the state before: `e` shows what was put back in the block before. */
  lemma PreservingTurn(m: Progress, k: Key, m': Progress, epoch: nat, offset: nat, src: int -> byte, wild: int -> byte)
      returns (e: Entry)
    requires Turn(m, k, m', UNDO, epoch, offset, src, wild) && RightSoFar(m.d, UNDO, epoch) && epoch < EPOCHS
    requires k == KeyOf(m.d.logs, m.off) && OneBlock(m.d.logs, m.off, m.n) && m.off / REGION < m.d.logs.cov
    ensures HasEntry(m'.d.logs, k) && Puts(m.d, m'.d.logs, k, e, epoch)
    ensures (e.word.len == 0 || e.dst == StartOf(m.d.logs, m.off)) && e.word.epoch == epoch
    ensures |e.log| == SizeOf(m.d.logs, k)
    ensures Preserves(e, EntryOf(m'.d.logs, k), Peek(m.d.file, wild), StartOf(m.d.logs, m.off),
                      Low(m.off, SizeOf(m.d.logs, k)), m.n)
  {
    var d1 := Renewed(m.d, k, UNDO, epoch);
    RenewedUndone(m.d, epoch, m.off);
    var e' := PreservingStep(m, k, m', epoch, offset, src, wild);
    e := EntryOf(d1.logs, k);
    PutsTwice(m.d, d1, k, e, e', epoch);
  }

  lemma PreservingStep(m: Progress, k: Key, m': Progress, epoch: nat, offset: nat, src: int -> byte, wild: int -> byte)
      returns (e': Entry)
    requires Turn(m, k, m', UNDO, epoch, offset, src, wild) && Bounded(m.d.logs) && Dated(m.d.logs, UNDO, epoch)
    requires k == KeyOf(m.d.logs, m.off) && OneBlock(m.d.logs, m.off, m.n)
    requires var d1 := Renewed(m.d, k, UNDO, epoch);
             && HasEntry(d1.logs, k)
             && (EntryOf(d1.logs, k).word.len == 0 || EntryOf(d1.logs, k).dst == StartOf(m.d.logs, m.off))
    ensures var d1 := Renewed(m.d, k, UNDO, epoch);
            && m'.d.logs == PutEntry(d1.logs, k, e') && |EntryOf(d1.logs, k).log| == SizeOf(m.d.logs, k)
            && Preserves(EntryOf(d1.logs, k), e', Peek(m.d.file, wild), StartOf(m.d.logs, m.off),
                         Low(m.off, SizeOf(m.d.logs, k)), m.n)
  {
    e' := RenewedTurn(m, k, m', epoch, offset, src, wild);
    var e := EntryOf(Renewed(m.d, k, UNDO, epoch).logs, k);
    WrittenPreserves(e, e', Peek(m.d.file, wild), StartOf(m.d.logs, m.off), Low(m.off, SizeOf(m.d.logs, k)), m.n,
                     Shift(src, m.off - offset), m.off);
  }

  /** `t'` is the index of `d` but for slot `k`; before, `d` put back what it would with `e` in that slot. */
  ghost predicate Puts(d: Data, t': Index, k: Key, e: Entry, epoch: nat)
    requires Bounded(d.logs)
  {
    && SameLayout(d.logs, t') && HasEntry(d.logs, k)
    && (forall k' :: HasEntry(t', k') && k' != k ==> HasEntry(d.logs, k') && EntryOf(t', k') == EntryOf(d.logs, k'))
    && forall i :: 0 <= i < |d.file| && KeyOf(d.logs, i) == k ==>
       RecoveredAt(d, UNDO, epoch, i) == UndoneWith(d, e, epoch, i)
  }

  ghost function UndoneWith(d: Data, e: Entry, epoch: nat, i: nat): byte
    requires HasEntry(d.logs, KeyOf(d.logs, i)) && i < |d.file|
  {
    if e.word.epoch == epoch && e.dst == StartOf(d.logs, i) && Covers(e.word, i % SizeAt(d.logs, i))
       && i % SizeAt(d.logs, i) < |e.log|
    then e.log[i % SizeAt(d.logs, i)] else d.file[i]
  }

  lemma PutsTwice(d: Data, d1: Data, k: Key, e: Entry, e': Entry, epoch: nat)
    requires Renews(d, d1, k, epoch) && e == EntryOf(d1.logs, k)
    ensures HasEntry(PutEntry(d1.logs, k, e'), k) && EntryOf(PutEntry(d1.logs, k, e'), k) == e'
    ensures Puts(d, PutEntry(d1.logs, k, e'), k, e, epoch)
  {
    var t' := PutEntry(d1.logs, k, e');
    PutLayout(d1.logs, k, e');
    PutOthers(d1.logs, k, e');
    LayoutTrans(d.logs, d1.logs, t');
    FitsOf(d1.logs, k);
    forall i | 0 <= i < |d.file| && KeyOf(d.logs, i) == k
      ensures RecoveredAt(d, UNDO, epoch, i) == UndoneWith(d, e, epoch, i) {
      SameKey(d.logs, d1.logs, i);
    }
  }

  /** What is put back at `i` after the write. */
  lemma PreservedByte(d: Data, after: Data, k: Key, e: Entry, wild: int -> byte, epoch: nat, offset: nat, len: nat,
      i: nat)
    requires Bounded(d.logs) && Bounded(after.logs) && i < |d.file| == |after.file| && Puts(d, after.logs, k, e, epoch)
    requires k == KeyOf(d.logs, offset) && OneBlock(d.logs, offset, len) && offset + len <= |d.file|
    requires HasEntry(after.logs, k) && |e.log| == SizeAt(d.logs, offset) && e.word.epoch == epoch
    requires e.word.len == 0 || e.dst == StartOf(d.logs, offset)
    requires !(offset <= i < offset + len) ==> after.file[i] == d.file[i]
    requires offset <= i < offset + len ==> RecoveredAt(d, UNDO, epoch, i) == d.file[i]
    requires Preserves(e, EntryOf(after.logs, k), Peek(d.file, wild), StartOf(d.logs, offset),
                       Low(offset, SizeAt(d.logs, offset)), len)
    ensures RecoveredAt(after, UNDO, epoch, i) == RecoveredAt(d, UNDO, epoch, i)
  {
    var base := StartOf(d.logs, offset);
    StartIsStart(d.logs, offset);
    BlockSpan(d.logs, base, i);
    SameKey(d.logs, after.logs, i);
    SameHas(d.logs, after.logs, KeyOf(d.logs, i));
    if KeyOf(d.logs, i) == k && StartOf(d.logs, i) == base {
      PreservedInBlock(d, after, k, e, wild, epoch, offset, len, i, base);
    }
  }

  lemma PreservedInBlock(d: Data, after: Data, k: Key, e: Entry, wild: int -> byte, epoch: nat, offset: nat, len: nat,
      i: nat, base: nat)
    requires Bounded(d.logs) && Bounded(after.logs) && i < |d.file| == |after.file| && SameLayout(d.logs, after.logs)
    requires HasEntry(d.logs, k) && HasEntry(after.logs, k) && Sized(d.logs, i) && Sized(after.logs, i)
    requires KeyOf(d.logs, i) == k == KeyOf(after.logs, i)
    requires StartOf(d.logs, i) == base == StartOf(after.logs, i) && SizeAt(after.logs, i) == SizeAt(d.logs, i)
    requires base <= i < base + SizeAt(d.logs, i) && i % SizeAt(d.logs, i) == i - base
    requires RecoveredAt(d, UNDO, epoch, i) == UndoneWith(d, e, epoch, i)
    requires |e.log| == SizeAt(d.logs, i) && e.word.epoch == epoch && (e.word.len == 0 || e.dst == base)
    requires !(offset <= i < offset + len) ==> after.file[i] == d.file[i]
    requires offset <= i < offset + len ==> RecoveredAt(d, UNDO, epoch, i) == d.file[i]
    requires base <= offset && Preserves(e, EntryOf(after.logs, k), Peek(d.file, wild), base, offset - base, len)
    ensures RecoveredAt(after, UNDO, epoch, i) == RecoveredAt(d, UNDO, epoch, i)
  {
    var e', j := EntryOf(after.logs, k), i - base;
    assert PreservesAt(e, e', Peek(d.file, wild), base, offset - base, len, j);
    assert Logged(after.logs, i) <==> Covers(e'.word, j);
  }

  /** One turn of the UNDO loop, past checkpoint_entry. */
  lemma RenewedTurn(m: Progress, k: Key, m': Progress, epoch: nat, offset: nat, src: int -> byte, wild: int -> byte)
      returns (e': Entry)
    requires Turn(m, k, m', UNDO, epoch, offset, src, wild) && Bounded(m.d.logs) && Dated(m.d.logs, UNDO, epoch)
    requires Low(m.off, SizeOf(m.d.logs, k)) + m.n <= SizeOf(m.d.logs, k)
    ensures var d1, lo := Renewed(m.d, k, UNDO, epoch), Low(m.off, SizeOf(m.d.logs, k));
            && HasEntry(d1.logs, k) && m'.d.logs == PutEntry(d1.logs, k, e')
            && EntryFits(d1.logs.tables[k.region].size, k.index, EntryOf(d1.logs, k))
            && SizeOf(d1.logs, k) == SizeOf(m.d.logs, k) && d1.file == m.d.file
            && e' == WrittenEntry(EntryOf(d1.logs, k), UNDO, lo, m.n, Shift(src, m.off - offset), Peek(m.d.file, wild),
                                  m.off)
  {
    RenewedKeeps(m.d, k, UNDO, epoch);
    var d1, lo := Renewed(m.d, k, UNDO, epoch), Low(m.off, SizeOf(m.d.logs, k));
    e' := WrittenEntry(EntryOf(d1.logs, k), UNDO, lo, m.n, Shift(src, m.off - offset), Peek(m.d.file, wild), m.off);
    IsWriteOne(m.d, d1, k, UNDO, epoch, m.off, m.n, Shift(src, m.off - offset), wild, lo, m.n, e');
  }

  /** The bytes hold their committed values. */
  ghost predicate OnCommitted(d: Data, epoch: nat, offset: nat, len: nat)
    requires Bounded(d.logs)
  {
    forall i :: offset <= i < offset + len && i < |d.file| ==> RecoveredAt(d, UNDO, epoch, i) == d.file[i]
  }

  lemma SameLength(d: Data, d': Data, p: Policy, epoch: nat)
    requires RightSoFar(d, p, epoch) && d'.logs == d.logs && |d'.file| == |d.file|
    ensures RightSoFar(d', p, epoch)
  {
    forall k | HasEntry(d'.logs, k) ensures PlacedAt(d', k) {
      assert PlacedAt(d, k);
    }
  }

  /** Under UNDO the turn and the in-place store that follows leave what was committed. */
  lemma UndoTurnRecovers(m: Progress, k: Key, m': Progress, epoch: nat, offset: nat, src: int -> byte,
      wild: int -> byte, data: int -> byte)
    requires Turn(m, k, m', UNDO, epoch, offset, src, wild) && RightSoFar(m.d, UNDO, epoch) && epoch < EPOCHS
    requires m.off + m.n <= |m.d.file| && k == KeyOf(m.d.logs, m.off) && OneCovered(m.d.logs, m.off, m.n)
    requires OnCommitted(m.d, epoch, m.off, m.n)
    ensures var d' := Stored(m.d, m'.d, m.off, m.n, data);
            RightSoFar(d', UNDO, epoch) && Recovered(d', UNDO, epoch) == Recovered(m.d, UNDO, epoch)
  {
    var d1, e' := TurnRight(m, k, m', UNDO, epoch, offset, src, wild);
    var e := PreservingTurn(m, k, m', epoch, offset, src, wild);
    var d' := Stored(m.d, m'.d, m.off, m.n, data);
    TurnFile(m, k, m', UNDO, epoch, offset, src, wild);
    SameLength(m'.d, d', UNDO, epoch);
    forall i | 0 <= i < |m.d.file| ensures RecoveredAt(d', UNDO, epoch, i) == RecoveredAt(m.d, UNDO, epoch, i) {
      PreservedByte(m.d, d', k, e, wild, epoch, m.off, m.n, i);
    }
    RecoveredSame(m.d, d', UNDO, epoch);
  }

  lemma TurnFile(m: Progress, k: Key, m': Progress, p: Policy, epoch: nat, offset: nat, src: int -> byte,
      wild: int -> byte)
    requires Turn(m, k, m', p, epoch, offset, src, wild) && Bounded(m.d.logs) && Dated(m.d.logs, p, epoch)
    ensures |m'.d.file| == |m.d.file|
  {
    KeptSame(m.d, p, epoch);
    TurnKeeps(m, k, m', m.d, p, epoch, offset, src, wild);
  }
}
