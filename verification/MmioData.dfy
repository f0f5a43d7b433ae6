/** The mapped file and its per-block logs as values: what a reader sees of them, and what the write, read and
    checkpoint code does to one block.  The class in Mmio works by these functions. */
module MmioData {
  import opened Pmem
  import opened BlockLog
  import opened Geometry
  import opened Arithmetic

  type Pos = n: nat | n > 0 witness 1

  /** An index entry: its packed word, its log, and `dst`, where in the file the block starts that it logs. */
  datatype Entry = Entry(word: Word, log: seq<byte>, dst: nat)

  /** A leaf table; size 10 is NR_LOG_SIZES, not chosen yet. */
  datatype Table = Table(size: nat, entries: map<nat, Entry>)

  datatype Key = Key(region: nat, index: nat)

  /** The leaf tables.  The radix shortcut tells `cov` regions apart: the table it finds for a region is that of the
      region modulo `cov` (RadixLog.Root.SkipWalk). */
  datatype Index = Index(cov: Pos, tables: map<nat, Table>)

  datatype Data = Data(file: seq<byte>, logs: Index)

  const UNSIZED: nat := 10

  // ----- where an offset belongs

  function TableOf(t: Index, i: nat): nat { (i / REGION) % t.cov }

  predicate Sized(t: Index, i: nat) {
    TableOf(t, i) in t.tables && t.tables[TableOf(t, i)].size < UNSIZED
  }

  function SizeAt(t: Index, i: nat): nat
    requires Sized(t, i)
  {
    Bytes(t.tables[TableOf(t, i)].size)
  }

  /** Where the block of an offset starts. */
  function StartOf(t: Index, i: nat): nat
    requires Sized(t, i)
  {
    i - Low(i, SizeAt(t, i))
  }

  /** The slot of the block that an offset lies in, if its table has a log size. */
  function KeyOf(t: Index, i: nat): Key {
    if Sized(t, i) then Key(TableOf(t, i), TableIndex(t.tables[TableOf(t, i)].size, i)) else Key(TableOf(t, i), 0)
  }

  predicate HasEntry(t: Index, k: Key) {
    && k.region in t.tables && t.tables[k.region].size < UNSIZED
    && k.index in t.tables[k.region].entries && k.index < Slots(t.tables[k.region].size)
  }

  function EntryOf(t: Index, k: Key): Entry
    requires HasEntry(t, k)
  {
    t.tables[k.region].entries[k.index]
  }

  function SizeOf(t: Index, k: Key): nat
    requires HasEntry(t, k)
  {
    Bytes(t.tables[k.region].size)
  }

  function PutEntry(t: Index, k: Key, e: Entry): Index
    requires HasEntry(t, k)
  {
    t.(tables := t.tables[k.region := t.tables[k.region].(entries := t.tables[k.region].entries[k.index := e])])
  }

  function DropEntry(t: Index, k: Key): Index
    requires HasEntry(t, k)
  {
    t.(tables := t.tables[k.region := t.tables[k.region].(entries := t.tables[k.region].entries - {k.index})])
  }

  /** The offsets of a block are those from its start on, as many as its size. */
  lemma BlockSpan(t: Index, base: nat, i: nat)
    requires Sized(t, base) && StartOf(t, base) == base
    ensures base <= i < base + SizeAt(t, base) ==>
              && Sized(t, i) && KeyOf(t, i) == KeyOf(t, base) && SizeAt(t, i) == SizeAt(t, base)
              && StartOf(t, i) == base && i % SizeAt(t, base) == i - base
    ensures Sized(t, i) && KeyOf(t, i) == KeyOf(t, base) && StartOf(t, i) == base ==> base <= i < base + SizeAt(t, base)
  {
    var s := t.tables[TableOf(t, base)].size;
    AddressOfPlace(s, base);
    if base <= i < base + SizeAt(t, base) {
      PlaceOfAddress(s, base / REGION, TableIndex(s, base), i - base);
    }
  }

  lemma StartIsStart(t: Index, i: nat)
    requires Sized(t, i)
    ensures var b := StartOf(t, i);
            && b <= i < b + SizeAt(t, i) && Sized(t, b) && KeyOf(t, b) == KeyOf(t, i) && SizeAt(t, b) == SizeAt(t, i)
            && StartOf(t, b) == b && i / REGION == b / REGION
  {
    var s := t.tables[TableOf(t, i)].size;
    AddressOfPlace(s, i);
    PlaceOfAddress(s, i / REGION, TableIndex(s, i), 0);
  }

  // ----- what holds of every state

  /** The bounds invariant of an entry: its logged range stays in its block. */
  ghost predicate EntryFits(size: LogSize, index: nat, e: Entry) {
    index < Slots(size) && |e.log| == Bytes(size) && InBlock(e.word, Bytes(size))
  }

  /** Hence the range of an entry fits the 21 and 22 bits it has in the packed word (src/radixlog.h:34-35). */
  lemma FieldsFit(size: LogSize, index: nat, e: Entry)
    requires EntryFits(size, index, e) && e.word.len > 0
    ensures e.word.off % 0x20_0000 == e.word.off && e.word.len % 0x40_0000 == e.word.len
  {
    SizesOf(size);
  }

  ghost predicate Bounded(t: Index) {
    forall r :: r in t.tables ==>
      && t.tables[r].size <= UNSIZED && (t.tables[r].size == UNSIZED ==> t.tables[r].entries == map[])
      && (t.tables[r].size < UNSIZED ==>
            forall i :: i in t.tables[r].entries ==> EntryFits(t.tables[r].size, i, t.tables[r].entries[i]))
  }

  /** Entries that log anything do so under the file's policy, and in no later epoch. */
  ghost predicate Dated(t: Index, p: Policy, epoch: nat) {
    forall r, i :: r in t.tables && i in t.tables[r].entries ==>
      && t.tables[r].entries[i].word.epoch <= epoch
      && (t.tables[r].entries[i].word.len > 0 ==> t.tables[r].entries[i].word.policy == p)
  }

  /** What the entry logs is a block of its own slot, and lies in the mapping. */
  ghost predicate PlacedAt(d: Data, k: Key)
    requires HasEntry(d.logs, k)
  {
    var e := EntryOf(d.logs, k);
    e.word.len > 0 ==>
      && Sized(d.logs, e.dst) && KeyOf(d.logs, e.dst) == k && StartOf(d.logs, e.dst) == e.dst
      && e.dst + e.word.off + e.word.len <= |d.file|
  }

  ghost predicate Placed(d: Data) {
    forall k :: HasEntry(d.logs, k) ==> PlacedAt(d, k)
  }

  ghost predicate Sound(d: Data, p: Policy, epoch: nat) {
    Bounded(d.logs) && Dated(d.logs, p, epoch) && (p == REDO ==> Placed(d))
  }

  // ----- the view

  ghost predicate Logged(t: Index, i: nat) {
    && HasEntry(t, KeyOf(t, i)) && EntryOf(t, KeyOf(t, i)).dst == StartOf(t, i)
    && Covers(EntryOf(t, KeyOf(t, i)).word, i % SizeAt(t, i))
  }

  /** What a reader must find at offset `i`. */
  ghost function ByteAt(d: Data, p: Policy, i: nat): byte
    requires Bounded(d.logs) && i < |d.file|
  {
    if p == REDO && Logged(d.logs, i) then EntryOf(d.logs, KeyOf(d.logs, i)).log[i % SizeAt(d.logs, i)] else d.file[i]
  }

  ghost function ViewOf(d: Data, p: Policy): seq<byte>
    requires Bounded(d.logs)
  {
    seq(|d.file|, i requires 0 <= i < |d.file| => ByteAt(d, p, i))
  }

  /** A change of one entry is seen in its blocks only. */
  lemma ElsewhereSame(d: Data, d': Data, p: Policy, k: Key, i: nat)
    requires Bounded(d.logs) && Bounded(d'.logs) && HasEntry(d.logs, k) && i < |d.file| == |d'.file|
    requires d'.logs == DropEntry(d.logs, k) || exists e :: d'.logs == PutEntry(d.logs, k, e)
    requires d'.file[i] == d.file[i] && KeyOf(d.logs, i) != k
    ensures ByteAt(d', p, i) == ByteAt(d, p, i)
  {
  }

  // ----- checkpoint_entry (src/mmio.c:249-264)

  /** The file with the entry's log copied back.  The code does not ask whether the log lies in the mapping;
      where it does not, the copy is not modelled. */
  function CopiedBack(d: Data, k: Key): seq<byte>
    requires HasEntry(d.logs, k) && InBlock(EntryOf(d.logs, k).word, |EntryOf(d.logs, k).log|)
  {
    var e := EntryOf(d.logs, k);
    if e.word.policy == REDO && e.dst + e.word.off + e.word.len <= |d.file|
    then Splice(d.file, e.dst + e.word.off, e.log[e.word.off..e.word.off + e.word.len])
    else d.file
  }

  function ResetEntry(d: Data, k: Key, p: Policy, epoch: nat): Data
    requires HasEntry(d.logs, k) && InBlock(EntryOf(d.logs, k).word, |EntryOf(d.logs, k).log|)
  {
    Data(CopiedBack(d, k), PutEntry(d.logs, k, EntryOf(d.logs, k).(word := Word(epoch, 0, 0, p))))
  }

  /** The checkpointer's version drops the entry (src/mmio.c:198-207). */
  function RetireEntry(d: Data, k: Key): Data
    requires HasEntry(d.logs, k) && InBlock(EntryOf(d.logs, k).word, |EntryOf(d.logs, k).log|)
  {
    Data(CopiedBack(d, k), DropEntry(d.logs, k))
  }

  /** Copying back puts into the file exactly what a reader sees of the slot's blocks. */
  lemma CopyBackShows(d: Data, k: Key, p: Policy, epoch: nat, i: nat)
    requires Sound(d, p, epoch) && HasEntry(d.logs, k) && i < |d.file|
    requires EntryFits(d.logs.tables[k.region].size, k.index, EntryOf(d.logs, k))
    ensures |CopiedBack(d, k)| == |d.file|
    ensures CopiedBack(d, k)[i] == if KeyOf(d.logs, i) == k then ByteAt(d, p, i) else d.file[i]
  {
    var e := EntryOf(d.logs, k);
    if e.word.len > 0 && p == REDO {
      assert PlacedAt(d, k);
      BlockSpan(d.logs, e.dst, i);
    }
  }

  lemma FitsOf(t: Index, k: Key)
    requires Bounded(t) && HasEntry(t, k)
    ensures EntryFits(t.tables[k.region].size, k.index, EntryOf(t, k))
  {
  }

  /** No entry appears or disappears, and no log size changes. */
  ghost predicate SameLayout(t: Index, t': Index) {
    && t.cov == t'.cov && t.tables.Keys == t'.tables.Keys
    && forall r :: r in t.tables ==>
         t'.tables[r].size == t.tables[r].size && t'.tables[r].entries.Keys == t.tables[r].entries.Keys
  }

  lemma SameKey(t: Index, t': Index, i: nat)
    requires SameLayout(t, t')
    ensures KeyOf(t', i) == KeyOf(t, i) && (Sized(t, i) <==> Sized(t', i))
    ensures Sized(t, i) ==> SizeAt(t', i) == SizeAt(t, i) && StartOf(t', i) == StartOf(t, i)
  {
  }

  lemma SameHas(t: Index, t': Index, k: Key)
    requires SameLayout(t, t')
    ensures HasEntry(t, k) <==> HasEntry(t', k)
    ensures HasEntry(t, k) ==> SizeOf(t', k) == SizeOf(t, k)
  {
  }

  lemma PutKeeps(t: Index, k: Key, e: Entry, p: Policy, epoch: nat)
    requires Bounded(t) && Dated(t, p, epoch) && HasEntry(t, k) && EntryFits(t.tables[k.region].size, k.index, e)
    requires e.word.epoch <= epoch && (e.word.len > 0 ==> e.word.policy == p)
    ensures var t' := PutEntry(t, k, e);
            Bounded(t') && Dated(t', p, epoch) && SameLayout(t, t') && HasEntry(t', k) && EntryOf(t', k) == e
    ensures forall k' :: HasEntry(t, k') && k' != k ==>
              HasEntry(PutEntry(t, k, e), k') && EntryOf(PutEntry(t, k, e), k') == EntryOf(t, k')
  {
    PutLayout(t, k, e);
    PutBounded(t, k, e);
  }

  lemma PutBounded(t: Index, k: Key, e: Entry)
    requires Bounded(t) && HasEntry(t, k) && EntryFits(t.tables[k.region].size, k.index, e)
    ensures Bounded(PutEntry(t, k, e))
  {
  }

  /** Replacing an entry keeps the others placed. */
  lemma PutPlaced(d: Data, k: Key, e: Entry, d': Data)
    requires Placed(d) && HasEntry(d.logs, k) && |d'.file| == |d.file| && d'.logs == PutEntry(d.logs, k, e)
    requires SameLayout(d.logs, d'.logs)
    requires e.word.len > 0 ==>
               && Sized(d.logs, e.dst) && KeyOf(d.logs, e.dst) == k && StartOf(d.logs, e.dst) == e.dst
               && e.dst + e.word.off + e.word.len <= |d.file|
    ensures Placed(d')
  {
    forall k' | HasEntry(d'.logs, k') ensures PlacedAt(d', k') {
      SameHas(d.logs, d'.logs, k');
      assert PlacedAt(d, k');
      SameKey(d.logs, d'.logs, EntryOf(d'.logs, k').dst);
    }
  }

  lemma DropKeeps(t: Index, k: Key, p: Policy, epoch: nat)
    requires Bounded(t) && Dated(t, p, epoch) && HasEntry(t, k)
    ensures var t' := DropEntry(t, k); Bounded(t') && Dated(t', p, epoch) && !HasEntry(t', k)
  {
  }

  lemma DropPlaced(d: Data, k: Key, d': Data)
    requires Placed(d) && HasEntry(d.logs, k) && |d'.file| == |d.file| && d'.logs == DropEntry(d.logs, k)
    ensures Placed(d')
  {
    forall k' | HasEntry(d'.logs, k') ensures PlacedAt(d', k') {
      assert HasEntry(d.logs, k') && EntryOf(d.logs, k') == EntryOf(d'.logs, k') && PlacedAt(d, k');
    }
  }

  lemma CopiedBackKeeps(d: Data, k: Key, p: Policy)
    requires HasEntry(d.logs, k) && InBlock(EntryOf(d.logs, k).word, |EntryOf(d.logs, k).log|)
    requires EntryOf(d.logs, k).word.len > 0 ==> EntryOf(d.logs, k).word.policy == p
    ensures |CopiedBack(d, k)| == |d.file| && (p == UNDO ==> CopiedBack(d, k) == d.file)
  {
  }

  lemma DatedOf(t: Index, k: Key, p: Policy, epoch: nat)
    requires Dated(t, p, epoch) && HasEntry(t, k)
    ensures EntryOf(t, k).word.epoch <= epoch && (EntryOf(t, k).word.len > 0 ==> EntryOf(t, k).word.policy == p)
  {
  }

  lemma ResetKeeps(d: Data, k: Key, p: Policy, epoch: nat, now: nat)
    requires Bounded(d.logs) && Dated(d.logs, p, epoch) && HasEntry(d.logs, k) && now <= epoch
    requires EntryFits(d.logs.tables[k.region].size, k.index, EntryOf(d.logs, k))
    ensures var d' := ResetEntry(d, k, p, now);
            && Bounded(d'.logs) && Dated(d'.logs, p, epoch) && SameLayout(d.logs, d'.logs) && HasEntry(d'.logs, k)
            && |d'.file| == |d.file| && (p == UNDO ==> d'.file == d.file)
            && EntryOf(d'.logs, k) == EntryOf(d.logs, k).(word := Word(now, 0, 0, p))
  {
    DatedOf(d.logs, k, p, epoch);
    CopiedBackKeeps(d, k, p);
    PutKeeps(d.logs, k, EntryOf(d.logs, k).(word := Word(now, 0, 0, p)), p, epoch);
  }

  /** An entry that logs nothing lets the file show. */
  lemma ResetByte(d: Data, k: Key, p: Policy, e: Entry, d': Data, i: nat)
    requires Bounded(d.logs) && Bounded(d'.logs) && HasEntry(d.logs, k) && i < |d.file| == |d'.file|
    requires d'.logs == PutEntry(d.logs, k, e) && e.word.len == 0 && SameLayout(d.logs, d'.logs)
    requires HasEntry(d'.logs, k) && EntryOf(d'.logs, k) == e
    ensures KeyOf(d.logs, i) == k ==> ByteAt(d', p, i) == d'.file[i]
  {
    SameKey(d.logs, d'.logs, i);
  }

  lemma ResetKeepsView(d: Data, k: Key, p: Policy, epoch: nat, now: nat)
    requires Sound(d, p, epoch) && HasEntry(d.logs, k) && now <= epoch
    ensures InBlock(EntryOf(d.logs, k).word, |EntryOf(d.logs, k).log|)
    ensures var d' := ResetEntry(d, k, p, now);
            Sound(d', p, epoch) && ViewOf(d', p) == ViewOf(d, p) && HasEntry(d'.logs, k)
  {
    FitsOf(d.logs, k);
    ResetKeeps(d, k, p, epoch, now);
    var d', e := ResetEntry(d, k, p, now), EntryOf(d.logs, k).(word := Word(now, 0, 0, p));
    if p == REDO {
      PutPlaced(d, k, e, d');
    }
    forall i | 0 <= i < |d.file| ensures ByteAt(d', p, i) == ByteAt(d, p, i) {
      CopyBackShows(d, k, p, epoch, i);
      if KeyOf(d.logs, i) != k {
        ElsewhereSame(d, d', p, k, i);
      } else {
        ResetByte(d, k, p, e, d', i);
      }
    }
  }

  lemma RetireKeeps(d: Data, k: Key, p: Policy, epoch: nat)
    requires Bounded(d.logs) && Dated(d.logs, p, epoch) && HasEntry(d.logs, k)
    requires EntryFits(d.logs.tables[k.region].size, k.index, EntryOf(d.logs, k))
    ensures var d' := RetireEntry(d, k); Bounded(d'.logs) && Dated(d'.logs, p, epoch) && |d'.file| == |d.file|
  {
    DatedOf(d.logs, k, p, epoch);
    CopiedBackKeeps(d, k, p);
    DropKeeps(d.logs, k, p, epoch);
  }

  lemma RetireKeepsView(d: Data, k: Key, p: Policy, epoch: nat)
    requires Sound(d, p, epoch) && HasEntry(d.logs, k)
    ensures InBlock(EntryOf(d.logs, k).word, |EntryOf(d.logs, k).log|)
    ensures var d' := RetireEntry(d, k); Sound(d', p, epoch) && ViewOf(d', p) == ViewOf(d, p)
  {
    FitsOf(d.logs, k);
    RetireKeeps(d, k, p, epoch);
    var d' := RetireEntry(d, k);
    if p == REDO {
      DropPlaced(d, k, d');
    }
    forall i | 0 <= i < |d.file| ensures ByteAt(d', p, i) == ByteAt(d, p, i) {
      CopyBackShows(d, k, p, epoch, i);
      if KeyOf(d.logs, i) != k {
        ElsewhereSame(d, d', p, k, i);
      }
    }
  }

  // ----- mmio_write on one entry (src/mmio.c:301-389)

  /** Memory from the start of the mapping on; `wild` is what lies beyond its end. */
  function Peek(file: seq<byte>, wild: int -> byte): int -> byte {
    i => if 0 <= i < |file| then file[i] else wild(i)
  }

  /** The log after the stores for [lo, lo+n): the new data under REDO, what the file has at `at` under UNDO,
      and the gap from the file around `at`. */
  function WrittenLog(e: Entry, p: Policy, lo: nat, n: nat, src: int -> byte, mem: int -> byte,
      at: int): (log: seq<byte>)
    requires n > 0 && lo + n <= |e.log| && InBlock(e.word, |e.log|)
    ensures |log| == |e.log|
  {
    var plan := Merge(e.word.off, e.word.len, lo, n, |e.log|);
    var stored := Splice(e.log, lo, if p == UNDO then FromFile(mem, at, n) else FromFile(src, 0, n));
    Splice(stored, plan.gapAt, FromFile(mem, at - lo + plan.gapAt, plan.gapLen))
  }

  function WrittenWord(w: Word, p: Policy, lo: nat, n: nat, size: nat): Word
    requires n > 0 && lo + n <= size && InBlock(w, size)
  {
    var plan := Merge(w.off, w.len, lo, n, size);
    if w.len > 0 && n != size then w.(off := plan.off, len := plan.len)
    else w.(off := plan.off, len := plan.len, policy := p)
  }

  /** A merge keeps the entry's `dst`; otherwise it is `at` with its low bits cleared (src/mmio.c:376-381). */
  function WrittenEntry(e: Entry, p: Policy, lo: nat, n: nat, src: int -> byte, mem: int -> byte, at: nat): Entry
    requires n > 0 && lo + n <= |e.log| && InBlock(e.word, |e.log|) && lo <= at
  {
    Entry(WrittenWord(e.word, p, lo, n, |e.log|), WrittenLog(e, p, lo, n, src, mem, at),
          if e.word.len > 0 && n != |e.log| then e.dst else at - lo)
  }

  /** Whatever the request, an entry stays in its block. */
  lemma WrittenFits(size: LogSize, index: nat, e: Entry, p: Policy, lo: nat, n: nat, src: int -> byte,
      mem: int -> byte, at: nat)
    requires EntryFits(size, index, e) && n > 0 && lo + n <= Bytes(size) && lo <= at
    ensures EntryFits(size, index, WrittenEntry(e, p, lo, n, src, mem, at))
    ensures WrittenWord(e.word, p, lo, n, Bytes(size)).len > 0
  {
  }

  /** What an entry shows of byte `j` of its block, over `mem`. */
  ghost function Shown(e: Entry, mem: int -> byte, base: int, j: nat): byte
    requires j < |e.log|
  {
    if Covers(e.word, j) then e.log[j] else mem(base + j)
  }

  /** Under REDO a write at its own place in the file shows the new bytes, the bytes logged before, and the
      file's bytes, each where it should. */
  lemma WrittenShows(e: Entry, lo: nat, n: nat, src: int -> byte, mem: int -> byte, base: nat, j: nat)
    requires n > 0 && lo + n <= |e.log| && InBlock(e.word, |e.log|) && j < |e.log|
    ensures Shown(WrittenEntry(e, REDO, lo, n, src, mem, base + lo), mem, base, j)
            == if lo <= j < lo + n then src(j - lo) else Shown(e, mem, base, j)
  {
    WrittenShowsFor(e, lo, n, src, mem, base, j, Merge(e.word.off, e.word.len, lo, n, |e.log|));
  }

  lemma WrittenShowsFor(e: Entry, lo: nat, n: nat, src: int -> byte, mem: int -> byte, base: int, j: nat, p: Plan)
    requires n > 0 && lo + n <= |e.log| && j < |e.log|
    requires IsHull(p, e.word.off, e.word.len, lo, n, |e.log|)
    ensures var log := Splice(Splice(e.log, lo, FromFile(src, 0, n)), p.gapAt, FromFile(mem, base + p.gapAt, p.gapLen));
            (if Within(j, p.off, p.len) then log[j] else mem(base + j))
            == if lo <= j < lo + n then src(j - lo) else if Covers(e.word, j) then e.log[j] else mem(base + j)
  {
    assert Within(j, lo, n) <==> lo <= j < lo + n;
    assert Within(j, p.gapAt, p.gapLen) <==> p.gapAt <= j < p.gapAt + p.gapLen;
    assert Within(j, e.word.off, e.word.len) <==> Covers(e.word, j);
  }

  /** How much of `n` bytes from `off` on goes into the block at hand. */
  function StepLength(t: Index, k: Key, off: nat, n: nat): nat
    requires HasEntry(t, k)
  {
    if n > SizeOf(t, k) - off % SizeOf(t, k) then SizeOf(t, k) - off % SizeOf(t, k) else n
  }

  function Renewed(d: Data, k: Key, p: Policy, epoch: nat): Data
    requires HasEntry(d.logs, k) && InBlock(EntryOf(d.logs, k).word, |EntryOf(d.logs, k).log|)
  {
    if EntryOf(d.logs, k).word.epoch < epoch then ResetEntry(d, k, p, Trunc(epoch)) else d
  }

  /** The part of the loop body for one entry: an old entry is checkpointed first, then the part of the request
      that fits into the block, seen from `off`, is logged.  `n` carries over between entries. */
  function WriteOne(d: Data, k: Key, p: Policy, epoch: nat, off: nat, n: nat, src: int -> byte, wild: int -> byte): Data
    requires HasEntry(d.logs, k) && InBlock(EntryOf(d.logs, k).word, |EntryOf(d.logs, k).log|)
    requires |EntryOf(d.logs, k).log| == SizeOf(d.logs, k) && n > 0
  {
    var d1 := Renewed(d, k, p, epoch);
    var e, lo, m := EntryOf(d1.logs, k), Low(off, SizeOf(d.logs, k)), StepLength(d.logs, k, off, n);
    d1.(logs := PutEntry(d1.logs, k, WrittenEntry(e, p, lo, m, src, Peek(d1.file, wild), off)))
  }

  lemma RenewedKeeps(d: Data, k: Key, p: Policy, epoch: nat)
    requires Bounded(d.logs) && Dated(d.logs, p, epoch) && HasEntry(d.logs, k)
    requires EntryFits(d.logs.tables[k.region].size, k.index, EntryOf(d.logs, k))
    ensures var d1 := Renewed(d, k, p, epoch);
            && Bounded(d1.logs) && Dated(d1.logs, p, epoch) && SameLayout(d.logs, d1.logs)
            && |d1.file| == |d.file| && (p == UNDO ==> d1.file == d.file)
            && HasEntry(d1.logs, k) && EntryFits(d1.logs.tables[k.region].size, k.index, EntryOf(d1.logs, k))
            && SizeOf(d1.logs, k) == SizeOf(d.logs, k)
  {
    if EntryOf(d.logs, k).word.epoch < epoch {
      ResetKeeps(d, k, p, epoch, Trunc(epoch));
    }
    FitsOf(Renewed(d, k, p, epoch).logs, k);
  }

  /** Whatever the request and wherever its blocks: entries keep to their blocks, policy and epoch. */
  lemma WriteOneBounded(d: Data, k: Key, p: Policy, epoch: nat, off: nat, n: nat, src: int -> byte, wild: int -> byte)
    requires Bounded(d.logs) && Dated(d.logs, p, epoch) && HasEntry(d.logs, k) && n > 0
    requires EntryFits(d.logs.tables[k.region].size, k.index, EntryOf(d.logs, k))
    ensures var d' := WriteOne(d, k, p, epoch, off, n, src, wild);
            && Bounded(d'.logs) && Dated(d'.logs, p, epoch) && |d'.file| == |d.file| && SameLayout(d.logs, d'.logs)
            && 0 < StepLength(d.logs, k, off, n) <= n
            && (p == UNDO ==> d'.file == d.file)
  {
    var d1 := Renewed(d, k, p, epoch);
    RenewedKeeps(d, k, p, epoch);
    var e1, lo, m := EntryOf(d1.logs, k), Low(off, SizeOf(d.logs, k)), StepLength(d.logs, k, off, n);
    var e2 := WrittenEntry(e1, p, lo, m, src, Peek(d1.file, wild), off);
    WrittenFits(d.logs.tables[k.region].size, k.index, e1, p, lo, m, src, Peek(d1.file, wild), off);
    DatedOf(d1.logs, k, p, epoch);
    PutKeeps(d1.logs, k, e2, p, epoch);
  }

  /** The request lies in the block of its first byte. */
  predicate OneBlock(t: Index, off: nat, n: nat) {
    HasEntry(t, KeyOf(t, off)) && off % SizeAt(t, off) + n <= SizeAt(t, off)
  }

  /** The slot of the offset's block logs nothing, or that very block. */
  predicate Owns(t: Index, off: nat) {
    HasEntry(t, KeyOf(t, off)) ==>
      var e := EntryOf(t, KeyOf(t, off)); e.word.len == 0 || e.dst == StartOf(t, off)
  }

  /** ... or something that is due for checkpointing. */
  predicate OwnsOrOld(t: Index, epoch: nat, off: nat) {
    Owns(t, off) || (HasEntry(t, KeyOf(t, off)) && EntryOf(t, KeyOf(t, off)).word.epoch < epoch)
  }

  /** Entries log blocks of the regions that the shortcut tells apart. */
  ghost predicate AtHome(t: Index) {
    forall k :: HasEntry(t, k) && EntryOf(t, k).word.len > 0 ==> EntryOf(t, k).dst / REGION < t.cov
  }

  /** If all blocks logged and the offset are within the coverage, the slot is the offset's own. */
  lemma CoveredOwns(d: Data, off: nat)
    requires Placed(d) && AtHome(d.logs) && off / REGION < d.logs.cov
    ensures Owns(d.logs, off)
  {
    var t, k := d.logs, KeyOf(d.logs, off);
    if HasEntry(t, k) && EntryOf(t, k).word.len > 0 {
      assert PlacedAt(d, k);
      SameSlot(t, EntryOf(t, k).dst, off);
    }
  }

  /** Offsets of covered regions with one slot lie in one block. */
  lemma SameSlot(t: Index, base: nat, off: nat)
    requires Sized(t, base) && Sized(t, off) && KeyOf(t, base) == KeyOf(t, off)
    requires base / REGION < t.cov && off / REGION < t.cov
    ensures StartOf(t, base) == StartOf(t, off)
  {
    var s := t.tables[TableOf(t, off)].size;
    SmallMod(base / REGION, t.cov);
    SmallMod(off / REGION, t.cov);
    AddressOfPlace(s, base);
    AddressOfPlace(s, off);
  }

  // ----- write refinement

  lemma RenewedKeepsView(d: Data, k: Key, epoch: nat)
    requires Sound(d, REDO, epoch) && HasEntry(d.logs, k)
    requires InBlock(EntryOf(d.logs, k).word, |EntryOf(d.logs, k).log|)
    ensures var d1 := Renewed(d, k, REDO, epoch); Sound(d1, REDO, epoch) && ViewOf(d1, REDO) == ViewOf(d, REDO)
  {
    if EntryOf(d.logs, k).word.epoch < epoch {
      ResetKeepsView(d, k, REDO, epoch, Trunc(epoch));
    }
  }

  lemma RenewedOwns(d: Data, off: nat, epoch: nat)
    requires Sound(d, REDO, epoch) && HasEntry(d.logs, KeyOf(d.logs, off)) && OwnsOrOld(d.logs, epoch, off)
    requires EntryFits(d.logs.tables[TableOf(d.logs, off)].size, KeyOf(d.logs, off).index,
             EntryOf(d.logs, KeyOf(d.logs, off)))
    ensures var d1 := Renewed(d, KeyOf(d.logs, off), REDO, epoch);
            && KeyOf(d1.logs, off) == KeyOf(d.logs, off) && HasEntry(d1.logs, KeyOf(d.logs, off)) && Owns(d1.logs, off)
            && SizeAt(d1.logs, off) == SizeAt(d.logs, off)
  {
    var k := KeyOf(d.logs, off);
    RenewedKeeps(d, k, REDO, epoch);
    SameKey(d.logs, Renewed(d, k, REDO, epoch).logs, off);
    if EntryOf(d.logs, k).word.epoch < epoch {
      ResetKeeps(d, k, REDO, epoch, Trunc(epoch));
    }
  }

  /** `e'` shows `src` at [lo, lo+n) of the block and otherwise what `e` shows, and logs nothing beyond both. */
  ghost predicate Overwrites(e: Entry, e': Entry, mem: int -> byte, base: nat, lo: nat, n: nat, src: int -> byte) {
    && |e'.log| == |e.log| && e'.dst == base && e'.word.len > 0
    && (e'.word.off + e'.word.len <= lo + n || (e.word.len > 0 && e'.word.off + e'.word.len <= e.word.off + e.word.len))
    && forall j: nat :: j < |e.log| ==>
         Shown(e', mem, base, j) == if lo <= j < lo + n then src(j - lo) else Shown(e, mem, base, j)
  }

  lemma WrittenOverwrites(e: Entry, mem: int -> byte, base: nat, lo: nat, n: nat, src: int -> byte)
    requires n > 0 && lo + n <= |e.log| && InBlock(e.word, |e.log|) && (e.word.len == 0 || e.dst == base)
    ensures Overwrites(e, WrittenEntry(e, REDO, lo, n, src, mem, base + lo), mem, base, lo, n, src)
  {
    var e' := WrittenEntry(e, REDO, lo, n, src, mem, base + lo);
    forall j: nat | j < |e.log|
      ensures Shown(e', mem, base, j) == if lo <= j < lo + n then src(j - lo) else Shown(e, mem, base, j)
    {
      WrittenShows(e, lo, n, src, mem, base, j);
    }
    WrittenRange(e, REDO, lo, n);
  }

  lemma WrittenRange(e: Entry, p: Policy, lo: nat, n: nat)
    requires n > 0 && lo + n <= |e.log| && InBlock(e.word, |e.log|)
    ensures var w := WrittenWord(e.word, p, lo, n, |e.log|);
            && w.len > 0
            && (w.off + w.len <= lo + n || (e.word.len > 0 && w.off + w.len <= e.word.off + e.word.len))
  {
  }

  /** An entry's change, byte by byte. */
  lemma PutShowsAt(d: Data, k: Key, base: nat, e': Entry, mem: int -> byte, d': Data, i: nat)
    requires Bounded(d.logs) && Bounded(d'.logs) && HasEntry(d.logs, k) && i < |d.file| == |d'.file|
    requires d' == d.(logs := PutEntry(d.logs, k, e')) && SameLayout(d.logs, d'.logs)
    requires HasEntry(d'.logs, k) && EntryOf(d'.logs, k) == e' && e'.dst == base
    requires Sized(d.logs, base) && KeyOf(d.logs, base) == k && StartOf(d.logs, base) == base
    requires EntryOf(d.logs, k).word.len == 0 || EntryOf(d.logs, k).dst == base
    requires |e'.log| == |EntryOf(d.logs, k).log| == SizeAt(d.logs, base) && mem(i) == d.file[i]
    ensures if base <= i < base + SizeAt(d.logs, base)
            then && ByteAt(d, REDO, i) == Shown(EntryOf(d.logs, k), mem, base, i - base)
                 && ByteAt(d', REDO, i) == Shown(e', mem, base, i - base)
            else ByteAt(d', REDO, i) == ByteAt(d, REDO, i)
  {
    BlockSpan(d.logs, base, i);
    SameKey(d.logs, d'.logs, i);
    if KeyOf(d.logs, i) != k {
      ElsewhereSame(d, d', REDO, k, i);
    }
  }

  lemma PutShows(d: Data, k: Key, base: nat, e': Entry, lo: nat, n: nat, src: int -> byte, mem: int -> byte, d': Data)
    requires Bounded(d.logs) && Bounded(d'.logs) && HasEntry(d.logs, k) && |d.file| == |d'.file|
    requires d' == d.(logs := PutEntry(d.logs, k, e')) && SameLayout(d.logs, d'.logs)
    requires HasEntry(d'.logs, k) && EntryOf(d'.logs, k) == e'
    requires Sized(d.logs, base) && KeyOf(d.logs, base) == k && StartOf(d.logs, base) == base
    requires EntryOf(d.logs, k).word.len == 0 || EntryOf(d.logs, k).dst == base
    requires |EntryOf(d.logs, k).log| == SizeAt(d.logs, base) && lo + n <= SizeAt(d.logs, base)
             && base + lo + n <= |d.file|
    requires forall i :: 0 <= i < |d.file| ==> mem(i) == d.file[i]
    requires Overwrites(EntryOf(d.logs, k), e', mem, base, lo, n, src)
    ensures ViewOf(d', REDO) == Splice(ViewOf(d, REDO), base + lo, FromFile(src, 0, n))
  {
    forall i | 0 <= i < |d.file|
      ensures ByteAt(d', REDO, i) == if base + lo <= i < base + lo + n then src(i - base - lo) else ByteAt(d, REDO, i)
    {
      PutShowsAt(d, k, base, e', mem, d', i);
    }
  }

  /** Write refinement: a REDO write inside one block, on a slot that is its own or due for checkpointing, replaces
      exactly the requested bytes of the view. */
  lemma WriteOneRefines(d: Data, epoch: nat, off: nat, n: nat, src: int -> byte, wild: int -> byte)
    requires Sound(d, REDO, epoch) && n > 0 && off + n <= |d.file| && OneBlock(d.logs, off, n)
             && OwnsOrOld(d.logs, epoch, off)
    requires EntryFits(d.logs.tables[TableOf(d.logs, off)].size, KeyOf(d.logs, off).index,
             EntryOf(d.logs, KeyOf(d.logs, off)))
    ensures var d' := WriteOne(d, KeyOf(d.logs, off), REDO, epoch, off, n, src, wild);
            Sound(d', REDO, epoch) && ViewOf(d', REDO) == Splice(ViewOf(d, REDO), off, FromFile(src, 0, n))
  {
    var k := KeyOf(d.logs, off);
    var d1, d' := Renewed(d, k, REDO, epoch), WriteOne(d, k, REDO, epoch, off, n, src, wild);
    ReadyToWrite(d, epoch, off);
    WriteOneBounded(d, k, REDO, epoch, off, n, src, wild);
    var lo := Low(off, SizeOf(d.logs, k));
    WriteOneIs(d, k, epoch, off, n, src, wild, d1, lo);
    LoggedRefines(d1, k, StartOf(d1.logs, off), off, lo, n, src, wild, d', epoch);
  }

  lemma WriteOneIs(d: Data, k: Key, epoch: nat, off: nat, n: nat, src: int -> byte, wild: int -> byte, d1: Data,
      lo: nat)
    requires HasEntry(d.logs, k) && EntryFits(d.logs.tables[k.region].size, k.index, EntryOf(d.logs, k)) && n > 0
    requires d1 == Renewed(d, k, REDO, epoch) && lo == off % SizeOf(d.logs, k) && lo <= off
             && lo + n <= SizeOf(d.logs, k)
    requires HasEntry(d1.logs, k) && |EntryOf(d1.logs, k).log| == SizeOf(d.logs, k)
             && InBlock(EntryOf(d1.logs, k).word, SizeOf(d.logs, k))
    ensures WriteOne(d, k, REDO, epoch, off, n, src, wild) ==
            d1.(logs := PutEntry(d1.logs, k,
              WrittenEntry(EntryOf(d1.logs, k), REDO, lo, n, src, Peek(d1.file, wild), off)))
  {
  }

  /** The same, past checkpoint_entry. */
  lemma LoggedRefines(d1: Data, k: Key, base: nat, off: nat, lo: nat, n: nat, src: int -> byte, wild: int -> byte,
      d': Data, epoch: nat)
    requires Sound(d1, REDO, epoch) && HasEntry(d1.logs, k) && n > 0 && off + n <= |d1.file|
    requires EntryFits(d1.logs.tables[k.region].size, k.index, EntryOf(d1.logs, k))
    requires off == base + lo && lo + n <= SizeOf(d1.logs, k)
    requires d' == d1.(logs := PutEntry(d1.logs, k,
               WrittenEntry(EntryOf(d1.logs, k), REDO, lo, n, src, Peek(d1.file, wild), off)))
    requires Bounded(d'.logs) && Dated(d'.logs, REDO, epoch)
    requires Sized(d1.logs, base) && KeyOf(d1.logs, base) == k && StartOf(d1.logs, base) == base
    requires EntryOf(d1.logs, k).word.len == 0 || EntryOf(d1.logs, k).dst == base
    ensures Sound(d', REDO, epoch) && ViewOf(d', REDO) == Splice(ViewOf(d1, REDO), off, FromFile(src, 0, n))
  {
    var e, mem := EntryOf(d1.logs, k), Peek(d1.file, wild);
    WrittenOverwrites(e, mem, base, lo, n, src);
    PutOwn(d1, k, base, WrittenEntry(e, REDO, lo, n, src, mem, off), lo, n, src, mem, d', epoch);
  }

  /** Past checkpoint_entry, the slot logs nothing or the block at hand, and the view is the same. */
  lemma ReadyToWrite(d: Data, epoch: nat, off: nat)
    requires Sound(d, REDO, epoch) && HasEntry(d.logs, KeyOf(d.logs, off)) && OwnsOrOld(d.logs, epoch, off)
    requires EntryFits(d.logs.tables[TableOf(d.logs, off)].size, KeyOf(d.logs, off).index,
             EntryOf(d.logs, KeyOf(d.logs, off)))
    ensures var k := KeyOf(d.logs, off);
            var d1 := Renewed(d, k, REDO, epoch);
            && Sound(d1, REDO, epoch) && ViewOf(d1, REDO) == ViewOf(d, REDO) && |d1.file| == |d.file|
            && HasEntry(d1.logs, k) && EntryFits(d1.logs.tables[k.region].size, k.index, EntryOf(d1.logs, k))
            && Sized(d1.logs, off)
            && var base := StartOf(d1.logs, off);
               && Sized(d1.logs, base) && KeyOf(d1.logs, base) == k && StartOf(d1.logs, base) == base
               && SizeAt(d1.logs, base) == SizeOf(d.logs, k) && off == base + off % SizeOf(d.logs, k)
               && (EntryOf(d1.logs, k).word.len == 0 || EntryOf(d1.logs, k).dst == base)
  {
    var k := KeyOf(d.logs, off);
    RenewedKeepsView(d, k, epoch);
    RenewedKeeps(d, k, REDO, epoch);
    RenewedOwns(d, off, epoch);
    StartIsStart(Renewed(d, k, REDO, epoch).logs, off);
  }

  lemma WriteOneHome(d: Data, epoch: nat, off: nat, n: nat, src: int -> byte, wild: int -> byte)
    requires Sound(d, REDO, epoch) && n > 0 && OneBlock(d.logs, off, n) && AtHome(d.logs) && off / REGION < d.logs.cov
    requires EntryFits(d.logs.tables[TableOf(d.logs, off)].size, KeyOf(d.logs, off).index,
             EntryOf(d.logs, KeyOf(d.logs, off)))
    ensures AtHome(WriteOne(d, KeyOf(d.logs, off), REDO, epoch, off, n, src, wild).logs)
  {
    var k := KeyOf(d.logs, off);
    var d1 := Renewed(d, k, REDO, epoch);
    RenewedKeeps(d, k, REDO, epoch);
    RenewedHome(d, k, epoch);
    StartIsStart(d.logs, off);
    var lo := Low(off, SizeOf(d.logs, k));
    PutHome(d1.logs, k, WrittenEntry(EntryOf(d1.logs, k), REDO, lo, n, src, Peek(d1.file, wild), off));
  }

  lemma PutOwn(d1: Data, k: Key, base: nat, e': Entry, lo: nat, n: nat, src: int -> byte, mem: int -> byte, d': Data,
      epoch: nat)
    requires Sound(d1, REDO, epoch) && HasEntry(d1.logs, k) && d' == d1.(logs := PutEntry(d1.logs, k, e'))
    requires Bounded(d'.logs) && Dated(d'.logs, REDO, epoch)
    requires EntryFits(d1.logs.tables[k.region].size, k.index, EntryOf(d1.logs, k))
    requires Sized(d1.logs, base) && KeyOf(d1.logs, base) == k && StartOf(d1.logs, base) == base
    requires EntryOf(d1.logs, k).word.len == 0 || EntryOf(d1.logs, k).dst == base
    requires lo + n <= SizeAt(d1.logs, base) && base + lo + n <= |d1.file|
    requires forall i :: 0 <= i < |d1.file| ==> mem(i) == d1.file[i]
    requires Overwrites(EntryOf(d1.logs, k), e', mem, base, lo, n, src)
    ensures Sound(d', REDO, epoch) && ViewOf(d', REDO) == Splice(ViewOf(d1, REDO), base + lo, FromFile(src, 0, n))
  {
    PutLayout(d1.logs, k, e');
    assert PlacedAt(d1, k);
    PutPlaced(d1, k, e', d');
    PutShows(d1, k, base, e', lo, n, src, mem, d');
  }

  lemma PutLayout(t: Index, k: Key, e: Entry)
    requires HasEntry(t, k)
    ensures SameLayout(t, PutEntry(t, k, e)) && HasEntry(PutEntry(t, k, e), k) && EntryOf(PutEntry(t, k, e), k) == e
  {
  }

  lemma PutOthers(t: Index, k: Key, e: Entry)
    requires HasEntry(t, k)
    ensures forall k' :: HasEntry(PutEntry(t, k, e), k') && k' != k ==>
              HasEntry(t, k') && EntryOf(PutEntry(t, k, e), k') == EntryOf(t, k')
    ensures forall k' :: HasEntry(t, k') && k' != k ==>
              HasEntry(PutEntry(t, k, e), k') && EntryOf(PutEntry(t, k, e), k') == EntryOf(t, k')
  {
  }

  lemma LayoutTrans(t: Index, t': Index, t'': Index)
    requires SameLayout(t, t') && SameLayout(t', t'')
    ensures SameLayout(t, t'')
  {
  }

  lemma IsWriteOne(d: Data, d1: Data, k: Key, p: Policy, epoch: nat, off: nat, n: nat, src: int -> byte,
      wild: int -> byte, lo: nat, m: nat, e': Entry)
    requires HasEntry(d.logs, k) && EntryFits(d.logs.tables[k.region].size, k.index, EntryOf(d.logs, k)) && n > 0
    requires d1 == Renewed(d, k, p, epoch) && lo == off % SizeOf(d.logs, k) && lo <= off
    requires HasEntry(d1.logs, k) && |EntryOf(d1.logs, k).log| == SizeOf(d.logs, k)
             && InBlock(EntryOf(d1.logs, k).word, SizeOf(d.logs, k))
    requires m == Min(n, SizeOf(d.logs, k) - lo) && m > 0
    requires e' == WrittenEntry(EntryOf(d1.logs, k), p, lo, m, src, Peek(d1.file, wild), off)
    ensures d1.(logs := PutEntry(d1.logs, k, e')) == WriteOne(d, k, p, epoch, off, n, src, wild)
    ensures m == StepLength(d.logs, k, off, n)
  {
  }

  lemma RenewedHome(d: Data, k: Key, epoch: nat)
    requires HasEntry(d.logs, k) && InBlock(EntryOf(d.logs, k).word, |EntryOf(d.logs, k).log|) && AtHome(d.logs)
    ensures AtHome(Renewed(d, k, REDO, epoch).logs)
  {
    if EntryOf(d.logs, k).word.epoch < epoch {
      PutHome(d.logs, k, EntryOf(d.logs, k).(word := Word(Trunc(epoch), 0, 0, REDO)));
    }
  }

  lemma PutHome(t: Index, k: Key, e: Entry)
    requires HasEntry(t, k) && AtHome(t) && (e.word.len > 0 ==> e.dst / REGION < t.cov)
    ensures AtHome(PutEntry(t, k, e))
  {
    var t' := PutEntry(t, k, e);
    PutLayout(t, k, e);
    forall k' | HasEntry(t', k') && EntryOf(t', k').word.len > 0 ensures EntryOf(t', k').dst / REGION < t'.cov {
      SameHas(t, t', k');
      assert k' != k ==> EntryOf(t', k') == EntryOf(t, k');
    }
  }

  // ----- the loops over the locked entries, in list order

  predicate AllEntries(t: Index, keys: seq<Key>) {
    forall i :: 0 <= i < |keys| ==> HasEntry(t, keys[i])
  }

  /** mmio_write between two entries: the data, `off` and `n`. */
  datatype Progress = Progress(d: Data, off: nat, n: nat)

  /** One turn of mmio_write's loop (src/mmio.c:301-389).  `off`, `dst` and `src` move on with each entry; `n` is cut to
      what fits into the block and is not recomputed from what is left of the request. */
  ghost predicate Turn(m: Progress, k: Key, m': Progress, p: Policy, epoch: nat, offset: nat, src: int -> byte,
      wild: int -> byte) {
    && HasEntry(m.d.logs, k) && EntryFits(m.d.logs.tables[k.region].size, k.index, EntryOf(m.d.logs, k)) && m.n > 0
    && m'.d == WriteOne(m.d, k, p, epoch, m.off, m.n, Shift(src, m.off - offset), wild)
    && m'.n == StepLength(m.d.logs, k, m.off, m.n) && m'.off == m.off + m'.n
  }

  /** The whole loop over the list of entries. */
  ghost predicate WriteRun(ms: seq<Progress>, keys: seq<Key>, p: Policy, epoch: nat, offset: nat, src: int -> byte,
      wild: int -> byte) {
    && |ms| == |keys| + 1
    && forall i :: 0 <= i < |keys| ==> TurnAt(ms, keys, i, p, epoch, offset, src, wild)
  }

  ghost predicate TurnAt(ms: seq<Progress>, keys: seq<Key>, i: int, p: Policy, epoch: nat, offset: nat,
      src: int -> byte, wild: int -> byte)
    requires |ms| == |keys| + 1 && 0 <= i < |keys|
  {
    Turn(ms[i], keys[i], ms[i + 1], p, epoch, offset, src, wild)
  }

  lemma PrefixNext<T>(s: seq<T>, i: nat)
    requires i < |s|
    ensures s[..i] + [s[i]] == s[..i + 1]
  {
  }

  lemma RunAppend(ms: seq<Progress>, keys: seq<Key>, m': Progress, k: Key, p: Policy, epoch: nat, offset: nat,
      src: int -> byte, wild: int -> byte)
    requires WriteRun(ms, keys, p, epoch, offset, src, wild)
    requires Turn(ms[|keys|], k, m', p, epoch, offset, src, wild)
    ensures WriteRun(ms + [m'], keys + [k], p, epoch, offset, src, wild)
  {
    var ms', keys' := ms + [m'], keys + [k];
    forall i | 0 <= i < |keys'| ensures TurnAt(ms', keys', i, p, epoch, offset, src, wild) {
      if i < |keys| {
        assert TurnAt(ms, keys, i, p, epoch, offset, src, wild);
      }
    }
  }

  /** What a run keeps, whatever the request and the list: every entry stays in its block, under the file's policy and
      with its log size; under UNDO the file is not touched. */
  ghost predicate Kept(d: Data, d': Data, p: Policy, epoch: nat) {
    && Bounded(d'.logs) && Dated(d'.logs, p, epoch) && SameLayout(d.logs, d'.logs)
    && |d'.file| == |d.file| && (p == UNDO ==> d'.file == d.file)
  }

  lemma WriteOneKept(d0: Data, d: Data, k: Key, p: Policy, epoch: nat, off: nat, n: nat, src: int -> byte,
      wild: int -> byte, d': Data)
    requires Kept(d0, d, p, epoch) && HasEntry(d.logs, k) && n > 0
    requires EntryFits(d.logs.tables[k.region].size, k.index, EntryOf(d.logs, k))
    requires d' == WriteOne(d, k, p, epoch, off, n, src, wild)
    ensures Kept(d0, d', p, epoch) && StepLength(d.logs, k, off, n) > 0
  {
    WriteOneBounded(d, k, p, epoch, off, n, src, wild);
  }

  lemma TurnKeeps(m: Progress, k: Key, m': Progress, d: Data, p: Policy, epoch: nat, offset: nat, src: int -> byte,
      wild: int -> byte)
    requires Kept(d, m.d, p, epoch) && Turn(m, k, m', p, epoch, offset, src, wild)
    ensures Kept(d, m'.d, p, epoch) && m'.n > 0
  {
    WriteOneKept(d, m.d, k, p, epoch, m.off, m.n, Shift(src, m.off - offset), wild, m'.d);
  }

  lemma TurnAtKeeps(ms: seq<Progress>, keys: seq<Key>, i: nat, p: Policy, epoch: nat, offset: nat, src: int -> byte,
      wild: int -> byte)
    requires WriteRun(ms, keys, p, epoch, offset, src, wild) && i < |keys| && Kept(ms[0].d, ms[i].d, p, epoch)
    ensures Kept(ms[0].d, ms[i + 1].d, p, epoch) && ms[i + 1].n > 0
  {
    assert TurnAt(ms, keys, i, p, epoch, offset, src, wild);
    TurnKeeps(ms[i], keys[i], ms[i + 1], ms[0].d, p, epoch, offset, src, wild);
  }

  lemma KeptSame(d: Data, p: Policy, epoch: nat)
    requires Bounded(d.logs) && Dated(d.logs, p, epoch)
    ensures Kept(d, d, p, epoch)
  {
  }

  lemma {:induction false} RunKeeps(ms: seq<Progress>, keys: seq<Key>, i: nat, p: Policy, epoch: nat, offset: nat,
      src: int -> byte, wild: int -> byte)
    requires WriteRun(ms, keys, p, epoch, offset, src, wild) && i <= |keys|
    requires Bounded(ms[0].d.logs) && Dated(ms[0].d.logs, p, epoch) && (keys != [] ==> ms[0].n > 0)
    ensures Kept(ms[0].d, ms[i].d, p, epoch) && (keys != [] ==> ms[i].n > 0)
  {
    if i == 0 {
      KeptSame(ms[0].d, p, epoch);
    } else {
      RunKeeps(ms, keys, i - 1, p, epoch, offset, src, wild);
      TurnAtKeeps(ms, keys, i - 1, p, epoch, offset, src, wild);
    }
  }

  /** The source buffer from its byte `pos` on. */
  function Shift(src: int -> byte, pos: int): int -> byte {
    j => src(j + pos)
  }

  // ----- read_redolog

  /** Memory of the mapping addressed from `start`. */
  function MemAt(file: seq<byte>, wild: int -> byte, start: int): int -> byte {
    i => if 0 <= start + i < |file| then file[start + i] else wild(start + i)
  }

  /** read_redolog's part for one entry (src/mmio.c:428-538). */
  function ReadOne(d: Data, k: Key, off: nat, len: nat, wild: int -> byte): seq<byte>
    requires HasEntry(d.logs, k) && EntryFits(d.logs.tables[k.region].size, k.index, EntryOf(d.logs, k))
  {
    var e, lo := EntryOf(d.logs, k), off % SizeOf(d.logs, k);
    ReadBlock(MemAt(d.file, wild, off - lo), e.log, e.word, lo, StepLength(d.logs, k, off, len))
  }

  /** read_redolog between two entries: `offset`, `len` and what has been copied. */
  datatype Cursor = Cursor(off: nat, left: nat, buf: seq<byte>)

  ghost predicate ReadTurn(d: Data, c: Cursor, k: Key, c': Cursor, wild: int -> byte) {
    && HasEntry(d.logs, k) && EntryFits(d.logs.tables[k.region].size, k.index, EntryOf(d.logs, k))
    && var out := ReadOne(d, k, c.off, c.left, wild);
       c'.buf == c.buf + out && c'.off == c.off + |out| && c'.left == c.left - |out|
  }

  /** The whole loop over the list of entries. */
  ghost predicate ReadRun(d: Data, cs: seq<Cursor>, keys: seq<Key>, wild: int -> byte) {
    |cs| == |keys| + 1 && forall i :: 0 <= i < |keys| ==> ReadTurnAt(d, cs, keys, i, wild)
  }

  ghost predicate ReadTurnAt(d: Data, cs: seq<Cursor>, keys: seq<Key>, i: int, wild: int -> byte)
    requires |cs| == |keys| + 1 && 0 <= i < |keys|
  {
    ReadTurn(d, cs[i], keys[i], cs[i + 1], wild)
  }

  lemma ReadAppend(d: Data, cs: seq<Cursor>, keys: seq<Key>, c': Cursor, k: Key, wild: int -> byte)
    requires ReadRun(d, cs, keys, wild) && ReadTurn(d, cs[|keys|], k, c', wild)
    ensures ReadRun(d, cs + [c'], keys + [k], wild)
  {
    var cs', keys' := cs + [c'], keys + [k];
    forall i | 0 <= i < |keys'| ensures ReadTurnAt(d, cs', keys', i, wild) {
      if i < |keys| {
        assert ReadTurnAt(d, cs, keys, i, wild);
      }
    }
  }

  /** The request overruns the log of its block (src/mmio.c:470-492). */
  predicate Overruns(t: Index, off: nat, n: nat) {
    HasEntry(t, KeyOf(t, off)) && OverrunsLog(EntryOf(t, KeyOf(t, off)).word, off % SizeAt(t, off), n)
  }

  /** Read refinement: a read inside one block, from a slot that is its own, that does not overrun the log returns the
      view. */
  lemma ReadOneRefines(d: Data, off: nat, n: nat, wild: int -> byte)
    requires Bounded(d.logs) && off + n <= |d.file| && OneBlock(d.logs, off, n) && Owns(d.logs, off)
             && !Overruns(d.logs, off, n)
    requires EntryFits(d.logs.tables[TableOf(d.logs, off)].size, KeyOf(d.logs, off).index,
             EntryOf(d.logs, KeyOf(d.logs, off)))
    ensures ReadOne(d, KeyOf(d.logs, off), off, n, wild) == ViewOf(d, REDO)[off..off + n]
  {
    var k := KeyOf(d.logs, off);
    var e, lo, mem := EntryOf(d.logs, k), off % SizeAt(d.logs, off),
      MemAt(d.file, wild, off - off % SizeAt(d.logs, off));
    assert StepLength(d.logs, k, off, n) == n;
    ReadIsView(mem, e.log, e.word, lo, n);
    var out := ReadOne(d, k, off, n, wild);
    forall j | 0 <= j < n ensures out[j] == ByteAt(d, REDO, off + j) {
      assert out[j] == ViewAt(mem, e.log, e.word, lo + j);
      BlockShowsView(d, wild, off, j);
    }
  }

  lemma BlockShowsView(d: Data, wild: int -> byte, off: nat, j: nat)
    requires Bounded(d.logs) && off + j < |d.file| && HasEntry(d.logs, KeyOf(d.logs, off)) && Owns(d.logs, off)
    requires off % SizeAt(d.logs, off) + j < SizeAt(d.logs, off)
    requires EntryFits(d.logs.tables[TableOf(d.logs, off)].size, KeyOf(d.logs, off).index,
             EntryOf(d.logs, KeyOf(d.logs, off)))
    ensures var e, lo := EntryOf(d.logs, KeyOf(d.logs, off)), off % SizeAt(d.logs, off);
            ByteAt(d, REDO, off + j) == ViewAt(MemAt(d.file, wild, off - lo), e.log, e.word, lo + j)
  {
    StartIsStart(d.logs, off);
    BlockSpan(d.logs, StartOf(d.logs, off), off + j);
  }

  // ----- locking a request grows the tables

  /** `t'` has what `t` has; what is new logs nothing. */
  ghost predicate Grown(t: Index, t': Index) {
    && t'.cov == t.cov && (forall r :: r in t.tables ==> GrownTable(t, t', r))
    && forall k :: HasEntry(t', k) ==> GrownEntry(t, t', k)
  }

  ghost predicate GrownTable(t: Index, t': Index, r: nat)
    requires r in t.tables
  {
    && r in t'.tables && (t.tables[r].size < UNSIZED ==> t'.tables[r].size == t.tables[r].size)
    && forall i :: i in t.tables[r].entries ==>
         i in t'.tables[r].entries && t'.tables[r].entries[i] == t.tables[r].entries[i]
  }

  ghost predicate GrownEntry(t: Index, t': Index, k: Key)
    requires HasEntry(t', k)
  {
    HasEntry(t, k) || EntryOf(t', k).word.len == 0
  }

  lemma GrownTrans(t: Index, t': Index, t'': Index)
    requires Grown(t, t') && Grown(t', t'')
    ensures Grown(t, t'')
  {
  }

  lemma GrownKey(t: Index, t': Index, k: Key)
    requires Grown(t, t') && HasEntry(t, k)
    ensures HasEntry(t', k) && EntryOf(t', k) == EntryOf(t, k) && SizeOf(t', k) == SizeOf(t, k)
  {
  }

  lemma GrownStart(t: Index, t': Index, i: nat)
    requires Grown(t, t') && Sized(t, i)
    ensures Sized(t', i) && KeyOf(t', i) == KeyOf(t, i) && SizeAt(t', i) == SizeAt(t, i)
            && StartOf(t', i) == StartOf(t, i)
  {
  }

  /** An entry that logs anything was there before. */
  lemma GrownLogs(t: Index, t': Index, k: Key)
    requires Grown(t, t') && Bounded(t) && HasEntry(t', k) && EntryOf(t', k).word.len > 0
    ensures HasEntry(t, k) && EntryOf(t, k) == EntryOf(t', k)
  {
    assert k.region in t.tables && k.index in t.tables[k.region].entries;
  }

  lemma GrownKeepsView(d: Data, t': Index, p: Policy)
    requires Bounded(d.logs) && Grown(d.logs, t') && Bounded(t')
    ensures ViewOf(d.(logs := t'), p) == ViewOf(d, p)
  {
    var d' := d.(logs := t');
    forall i | 0 <= i < |d.file| ensures ByteAt(d', p, i) == ByteAt(d, p, i) {
      if Logged(d.logs, i) {
        GrownKey(d.logs, t', KeyOf(d.logs, i));
        GrownStart(d.logs, t', i);
      } else if Logged(t', i) {
        GrownLogs(d.logs, t', KeyOf(t', i));
      }
    }
  }

  lemma GrownSound(d: Data, t': Index, p: Policy, epoch: nat)
    requires Sound(d, p, epoch) && Grown(d.logs, t') && Bounded(t') && Dated(t', p, epoch)
    ensures Sound(d.(logs := t'), p, epoch)
  {
    var d' := d.(logs := t');
    if p == REDO {
      forall k | HasEntry(t', k) ensures PlacedAt(d', k) {
        if EntryOf(t', k).word.len > 0 {
          GrownLogs(d.logs, t', k);
          assert PlacedAt(d, k);
          GrownStart(d.logs, t', EntryOf(t', k).dst);
        }
      }
    }
  }

  /** What get_log_table, get_log_size and get_log_entry make of the block of `off` for a request that goes on for `n`
      bytes from there: its table exists, with the least log size that holds the request unless it had one, and it has
      an entry that logs nothing unless it had one.  Nothing else changes. */
  ghost predicate Reaches(t: Index, t': Index, epoch: nat, off: nat, n: nat) {
    var r := TableOf(t, off);
    && t'.cov == t.cov && t'.tables.Keys == t.tables.Keys + {r}
    && (forall q :: q in t.tables && q != r ==> t'.tables[q] == t.tables[q])
    && t'.tables[r].size == SizeChosen(t, off, n) && HasEntry(t', KeyOf(t', off))
    && OneMoreEntry(if r in t.tables then t.tables[r].entries else map[], t'.tables[r].entries, KeyOf(t', off).index,
                    epoch)
  }

  function SizeChosen(t: Index, off: nat, n: nat): LogSize {
    if Sized(t, off) then t.tables[TableOf(t, off)].size else LeastSize(off, n)
  }

  ghost predicate OneMoreEntry(es: map<nat, Entry>, es': map<nat, Entry>, index: nat, epoch: nat) {
    && es'.Keys == es.Keys + {index} && (forall i :: i in es ==> es'[i] == es[i])
    && (index !in es ==> es'[index].word == Word(Trunc(epoch), 0, 0, UNDO) && es'[index].dst == 0)
  }

  lemma ReachesGrown(t: Index, t': Index, epoch: nat, off: nat, n: nat)
    requires Bounded(t) && Reaches(t, t', epoch, off, n)
    ensures Grown(t, t')
  {
  }

  /** What is there stays as it is. */
  lemma ReachesAgain(t: Index, t': Index, epoch: nat, off: nat, n: nat)
    requires Reaches(t, t', epoch, off, n) && HasEntry(t, KeyOf(t, off))
    ensures t' == t
  {
    var r := TableOf(t, off);
    assert t'.tables[r].entries == t.tables[r].entries;
    assert t'.tables[r] == t.tables[r];
    assert t'.tables == t.tables;
  }

  /** Whose slot it is does not change. */
  lemma GrownOwns(t: Index, t': Index, epoch: nat, off: nat)
    requires Grown(t, t') && Bounded(t)
    ensures Owns(t, off) ==> Owns(t', off)
    ensures OwnsOrOld(t, epoch, off) ==> OwnsOrOld(t', epoch, off)
    ensures AtHome(t) ==> AtHome(t')
  {
    var k := KeyOf(t', off);
    if HasEntry(t', k) && EntryOf(t', k).word.len > 0 {
      GrownLogs(t, t', k);
      GrownStart(t, t', off);
    }
    if HasEntry(t, KeyOf(t, off)) {
      GrownKey(t, t', KeyOf(t, off));
      GrownStart(t, t', off);
    }
    if AtHome(t) {
      forall k | HasEntry(t', k) && EntryOf(t', k).word.len > 0 ensures EntryOf(t', k).dst / REGION < t'.cov {
        GrownLogs(t, t', k);
      }
    }
  }
}
