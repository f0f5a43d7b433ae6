/** What the operations of src/mmio.c do to a file, as values: the blocks that a request locks, the loops over them,
    checkpoints, and what of all this a reader and recovery see.  The class in Mmio is proved against it. */
module MmioSpec {
  import opened Pmem
  import opened BlockLog
  import opened Geometry
  import opened Arithmetic
  import opened MmioData
  import RadixLog
  import opened Recovery

  // ----- the blocks of a request

  /** The conversion of a length to int, 32 bits wide (src/mmio.c:23, 296). */
  function AsInt(len: nat): int {
    var low := len % 0x1_0000_0000;
    if low < 0x8000_0000 then low else low - 0x1_0000_0000
  }

  /** How many bytes of a request LOCK_ENTRIES goes through: none if the int is negative. */
  function Locked(len: nat): (n: nat)
    ensures n == len <==> len < 0x8000_0000
  {
    Max(0, AsInt(len))
  }

  lemma OneBlockLocked(t: Index, off: nat, len: nat)
    requires OneBlock(t, off, len)
    ensures Locked(len) == len
  {
    SizesOf(t.tables[TableOf(t, off)].size);
  }

  /** Each is the start of a block that has an entry. */
  ghost predicate AllStarts(t: Index, starts: seq<nat>) {
    forall i :: 0 <= i < |starts| ==> HasEntry(t, KeyOf(t, starts[i])) && StartOf(t, starts[i]) == starts[i]
  }

  ghost predicate Adjacent(t: Index, starts: seq<nat>)
    requires AllStarts(t, starts)
  {
    forall i :: 0 <= i < |starts| - 1 ==> starts[i + 1] == starts[i] + SizeAt(t, starts[i])
  }

  /** The starts of the blocks of a request, lowest first: adjacent, with nothing to spare at either end. */
  ghost predicate Tiling(t: Index, starts: seq<nat>, offset: nat, len: nat) {
    && AllStarts(t, starts) && Adjacent(t, starts) && (starts == [] <==> len == 0)
    && (starts != [] ==>
         && Sized(t, offset) && starts[0] == StartOf(t, offset)
         && starts[|starts| - 1] < offset + len <= starts[|starts| - 1] + SizeAt(t, starts[|starts| - 1]))
  }

  /** The list has the entries of the blocks, the last block in front. */
  ghost predicate Lists(t: Index, keys: seq<Key>, starts: seq<nat>) {
    |keys| == |starts| && forall i :: 0 <= i < |starts| ==> keys[i] == KeyOf(t, starts[|starts| - 1 - i])
  }

  /** As far as `starts` has come from `offset`. */
  ghost predicate TiledTo(t: Index, starts: seq<nat>, offset: nat, off: nat) {
    && AllStarts(t, starts) && Adjacent(t, starts) && (starts == [] ==> off == offset)
    && (starts != [] ==>
         && Sized(t, offset) && starts[0] == StartOf(t, offset) && offset < off
         && off == starts[|starts| - 1] + SizeAt(t, starts[|starts| - 1]))
  }

  // ----- blocks repeat with the coverage

  /** The table that TableOf names is the one that the walk from the shortcut of the radix tree finds, and that a full
      walk finds for the region of that number. */
  lemma {:induction false} TableIsFound(root: RadixLog.Root, t: Index, off: nat)
    requires root.Valid() && t.cov == root.Coverage()
    ensures var found := root.Short(RadixLog.Region(off));
            && found == root.Full(TableOf(t, off))
            && (found.Some? ==> found.value in root.place && root.place[found.value] == TableOf(t, off))
  {
    root.SkipWalk(RadixLog.Region(off));
    FoldedRegion(off, root.heap[root.skip].level);
  }

  lemma FoldedRegion(off: nat, n: RadixLog.Level)
    ensures RadixLog.Region(off) % RadixLog.Span(n) == (off / REGION) % RadixLog.Span(n)
  {
    ModOfMod(off / REGION, RadixLog.Span(n), RadixLog.Span(5 - n));
  }

  function Period(t: Index): nat { t.cov * REGION }

  /** The block one coverage further up has the same slot. */
  lemma Wraps(t: Index, x: nat)
    requires Sized(t, x) && StartOf(t, x) == x
    ensures Sized(t, x + Period(t)) && KeyOf(t, x + Period(t)) == KeyOf(t, x)
    ensures StartOf(t, x + Period(t)) == x + Period(t)
  {
    var s, r, y := t.tables[TableOf(t, x)].size, x / REGION, x + Period(t);
    AddressOfPlace(s, x);
    assert y == Address(s, r + t.cov, TableIndex(s, x), 0);
    PlaceOfAddress(s, r + t.cov, TableIndex(s, x), 0);
    AddMod(r, t.cov);
  }

  /** Blocks less than one coverage apart have different slots. */
  lemma SlotsDiffer(t: Index, x: nat, y: nat)
    requires Sized(t, x) && StartOf(t, x) == x && Sized(t, y) && StartOf(t, y) == y && x < y < x + Period(t)
    ensures KeyOf(t, x) != KeyOf(t, y)
  {
    var s, s' := t.tables[TableOf(t, x)].size, t.tables[TableOf(t, y)].size;
    AddressOfPlace(s, x);
    AddressOfPlace(s', y);
    if s == s' && TableIndex(s, x) == TableIndex(s, y) {
      var a, b := x / REGION, y / REGION;
      assert y - x == (b - a) * REGION;
      assert a < b < a + t.cov;
      ModDiffers(a, b, t.cov);
    }
  }

  /** Blocks do not overlap. */
  lemma BlocksApart(t: Index, x: nat, y: nat)
    requires Sized(t, x) && StartOf(t, x) == x && Sized(t, y) && StartOf(t, y) == y && x < y
    ensures x + SizeAt(t, x) <= y
  {
    BlockSpan(t, x, y);
  }

  /** Where a block ends another one starts: blocks of smaller and larger logs alike are aligned. */
  lemma NextIsStart(t: Index, x: nat, off: nat)
    requires Sized(t, x) && StartOf(t, x) == x && off == x + SizeAt(t, x) && Sized(t, off)
    ensures StartOf(t, off) == off
  {
    var s, s', r := t.tables[TableOf(t, x)].size, t.tables[TableOf(t, off)].size, x / REGION;
    AddressOfPlace(s, x);
    BlockOf(s, r, TableIndex(s, x));
    TableFillsRegion(s');
    if off < (r + 1) * REGION {
      assert off / REGION == r;
      EndAligned(off, x, Bytes(s));
    } else {
      assert off == (r + 1) * REGION;
      MultipleAligned(r + 1, Slots(s'), Bytes(s'));
    }
  }

  // ----- what LOCK_ENTRIES makes of the tables

  /** The tables as they were at first, and each time after the block of `off` was reached. */
  datatype Locks = Start(t: Index) | Then(before: Locks, off: nat, t: Index)

  function KeysOf(l: Locks): seq<Key> {
    match l
    case Start(_) => []
    case Then(before, off, t) => [KeyOf(t, off)] + KeysOf(before)
  }

  function StartsOf(l: Locks): seq<nat> {
    match l
    case Start(_) => []
    case Then(before, off, t) => StartsOf(before) + [if Sized(t, off) then StartOf(t, off) else off]
  }

  /** It has come to `off`. */
  ghost predicate ComesTo(l: Locks, offset: nat, off: nat) {
    match l
    case Start(_) => off == offset
    case Then(_, x, t) => Sized(t, x) && off == StartOf(t, x) + SizeAt(t, x)
  }

  /** The tables are `t0` at first; the blocks of the request are reached from the lowest on, each for what is left of
      the request, and none a second time. */
  ghost predicate LockRun(l: Locks, t0: Index, epoch: nat, offset: nat, len: nat) {
    match l
    case Start(t) => t == t0
    case Then(before, off, t) =>
      && LockRun(before, t0, epoch, offset, len) && ComesTo(before, offset, off) && off < offset + len
      && Bounded(before.t) && Reaches(before.t, t, epoch, off, offset + len - off) && KeyOf(t, off) !in KeysOf(before)
  }

  /** What is reached stays. */
  lemma {:induction false} LockGrows(l: Locks, t0: Index, epoch: nat, offset: nat, len: nat)
    requires LockRun(l, t0, epoch, offset, len) && l.Then?
    ensures HasEntry(l.t, KeyOf(l.t, offset)) && SizeAt(l.t, offset) == Bytes(SizeChosen(t0, offset, len))
  {
    var before, t, off := l.before, l.t, l.off;
    if before.Then? {
      LockGrows(before, t0, epoch, offset, len);
      ReachesGrown(before.t, t, epoch, off, offset + len - off);
      GrownStart(before.t, t, offset);
      GrownKey(before.t, t, KeyOf(before.t, offset));
    }
  }

  /** The block of the first byte will hold the request: it has, or will choose, a log size that is large enough. */
  predicate Fits(t: Index, offset: nat, len: nat) {
    var b := Bytes(SizeChosen(t, offset, len));
    offset % b + len <= b
  }

  /** Before and after locking: a request lies in one block exactly if it was to fit. */
  lemma LockFits(l: Locks, t0: Index, epoch: nat, offset: nat, len: nat)
    requires LockRun(l, t0, epoch, offset, len) && l.Then?
    ensures OneBlock(l.t, offset, len) <==> Fits(t0, offset, len)
  {
    LockGrows(l, t0, epoch, offset, len);
  }

  /** In particular a request of at most a region that starts a region without a log size, such as a first write. */
  lemma RegionFits(t: Index, offset: nat, len: nat)
    requires !Sized(t, offset) && offset % REGION == 0 && len <= REGION
    ensures Fits(t, offset, len)
  {
    var s := LeastSize(offset, len);
    SizesOf(s);
    TableFillsRegion(0);
    MultipleAligned(offset / REGION, Slots(s), Bytes(s));
    MultipleAligned(offset / REGION, Slots(0), Bytes(0));
  }

  // ----- the loop of LOCK_ENTRIES

  /** It has come to `off`, not further than one coverage from its first block. */
  ghost predicate Locking(t0: Index, t: Index, keys: seq<Key>, starts: seq<nat>, offset: nat, off: nat, len: nat) {
    && Grown(t0, t) && TiledTo(t, starts, offset, off) && Lists(t, keys, starts)
    && (starts != [] ==> len > 0 && starts[|starts| - 1] < offset + len && off <= starts[0] + Period(t))
  }

  /** Starts do not move when tables grow. */
  lemma LockingGrown(t0: Index, t: Index, t': Index, keys: seq<Key>, starts: seq<nat>, offset: nat, off: nat, len: nat)
    requires Locking(t0, t, keys, starts, offset, off, len) && Grown(t, t')
    ensures Locking(t0, t', keys, starts, offset, off, len)
  {
    GrownTrans(t0, t, t');
    forall i | 0 <= i < |starts|
      ensures HasEntry(t', KeyOf(t', starts[i])) && KeyOf(t', starts[i]) == KeyOf(t, starts[i])
              && StartOf(t', starts[i]) == starts[i] && SizeAt(t', starts[i]) == SizeAt(t, starts[i])
    {
      GrownKey(t, t', KeyOf(t, starts[i]));
      GrownStart(t, t', starts[i]);
    }
    if starts != [] {
      GrownStart(t, t', offset);
    }
  }

  /** The block at `off`. */
  lemma LockingNext(t0: Index, t: Index, keys: seq<Key>, starts: seq<nat>, offset: nat, off: nat, len: nat)
    requires Locking(t0, t, keys, starts, offset, off, len) && HasEntry(t, KeyOf(t, off))
    ensures if starts == [] then off == offset else StartOf(t, off) == off
    ensures Sized(t, StartOf(t, off)) && StartOf(t, StartOf(t, off)) == StartOf(t, off)
            && KeyOf(t, StartOf(t, off)) == KeyOf(t, off)
    ensures SizeAt(t, StartOf(t, off)) == SizeAt(t, off) && StartOf(t, off) <= off < StartOf(t, off) + SizeAt(t, off)
  {
    BlockAt(t, off);
    if starts != [] {
      LastEnds(t, starts, off);
    }
  }

  lemma BlockAt(t: Index, off: nat)
    requires Sized(t, off)
    ensures Sized(t, StartOf(t, off)) && StartOf(t, StartOf(t, off)) == StartOf(t, off)
            && KeyOf(t, StartOf(t, off)) == KeyOf(t, off)
    ensures SizeAt(t, StartOf(t, off)) == SizeAt(t, off) && StartOf(t, off) <= off < StartOf(t, off) + SizeAt(t, off)
  {
    StartIsStart(t, off);
  }

  lemma LastEnds(t: Index, starts: seq<nat>, off: nat)
    requires AllStarts(t, starts) && starts != [] && Sized(t, off)
             && off == starts[|starts| - 1] + SizeAt(t, starts[|starts| - 1])
    ensures StartOf(t, off) == off
  {
    NextIsStart(t, starts[|starts| - 1], off);
  }

  /** Its entry is on the list already exactly when the loop has come one coverage from its first block. */
  lemma LockingRepeats(t0: Index, t: Index, keys: seq<Key>, starts: seq<nat>, offset: nat, off: nat, len: nat)
    requires Locking(t0, t, keys, starts, offset, off, len) && HasEntry(t, KeyOf(t, off)) && off < offset + len
    ensures KeyOf(t, off) in keys <==> starts != [] && off == starts[0] + Period(t)
  {
    LockingNext(t0, t, keys, starts, offset, off, len);
    if starts != [] && off == starts[0] + Period(t) {
      Wraps(t, starts[0]);
      assert keys[|keys| - 1] == KeyOf(t, starts[0]);
    } else {
      forall i | 0 <= i < |keys| ensures keys[i] != KeyOf(t, off) {
        var j := |starts| - 1 - i;
        FirstIsLowest(t, starts, j);
        LastIsHighest(t, starts, j);
        SlotsDiffer(t, starts[j], off);
      }
    }
  }

  lemma {:induction false} FirstIsLowest(t: Index, starts: seq<nat>, j: nat)
    requires AllStarts(t, starts) && Adjacent(t, starts) && j < |starts|
    ensures starts[0] <= starts[j] && (j > 0 ==> starts[0] < starts[j])
  {
    if j > 0 {
      FirstIsLowest(t, starts, j - 1);
      assert starts[j] == starts[j - 1] + SizeAt(t, starts[j - 1]);
    }
  }

  lemma {:induction false} LastIsHighest(t: Index, starts: seq<nat>, j: nat)
    requires AllStarts(t, starts) && Adjacent(t, starts) && j < |starts|
    ensures starts[j] + SizeAt(t, starts[j]) <= starts[|starts| - 1] + SizeAt(t, starts[|starts| - 1])
    ensures starts[j] <= starts[|starts| - 1]
    decreases |starts| - j
  {
    if j < |starts| - 1 {
      LastIsHighest(t, starts, j + 1);
      assert starts[j + 1] == starts[j] + SizeAt(t, starts[j]);
    }
  }

  lemma LockingMore(t0: Index, t: Index, keys: seq<Key>, starts: seq<nat>, offset: nat, off: nat, len: nat)
    requires Locking(t0, t, keys, starts, offset, off, len) && HasEntry(t, KeyOf(t, off)) && off < offset + len
    requires KeyOf(t, off) !in keys
    ensures Locking(t0, t, [KeyOf(t, off)] + keys, starts + [StartOf(t, off)], offset,
            StartOf(t, off) + SizeAt(t, off), len)
  {
    LockingRepeats(t0, t, keys, starts, offset, off, len);
    LockingNext(t0, t, keys, starts, offset, off, len);
    var x := StartOf(t, off);
    MoreStarts(t, starts, x);
    WithinPeriod(t, (starts + [x])[0], x);
  }

  lemma MoreStarts(t: Index, starts: seq<nat>, x: nat)
    requires AllStarts(t, starts) && Adjacent(t, starts) && HasEntry(t, KeyOf(t, x)) && StartOf(t, x) == x
    requires starts != [] ==> x == starts[|starts| - 1] + SizeAt(t, starts[|starts| - 1])
    ensures AllStarts(t, starts + [x]) && Adjacent(t, starts + [x])
  {
  }

  /** A block that starts before the first one comes again ends before it does. */
  lemma WithinPeriod(t: Index, first: nat, x: nat)
    requires Sized(t, first) && StartOf(t, first) == first && Sized(t, x) && StartOf(t, x) == x
    requires x < first + Period(t)
    ensures x + SizeAt(t, x) <= first + Period(t)
  {
    Wraps(t, first);
    BlocksApart(t, x, first + Period(t));
  }

  lemma {:induction false} LockIsLocking(l: Locks, t0: Index, epoch: nat, offset: nat, off: nat, len: nat)
    requires LockRun(l, t0, epoch, offset, len) && ComesTo(l, offset, off)
    ensures Locking(t0, l.t, KeysOf(l), StartsOf(l), offset, off, len)
  {
    match l
    case Start(t) => LockingNone(t, offset, len);
    case Then(before, x, t) =>
      LockIsLocking(before, t0, epoch, offset, x, len);
      LockingThen(t0, before.t, t, KeysOf(before), StartsOf(before), epoch, offset, x, off, len);
  }

  lemma LockingThen(t0: Index, t: Index, t': Index, keys: seq<Key>, starts: seq<nat>, epoch: nat, offset: nat,
      off: nat, off': nat, len: nat)
    requires Locking(t0, t, keys, starts, offset, off, len) && Bounded(t) && off < offset + len
    requires Reaches(t, t', epoch, off, offset + len - off) && KeyOf(t', off) !in keys
    requires Sized(t', off) && off' == StartOf(t', off) + SizeAt(t', off)
    ensures Locking(t0, t', [KeyOf(t', off)] + keys, starts + [if Sized(t', off) then StartOf(t', off) else off],
            offset,
                    off', len)
  {
    LockingStep(t0, t, t', keys, starts, epoch, offset, off, len);
  }

  lemma LockingNone(t: Index, offset: nat, len: nat)
    ensures Locking(t, t, [], [], offset, offset, len)
  {
  }

  /** One turn, from the state before the tables grow. */
  lemma LockingStep(t0: Index, t: Index, t': Index, keys: seq<Key>, starts: seq<nat>, epoch: nat, offset: nat,
      off: nat, len: nat)
    requires Locking(t0, t, keys, starts, offset, off, len) && Bounded(t) && off < offset + len
    requires Reaches(t, t', epoch, off, offset + len - off)
    ensures HasEntry(t', KeyOf(t', off)) && Locking(t0, t', keys, starts, offset, off, len)
    ensures KeyOf(t', off) !in keys ==>
              Locking(t0, t', [KeyOf(t', off)] + keys, starts + [StartOf(t', off)], offset,
                      StartOf(t', off) + SizeAt(t', off), len)
  {
    ReachesGrown(t, t', epoch, off, offset + len - off);
    LockingGrown(t0, t, t', keys, starts, offset, off, len);
    if KeyOf(t', off) !in keys {
      LockingMore(t0, t', keys, starts, offset, off, len);
    }
  }

  /** It repeats an entry and changes nothing, ... */
  lemma LockAgain(l: Locks, t': Index, t0: Index, epoch: nat, offset: nat, off: nat, len: nat)
    requires LockRun(l, t0, epoch, offset, len) && ComesTo(l, offset, off) && Bounded(l.t) && off < offset + len
    requires Reaches(l.t, t', epoch, off, offset + len - off) && KeyOf(t', off) in KeysOf(l)
    ensures t' == l.t && !Returns(t', offset, len)
  {
    var keys, starts := KeysOf(l), StartsOf(l);
    LockIsLocking(l, t0, epoch, offset, off, len);
    LockingStep(t0, l.t, t', keys, starts, epoch, offset, off, len);
    LockingRepeats(t0, t', keys, starts, offset, off, len);
    ListedEntries(l.t, keys, starts);
    HasReached(l.t, t', keys, KeyOf(t', off), epoch, off, offset + len - off);
  }

  /** ... or it comes to the next block. */
  lemma LockThen(l: Locks, t': Index, t0: Index, epoch: nat, offset: nat, off: nat, len: nat)
    requires LockRun(l, t0, epoch, offset, len) && ComesTo(l, offset, off) && Bounded(l.t) && off < offset + len
    requires Reaches(l.t, t', epoch, off, offset + len - off) && KeyOf(t', off) !in KeysOf(l)
    ensures LockRun(Then(l, off, t'), t0, epoch, offset, len) && Sized(t', off)
    ensures ComesTo(Then(l, off, t'), offset, off + (SizeAt(t', off) - off % SizeAt(t', off)))
  {
    EndOf(t', off);
  }

  lemma EndOf(t: Index, off: nat)
    requires Sized(t, off)
    ensures StartOf(t, off) + SizeAt(t, off) == off + (SizeAt(t, off) - off % SizeAt(t, off))
  {
  }

  lemma LockingDone(t0: Index, t: Index, keys: seq<Key>, starts: seq<nat>, offset: nat, off: nat, len: nat)
    requires Locking(t0, t, keys, starts, offset, off, len) && off >= offset + len
    ensures Tiling(t, starts, offset, len) && Lists(t, keys, starts) && Returns(t, offset, len)
  {
    if starts != [] {
      StartIsStart(t, offset);
      LastIsHighest(t, starts, 0);
    }
  }

  /** LOCK_ENTRIES comes to its end: the blocks of the request have entries of their own. */
  predicate Returns(t: Index, offset: nat, len: nat) {
    len == 0 || (Sized(t, offset) && offset + len <= StartOf(t, offset) + Period(t))
  }

  /** A request inside one block is tiled by that block alone. */
  lemma OneTile(t: Index, starts: seq<nat>, keys: seq<Key>, offset: nat, len: nat)
    requires Tiling(t, starts, offset, len) && Lists(t, keys, starts) && len > 0 && OneBlock(t, offset, len)
    ensures starts == [StartOf(t, offset)] && keys == [KeyOf(t, offset)]
  {
    StartIsStart(t, offset);
    assert |starts| > 1 ==> starts[1] == starts[0] + SizeAt(t, starts[0]);
    if |starts| > 1 {
      LastIsHighest(t, starts, 1);
    }
  }

  /** A block on the list already is reached without any change. */
  lemma HasReached(t: Index, t': Index, keys: seq<Key>, k: Key, epoch: nat, off: nat, n: nat)
    requires AllEntries(t, keys) && k in keys && k == KeyOf(t', off) && Reaches(t, t', epoch, off, n)
    ensures t' == t
  {
    var i :| 0 <= i < |keys| && keys[i] == k;
    assert HasEntry(t, keys[i]);
    ReachesAgain(t, t', epoch, off, n);
  }

  lemma ListedEntries(t: Index, keys: seq<Key>, starts: seq<nat>)
    requires AllStarts(t, starts) && Lists(t, keys, starts)
    ensures AllEntries(t, keys)
  {
  }

  // ----- tables with and without a log size

  /** Only the one table of a small file may be without a log size. */
  ghost predicate Tidy(t: Index) {
    forall r :: r in t.tables ==> r < t.cov && (t.tables[r].size == UNSIZED ==> t.cov == 1)
  }

  ghost predicate AllSized(t: Index) {
    forall r :: r in t.tables ==> t.tables[r].size != UNSIZED
  }

  /** The table of `off` exists and has a log size. */
  ghost predicate TableReached(t: Index, t': Index, off: nat, n: nat) {
    var r := TableOf(t, off);
    && t'.cov == t.cov && t'.tables.Keys == t.tables.Keys + {r} && t'.tables[r].size == SizeChosen(t, off, n)
    && t'.tables[r].entries == (if r in t.tables then t.tables[r].entries else map[])
    && forall q :: q in t.tables && q != r ==> t'.tables[q] == t.tables[q]
  }

  lemma EntryReached(t: Index, t1: Index, t': Index, epoch: nat, off: nat, n: nat)
    requires TableReached(t, t1, off, n) && t'.cov == t1.cov
    requires var r := TableOf(t1, off);
             && r in t'.tables && HasEntry(t', KeyOf(t1, off))
             && t'.tables == t1.tables[r := t1.tables[r].(entries := t'.tables[r].entries)]
             && OneMoreEntry(t1.tables[r].entries, t'.tables[r].entries, KeyOf(t1, off).index, epoch)
    ensures Reaches(t, t', epoch, off, n)
  {
  }

  lemma AddEntryGrows(t: Index, r: nat, index: nat, e: Entry, p: Policy, epoch: nat)
    requires Bounded(t) && Dated(t, p, epoch) && r in t.tables && t.tables[r].size < UNSIZED
             && index !in t.tables[r].entries
    requires EntryFits(t.tables[r].size, index, e) && e.word.len == 0 && e.word.epoch <= epoch
    ensures var t' := t.(tables := t.tables[r := t.tables[r].(entries := t.tables[r].entries[index := e])]);
            Bounded(t') && Dated(t', p, epoch)
  {
  }

  // ----- lemmas for reading

  /** The request is one that a read gets right, as seen after locking. */
  ghost predicate Reads(p: Policy, t: Index, offset: nat, len: nat, n: nat) {
    p == UNDO || n == 0 || (OneBlock(t, offset, len) && Owns(t, offset) && !Overruns(t, offset, n))
  }

  lemma IsReadOne(d: Data, k: Key, off: nat, len: nat, wild: int -> byte, lo: nat, n: nat)
    requires HasEntry(d.logs, k) && EntryFits(d.logs.tables[k.region].size, k.index, EntryOf(d.logs, k))
    requires lo == off % SizeOf(d.logs, k) && n == Min(len, SizeOf(d.logs, k) - lo)
    ensures InBlock(EntryOf(d.logs, k).word, |EntryOf(d.logs, k).log|) && lo + n <= |EntryOf(d.logs, k).log|
    ensures ReadOne(d, k, off, len, wild) ==
            ReadBlock(MemAt(d.file, wild, off - lo), EntryOf(d.logs, k).log, EntryOf(d.logs, k).word, lo, n)
  {
  }

  /** A read inside one block is that one turn. */
  lemma ReadRunOne(d: Data, cs: seq<Cursor>, starts: seq<nat>, keys: seq<Key>, offset: nat, len: nat, n: nat,
      wild: int -> byte)
    requires Bounded(d.logs) && Tiling(d.logs, starts, offset, Locked(len)) && Lists(d.logs, keys, starts)
    requires ReadRun(d, cs, keys, wild) && cs[0] == Cursor(offset, n, []) && offset + n <= |d.file| && n <= len
    requires Reads(REDO, d.logs, offset, len, n)
    ensures cs[|keys|].buf == ViewOf(d, REDO)[offset..offset + n]
  {
    if n == 0 {
      ReadNothing(d, cs, keys, |keys|, wild);
    } else {
      OneBlockLocked(d.logs, offset, len);
      OneTile(d.logs, starts, keys, offset, len);
      FitsOf(d.logs, KeyOf(d.logs, offset));
      ReadOneRefines(d, offset, n, wild);
      assert ReadTurnAt(d, cs, keys, 0, wild);
    }
  }

  lemma {:induction false} ReadNothing(d: Data, cs: seq<Cursor>, keys: seq<Key>, i: nat, wild: int -> byte)
    requires ReadRun(d, cs, keys, wild) && cs[0].left == 0 && cs[0].buf == [] && i <= |keys|
    ensures cs[i].left == 0 && cs[i].buf == []
  {
    if i > 0 {
      ReadNothing(d, cs, keys, i - 1, wild);
      assert ReadTurnAt(d, cs, keys, i - 1, wild);
    }
  }

  // ----- a read as a whole

  /** mmio_read from state `d` to state `d'`, turn by turn. */
  ghost predicate ReadAs(p: Policy, d: Data, l: Locks, cs: seq<Cursor>, d': Data, done: bool, ret: nat,
      buf: seq<byte>, fsize: nat, epoch: nat, offset: nat, len: nat, wild: int -> byte)
  {
    && LockedAs(p, d.logs, l, done, epoch, offset, len) && d' == Data(d.file, l.t) && offset <= fsize
    && (done ==>
          && ret == (if fsize < offset + len then fsize - offset else len)
          && if p == UNDO then buf == FromFile(Peek(d.file, wild), offset, ret)
             else ReadRun(d', cs, KeysOf(l), wild) && cs[0] == Cursor(offset, ret, []) && buf == cs[|cs| - 1].buf)
  }

  /** A request that a read gets right, `n` bytes of it lying within the file size; `t` is the index before it. */
  ghost predicate ReadsRight(p: Policy, t: Index, offset: nat, len: nat, n: nat) {
    p == UNDO || n == 0 || (Fits(t, offset, len) && Owns(t, offset) && !Overruns(t, offset, n))
  }

  /** No block of the request is logged. */
  ghost predicate Unlogged(t: Index, offset: nat, len: nat) {
    forall i :: offset <= i < offset + len ==> UnloggedAt(t, i)
  }

  ghost predicate UnloggedAt(t: Index, i: nat) {
    HasEntry(t, KeyOf(t, i)) ==> EntryOf(t, KeyOf(t, i)).word.len == 0
  }

  lemma UnloggedView(d: Data, offset: nat, len: nat, n: nat, wild: int -> byte)
    requires Bounded(d.logs) && Unlogged(d.logs, offset, len) && n <= len && offset + n <= |d.file|
    ensures FromFile(Peek(d.file, wild), offset, n) == ViewOf(d, REDO)[offset..offset + n]
  {
    FileBytes(d.file, wild, offset, n);
    forall i | offset <= i < offset + n ensures d.file[i] == ViewOf(d, REDO)[i] {
      assert UnloggedAt(d.logs, i);
    }
  }

  ghost predicate OneSize(t: Index, keys: seq<Key>, size: nat)
    requires AllEntries(t, keys)
  {
    forall i :: 0 <= i < |keys| ==> SizeOf(t, keys[i]) == size
  }

  /** What a read returns.  It changes nothing that is seen or recovered.  Under UNDO it is the file.  Under REDO
      - it is the view for a request inside one block whose slot is its own and that does not overrun the log;
      - it is the file, and the view, as far as it goes, if no block of the request is logged;
      - it goes as far as the blocks do when taken in the order of the list, which is all of the request if they have
        one size and its length is an int. */
  ghost predicate ReadOutcome(p: Policy, d: Data, l: Locks, d': Data, done: bool, ret: nat, buf: seq<byte>,
      epoch: nat, offset: nat, len: nat, wild: int -> byte)
    requires Bounded(d.logs) && Bounded(d'.logs) && AllEntries(d'.logs, KeysOf(l))
  {
    && Widens(p, epoch, d, d', 0)
    && (len > 0 ==> (OneBlock(d'.logs, offset, len) <==> Fits(d.logs, offset, len)))
    && (len == 0 || Fits(d.logs, offset, len) ==> done)
    && (done && offset + ret <= |d.file| && ReadsRight(p, d.logs, offset, len, ret) ==>
          buf == ViewOf(d, p)[offset..offset + ret])
    && (done && p == UNDO ==> buf == FromFile(Peek(d.file, wild), offset, ret))
    && (done && p == REDO ==> |buf| == Min(ret, Room(d'.logs, KeysOf(l), offset)))
    && (done && p == REDO ==> ReadUnlogged(p, d, ret, buf, offset, len, wild))
    && (done && len < 0x8000_0000 ==>
          forall size: nat :: OneSize(d'.logs, KeysOf(l), size) ==> |buf| == ret)
  }

  ghost predicate ReadUnlogged(p: Policy, d: Data, ret: nat, buf: seq<byte>, offset: nat, len: nat, wild: int -> byte)
    requires Bounded(d.logs) && |buf| <= ret
  {
    Unlogged(d.logs, offset, len) ==>
      && buf == FromFile(Peek(d.file, wild), offset, |buf|)
      && (offset + ret <= |d.file| ==> buf == ViewOf(d, p)[offset..offset + |buf|])
  }

  /** How far the turns over `keys` can come from `off` on. */
  function Room(t: Index, keys: seq<Key>, off: nat): nat
    requires AllEntries(t, keys)
  {
    if keys == [] then 0
    else var m := SizeOf(t, keys[0]) - off % SizeOf(t, keys[0]); m + Room(t, keys[1..], off + m)
  }

  lemma {:induction false} RunRoom(d: Data, cs: seq<Cursor>, keys: seq<Key>, i: nat, wild: int -> byte)
    requires ReadRun(d, cs, keys, wild) && i <= |keys| && AllEntries(d.logs, keys) && cs[i].left >= 0
    ensures |cs[|keys|].buf| == |cs[i].buf| + Min(cs[i].left, Room(d.logs, keys[i..], cs[i].off))
    decreases |keys| - i
  {
    if i < |keys| {
      assert ReadTurnAt(d, cs, keys, i, wild);
      CopyLength(d, cs[i], keys[i], cs[i + 1], wild);
      RunRoom(d, cs, keys, i + 1, wild);
      RoomNext(d.logs, keys, i, cs[i].off);
    }
  }

  lemma CopyLength(d: Data, c: Cursor, k: Key, c': Cursor, wild: int -> byte)
    requires ReadTurn(d, c, k, c', wild)
    ensures var m := Min(c.left, SizeOf(d.logs, k) - c.off % SizeOf(d.logs, k));
            |c'.buf| == |c.buf| + m && c'.off == c.off + m && c'.left == c.left - m
  {
  }

  lemma RoomNext(t: Index, keys: seq<Key>, i: nat, off: nat)
    requires AllEntries(t, keys) && i < |keys|
    ensures var m := SizeOf(t, keys[i]) - off % SizeOf(t, keys[i]);
            Room(t, keys[i..], off) == m + Room(t, keys[i + 1..], off + m)
  {
    assert keys[i..][1..] == keys[i + 1..];
  }

  /** What has been copied from entries without a log is the file. */
  lemma {:induction false} RunUnlogged(d: Data, cs: seq<Cursor>, keys: seq<Key>, i: nat, wild: int -> byte,
      offset: nat)
    requires ReadRun(d, cs, keys, wild) && i <= |keys| && cs[0].off == offset && cs[0].buf == []
    requires forall k :: k in keys ==> HasEntry(d.logs, k) && EntryOf(d.logs, k).word.len == 0
    ensures cs[i].off == offset + |cs[i].buf| && cs[i].buf == FromFile(Peek(d.file, wild), offset, |cs[i].buf|)
  {
    if i > 0 {
      RunUnlogged(d, cs, keys, i - 1, wild, offset);
      assert ReadTurnAt(d, cs, keys, i - 1, wild);
      assert keys[i - 1] in keys;
      var out := CopyUnlogged(d, cs[i - 1], keys[i - 1], cs[i], wild);
      FromFileMore(Peek(d.file, wild), offset, |cs[i - 1].buf|, |out|);
    }
  }

  lemma CopyUnlogged(d: Data, c: Cursor, k: Key, c': Cursor, wild: int -> byte) returns (out: seq<byte>)
    requires ReadTurn(d, c, k, c', wild) && EntryOf(d.logs, k).word.len == 0
    ensures c'.buf == c.buf + out && c'.off == c.off + |out| && out == FromFile(Peek(d.file, wild), c.off, |out|)
  {
    out := ReadOne(d, k, c.off, c.left, wild);
    var lo := c.off % SizeOf(d.logs, k);
    forall j | 0 <= j < |out| ensures out[j] == Peek(d.file, wild)(c.off + j) {
      assert out[j] == MemAt(d.file, wild, c.off - lo)(lo + j);
      assert c.off - lo + (lo + j) == c.off + j;
    }
  }

  lemma FromFileMore(mem: int -> byte, at: int, n: nat, m: nat)
    ensures FromFile(mem, at, n) + FromFile(mem, at + n, m) == FromFile(mem, at, n + m)
  {
  }

  // ----- blocks of one size

  lemma {:induction false} OneSizeRoom(t: Index, keys: seq<Key>, off: nat, size: nat)
    requires AllEntries(t, keys) && OneSize(t, keys, size) && keys != [] && size > 0
    ensures Room(t, keys, off) == |keys| * size - off % size
    decreases |keys|
  {
    var m := size - off % size;
    if |keys| > 1 {
      OneSizeRoom(t, keys[1..], off + m, size);
      AlignedNext(off, size);
      assert |keys| * size == (|keys| - 1) * size + size;
    }
  }

  lemma AlignedNext(off: nat, size: nat)
    requires size > 0
    ensures (off + (size - off % size)) % size == 0
  {
    MulMod(off / size + 1, size, 0);
    assert (off / size + 1) * size == off / size * size + size;
  }

  lemma {:induction false} OneSizeEnds(t: Index, starts: seq<nat>, size: nat, i: nat)
    requires AllStarts(t, starts) && Adjacent(t, starts) && i < |starts|
    requires forall j :: 0 <= j < |starts| ==> SizeAt(t, starts[j]) == size
    ensures starts[i] == starts[0] + i * size
  {
    if i > 0 {
      OneSizeEnds(t, starts, size, i - 1);
      assert starts[i] == starts[i - 1] + SizeAt(t, starts[i - 1]);
      assert i * size == (i - 1) * size + size;
    }
  }

  /** As many blocks of one size tile a request as it takes. */
  lemma OneSizeTiles(t: Index, starts: seq<nat>, keys: seq<Key>, offset: nat, len: nat, size: nat)
    requires Tiling(t, starts, offset, len) && Lists(t, keys, starts) && AllEntries(t, keys) && len > 0
    requires OneSize(t, keys, size)
    ensures keys != [] && size > 0 && (|keys| - 1) * size < offset % size + len <= |keys| * size
  {
    forall j | 0 <= j < |starts| ensures SizeAt(t, starts[j]) == size {
      assert keys[|starts| - 1 - j] == KeyOf(t, starts[j]);
    }
    OneSizeEnds(t, starts, size, |starts| - 1);
    StartIsStart(t, offset);
    assert |starts| * size == (|starts| - 1) * size + size;
  }

  /** Blocks of one region have one size. */
  lemma OneRegionSize(t: Index, starts: seq<nat>, keys: seq<Key>, offset: nat, len: nat)
    requires Tiling(t, starts, offset, len) && Lists(t, keys, starts) && AllEntries(t, keys) && len > 0
    requires offset / REGION == (offset + len - 1) / REGION
    ensures OneSize(t, keys, SizeAt(t, offset))
  {
    StartIsStart(t, offset);
    forall i | 0 <= i < |keys| ensures SizeOf(t, keys[i]) == SizeAt(t, offset) {
      var j := |starts| - 1 - i;
      FirstIsLowest(t, starts, j);
      LastIsHighest(t, starts, j);
      SameRegion(starts[0], starts[j], offset + len - 1);
    }
  }

  lemma SameRegion(a: nat, x: nat, b: nat)
    requires a <= x <= b && a / REGION == b / REGION
    ensures x / REGION == a / REGION
  {
  }

  /** A list whose first block is larger than the next one on it has less room than the blocks themselves: a request
      that takes all of two blocks, of which the second is larger, is cut to twice the first.  Only blocks of different
      regions differ in size. */
  lemma LargerCut(t: Index, starts: seq<nat>, keys: seq<Key>, offset: nat, len: nat)
    requires Tiling(t, starts, offset, len) && Lists(t, keys, starts) && AllEntries(t, keys) && |starts| == 2
    requires offset == starts[0] && len == SizeAt(t, starts[0]) + SizeAt(t, starts[1])
    requires SizeAt(t, starts[0]) < SizeAt(t, starts[1])
    requires starts[0] % SizeAt(t, starts[1]) == SizeAt(t, starts[1]) - SizeAt(t, starts[0])
    ensures Room(t, keys, offset) == 2 * SizeAt(t, starts[0]) < len
  {
    assert keys[0] == KeyOf(t, starts[1]) && keys[1] == KeyOf(t, starts[0]);
    AlignedNext(starts[0], SizeAt(t, starts[0]));
    TwoRoom(t, keys, offset, SizeAt(t, starts[0]), SizeAt(t, starts[1]));
  }

  lemma TwoRoom(t: Index, keys: seq<Key>, off: nat, a: nat, b: nat)
    requires AllEntries(t, keys) && |keys| == 2 && SizeOf(t, keys[0]) == b && SizeOf(t, keys[1]) == a
    requires off % b == b - a && (off + a) % a == 0
    ensures Room(t, keys, off) == 2 * a
  {
    assert keys[1..] == [keys[1]] && keys[1..][1..] == [];
    assert Room(t, keys[1..], off + a) == a;
  }

  // ----- what follows for a read

  lemma ReadLength(d: Data, cs: seq<Cursor>, starts: seq<nat>, keys: seq<Key>, offset: nat, len: nat, ret: nat,
      wild: int -> byte)
    requires ReadRun(d, cs, keys, wild) && cs[0] == Cursor(offset, ret, []) && AllEntries(d.logs, keys)
    requires Tiling(d.logs, starts, offset, Locked(len)) && Lists(d.logs, keys, starts) && ret <= len
    ensures |cs[|keys|].buf| == Min(ret, Room(d.logs, keys, offset))
    ensures forall size: nat :: len < 0x8000_0000 && OneSize(d.logs, keys, size) ==> |cs[|keys|].buf| == ret
  {
    RunRoom(d, cs, keys, 0, wild);
    assert keys[0..] == keys;
    forall size: nat | 0 < ret && len < 0x8000_0000 && OneSize(d.logs, keys, size)
      ensures ret <= Room(d.logs, keys, offset)
    {
      OneSizeTiles(d.logs, starts, keys, offset, len, size);
      OneSizeRoom(d.logs, keys, offset, size);
    }
  }

  /** What was not logged before is not logged in the entries locked. */
  lemma ListedUnlogged(t: Index, t': Index, starts: seq<nat>, keys: seq<Key>, offset: nat, len: nat, k: Key)
    requires Bounded(t) && Grown(t, t') && Tiling(t', starts, offset, Locked(len)) && Lists(t', keys, starts)
    requires Unlogged(t, offset, len) && k in keys
    ensures HasEntry(t', k) && EntryOf(t', k).word.len == 0
  {
    var i :| 0 <= i < |keys| && keys[i] == k;
    var j := |starts| - 1 - i;
    var x := if j == 0 then offset else starts[j];
    TileIn(t', starts, offset, Locked(len), j);
    assert k == KeyOf(t', x);
    if EntryOf(t', k).word.len > 0 {
      GrownLogs(t, t', k);
      assert UnloggedAt(t, x);
      GrownStart(t, t', x);
    }
  }

  /** Every block locked has a byte of the request. */
  lemma TileIn(t: Index, starts: seq<nat>, offset: nat, len: nat, j: nat)
    requires Tiling(t, starts, offset, len) && j < |starts|
    ensures var x := if j == 0 then offset else starts[j];
            offset <= x < offset + len && KeyOf(t, x) == KeyOf(t, starts[j])
  {
    StartIsStart(t, offset);
    LastIsHighest(t, starts, j);
    if j > 0 {
      FirstIsLowest(t, starts, j - 1);
      LowestEnds(t, starts, j);
    }
  }

  lemma {:induction false} LowestEnds(t: Index, starts: seq<nat>, j: nat)
    requires AllStarts(t, starts) && Adjacent(t, starts) && 0 < j < |starts|
    ensures starts[0] + SizeAt(t, starts[0]) <= starts[j]
  {
    assert starts[j] == starts[j - 1] + SizeAt(t, starts[j - 1]);
    if j > 1 {
      LowestEnds(t, starts, j - 1);
    }
  }

  lemma ReadShows(p: Policy, d: Data, l: Locks, cs: seq<Cursor>, d': Data, ret: nat, buf: seq<byte>, fsize: nat,
      epoch: nat, offset: nat, len: nat, wild: int -> byte)
    requires Bounded(d.logs) && ReadAs(p, d, l, cs, d', true, ret, buf, fsize, epoch, offset, len, wild)
    requires offset + ret <= |d.file| && ReadsRight(p, d.logs, offset, len, ret)
    ensures buf == ViewOf(d, p)[offset..offset + ret]
  {
    if p == UNDO {
      UndoView(d);
      FileBytes(d.file, wild, offset, ret);
    } else {
      GrownReads(d.logs, l, epoch, offset, len, ret);
      RedoReadShows(d, cs, d', StartsOf(l), KeysOf(l), offset, len, ret, wild);
    }
  }

  lemma FileBytes(file: seq<byte>, wild: int -> byte, offset: nat, n: nat)
    requires offset + n <= |file|
    ensures FromFile(Peek(file, wild), offset, n) == file[offset..offset + n]
  {
  }

  lemma RedoReadShows(d: Data, cs: seq<Cursor>, d': Data, starts: seq<nat>, keys: seq<Key>, offset: nat, len: nat,
      n: nat, wild: int -> byte)
    requires Bounded(d.logs) && Bounded(d'.logs) && Grown(d.logs, d'.logs) && d'.file == d.file
    requires Tiling(d'.logs, starts, offset, Locked(len)) && Lists(d'.logs, keys, starts)
    requires ReadRun(d', cs, keys, wild) && cs[0] == Cursor(offset, n, []) && offset + n <= |d.file| && n <= len
    requires Reads(REDO, d'.logs, offset, len, n)
    ensures cs[|cs| - 1].buf == ViewOf(d, REDO)[offset..offset + n]
  {
    ReadRunOne(d', cs, starts, keys, offset, len, n, wild);
    GrownKeepsView(d, d'.logs, REDO);
  }

  lemma ReadMade(p: Policy, d: Data, l: Locks, cs: seq<Cursor>, d': Data, done: bool, ret: nat, buf: seq<byte>,
      fsize: nat, epoch: nat, offset: nat, len: nat, wild: int -> byte)
    requires LockedAs(p, d.logs, l, done, epoch, offset, len) && d' == Data(d.file, l.t) && offset <= fsize
    requires done ==> ret == if fsize < offset + len then fsize - offset else len
    requires done && p == UNDO ==> buf == FromFile(Peek(d.file, wild), offset, ret)
    requires done && p == REDO ==>
               ReadRun(d', cs, KeysOf(l), wild) && cs[0] == Cursor(offset, ret, []) && cs[|KeysOf(l)|].buf == buf
    ensures ReadAs(p, d, l, cs, d', done, ret, buf, fsize, epoch, offset, len, wild)
  {
  }

  lemma GrownReads(t: Index, l: Locks, epoch: nat, offset: nat, len: nat, n: nat)
    requires Bounded(t) && Grown(t, l.t) && LockRun(l, t, epoch, offset, Locked(len)) && (Locked(len) > 0 ==> l.Then?)
    requires ReadsRight(REDO, t, offset, len, n) && n <= len
    ensures Reads(REDO, l.t, offset, len, n)
  {
    if n > 0 {
      StoryFits(l, t, l.t, epoch, offset, len);
      GrownOwns(t, l.t, epoch, offset);
      GrownOverruns(t, l.t, offset, n);
    }
  }

  lemma RightReads(d: Data, p: Policy, epoch: nat, offset: nat, len: nat, n: nat)
    requires Homely(d, p, epoch) && n <= len
    requires p == REDO ==> FitsCovered(d.logs, offset, len) && !Overruns(d.logs, offset, n)
    ensures ReadsRight(p, d.logs, offset, len, n)
  {
    if p == REDO && n > 0 {
      CoveredOwns(d, offset);
    }
  }

  lemma GrownOverruns(t: Index, t': Index, offset: nat, n: nat)
    requires Grown(t, t') && Bounded(t) && !Overruns(t, offset, n)
    ensures !Overruns(t', offset, n)
  {
    var k := KeyOf(t', offset);
    if HasEntry(t', k) && EntryOf(t', k).word.len > 0 {
      GrownLogs(t, t', k);
      GrownStart(t, t', offset);
    }
  }

  lemma RedoReadAll(d: Data, l: Locks, cs: seq<Cursor>, d': Data, ret: nat, buf: seq<byte>, offset: nat, len: nat,
      wild: int -> byte)
    requires Bounded(d.logs) && Grown(d.logs, l.t) && d' == Data(d.file, l.t) && AllEntries(l.t, KeysOf(l))
    requires Tiling(l.t, StartsOf(l), offset, Locked(len)) && Lists(l.t, KeysOf(l), StartsOf(l)) && ret <= len
    requires ReadRun(d', cs, KeysOf(l), wild) && cs[0] == Cursor(offset, ret, []) && buf == cs[|cs| - 1].buf
    ensures |buf| == Min(ret, Room(l.t, KeysOf(l), offset))
    ensures ReadUnlogged(REDO, d, ret, buf, offset, len, wild)
    ensures forall size: nat :: len < 0x8000_0000 && OneSize(l.t, KeysOf(l), size) ==> |buf| == ret
  {
    var keys := KeysOf(l);
    ReadLength(d', cs, StartsOf(l), keys, offset, len, ret, wild);
    if Unlogged(d.logs, offset, len) {
      forall k | k in keys ensures HasEntry(l.t, k) && EntryOf(l.t, k).word.len == 0 {
        ListedUnlogged(d.logs, l.t, StartsOf(l), keys, offset, len, k);
      }
      RunUnlogged(d', cs, keys, |keys|, wild, offset);
      if offset + ret <= |d.file| {
        UnloggedView(d, offset, len, |buf|, wild);
      }
    }
  }

  lemma ReadAll(p: Policy, d: Data, l: Locks, cs: seq<Cursor>, d': Data, done: bool, ret: nat, buf: seq<byte>,
      fsize: nat, epoch: nat, offset: nat, len: nat, wild: int -> byte)
    requires Bounded(d.logs) && ReadAs(p, d, l, cs, d', done, ret, buf, fsize, epoch, offset, len, wild)
    ensures Bounded(d'.logs) && (done <==> Returns(d'.logs, offset, Locked(len))) && AllEntries(d'.logs, KeysOf(l))
    ensures Widens(p, epoch, d, d', 0) && ViewOf(d', p) == ViewOf(d, p)
    ensures ReadOutcome(p, d, l, d', done, ret, buf, epoch, offset, len, wild)
  {
    NoZeros(d.file);
    LockWidens(p, epoch, d, d', 0);
    GrownKeepsView(d, l.t, p);
    LockedEntries(l, d.logs, epoch, offset, Locked(len));
    if len > 0 {
      StoryFits(l, d.logs, l.t, epoch, offset, len);
      if Fits(d.logs, offset, len) {
        FitsReturns(l.t, offset, len);
      }
    }
    if done {
      if offset + ret <= |d.file| && ReadsRight(p, d.logs, offset, len, ret) {
        ReadShows(p, d, l, cs, d', ret, buf, fsize, epoch, offset, len, wild);
      }
      if p == REDO {
        RedoReadAll(d, l, cs, d', ret, buf, offset, len, wild);
      }
    }
  }

  /** Whatever is locked has an entry. */
  lemma {:induction false} LockedEntries(l: Locks, t0: Index, epoch: nat, offset: nat, len: nat)
    requires LockRun(l, t0, epoch, offset, len)
    ensures AllEntries(l.t, KeysOf(l))
  {
    if l.Then? {
      LockedEntries(l.before, t0, epoch, offset, len);
      ReachesGrown(l.before.t, l.t, epoch, l.off, offset + len - l.off);
      forall i | 0 <= i < |KeysOf(l)| ensures HasEntry(l.t, KeysOf(l)[i]) {
        if i > 0 {
          GrownKey(l.before.t, l.t, KeysOf(l.before)[i - 1]);
        }
      }
    }
  }

  // ----- lemmas for checkpointing

  /** Entries are only dropped. */
  ghost predicate Fewer(t: Index, t': Index) {
    && t'.cov == t.cov && t'.tables.Keys == t.tables.Keys
    && forall r :: r in t.tables ==>
         && t'.tables[r].size == t.tables[r].size
         && forall i :: i in t'.tables[r].entries ==>
              i in t.tables[r].entries && t'.tables[r].entries[i] == t.tables[r].entries[i]
  }

  ghost predicate DrainedTable(t: Index, r: nat, epoch: nat) {
    r in t.tables ==> forall i :: i in t.tables[r].entries ==> t.tables[r].entries[i].word.epoch >= epoch
  }

  /** No entry of an earlier epoch in the tables of the regions that start below `end`. */
  ghost predicate Drained(t: Index, end: nat, epoch: nat) {
    forall q :: 0 <= q && q * REGION < end ==> DrainedTable(t, q % t.cov, epoch)
  }

  lemma FewerTrans(t: Index, t': Index, t'': Index)
    requires Fewer(t, t') && Fewer(t', t'')
    ensures Fewer(t, t'')
  {
  }

  lemma FewerDrop(t: Index, t': Index, k: Key)
    requires Fewer(t, t') && HasEntry(t', k)
    ensures Fewer(t, DropEntry(t', k))
  {
  }

  lemma FewerHome(t: Index, t': Index)
    requires Fewer(t, t')
    ensures AtHome(t) ==> AtHome(t')
  {
    if AtHome(t) {
      forall k | HasEntry(t', k) && EntryOf(t', k).word.len > 0 ensures EntryOf(t', k).dst / REGION < t'.cov {
        assert HasEntry(t, k) && EntryOf(t, k) == EntryOf(t', k);
      }
    }
  }

  /** `d'` has fewer entries; what is seen and what is recovered are the same. */
  ghost predicate Transparent(p: Policy, epoch: nat, d: Data, d': Data)
    requires Bounded(d.logs) && Bounded(d'.logs)
  {
    && |d'.file| == |d.file| && Fewer(d.logs, d'.logs)
    && (Sound(d, p, epoch) ==>
          && Sound(d', p, epoch) && ViewOf(d', p) == ViewOf(d, p)
          && Recovered(d', p, epoch) == Recovered(d, p, epoch))
    && (Homely(d, p, epoch) ==> Homely(d', p, epoch))
    && (RightSoFar(d, p, epoch) ==> RightSoFar(d', p, epoch))
  }

  lemma NothingChanged(p: Policy, epoch: nat, d: Data)
    requires Bounded(d.logs)
    ensures Transparent(p, epoch, d, d)
  {
  }

  lemma TransparentTrans(p: Policy, epoch: nat, d: Data, d': Data, d'': Data)
    requires Bounded(d.logs) && Bounded(d'.logs) && Bounded(d''.logs)
    requires Transparent(p, epoch, d, d') && Transparent(p, epoch, d', d'')
    ensures Transparent(p, epoch, d, d'')
  {
    FewerTrans(d.logs, d'.logs, d''.logs);
  }

  lemma RetireTransparent(d: Data, k: Key, p: Policy, epoch: nat)
    requires Bounded(d.logs) && Dated(d.logs, p, epoch) && Tidy(d.logs) && HasEntry(d.logs, k)
    requires EntryFits(d.logs.tables[k.region].size, k.index, EntryOf(d.logs, k))
    requires EntryOf(d.logs, k).word.epoch < epoch
    ensures var d' := RetireEntry(d, k);
            Bounded(d'.logs) && Dated(d'.logs, p, epoch) && Tidy(d'.logs) && Transparent(p, epoch, d, d')
  {
    var d' := RetireEntry(d, k);
    RetireValid(d, k, p, epoch);
    if Sound(d, p, epoch) {
      RetireKeepsView(d, k, p, epoch);
      RetireRecovers(d, k, p, epoch);
    }
    FewerDrop(d.logs, d.logs, k);
    FewerHome(d.logs, DropEntry(d.logs, k));
    if RightSoFar(d, p, epoch) {
      DropPlaced(d, k, d');
    }
  }

  lemma RetireValid(d: Data, k: Key, p: Policy, epoch: nat)
    requires Bounded(d.logs) && Dated(d.logs, p, epoch) && Tidy(d.logs) && HasEntry(d.logs, k)
    requires InBlock(EntryOf(d.logs, k).word, |EntryOf(d.logs, k).log|)
    ensures var d' := RetireEntry(d, k);
            Bounded(d'.logs) && Dated(d'.logs, p, epoch) && Tidy(d'.logs) && |d'.file| == |d.file|
  {
    FitsOf(d.logs, k);
    RetireKeeps(d, k, p, epoch);
  }

  lemma FewerSized(t: Index, t': Index)
    requires Fewer(t, t')
    ensures AllSized(t) <==> AllSized(t')
  {
  }

  lemma RegionNumber(n: nat)
    ensures (n * REGION) / REGION == n
  {
    DivUnique(n * REGION, REGION, n, 0);
  }

  /** The loop ends after the last region that is mapped. */
  lemma RegionsEnd(n: nat, len: nat)
    requires n * REGION >= len && (n > 0 ==> (n - 1) * REGION < len)
    ensures n == RegionsOf(len)
  {
  }

  /** A table without a log size is the first one that the loop comes to. */
  lemma FirstTable(t: Index, offset: nat)
    requires Tidy(t)
    ensures var r := (offset / REGION) % t.cov; r in t.tables && t.tables[r].size == UNSIZED <==> !AllSized(t)
  {
  }

  /** If no entry of the current epoch was there and the old ones are gone, the file shows. */
  lemma FileIsView(d: Data, p: Policy, e: nat, t: Index)
    requires Bounded(d.logs) && Drained(d.logs, |d.file|, e + 1) && Fewer(t, d.logs) && Dated(t, p, e)
    ensures ViewOf(d, p) == d.file
  {
    forall i | 0 <= i < |d.file| ensures ByteAt(d, p, i) == d.file[i] {
      var q := i / REGION;
      assert q * REGION <= i;
      assert DrainedTable(d.logs, q % d.logs.cov, e + 1);
    }
  }

  /** The next epoch number alone. */
  lemma Commits(d: Data, p: Policy, epoch: nat)
    requires Bounded(d.logs) && Dated(d.logs, p, epoch)
    ensures Dated(d.logs, p, epoch + 1)
    ensures Sound(d, p, epoch) ==> Sound(d, p, epoch + 1) && Recovered(d, p, epoch + 1) == ViewOf(d, p)
    ensures Homely(d, p, epoch) ==> Homely(d, p, epoch + 1)
    ensures RightSoFar(d, p, epoch) ==> RightSoFar(d, p, epoch + 1)
  {
    if Sound(d, p, epoch) {
      CommitRecovers(d, p, epoch);
    }
  }

  // ----- a checkpoint as a whole

  /** The turn on one entry: copied back and dropped if it is of an earlier epoch and its lock is granted. */
  ghost function SlotAfter(d: Data, k: Key, current: nat, tryEntry: Key -> bool): Data {
    if HasEntry(d.logs, k) && InBlock(EntryOf(d.logs, k).word, |EntryOf(d.logs, k).log|) && Due(d, k, current, tryEntry)
    then RetireEntry(d, k) else d
  }

  ghost predicate Due(d: Data, k: Key, current: nat, tryEntry: Key -> bool)
    requires HasEntry(d.logs, k)
  {
    EntryOf(d.logs, k).word.epoch < current && tryEntry(k)
  }

  /** The turns on the first `n` entries of a table. */
  ghost function TableAfter(d: Data, r: nat, n: nat, current: nat, tryEntry: Key -> bool): Data {
    if n == 0 then d else SlotAfter(TableAfter(d, r, n - 1, current, tryEntry), Key(r, n - 1), current, tryEntry)
  }

  ghost function RegionAfter(d: Data, r: nat, current: nat, tryEntry: Key -> bool): Data {
    if r in d.logs.tables && d.logs.tables[r].size < UNSIZED
    then TableAfter(d, r, Slots(d.logs.tables[r].size), current, tryEntry) else d
  }

  /** The turns on the tables of the first `n` regions. */
  ghost function RegionsAfter(d: Data, n: nat, current: nat, tryEntry: Key -> bool): Data {
    if n == 0 then d
    else RegionAfter(RegionsAfter(d, n - 1, current, tryEntry), (n - 1) % d.logs.cov, current, tryEntry)
  }

  /** As many regions as are mapped, a last one in part. */
  function RegionsOf(len: nat): nat { (len + REGION - 1) / REGION }

  /** Of the entries `ks` exactly those due are gone, and all others are as they were; the file is as it was but where
      these have logged something under REDO. */
  ghost predicate Dropped(d: Data, d': Data, ks: iset<Key>, current: nat, tryEntry: Key -> bool) {
    && |d'.file| == |d.file| && Fewer(d.logs, d'.logs)
    && (forall k :: HasEntry(d.logs, k) ==> DroppedAt(d, d', ks, current, tryEntry, k))
    && forall i :: 0 <= i < |d.file| ==> d'.file[i] == d.file[i] || CopiedFrom(d, ks, current, tryEntry, i)
  }

  ghost predicate DroppedAt(d: Data, d': Data, ks: iset<Key>, current: nat, tryEntry: Key -> bool, k: Key)
    requires HasEntry(d.logs, k)
  {
    if k in ks && Due(d, k, current, tryEntry) then !HasEntry(d'.logs, k)
    else HasEntry(d'.logs, k) && EntryOf(d'.logs, k) == EntryOf(d.logs, k)
  }

  ghost predicate CopiedFrom(d: Data, ks: iset<Key>, current: nat, tryEntry: Key -> bool, i: int) {
    exists k :: k in ks && HasEntry(d.logs, k) && Due(d, k, current, tryEntry) && LogsByte(EntryOf(d.logs, k), i)
  }

  ghost predicate LogsByte(e: Entry, i: int) {
    e.word.policy == REDO && Within(i, e.dst + e.word.off, e.word.len)
  }

  lemma DroppedNothing(d: Data, ks: iset<Key>, current: nat, tryEntry: Key -> bool)
    requires forall k :: HasEntry(d.logs, k) ==> k !in ks
    ensures Dropped(d, d, ks, current, tryEntry)
  {
  }

  /** Only what is there matters. */
  lemma DroppedSame(d: Data, d': Data, ks: iset<Key>, ks': iset<Key>, current: nat, tryEntry: Key -> bool)
    requires Dropped(d, d', ks, current, tryEntry) && forall k :: HasEntry(d.logs, k) ==> (k in ks <==> k in ks')
    ensures Dropped(d, d', ks', current, tryEntry)
  {
    forall k | HasEntry(d.logs, k) ensures DroppedAt(d, d', ks', current, tryEntry, k) {
      assert DroppedAt(d, d', ks, current, tryEntry, k);
    }
    forall i | 0 <= i < |d.file| && d'.file[i] != d.file[i] ensures CopiedFrom(d, ks', current, tryEntry, i) {
      assert CopiedFrom(d, ks, current, tryEntry, i);
      var k :| k in ks && HasEntry(d.logs, k) && Due(d, k, current, tryEntry) && LogsByte(EntryOf(d.logs, k), i);
      assert k in ks';
    }
  }

  lemma FewerEntry(t: Index, t': Index, k: Key)
    requires Fewer(t, t') && HasEntry(t', k)
    ensures HasEntry(t, k) && EntryOf(t, k) == EntryOf(t', k)
  {
  }

  lemma SlotDrops(d: Data, d1: Data, ks: iset<Key>, k: Key, current: nat, tryEntry: Key -> bool)
    requires Dropped(d, d1, ks, current, tryEntry) && Bounded(d1.logs)
    ensures Dropped(d, SlotAfter(d1, k, current, tryEntry), ks + iset{k}, current, tryEntry)
  {
    var d2, ks' := SlotAfter(d1, k, current, tryEntry), ks + iset{k};
    if HasEntry(d1.logs, k) {
      FewerEntry(d.logs, d1.logs, k);
      FitsOf(d1.logs, k);
      if Due(d1, k, current, tryEntry) {
        FewerDrop(d.logs, d1.logs, k);
      }
    }
    SlotLength(d1, k, current, tryEntry);
    forall x | HasEntry(d.logs, x) ensures DroppedAt(d, d2, ks', current, tryEntry, x) {
      assert DroppedAt(d, d1, ks, current, tryEntry, x);
      SlotLeaves(d1, k, current, tryEntry, x);
    }
    forall i | 0 <= i < |d.file| && d2.file[i] != d.file[i] ensures CopiedFrom(d, ks', current, tryEntry, i) {
      SlotCopies(d, d1, ks, k, current, tryEntry, i);
    }
  }

  lemma SlotLength(d: Data, k: Key, current: nat, tryEntry: Key -> bool)
    ensures |SlotAfter(d, k, current, tryEntry).file| == |d.file|
  {
  }

  lemma SlotLeaves(d: Data, k: Key, current: nat, tryEntry: Key -> bool, x: Key)
    requires Bounded(d.logs)
    ensures var t' := SlotAfter(d, k, current, tryEntry).logs;
            if HasEntry(d.logs, x) && !(x == k && Due(d, k, current, tryEntry))
            then HasEntry(t', x) && EntryOf(t', x) == EntryOf(d.logs, x)
            else !HasEntry(t', x)
  {
    if HasEntry(d.logs, x) {
      FitsOf(d.logs, x);
    }
  }

  lemma SlotCopies(d: Data, d1: Data, ks: iset<Key>, k: Key, current: nat, tryEntry: Key -> bool, i: nat)
    requires Dropped(d, d1, ks, current, tryEntry) && Bounded(d1.logs) && i < |d.file|
    requires |SlotAfter(d1, k, current, tryEntry).file| == |d.file|
    requires SlotAfter(d1, k, current, tryEntry).file[i] != d.file[i]
    ensures CopiedFrom(d, ks + iset{k}, current, tryEntry, i)
  {
    if d1.file[i] != d.file[i] {
      assert CopiedFrom(d, ks, current, tryEntry, i);
      var x :| x in ks && HasEntry(d.logs, x) && Due(d, x, current, tryEntry) && LogsByte(EntryOf(d.logs, x), i);
      assert x in ks + iset{k};
    } else {
      assert HasEntry(d1.logs, k);
      FewerEntry(d.logs, d1.logs, k);
      assert LogsByte(EntryOf(d.logs, k), i);
    }
  }

  /** What holds of the state all along. */
  ghost predicate Goes(p: Policy, epoch: nat, d: Data, d': Data)
    requires Bounded(d.logs)
  {
    Bounded(d'.logs) && Dated(d'.logs, p, epoch) && Tidy(d'.logs) && Transparent(p, epoch, d, d')
  }

  lemma SlotGoes(d: Data, d1: Data, k: Key, p: Policy, epoch: nat, tryEntry: Key -> bool)
    requires Bounded(d.logs) && Goes(p, epoch, d, d1)
    ensures Goes(p, epoch, d, SlotAfter(d1, k, epoch, tryEntry))
  {
    if HasEntry(d1.logs, k) {
      FitsOf(d1.logs, k);
      if Due(d1, k, epoch, tryEntry) {
        RetireTransparent(d1, k, p, epoch);
        TransparentTrans(p, epoch, d, d1, RetireEntry(d1, k));
      }
    }
  }

  lemma TurnGoes(d: Data, d1: Data, ks: iset<Key>, ks': iset<Key>, k: Key, p: Policy, epoch: nat,
      tryEntry: Key -> bool)
    requires Bounded(d.logs) && Goes(p, epoch, d, d1) && Dropped(d, d1, ks, epoch, tryEntry) && ks' == ks + iset{k}
    ensures var d2 := SlotAfter(d1, k, epoch, tryEntry); Goes(p, epoch, d, d2) && Dropped(d, d2, ks', epoch, tryEntry)
  {
    SlotGoes(d, d1, k, p, epoch, tryEntry);
    SlotDrops(d, d1, ks, k, epoch, tryEntry);
  }

  lemma {:induction false} TableGoes(d: Data, d1: Data, ks: iset<Key>, r: nat, n: nat, p: Policy, epoch: nat,
      tryEntry: Key -> bool)
    requires Bounded(d.logs) && Goes(p, epoch, d, d1) && Dropped(d, d1, ks, epoch, tryEntry)
    ensures var d2 := TableAfter(d1, r, n, epoch, tryEntry);
            Goes(p, epoch, d, d2) && Dropped(d, d2, ks + SlotsBelow(r, n), epoch, tryEntry)
  {
    if n == 0 {
      assert ks + SlotsBelow(r, 0) == ks;
    } else {
      TableGoes(d, d1, ks, r, n - 1, p, epoch, tryEntry);
      var d2 := TableAfter(d1, r, n - 1, epoch, tryEntry);
      SlotsMore(ks, r, n - 1);
      TurnGoes(d, d2, ks + SlotsBelow(r, n - 1), ks + SlotsBelow(r, n), Key(r, n - 1), p, epoch, tryEntry);
    }
  }

  ghost function SlotsBelow(r: nat, n: nat): iset<Key> {
    iset k: Key | k.region == r && k.index < n
  }

  lemma SlotsMore(ks: iset<Key>, r: nat, n: nat)
    ensures ks + SlotsBelow(r, n) + iset{Key(r, n)} == ks + SlotsBelow(r, n + 1)
  {
  }

  ghost function RegionsBelow(n: nat): iset<Key> {
    iset k: Key | k.region < n
  }

  lemma RegionGoes(d: Data, d1: Data, n: nat, r: nat, p: Policy, epoch: nat, tryEntry: Key -> bool)
    requires Bounded(d.logs) && Tidy(d.logs) && Goes(p, epoch, d, d1) && r == n % d.logs.cov
    requires Dropped(d, d1, RegionsBelow(n), epoch, tryEntry)
    ensures var d2 := RegionAfter(d1, r, epoch, tryEntry);
            Goes(p, epoch, d, d2) && Dropped(d, d2, RegionsBelow(n + 1), epoch, tryEntry)
  {
    var d2, ks := RegionAfter(d1, r, epoch, tryEntry), RegionsBelow(n);
    if r in d1.logs.tables && d1.logs.tables[r].size < UNSIZED {
      var m := Slots(d1.logs.tables[r].size);
      TableGoes(d, d1, ks, r, m, p, epoch, tryEntry);
      forall k | HasEntry(d.logs, k) ensures k in ks + SlotsBelow(r, m) <==> k in RegionsBelow(n + 1) {
        RegionNext(d.logs, k, n);
      }
      DroppedSame(d, d2, ks + SlotsBelow(r, m), RegionsBelow(n + 1), epoch, tryEntry);
    } else {
      forall k | HasEntry(d.logs, k) ensures k in ks <==> k in RegionsBelow(n + 1) {
        RegionNext(d.logs, k, n);
      }
      DroppedSame(d, d2, ks, RegionsBelow(n + 1), epoch, tryEntry);
    }
  }

  /** Regions come round after one coverage, to tables that the loop has been at before. */
  lemma RegionNext(t: Index, k: Key, n: nat)
    requires Tidy(t) && HasEntry(t, k)
    ensures k.region < n + 1 <==> k.region < n || k.region == n % t.cov
  {
    if n < t.cov {
      Remain(n, t.cov);
    } else {
      LowAtMost(n, t.cov);
    }
  }

  lemma Remain(n: nat, m: nat)
    requires n < m
    ensures n % m == n
  {
    DivUnique(n, m, 0, n);
  }

  lemma {:induction false} RegionsGo(d: Data, n: nat, p: Policy, epoch: nat, tryEntry: Key -> bool)
    requires Bounded(d.logs) && Dated(d.logs, p, epoch) && Tidy(d.logs)
    ensures var d' := RegionsAfter(d, n, epoch, tryEntry);
            Goes(p, epoch, d, d') && Dropped(d, d', RegionsBelow(n), epoch, tryEntry)
  {
    if n == 0 {
      DroppedNothing(d, RegionsBelow(0), epoch, tryEntry);
    } else {
      RegionsGo(d, n - 1, p, epoch, tryEntry);
      RegionGoes(d, RegionsAfter(d, n - 1, epoch, tryEntry), n - 1, (n - 1) % d.logs.cov, p, epoch, tryEntry);
    }
  }

  /** What a checkpoint does that is defined and finds the file lock free.  Exactly the entries of earlier epochs in the
      mapped regions whose locks are granted are gone; all others are as they were, and so is the file outside of what
      those have logged; what is seen and what is recovered are the same. */
  ghost predicate Checkpointed(p: Policy, epoch: nat, d: Data, d': Data, tryEntry: Key -> bool)
    requires Bounded(d.logs) && Bounded(d'.logs)
  {
    && d' == RegionsAfter(d, RegionsOf(|d.file|), epoch, tryEntry)
    && Transparent(p, epoch, d, d') && Dropped(d, d', MappedKeys(|d.file|), epoch, tryEntry)
  }

  ghost function MappedKeys(len: nat): iset<Key> {
    iset k: Key | k.region * REGION < len
  }

  lemma RegionsCheckpoint(d: Data, p: Policy, epoch: nat, tryEntry: Key -> bool)
    requires Bounded(d.logs) && Dated(d.logs, p, epoch) && Tidy(d.logs)
    ensures var d' := RegionsAfter(d, RegionsOf(|d.file|), epoch, tryEntry);
            Bounded(d'.logs) && Dated(d'.logs, p, epoch) && Tidy(d'.logs) && Checkpointed(p, epoch, d, d', tryEntry)
  {
    var n := RegionsOf(|d.file|);
    RegionsGo(d, n, p, epoch, tryEntry);
    forall k | HasEntry(d.logs, k) ensures k in RegionsBelow(n) <==> k in MappedKeys(|d.file|) {
      RegionsReach(k.region, |d.file|);
    }
    DroppedSame(d, RegionsAfter(d, n, epoch, tryEntry), RegionsBelow(n), MappedKeys(|d.file|), epoch, tryEntry);
  }

  lemma RegionsReach(r: nat, len: nat)
    ensures r < RegionsOf(len) <==> r * REGION < len
  {
  }

  /** With all locks granted no old entry is left in the mapped regions. */
  lemma AllDrained(d: Data, d': Data, p: Policy, epoch: nat, tryEntry: Key -> bool)
    requires Bounded(d.logs) && Bounded(d'.logs) && Tidy(d.logs) && Checkpointed(p, epoch, d, d', tryEntry)
    requires forall k :: tryEntry(k)
    ensures Drained(d'.logs, |d'.file|, epoch)
  {
    forall q | 0 <= q && q * REGION < |d'.file| ensures DrainedTable(d'.logs, q % d'.logs.cov, epoch) {
      var r := q % d'.logs.cov;
      LowAtMost(q, d'.logs.cov);
      if r in d'.logs.tables && d'.logs.tables[r].size < UNSIZED {
        forall i | i in d'.logs.tables[r].entries ensures d'.logs.tables[r].entries[i].word.epoch >= epoch {
          var k := Key(r, i);
          assert EntryFits(d'.logs.tables[r].size, i, d'.logs.tables[r].entries[i]);
          FewerEntry(d.logs, d'.logs, k);
          assert DroppedAt(d, d', MappedKeys(|d.file|), epoch, tryEntry, k);
        }
      }
    }
  }

  // ----- lemmas for writing

  /** The request is one that the write puts into the view; `t` is the index before it. */
  ghost predicate Writes(p: Policy, t: Index, epoch: nat, offset: nat, len: nat) {
    p == UNDO || len == 0 || (Fits(t, offset, len) && OwnsOrOld(t, epoch, offset))
  }

  /** The request will lie in one block of the coverage. */
  predicate FitsCovered(t: Index, offset: nat, len: nat) {
    len == 0 || (Fits(t, offset, len) && offset / REGION < t.cov)
  }

  lemma KeptTidy(d: Data, d': Data, p: Policy, epoch: nat)
    requires Kept(d, d', p, epoch) && Tidy(d.logs)
    ensures Tidy(d'.logs) && (AllSized(d.logs) ==> AllSized(d'.logs))
  {
  }

  lemma SameReturns(t: Index, t': Index, offset: nat, len: nat)
    requires SameLayout(t, t')
    ensures Returns(t, offset, len) <==> Returns(t', offset, len)
  {
    SameKey(t, t', offset);
  }

  /** A request that spins does not lie in one block. */
  lemma SpinningIsLong(t: Index, offset: nat, len: nat)
    requires !Returns(t, offset, Locked(len))
    ensures len != 0 && !OneBlock(t, offset, len)
  {
    if OneBlock(t, offset, len) {
      OneBlockLocked(t, offset, len);
      StartIsStart(t, offset);
      SizeBelowPeriod(t, offset);
    }
  }

  lemma SizeBelowPeriod(t: Index, off: nat)
    requires Sized(t, off)
    ensures SizeAt(t, off) <= Period(t)
  {
    SizesOf(t.tables[TableOf(t, off)].size);
    assert t.cov >= 1;
  }

  /** A locked request and the loop over its entries. */
  ghost predicate Ran(d1: Data, ms: seq<Progress>, starts: seq<nat>, keys: seq<Key>, p: Policy, epoch: nat,
      offset: nat, len: nat, src: int -> byte, wild: int -> byte)
  {
    && WriteRun(ms, keys, p, epoch, offset, src, wild) && ms[0] == Progress(d1, offset, Locked(len))
    && Tiling(d1.logs, starts, offset, Locked(len)) && Lists(d1.logs, keys, starts)
    && Kept(d1, ms[|keys|].d, p, epoch)
  }

  lemma RunLength(d1: Data, ms: seq<Progress>, starts: seq<nat>, keys: seq<Key>, p: Policy, epoch: nat, offset: nat,
      len: nat, src: int -> byte, wild: int -> byte)
    requires Ran(d1, ms, starts, keys, p, epoch, offset, len, src, wild)
    ensures len == 0 || OneBlock(ms[|keys|].d.logs, offset, len) ==> ms[|keys|].off == offset + len
  {
    SameOneBlock(d1.logs, ms[|keys|].d.logs, offset, len);
    if len > 0 && OneBlock(d1.logs, offset, len) {
      OneBlockLocked(d1.logs, offset, len);
      OneTurn(ms, starts, keys, p, epoch, offset, len, src, wild);
    }
  }

  /** For a request inside one block, on a slot of its own, the whole loop writes exactly the request into the view. */
  lemma RunRefines(d1: Data, ms: seq<Progress>, starts: seq<nat>, keys: seq<Key>, epoch: nat, offset: nat, len: nat,
      src: int -> byte, wild: int -> byte)
    requires Ran(d1, ms, starts, keys, REDO, epoch, offset, len, src, wild) && offset + len <= |d1.file|
             && Sound(d1, REDO, epoch)
    requires len == 0 || (OneBlock(d1.logs, offset, len) && OwnsOrOld(d1.logs, epoch, offset))
    ensures var d2 := ms[|keys|].d;
            && Sound(d2, REDO, epoch) && ViewOf(d2, REDO) == Splice(ViewOf(d1, REDO), offset, FromFile(src, 0, len))
            && (AtHome(d1.logs) && (len == 0 || offset / REGION < d1.logs.cov) ==> AtHome(d2.logs))
  {
    if len > 0 {
      OneBlockLocked(d1.logs, offset, len);
      OneTurn(ms, starts, keys, REDO, epoch, offset, len, src, wild);
      FitsOf(d1.logs, keys[0]);
      WriteOneRefines(d1, epoch, offset, len, Shift(src, 0), wild);
      if AtHome(d1.logs) && offset / REGION < d1.logs.cov {
        WriteOneHome(d1, epoch, offset, len, Shift(src, 0), wild);
      }
      NoShift(src, len);
    }
  }

  lemma NoShift(src: int -> byte, n: nat)
    ensures FromFile(Shift(src, 0), 0, n) == FromFile(src, 0, n)
  {
  }

  ghost predicate Homely(d: Data, p: Policy, epoch: nat) {
    Sound(d, p, epoch) && (p == REDO ==> AtHome(d.logs))
  }

  // ----- a write as a whole

  /** The mapping becomes twice as long, or BASIC_MMAP_SIZE at least (src/mmio.c:96-103). */
  function Longer(n: nat): nat {
    if n >= BASIC_MMAP_SIZE then 2 * n else BASIC_MMAP_SIZE
  }

  /** ... as long as it is too short. */
  function MappedTo(n: nat, need: nat): (r: nat)
    ensures r >= n && r >= need && (n >= need ==> r == n)
    ensures n < need ==> r == BASIC_MMAP_SIZE || r < 2 * need
    decreases need - n
  {
    if n >= need then n else MappedTo(Longer(n), need)
  }

  /** One such step, and all of them; the new part is zero. */
  function Lengthened(d: Data): Data {
    d.(file := d.file + Zeros(Longer(|d.file|) - |d.file|))
  }

  function Mapped(d: Data, need: nat): Data {
    d.(file := d.file + Zeros(MappedTo(|d.file|, need) - |d.file|))
  }

  lemma MappedNext(d: Data, need: nat)
    requires |d.file| < need
    ensures Mapped(d, need) == Mapped(Lengthened(d), need)
  {
    var n := Longer(|d.file|) - |d.file|;
    ZerosMore(d.file, n, MappedTo(|d.file|, need) - |d.file| - n);
  }

  lemma ZerosMore(s: seq<byte>, n: nat, m: nat)
    ensures s + Zeros(n) + Zeros(m) == s + Zeros(n + m)
  {
  }

  /** What a call does: the blocks it locks, and the turns of its loop over them. */
  datatype Story = Story(l: Locks, ms: seq<Progress>)

  ghost predicate LockedAs(p: Policy, t: Index, l: Locks, done: bool, epoch: nat, offset: nat, len: nat) {
    && LockRun(l, t, epoch, offset, Locked(len)) && (Locked(len) > 0 ==> l.Then?)
    && Bounded(l.t) && Dated(l.t, p, epoch) && Grown(t, l.t) && (done <==> Returns(l.t, offset, Locked(len)))
    && (done ==> Tiling(l.t, StartsOf(l), offset, Locked(len)) && Lists(l.t, KeysOf(l), StartsOf(l)))
  }

  /** mmio_write from state `d` to state `d'`, step by step and turn by turn. */
  ghost predicate WroteAs(p: Policy, d: Data, s: Story, d': Data, done: bool, ret: nat, epoch: nat, offset: nat,
      len: nat, src: int -> byte, wild: int -> byte)
    decreases offset + len - |d.file|
  {
    if |d.file| < offset + len
    then WroteAs(p, Lengthened(d), s, d', done, ret, epoch, offset, len, src, wild)
    else WroteIn(p, d, s, d', done, ret, epoch, offset, len, src, wild)
  }

  /** ... once the mapping is long enough. */
  ghost predicate WroteIn(p: Policy, d: Data, s: Story, d': Data, done: bool, ret: nat, epoch: nat, offset: nat,
      len: nat, src: int -> byte, wild: int -> byte)
    requires offset + len <= |d.file|
  {
    var d1 := Data(d.file, s.l.t);
    && LockedAs(p, d.logs, s.l, done, epoch, offset, len)
    && if done then Looped(p, d1, s, d', ret, epoch, offset, len, src, wild) else d' == d1
  }

  /** The loop, and under UNDO the store in place. */
  ghost predicate Looped(p: Policy, d1: Data, s: Story, d': Data, ret: nat, epoch: nat, offset: nat, len: nat,
      src: int -> byte, wild: int -> byte)
    requires offset + len <= |d1.file|
  {
    && Ran(d1, s.ms, StartsOf(s.l), KeysOf(s.l), p, epoch, offset, len, src, wild)
    && var last := s.ms[|s.ms| - 1];
       && last.off == offset + ret
       && d' == if p == UNDO then Stored(d1, last.d, offset, len, src) else last.d
  }

  lemma {:induction false} WroteMapped(p: Policy, d: Data, d0: Data, s: Story, d': Data, done: bool, ret: nat,
      epoch: nat, offset: nat, len: nat, src: int -> byte, wild: int -> byte)
    requires d0 == Mapped(d, offset + len)
    ensures WroteAs(p, d, s, d', done, ret, epoch, offset, len, src, wild) <==>
            WroteIn(p, d0, s, d', done, ret, epoch, offset, len, src, wild)
    decreases offset + len - |d.file|
  {
    if |d.file| < offset + len {
      MappedNext(d, offset + len);
      WroteMapped(p, Lengthened(d), d0, s, d', done, ret, epoch, offset, len, src, wild);
    } else {
      NoZeros(d.file);
    }
  }

  /** Its bytes are `zeros` longer. */
  ghost predicate Widens(p: Policy, epoch: nat, d: Data, d': Data, zeros: nat)
    requires Bounded(d.logs) && Bounded(d'.logs)
  {
    && |d'.file| == |d.file| + zeros
    && (Sound(d, p, epoch) ==> Sound(d', p, epoch) && ViewOf(d', p) == ViewOf(d, p) + Zeros(zeros))
    && (Homely(d, p, epoch) ==> Homely(d', p, epoch))
    && (RightSoFar(d, p, epoch) ==>
          RightSoFar(d', p, epoch) && Recovered(d', p, epoch) == Recovered(d, p, epoch) + Zeros(zeros))
  }

  /** In one block of the coverage a write leaves all as right as it was, and what was committed as it was; under UNDO
      if it is on bytes that hold their committed values.  Its entry is of this epoch. */
  ghost predicate Endures(p: Policy, d: Data, d': Data, epoch: nat, offset: nat, len: nat)
    requires Bounded(d.logs) && Bounded(d'.logs) && |d.file| <= |d'.file|
  {
    && RightSoFar(d', p, epoch)
    && (p == REDO || OnCommitted(d, epoch, offset, len) ==>
          Recovered(d', p, epoch) == Recovered(d, p, epoch) + Zeros(|d'.file| - |d.file|))
    && (len > 0 ==> HasEntry(d'.logs, KeyOf(d'.logs, offset))
                    && EntryOf(d'.logs, KeyOf(d'.logs, offset)).word.epoch == epoch)
  }

  /** What mmio_write makes of a state `d`.  The mapping may have grown; beyond that, nothing is seen of a call that
      does not return, and one that does replaces exactly the bytes of the request in the view, if it is one that a
      write gets right.  Requests that fit into one block of the coverage are such as long as all were, and what was
      committed endures them. */
  ghost predicate Outcome(p: Policy, d: Data, d': Data, done: bool, ret: nat, epoch: nat, offset: nat, len: nat,
      src: int -> byte)
    requires Bounded(d.logs) && Bounded(d'.logs) && offset + len <= |d'.file| && |d.file| <= |d'.file|
  {
    var zeros := |d'.file| - |d.file|;
    && (len > 0 ==> (OneBlock(d'.logs, offset, len) <==> Fits(d.logs, offset, len)))
    && (!done ==> Widens(p, epoch, d, d', zeros))
    && (Sound(d, p, epoch) && done && Writes(p, d.logs, epoch, offset, len) ==>
          Sound(d', p, epoch) && ViewOf(d', p) == Splice(ViewOf(d, p) + Zeros(zeros), offset, FromFile(src, 0, len)))
    && (Homely(d, p, epoch) && FitsCovered(d.logs, offset, len) ==>
          Homely(d', p, epoch) && done && Writes(p, d.logs, epoch, offset, len))
    && (RightSoFar(d, p, epoch) && epoch < EPOCHS && FitsCovered(d.logs, offset, len) ==>
          Endures(p, d, d', epoch, offset, len))
    && (done && (len == 0 || Fits(d.logs, offset, len)) ==> ret == len)
  }

  lemma NoZeros(s: seq<byte>)
    ensures s + Zeros(0) == s
  {
  }

  // ----- up to the loop

  lemma LockWidens(p: Policy, epoch: nat, d: Data, d1: Data, zeros: nat)
    requires Bounded(d.logs) && Grown(d.logs, d1.logs) && Bounded(d1.logs) && Dated(d1.logs, p, epoch)
    requires d1.file == d.file + Zeros(zeros)
    ensures Widens(p, epoch, d, d1, zeros)
  {
    var d0 := Data(d1.file, d.logs);
    if Sound(d, p, epoch) {
      LongerFile(d, d0, zeros, p, epoch);
      GrownSound(d0, d1.logs, p, epoch);
      GrownKeepsView(d0, d1.logs, p);
    }
    if Homely(d, p, epoch) {
      GrownOwns(d.logs, d1.logs, epoch, 0);
    }
    if RightSoFar(d, p, epoch) {
      LongerRecovers(d, d0, Zeros(zeros), p, epoch);
      GrownRight(d0, d1.logs, p, epoch);
      GrownRecovers(d0, d1.logs, p, epoch);
    }
  }

  /** What holds its committed value still does. */
  lemma WideCommitted(epoch: nat, d: Data, d1: Data, zeros: nat, offset: nat, len: nat)
    requires RightSoFar(d, UNDO, epoch) && Bounded(d1.logs) && d1.file == d.file + Zeros(zeros)
    requires Recovered(d1, UNDO, epoch) == Recovered(d, UNDO, epoch) + Zeros(zeros)
    ensures OnCommitted(d, epoch, offset, len) ==> OnCommitted(d1, epoch, offset, len)
  {
    if OnCommitted(d, epoch, offset, len) {
      forall i | offset <= i < offset + len && i < |d1.file| ensures RecoveredAt(d1, UNDO, epoch, i) == d1.file[i] {
        assert Recovered(d1, UNDO, epoch)[i] == RecoveredAt(d1, UNDO, epoch, i);
        assert i < |d.file| ==> Recovered(d, UNDO, epoch)[i] == RecoveredAt(d, UNDO, epoch, i);
      }
    }
  }

  /** A request lies in one block afterwards exactly if it was to fit before. */
  lemma StoryFits(l: Locks, t: Index, t': Index, epoch: nat, offset: nat, len: nat)
    requires LockRun(l, t, epoch, offset, Locked(len)) && (Locked(len) > 0 ==> l.Then?)
    requires SameLayout(l.t, t') && len > 0
    ensures OneBlock(t', offset, len) <==> Fits(t, offset, len)
    ensures OneBlock(l.t, offset, len) <==> Fits(t, offset, len)
  {
    SameOneBlock(l.t, t', offset, len);
    if len <= REGION {
      var n := Locked(len);
      assert n == len;
      LockFits(l, t, epoch, offset, n);
    } else {
      LongFits(l.t, offset, len);
      SizesOf(SizeChosen(t, offset, len));
    }
  }

  lemma LongFits(t: Index, offset: nat, len: nat)
    requires len > REGION
    ensures !OneBlock(t, offset, len)
  {
    if OneBlock(t, offset, len) {
      SizesOf(t.tables[TableOf(t, offset)].size);
    }
  }

  // ----- the loop

  /** What the loop makes of the view. */
  lemma RunShows(d1: Data, ms: seq<Progress>, starts: seq<nat>, keys: seq<Key>, p: Policy, epoch: nat, offset: nat,
      len: nat, src: int -> byte, wild: int -> byte, d': Data)
    requires Ran(d1, ms, starts, keys, p, epoch, offset, len, src, wild) && offset + len <= |d1.file|
    requires Sound(d1, p, epoch)
    requires p == UNDO || len == 0 || (OneBlock(d1.logs, offset, len) && OwnsOrOld(d1.logs, epoch, offset))
    requires d' == if p == UNDO then Stored(d1, ms[|keys|].d, offset, len, src) else ms[|keys|].d
    ensures Sound(d', p, epoch) && ViewOf(d', p) == Splice(ViewOf(d1, p), offset, FromFile(src, 0, len))
    ensures Homely(d1, p, epoch) && (len == 0 || offset / REGION < d1.logs.cov) ==> Homely(d', p, epoch)
  {
    if p == UNDO {
      UndoView(d1);
      UndoView(d');
    } else {
      RunRefines(d1, ms, starts, keys, epoch, offset, len, src, wild);
    }
  }

  /** What it makes of the committed content. */
  lemma RunEndures(d1: Data, ms: seq<Progress>, starts: seq<nat>, keys: seq<Key>, p: Policy, epoch: nat, offset: nat,
      len: nat, src: int -> byte, wild: int -> byte, d': Data)
    requires Ran(d1, ms, starts, keys, p, epoch, offset, len, src, wild) && offset + len <= |d1.file|
    requires RightSoFar(d1, p, epoch) && epoch < EPOCHS && (len == 0 || OneCovered(d1.logs, offset, len))
    requires d' == if p == UNDO then Stored(d1, ms[|keys|].d, offset, len, src) else ms[|keys|].d
    ensures Endures(p, d1, d', epoch, offset, len)
  {
    NoZeros(Recovered(d1, p, epoch));
    if len == 0 {
      NothingStored(d1, offset, src);
    } else {
      OneBlockLocked(d1.logs, offset, len);
      OneTurn(ms, starts, keys, p, epoch, offset, len, src, wild);
      TurnEndures(ms[0], keys[0], ms[1], p, epoch, src, wild, d');
    }
  }

  lemma NothingStored(d: Data, offset: nat, src: int -> byte)
    requires offset <= |d.file|
    ensures Stored(d, d, offset, 0, src) == d
  {
    assert Splice(d.file, offset, FromFile(src, 0, 0)) == d.file;
  }

  lemma TurnEndures(m: Progress, k: Key, m': Progress, p: Policy, epoch: nat, src: int -> byte, wild: int -> byte,
      d': Data)
    requires Turn(m, k, m', p, epoch, m.off, src, wild) && RightSoFar(m.d, p, epoch) && epoch < EPOCHS
    requires m.off + m.n <= |m.d.file| && k == KeyOf(m.d.logs, m.off) && OneCovered(m.d.logs, m.off, m.n)
    requires d' == if p == UNDO then Stored(m.d, m'.d, m.off, m.n, src) else m'.d
    ensures Endures(p, m.d, d', epoch, m.off, m.n)
  {
    NoZeros(Recovered(m.d, p, epoch));
    var d1, e' := TurnRight(m, k, m', p, epoch, m.off, src, wild);
    SameKey(m.d.logs, m'.d.logs, m.off);
    TurnFile(m, k, m', p, epoch, m.off, src, wild);
    if p == REDO {
      RedoTurnRecovers(m, k, m', epoch, m.off, src, wild);
    } else {
      SameLength(m'.d, d', UNDO, epoch);
      if OnCommitted(m.d, epoch, m.off, m.n) {
        UndoTurnRecovers(m, k, m', epoch, m.off, src, wild, src);
      }
    }
  }

  // ----- both

  /** Requests inside the coverage are such, as long as all were. */
  lemma HomeWrites(d: Data, p: Policy, epoch: nat, offset: nat, len: nat)
    requires Homely(d, p, epoch) && FitsCovered(d.logs, offset, len)
    ensures Writes(p, d.logs, epoch, offset, len)
  {
    if p == REDO && len > 0 {
      CoveredOwns(d, offset);
    }
  }

  /** The state with the mapping grown and the blocks locked. */
  lemma WroteFrom(p: Policy, d: Data, s: Story, d': Data, done: bool, ret: nat, epoch: nat, offset: nat, len: nat,
      src: int -> byte, wild: int -> byte)
      returns (d1: Data, zeros: nat)
    requires WroteAs(p, d, s, d', done, ret, epoch, offset, len, src, wild)
    ensures d1.logs == s.l.t && d1.file == d.file + Zeros(zeros) && offset + len <= |d1.file| == |d'.file|
    ensures zeros == |d'.file| - |d.file| && |d'.file| == MappedTo(|d.file|, offset + len)
    ensures Bounded(d1.logs) && Dated(d1.logs, p, epoch) && Grown(d.logs, d1.logs)
    ensures Bounded(d'.logs) && SameLayout(d1.logs, d'.logs) && (done <==> Returns(d1.logs, offset, Locked(len)))
    ensures LockRun(s.l, d.logs, epoch, offset, Locked(len)) && (Locked(len) > 0 ==> s.l.Then?)
    ensures if done then Looped(p, d1, s, d', ret, epoch, offset, len, src, wild) else d' == d1
  {
    zeros := MappedTo(|d.file|, offset + len) - |d.file|;
    d1 := Data(Mapped(d, offset + len).file, s.l.t);
    WroteMapped(p, d, Mapped(d, offset + len), s, d', done, ret, epoch, offset, len, src, wild);
  }

  lemma WroteShows(p: Policy, d: Data, d1: Data, s: Story, d': Data, zeros: nat, ret: nat, epoch: nat, offset: nat,
      len: nat, src: int -> byte, wild: int -> byte)
    requires Bounded(d.logs) && Bounded(d1.logs) && Widens(p, epoch, d, d1, zeros) && Grown(d.logs, d1.logs)
    requires offset + len <= |d1.file| && Looped(p, d1, s, d', ret, epoch, offset, len, src, wild)
    requires len > 0 ==> (OneBlock(d1.logs, offset, len) <==> Fits(d.logs, offset, len))
    requires Sound(d, p, epoch) && Writes(p, d.logs, epoch, offset, len)
    ensures Sound(d', p, epoch) && ViewOf(d', p) == Splice(ViewOf(d, p) + Zeros(zeros), offset, FromFile(src, 0, len))
    ensures Homely(d, p, epoch) && (len == 0 || offset / REGION < d.logs.cov) ==> Homely(d', p, epoch)
  {
    GrownOwns(d.logs, d1.logs, epoch, offset);
    RunShows(d1, s.ms, StartsOf(s.l), KeysOf(s.l), p, epoch, offset, len, src, wild, d');
  }

  lemma WroteEndures(p: Policy, d: Data, d1: Data, s: Story, d': Data, zeros: nat, ret: nat, epoch: nat, offset: nat,
      len: nat, src: int -> byte, wild: int -> byte)
    requires Bounded(d.logs) && Bounded(d1.logs) && Widens(p, epoch, d, d1, zeros) && Grown(d.logs, d1.logs)
    requires offset + len <= |d1.file| && Looped(p, d1, s, d', ret, epoch, offset, len, src, wild)
    requires len > 0 ==> (OneBlock(d1.logs, offset, len) <==> Fits(d.logs, offset, len))
    requires RightSoFar(d, p, epoch) && epoch < EPOCHS && FitsCovered(d.logs, offset, len)
    requires d1.file == d.file + Zeros(zeros) && |d'.file| == |d1.file| && Bounded(d'.logs)
    ensures Endures(p, d, d', epoch, offset, len)
  {
    RunEndures(d1, s.ms, StartsOf(s.l), KeysOf(s.l), p, epoch, offset, len, src, wild, d');
    if p == UNDO {
      WideCommitted(epoch, d, d1, zeros, offset, len);
    }
    EnduresFrom(p, d, d1, d', zeros, epoch, offset, len);
  }

  lemma EnduresFrom(p: Policy, d: Data, d1: Data, d': Data, zeros: nat, epoch: nat, offset: nat, len: nat)
    requires Bounded(d.logs) && Bounded(d1.logs) && Bounded(d'.logs) && |d'.file| == |d1.file| == |d.file| + zeros
    requires Endures(p, d1, d', epoch, offset, len)
    requires Recovered(d1, p, epoch) == Recovered(d, p, epoch) + Zeros(zeros)
    requires p == UNDO && OnCommitted(d, epoch, offset, len) ==> OnCommitted(d1, epoch, offset, len)
    ensures Endures(p, d, d', epoch, offset, len)
  {
    NoZeros(Recovered(d1, p, epoch));
  }

  lemma StoryMade(p: Policy, d: Data, d1: Data, s: Story, d': Data, done: bool, ret: nat, epoch: nat, offset: nat,
      len: nat, src: int -> byte, wild: int -> byte)
    requires offset + len <= |d.file| && LockedAs(p, d.logs, s.l, done, epoch, offset, len)
    requires d1 == Data(d.file, s.l.t) && if done then Looped(p, d1, s, d', ret, epoch, offset, len, src, wild)
             else d' == d1
    ensures WroteAs(p, d, s, d', done, ret, epoch, offset, len, src, wild)
  {
  }

  /** Mapping first makes no difference. */
  lemma MappedWrote(p: Policy, d: Data, s: Story, d': Data, done: bool, ret: nat, epoch: nat, offset: nat, len: nat,
      src: int -> byte, wild: int -> byte)
    requires WroteAs(p, Mapped(d, offset + len), s, d', done, ret, epoch, offset, len, src, wild)
    ensures WroteAs(p, d, s, d', done, ret, epoch, offset, len, src, wild)
  {
    WroteMapped(p, d, Mapped(d, offset + len), s, d', done, ret, epoch, offset, len, src, wild);
  }

  // ----- the sum of the turns, and the epoch of the entries

  /** As many bytes as the turns over `keys` write, from `off` on: each is cut to its block, and those after it with
      it. */
  function Total(t: Index, keys: seq<Key>, off: nat, n: nat): nat
    requires AllEntries(t, keys)
  {
    if keys == [] then 0
    else var m := StepLength(t, keys[0], off, n); m + Total(t, keys[1..], off + m, m)
  }

  lemma {:induction false} RunTotal(ms: seq<Progress>, keys: seq<Key>, i: nat, t: Index, p: Policy, epoch: nat,
      offset: nat, src: int -> byte, wild: int -> byte)
    requires WriteRun(ms, keys, p, epoch, offset, src, wild) && i <= |keys| && AllEntries(t, keys)
    requires forall j :: 0 <= j < |ms| ==> SameLayout(t, ms[j].d.logs)
    ensures ms[|keys|].off == ms[i].off + Total(t, keys[i..], ms[i].off, ms[i].n)
    decreases |keys| - i
  {
    if i < |keys| {
      RunTotal(ms, keys, i + 1, t, p, epoch, offset, src, wild);
      assert TurnAt(ms, keys, i, p, epoch, offset, src, wild);
      TurnLength(t, ms[i], keys[i], ms[i + 1], p, epoch, offset, src, wild);
      TotalStep(t, keys, i, ms[i], ms[i + 1], ms[|keys|].off);
    }
  }

  lemma TotalStep(t: Index, keys: seq<Key>, i: nat, m: Progress, m': Progress, end: nat)
    requires AllEntries(t, keys) && i < |keys|
    requires m'.n == StepLength(t, keys[i], m.off, m.n) && m'.off == m.off + m'.n
    requires end == m'.off + Total(t, keys[i + 1..], m'.off, m'.n)
    ensures end == m.off + Total(t, keys[i..], m.off, m.n)
  {
    TotalNext(t, keys, i, m.off, m.n);
  }

  lemma TurnLength(t: Index, m: Progress, k: Key, m': Progress, p: Policy, epoch: nat, offset: nat, src: int -> byte,
      wild: int -> byte)
    requires Turn(m, k, m', p, epoch, offset, src, wild) && HasEntry(t, k) && SameLayout(t, m.d.logs)
    ensures m'.n == StepLength(t, k, m.off, m.n) && m'.off == m.off + m'.n
  {
    SameHas(t, m.d.logs, k);
  }

  lemma TotalNext(t: Index, keys: seq<Key>, i: nat, off: nat, n: nat)
    requires AllEntries(t, keys) && i < |keys|
    ensures var m := StepLength(t, keys[i], off, n);
            Total(t, keys[i..], off, n) == m + Total(t, keys[i + 1..], off + m, m)
  {
    assert keys[i..][1..] == keys[i + 1..];
  }

  lemma {:induction false} AlignedTotal(t: Index, keys: seq<Key>, off: nat, n: nat, size: nat)
    requires AllEntries(t, keys) && OneSize(t, keys, size) && size > 0 && off % size == 0 && n >= size
    ensures Total(t, keys, off, n) == |keys| * size
    decreases |keys|
  {
    if keys != [] {
      AlignedNext(off, size);
      AlignedTotal(t, keys[1..], off + size, size, size);
      assert |keys| * size == (|keys| - 1) * size + size;
    }
  }

  /** A write of several blocks of one size that starts with a block returns its length exactly if it ends with one. */
  lemma AlignedReturns(t: Index, starts: seq<nat>, keys: seq<Key>, offset: nat, len: nat, size: nat)
    requires Tiling(t, starts, offset, len) && Lists(t, keys, starts) && AllEntries(t, keys)
    requires OneSize(t, keys, size) && len > 0 && size > 0 && offset % size == 0
    ensures Total(t, keys, offset, len) == len <==> len < size || len % size == 0
  {
    OneSizeTiles(t, starts, keys, offset, len, size);
    if len >= size {
      AlignedTotal(t, keys, offset, len, size);
      EndsWhole(len, size, |keys|);
    } else {
      OneKey(len, size, |keys|);
      OneTotal(t, keys, offset, len);
    }
  }

  lemma OneTotal(t: Index, keys: seq<Key>, offset: nat, len: nat)
    requires AllEntries(t, keys) && |keys| == 1 && offset % SizeOf(t, keys[0]) + len <= SizeOf(t, keys[0])
    ensures Total(t, keys, offset, len) == len
  {
    assert keys[1..] == [];
  }

  lemma OneKey(len: nat, size: nat, n: nat)
    requires n > 0 && (n - 1) * size < len < size
    ensures n == 1
  {
    if n > 1 {
      AtLeast(n - 1, size);
    }
  }

  lemma AtLeast(n: nat, size: nat)
    requires n > 0
    ensures n * size >= size
  {
    assert n * size == (n - 1) * size + size;
  }

  lemma EndsWhole(len: nat, size: nat, n: nat)
    requires size > 0 && n > 0 && (n - 1) * size < len <= n * size
    ensures n * size == len <==> len % size == 0
  {
    if n * size == len {
      MulMod(n, size, 0);
    } else {
      assert n * size == (n - 1) * size + size;
      DivUnique(len, size, n - 1, len - (n - 1) * size);
    }
  }

  /** These entries log something, in this epoch. */
  ghost predicate Stamped(t: Index, keys: seq<Key>, epoch: nat) {
    forall i :: 0 <= i < |keys| ==> StampedAt(t, keys[i], epoch)
  }

  ghost predicate StampedAt(t: Index, k: Key, epoch: nat) {
    HasEntry(t, k) && EntryOf(t, k).word.epoch == epoch && EntryOf(t, k).word.len > 0
  }

  lemma TurnStamps(m: Progress, k: Key, m': Progress, p: Policy, epoch: nat, offset: nat, src: int -> byte,
      wild: int -> byte)
    requires Turn(m, k, m', p, epoch, offset, src, wild) && Dated(m.d.logs, p, epoch) && epoch < EPOCHS
    ensures StampedAt(m'.d.logs, k, epoch)
    ensures forall k' :: StampedAt(m.d.logs, k', epoch) ==> StampedAt(m'.d.logs, k', epoch)
  {
    var d1 := Renewed(m.d, k, p, epoch);
    DatedOf(m.d.logs, k, p, epoch);
    assert Trunc(epoch) == epoch;
    assert HasEntry(d1.logs, k) && EntryOf(d1.logs, k).word.epoch == epoch;
    WrittenRange(EntryOf(d1.logs, k), p, Low(m.off, SizeOf(m.d.logs, k)), m'.n);
    forall k' | StampedAt(m.d.logs, k', epoch) && k' != k ensures StampedAt(m'.d.logs, k', epoch) {
      assert EntryOf(m'.d.logs, k') == EntryOf(m.d.logs, k');
    }
  }

  lemma {:induction false} RunStamps(ms: seq<Progress>, keys: seq<Key>, i: nat, p: Policy, epoch: nat, offset: nat,
      src: int -> byte, wild: int -> byte)
    requires WriteRun(ms, keys, p, epoch, offset, src, wild) && i <= |keys| && epoch < EPOCHS
    requires Bounded(ms[0].d.logs) && Dated(ms[0].d.logs, p, epoch) && (keys != [] ==> ms[0].n > 0)
    ensures Stamped(ms[i].d.logs, keys[..i], epoch)
  {
    if i > 0 {
      RunStamps(ms, keys, i - 1, p, epoch, offset, src, wild);
      RunKeeps(ms, keys, i - 1, p, epoch, offset, src, wild);
      assert TurnAt(ms, keys, i - 1, p, epoch, offset, src, wild);
      TurnStamps(ms[i - 1], keys[i - 1], ms[i], p, epoch, offset, src, wild);
      forall j | 0 <= j < i ensures StampedAt(ms[i].d.logs, keys[..i][j], epoch) {
        assert j < i - 1 ==> StampedAt(ms[i - 1].d.logs, keys[..i - 1][j], epoch);
      }
    }
  }

  lemma RunTurns(d1: Data, ms: seq<Progress>, starts: seq<nat>, keys: seq<Key>, p: Policy, epoch: nat, offset: nat,
      len: nat, src: int -> byte, wild: int -> byte, t': Index)
    requires Ran(d1, ms, starts, keys, p, epoch, offset, len, src, wild) && t' == ms[|keys|].d.logs
    requires Bounded(d1.logs) && Dated(d1.logs, p, epoch)
    ensures AllEntries(t', keys) && ms[|keys|].off == offset + Total(t', keys, offset, Locked(len))
    ensures epoch < EPOCHS ==> Stamped(t', keys, epoch)
  {
    ListedEntries(d1.logs, keys, starts);
    forall i | 0 <= i < |ms| ensures SameLayout(t', ms[i].d.logs) {
      RunKeeps(ms, keys, i, p, epoch, offset, src, wild);
      LayoutBack(d1.logs, ms[i].d.logs, t');
    }
    forall i | 0 <= i < |keys| ensures HasEntry(t', keys[i]) {
      SameHas(d1.logs, t', keys[i]);
    }
    RunTotal(ms, keys, 0, t', p, epoch, offset, src, wild);
    assert keys[0..] == keys;
    if epoch < EPOCHS {
      RunStamps(ms, keys, |keys|, p, epoch, offset, src, wild);
      assert keys[..|keys|] == keys;
    }
  }

  lemma LayoutBack(t: Index, t': Index, t'': Index)
    requires SameLayout(t, t') && SameLayout(t, t'')
    ensures SameLayout(t'', t')
  {
  }

  lemma WroteTurns(p: Policy, d: Data, s: Story, d': Data, ret: nat, epoch: nat, offset: nat, len: nat,
      src: int -> byte, wild: int -> byte)
    requires WroteAs(p, d, s, d', true, ret, epoch, offset, len, src, wild)
    ensures AllEntries(d'.logs, KeysOf(s.l)) && ret == Total(d'.logs, KeysOf(s.l), offset, Locked(len))
    ensures epoch < EPOCHS ==> Stamped(d'.logs, KeysOf(s.l), epoch)
  {
    var d1, _ := WroteFrom(p, d, s, d', true, ret, epoch, offset, len, src, wild);
    RunTurns(d1, s.ms, StartsOf(s.l), KeysOf(s.l), p, epoch, offset, len, src, wild, d'.logs);
  }

  /** A request that fits returns. */
  lemma FitsReturns(t: Index, offset: nat, len: nat)
    requires len > 0 && OneBlock(t, offset, len)
    ensures Returns(t, offset, Locked(len))
  {
    if !Returns(t, offset, Locked(len)) {
      SpinningIsLong(t, offset, len);
    }
  }

  /** All that a caller needs to know of a write follows from what it does turn by turn. */
  lemma WroteOutcome(p: Policy, d: Data, s: Story, d': Data, done: bool, ret: nat, epoch: nat, offset: nat, len: nat,
      src: int -> byte, wild: int -> byte)
    requires Bounded(d.logs) && WroteAs(p, d, s, d', done, ret, epoch, offset, len, src, wild)
    ensures |d'.file| == MappedTo(|d.file|, offset + len) && Bounded(d'.logs) && SameLayout(s.l.t, d'.logs)
    ensures Outcome(p, d, d', done, ret, epoch, offset, len, src)
  {
    var d1, zeros := WroteFrom(p, d, s, d', done, ret, epoch, offset, len, src, wild);
    LockWidens(p, epoch, d, d1, zeros);
    if done {
      if len > 0 {
        StoryFits(s.l, d.logs, d'.logs, epoch, offset, len);
      }
      RunOutcome(p, d, d1, s, d', zeros, ret, epoch, offset, len, src, wild);
    } else {
      SpinOutcome(p, d, s.l, d', zeros, ret, epoch, offset, len, src);
    }
  }

  lemma SpinOutcome(p: Policy, d: Data, l: Locks, d': Data, zeros: nat, ret: nat, epoch: nat, offset: nat, len: nat,
      src: int -> byte)
    requires Bounded(d.logs) && Bounded(d'.logs) && Widens(p, epoch, d, d', zeros) && offset + len <= |d'.file|
    requires LockRun(l, d.logs, epoch, offset, Locked(len)) && (Locked(len) > 0 ==> l.Then?) && d'.logs == l.t
    requires !Returns(l.t, offset, Locked(len))
    ensures Outcome(p, d, d', false, ret, epoch, offset, len, src)
  {
    SpinningIsLong(l.t, offset, len);
    StoryFits(l, d.logs, l.t, epoch, offset, len);
    SpunOutcome(p, d, d', zeros, ret, epoch, offset, len, src);
  }

  lemma SpunOutcome(p: Policy, d: Data, d': Data, zeros: nat, ret: nat, epoch: nat, offset: nat, len: nat,
      src: int -> byte)
    requires Bounded(d.logs) && Bounded(d'.logs) && Widens(p, epoch, d, d', zeros) && offset + len <= |d'.file|
    requires len > 0 && !OneBlock(d'.logs, offset, len) && !Fits(d.logs, offset, len)
    ensures Outcome(p, d, d', false, ret, epoch, offset, len, src)
  {
  }

  lemma WroteAll(p: Policy, d: Data, s: Story, d': Data, done: bool, ret: nat, epoch: nat, offset: nat, len: nat,
      src: int -> byte, wild: int -> byte)
    requires Bounded(d.logs) && WroteAs(p, d, s, d', done, ret, epoch, offset, len, src, wild)
    ensures |d'.file| == MappedTo(|d.file|, offset + len) && Bounded(d'.logs)
    ensures Outcome(p, d, d', done, ret, epoch, offset, len, src)
    ensures done <==> Returns(d'.logs, offset, Locked(len))
    ensures done ==> AllEntries(d'.logs, KeysOf(s.l)) && ret == Total(d'.logs, KeysOf(s.l), offset, Locked(len))
    ensures done && epoch < EPOCHS ==> Stamped(d'.logs, KeysOf(s.l), epoch)
  {
    var d1, _ := WroteFrom(p, d, s, d', done, ret, epoch, offset, len, src, wild);
    WroteOutcome(p, d, s, d', done, ret, epoch, offset, len, src, wild);
    SameReturns(d1.logs, d'.logs, offset, Locked(len));
    if done {
      WroteTurns(p, d, s, d', ret, epoch, offset, len, src, wild);
    }
  }

  lemma RunOutcome(p: Policy, d: Data, d1: Data, s: Story, d': Data, zeros: nat, ret: nat, epoch: nat, offset: nat,
      len: nat, src: int -> byte, wild: int -> byte)
    requires Bounded(d.logs) && Bounded(d1.logs) && Widens(p, epoch, d, d1, zeros) && Grown(d.logs, d1.logs)
    requires offset + len <= |d1.file| && Looped(p, d1, s, d', ret, epoch, offset, len, src, wild)
    requires SameLayout(d1.logs, d'.logs) && Bounded(d'.logs)
    requires len > 0 ==> (OneBlock(d1.logs, offset, len) <==> Fits(d.logs, offset, len))
    requires len > 0 ==> (OneBlock(d'.logs, offset, len) <==> Fits(d.logs, offset, len))
    requires d1.file == d.file + Zeros(zeros) && |d'.file| == |d1.file|
    ensures Outcome(p, d, d', true, ret, epoch, offset, len, src)
  {
    var fits := FitsCovered(d.logs, offset, len);
    if Homely(d, p, epoch) && fits {
      HomeWrites(d, p, epoch, offset, len);
    }
    if Sound(d, p, epoch) && Writes(p, d.logs, epoch, offset, len) {
      WroteShows(p, d, d1, s, d', zeros, ret, epoch, offset, len, src, wild);
    }
    if RightSoFar(d, p, epoch) && epoch < EPOCHS && fits {
      WroteEndures(p, d, d1, s, d', zeros, ret, epoch, offset, len, src, wild);
    }
    RunLength(d1, s.ms, StartsOf(s.l), KeysOf(s.l), p, epoch, offset, len, src, wild);
    OutcomeOf(p, d, d', zeros, ret, epoch, offset, len, src);
  }

  lemma OutcomeOf(p: Policy, d: Data, d': Data, zeros: nat, ret: nat, epoch: nat, offset: nat, len: nat,
      src: int -> byte)
    requires Bounded(d.logs) && Bounded(d'.logs) && |d'.file| == |d.file| + zeros && offset + len <= |d'.file|
    requires len > 0 ==> (OneBlock(d'.logs, offset, len) <==> Fits(d.logs, offset, len))
    requires Sound(d, p, epoch) && Writes(p, d.logs, epoch, offset, len) ==>
               Sound(d', p, epoch) && ViewOf(d', p) ==
                 Splice(ViewOf(d, p) + Zeros(zeros), offset, FromFile(src, 0, len))
    requires Homely(d, p, epoch) && FitsCovered(d.logs, offset, len) ==>
               Homely(d', p, epoch) && Writes(p, d.logs, epoch, offset, len)
    requires RightSoFar(d, p, epoch) && epoch < EPOCHS && FitsCovered(d.logs, offset, len) ==>
               Endures(p, d, d', epoch, offset, len)
    requires len == 0 || Fits(d.logs, offset, len) ==> ret == len
    ensures Outcome(p, d, d', true, ret, epoch, offset, len, src)
  {
  }

  lemma UndoView(d: Data)
    requires Bounded(d.logs)
    ensures ViewOf(d, UNDO) == d.file
  {
  }

  lemma SameOneBlock(t: Index, t': Index, off: nat, n: nat)
    requires SameLayout(t, t')
    ensures OneBlock(t, off, n) <==> OneBlock(t', off, n)
  {
    SameKey(t, t', off);
    SameHas(t, t', KeyOf(t, off));
  }

  /** A run over the blocks of a request that lies in one block is that one turn. */
  lemma OneTurn(ms: seq<Progress>, starts: seq<nat>, keys: seq<Key>, p: Policy, epoch: nat, offset: nat, len: nat,
      src: int -> byte, wild: int -> byte)
    requires WriteRun(ms, keys, p, epoch, offset, src, wild) && ms[0].n == len > 0 && ms[0].off == offset
    requires Tiling(ms[0].d.logs, starts, offset, len) && Lists(ms[0].d.logs, keys, starts)
             && OneBlock(ms[0].d.logs, offset, len)
    ensures keys == [KeyOf(ms[0].d.logs, offset)] && ms[1].off == offset + len
    ensures Turn(ms[0], keys[0], ms[1], p, epoch, offset, src, wild)
  {
    OneTile(ms[0].d.logs, starts, keys, offset, len);
    assert TurnAt(ms, keys, 0, p, epoch, offset, src, wild);
  }

  lemma TurnMade(d: Data, k: Key, next: Progress, p: Policy, epoch: nat, offset: nat, src: int -> byte,
      wild: int -> byte, ms: seq<Progress>, keys: seq<Key>)
    requires WriteRun(ms, keys, p, epoch, offset, src, wild) && Kept(d, ms[|keys|].d, p, epoch)
    requires Turn(ms[|keys|], k, next, p, epoch, offset, src, wild)
    ensures next.n > 0 && Kept(d, next.d, p, epoch) && WriteRun(ms + [next], keys + [k], p, epoch, offset, src, wild)
  {
    TurnKeeps(ms[|keys|], k, next, d, p, epoch, offset, src, wild);
    RunAppend(ms, keys, next, k, p, epoch, offset, src, wild);
  }

  /** A longer file, zero at the end, has the same logs and a longer view. */
  lemma LongerFile(d: Data, d': Data, zeros: nat, p: Policy, epoch: nat)
    requires Sound(d, p, epoch) && d'.logs == d.logs && d'.file == d.file + Zeros(zeros)
    ensures Sound(d', p, epoch) && ViewOf(d', p) == ViewOf(d, p) + Zeros(zeros)
  {
    if p == REDO {
      forall k | HasEntry(d'.logs, k) ensures PlacedAt(d', k) {
        assert PlacedAt(d, k);
      }
    }
    forall i | |d.file| <= i < |d'.file| ensures ByteAt(d', p, i) == 0 {
      if p == REDO && Logged(d.logs, i) {
        assert PlacedAt(d, KeyOf(d.logs, i));
        StartIsStart(d.logs, i);
      }
    }
  }

  const BASIC_MMAP_SIZE: nat := 0x400_0000
  const DEFAULT_MMAP_SIZE: nat := 0x10_0000

  function Zeros(n: nat): seq<byte> {
    seq(n, i => 0 as byte)
  }
}
