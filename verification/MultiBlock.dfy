/** Exactly when the write and read loops are right.  LOCK_ENTRIES leaves the blocks on the list in reverse order, but
    the loops start from the lowest offset (src/mmio.c:40, 296-301, 428), so requests of several blocks go to, and come
    from, the wrong blocks.  And beyond the coverage of the radix shortcut two blocks share a slot
    (src/radixlog.c:188-260). Here: whatever the contents, the loops do what they should exactly for requests inside
    one block of the coverage. */
module MultiBlock {
  import opened Pmem
  import opened BlockLog
  import opened Geometry
  import opened Arithmetic
  import opened MmioData
  import opened MmioSpec
  import opened Recovery

  /** A request as LOCK_ENTRIES leaves it: `keys` is the list. */
  ghost predicate Request(t: Index, starts: seq<nat>, keys: seq<Key>, offset: nat, len: nat) {
    Bounded(t) && Tiling(t, starts, offset, len) && Lists(t, keys, starts) && Returns(t, offset, len) && len > 0
  }

  // ----- writing

  /** From every state laid out as `t` that is right so far, the loop over `keys` leaves the view with the request
      written into it. */
  ghost predicate AlwaysWrites(t: Index, keys: seq<Key>, epoch: nat, offset: nat, len: nat) {
    forall ms: seq<Progress>, src: int -> byte, wild: int -> byte ::
      WriteRun(ms, keys, REDO, epoch, offset, src, wild) && StartsWrite(t, ms, epoch, offset, len) ==>
        && Bounded(ms[|keys|].d.logs)
        && ViewOf(ms[|keys|].d, REDO) == Splice(ViewOf(ms[0].d, REDO), offset, FromFile(src, 0, len))
  }

  ghost predicate StartsWrite(t: Index, ms: seq<Progress>, epoch: nat, offset: nat, len: nat) {
    && |ms| > 0 && ms[0].off == offset && ms[0].n == len
    && SameLayout(t, ms[0].d.logs) && Homely(ms[0].d, REDO, epoch) && offset + len <= |ms[0].d.file|
  }

  /** The REDO write loop writes the request, whatever the contents, if and only if the request lies in one block of the
      coverage. */
  lemma WriteExact(t: Index, starts: seq<nat>, keys: seq<Key>, epoch: nat, offset: nat, len: nat)
    requires Request(t, starts, keys, offset, len)
    ensures AlwaysWrites(t, keys, epoch, offset, len) <==> OneCovered(t, offset, len)
  {
    if OneCovered(t, offset, len) {
      CoveredWrites(t, starts, keys, epoch, offset, len);
    } else if OneBlock(t, offset, len) {
      AliasedFails(t, starts, keys, epoch, offset, len);
    } else {
      SeveralFail(t, starts, keys, epoch, offset, len);
    }
  }

  lemma CoveredWrites(t: Index, starts: seq<nat>, keys: seq<Key>, epoch: nat, offset: nat, len: nat)
    requires Request(t, starts, keys, offset, len) && OneCovered(t, offset, len)
    ensures AlwaysWrites(t, keys, epoch, offset, len)
  {
    forall ms: seq<Progress>, src: int -> byte, wild: int -> byte
      | WriteRun(ms, keys, REDO, epoch, offset, src, wild) && StartsWrite(t, ms, epoch, offset, len)
      ensures && Bounded(ms[|keys|].d.logs)
              && ViewOf(ms[|keys|].d, REDO) == Splice(ViewOf(ms[0].d, REDO), offset, FromFile(src, 0, len))
    {
      CoveredWrite(t, starts, keys, epoch, offset, len, ms, src, wild);
    }
  }

  lemma CoveredWrite(t: Index, starts: seq<nat>, keys: seq<Key>, epoch: nat, offset: nat, len: nat, ms: seq<Progress>,
      src: int -> byte, wild: int -> byte)
    requires Request(t, starts, keys, offset, len) && OneCovered(t, offset, len)
    requires WriteRun(ms, keys, REDO, epoch, offset, src, wild) && StartsWrite(t, ms, epoch, offset, len)
    ensures Bounded(ms[|keys|].d.logs)
    ensures ViewOf(ms[|keys|].d, REDO) == Splice(ViewOf(ms[0].d, REDO), offset, FromFile(src, 0, len))
  {
    var d := ms[0].d;
    SameRequest(t, d.logs, starts, keys, offset, len);
    SameOneBlock(t, d.logs, offset, len);
    OneBlockLocked(t, offset, len);
    CoveredOwns(d, offset);
    RunKeeps(ms, keys, |keys|, REDO, epoch, offset, src, wild);
    RunRefines(d, ms, starts, keys, epoch, offset, len, src, wild);
  }

  lemma SameRequest(t: Index, t': Index, starts: seq<nat>, keys: seq<Key>, offset: nat, len: nat)
    requires SameLayout(t, t') && Request(t, starts, keys, offset, len) && Bounded(t')
    ensures Request(t', starts, keys, offset, len)
  {
    SameReturns(t, t', offset, len);
    SameKey(t, t', offset);
    forall i | 0 <= i < |starts|
      ensures HasEntry(t', KeyOf(t', starts[i])) && KeyOf(t', starts[i]) == KeyOf(t, starts[i])
              && StartOf(t', starts[i]) == starts[i] && SizeAt(t', starts[i]) == SizeAt(t, starts[i])
    {
      SameKey(t, t', starts[i]);
      SameHas(t, t', KeyOf(t, starts[i]));
    }
  }

  /** The loop always has a run. */
  lemma {:induction false} MakeRun(d: Data, keys: seq<Key>, p: Policy, epoch: nat, offset: nat, len: nat,
      src: int -> byte, wild: int -> byte) returns (ms: seq<Progress>)
    requires Bounded(d.logs) && Dated(d.logs, p, epoch) && AllEntries(d.logs, keys) && len > 0
    ensures WriteRun(ms, keys, p, epoch, offset, src, wild) && ms[0] == Progress(d, offset, len)
    decreases |keys|
  {
    ms := [Progress(d, offset, len)];
    if keys != [] {
      var n := |keys| - 1;
      ms := MakeRun(d, keys[..n], p, epoch, offset, len, src, wild);
      ms := OneMore(d, ms, keys[..n], keys[n], p, epoch, offset, src, wild);
      assert keys[..n] + [keys[n]] == keys;
    }
  }

  lemma OneMore(d: Data, ms: seq<Progress>, keys: seq<Key>, k: Key, p: Policy, epoch: nat, offset: nat,
      src: int -> byte, wild: int -> byte) returns (ms': seq<Progress>)
    requires Bounded(d.logs) && Dated(d.logs, p, epoch) && HasEntry(d.logs, k)
    requires WriteRun(ms, keys, p, epoch, offset, src, wild) && ms[0].d == d && ms[0].n > 0
    ensures WriteRun(ms', keys + [k], p, epoch, offset, src, wild) && ms'[0] == ms[0]
  {
    RunKeeps(ms, keys, |keys|, p, epoch, offset, src, wild);
    var m := ms[|keys|];
    SameHas(d.logs, m.d.logs, k);
    FitsOf(m.d.logs, k);
    var m' := NextTurn(m, k, p, epoch, offset, src, wild);
    RunAppend(ms, keys, m', k, p, epoch, offset, src, wild);
    ms' := ms + [m'];
  }

  lemma NextTurn(m: Progress, k: Key, p: Policy, epoch: nat, offset: nat, src: int -> byte, wild: int -> byte)
      returns (m': Progress)
    requires HasEntry(m.d.logs, k) && EntryFits(m.d.logs.tables[k.region].size, k.index, EntryOf(m.d.logs, k))
             && m.n > 0
    ensures Turn(m, k, m', p, epoch, offset, src, wild)
  {
    var step := StepLength(m.d.logs, k, m.off, m.n);
    m' := Progress(WriteOne(m.d, k, p, epoch, m.off, m.n, Shift(src, m.off - offset), wild), m.off + step, step);
  }

  // ----- keys of a request are distinct

  lemma {:induction false} Ascending(t: Index, starts: seq<nat>, i: nat, j: nat)
    requires AllStarts(t, starts) && Adjacent(t, starts) && i < j < |starts|
    ensures starts[i] < starts[j]
    decreases j - i
  {
    assert starts[i + 1] == starts[i] + SizeAt(t, starts[i]);
    if i + 1 < j {
      Ascending(t, starts, i + 1, j);
    }
  }

  lemma KeysDiffer(t: Index, starts: seq<nat>, keys: seq<Key>, offset: nat, len: nat, i: nat, j: nat)
    requires Request(t, starts, keys, offset, len) && i < j < |keys|
    ensures keys[i] != keys[j]
  {
    var x, y := |starts| - 1 - j, |starts| - 1 - i;
    Ascending(t, starts, x, y);
    FirstIsLowest(t, starts, x);
    LastIsHighest(t, starts, y);
    SlotsDiffer(t, starts[x], starts[y]);
  }

  lemma Several(t: Index, starts: seq<nat>, keys: seq<Key>, offset: nat, len: nat)
    requires Request(t, starts, keys, offset, len) && !OneBlock(t, offset, len)
    ensures |keys| > 1 && keys[|keys| - 1] == KeyOf(t, offset)
  {
    StartIsStart(t, offset);
  }

  // ----- blank states

  /** A state in which the file is zero and no entry logs anything yet. */
  ghost predicate Blank(d: Data, epoch: nat) {
    && Bounded(d.logs) && (forall i :: 0 <= i < |d.file| ==> d.file[i] == 0)
    && forall r, i :: r in d.logs.tables && i in d.logs.tables[r].entries ==>
         d.logs.tables[r].entries[i].word == Word(epoch, 0, 0, REDO)
  }

  lemma BlankLike(t: Index, epoch: nat, size: nat) returns (d: Data)
    requires Bounded(t)
    ensures SameLayout(t, d.logs) && Blank(d, epoch) && |d.file| == size
  {
    var w := Word(epoch, 0, 0, REDO);
    d := Data(Zeros(size), t.(tables := map r | r in t.tables ::
           Table(t.tables[r].size, map i | i in t.tables[r].entries :: Entry(w, t.tables[r].entries[i].log, 0))));
    forall r, i | r in d.logs.tables && i in d.logs.tables[r].entries
      ensures d.logs.tables[r].entries[i] == Entry(w, t.tables[r].entries[i].log, 0)
    {
    }
  }

  lemma BlankIsRight(d: Data, p: Policy, epoch: nat)
    requires Blank(d, epoch)
    ensures RightSoFar(d, p, epoch)
  {
    forall k | HasEntry(d.logs, k) ensures EntryOf(d.logs, k).word.len == 0 {
    }
  }

  // ----- several blocks

  /** A turn on an entry of the current epoch replaces that entry and nothing else. */
  lemma CurrentTurn(m: Progress, k: Key, m': Progress, p: Policy, epoch: nat, offset: nat, src: int -> byte,
      wild: int -> byte)
      returns (e': Entry)
    requires Turn(m, k, m', p, epoch, offset, src, wild) && EntryOf(m.d.logs, k).word.epoch == epoch
    ensures m'.d == m.d.(logs := PutEntry(m.d.logs, k, e')) && 0 < m'.n <= m.n && m'.off == m.off + m'.n
    ensures var e, lo := EntryOf(m.d.logs, k), Low(m.off, SizeOf(m.d.logs, k));
            && InBlock(e.word, |e.log|) && |e.log| == SizeOf(m.d.logs, k) && lo + m'.n <= |e.log|
            && (lo + m.n <= |e.log| ==> m'.n == m.n)
            && e' == WrittenEntry(e, p, lo, m'.n, Shift(src, m.off - offset), Peek(m.d.file, wild), m.off)
  {
    var e, lo := EntryOf(m.d.logs, k), Low(m.off, SizeOf(m.d.logs, k));
    e' := WrittenEntry(e, p, lo, m'.n, Shift(src, m.off - offset), Peek(m.d.file, wild), m.off);
  }

  /** What is written to an entry that logs nothing. */
  lemma FreshWritten(e: Entry, p: Policy, lo: nat, n: nat, src: int -> byte, mem: int -> byte, at: nat)
    requires n > 0 && lo + n <= |e.log| && e.word.len == 0 && e.word.off <= |e.log| && lo <= at
    ensures var e' := WrittenEntry(e, p, lo, n, src, mem, at);
            && e'.word.off == lo && e'.word.len == n && e'.dst == at - lo && |e'.log| == |e.log|
            && forall j :: lo <= j < lo + n ==> e'.log[j] == if p == UNDO then mem(at - lo + j) else src(j - lo)
  {
  }

  /** A turn on an entry that logs nothing yet logs no byte before `m.off` in the block it takes that for, and touches
      nothing else. */
  lemma BlankTurn(m: Progress, k: Key, m': Progress, p: Policy, epoch: nat, offset: nat, src: int -> byte,
      wild: int -> byte)
    requires Turn(m, k, m', p, epoch, offset, src, wild) && EntryOf(m.d.logs, k).word == Word(epoch, 0, 0, REDO)
    ensures m'.d.file == m.d.file && m'.off > m.off && HasEntry(m'.d.logs, k) && SameLayout(m.d.logs, m'.d.logs)
    ensures forall k' :: HasEntry(m.d.logs, k') && k' != k ==>
              HasEntry(m'.d.logs, k') && EntryOf(m'.d.logs, k') == EntryOf(m.d.logs, k')
    ensures LogsFrom(EntryOf(m'.d.logs, k), m.off, SizeOf(m.d.logs, k))
  {
    var e' := CurrentTurn(m, k, m', p, epoch, offset, src, wild);
    var lo := Low(m.off, SizeOf(m.d.logs, k));
    FreshWritten(EntryOf(m.d.logs, k), p, lo, m'.n, Shift(src, m.off - offset), Peek(m.d.file, wild), m.off);
    PutLayout(m.d.logs, k, e');
    PutOthers(m.d.logs, k, e');
  }

  /** The entry logs nothing before offset `off`. */
  ghost predicate LogsFrom(e: Entry, off: nat, size: nat)
    requires size > 0
  {
    |e.log| == size && e.dst == off - Low(off, size) && e.word.off == Low(off, size)
  }

  /** Before turn `i`, the blocks from `i` on are as they were. */
  ghost predicate Untouched(d: Data, m: Progress, keys: seq<Key>, i: nat) {
    && m.d.file == d.file && SameLayout(d.logs, m.d.logs)
    && forall j :: i <= j < |keys| ==>
         HasEntry(m.d.logs, keys[j]) && HasEntry(d.logs, keys[j])
           && EntryOf(m.d.logs, keys[j]) == EntryOf(d.logs, keys[j])
  }

  lemma {:induction false} RunOnBlank(d: Data, starts: seq<nat>, keys: seq<Key>, p: Policy, epoch: nat, offset: nat,
      len: nat, src: int -> byte, wild: int -> byte, ms: seq<Progress>, i: nat)
    requires Blank(d, epoch) && Request(d.logs, starts, keys, offset, len)
    requires WriteRun(ms, keys, p, epoch, offset, src, wild) && ms[0] == Progress(d, offset, len) && i < |ms|
    ensures Untouched(d, ms[i], keys, i) && ms[i].off >= offset + i
  {
    if i == 0 {
      ListedEntries(d.logs, keys, starts);
    } else {
      RunOnBlank(d, starts, keys, p, epoch, offset, len, src, wild, ms, i - 1);
      forall j | i <= j < |keys| ensures keys[j] != keys[i - 1] {
        KeysDiffer(d.logs, starts, keys, offset, len, i - 1, j);
      }
      UntouchedAt(d, ms, keys, i - 1, p, epoch, offset, src, wild);
    }
  }

  lemma UntouchedAt(d: Data, ms: seq<Progress>, keys: seq<Key>, i: nat, p: Policy, epoch: nat, offset: nat,
      src: int -> byte, wild: int -> byte)
    requires WriteRun(ms, keys, p, epoch, offset, src, wild) && i < |keys| && Blank(d, epoch)
             && Untouched(d, ms[i], keys, i)
    requires forall j :: i < j < |keys| ==> keys[j] != keys[i]
    ensures Untouched(d, ms[i + 1], keys, i + 1) && ms[i + 1].off > ms[i].off
  {
    assert TurnAt(ms, keys, i, p, epoch, offset, src, wild);
    UntouchedNext(d, ms[i], ms[i + 1], keys, i, p, epoch, offset, src, wild);
  }

  lemma BlankWord(d: Data, k: Key, epoch: nat)
    requires Blank(d, epoch) && HasEntry(d.logs, k)
    ensures EntryOf(d.logs, k).word == Word(epoch, 0, 0, REDO)
  {
  }

  lemma UntouchedNext(d: Data, m: Progress, m': Progress, keys: seq<Key>, i: nat, p: Policy, epoch: nat, offset: nat,
      src: int -> byte, wild: int -> byte)
    requires Blank(d, epoch) && i < |keys| && Untouched(d, m, keys, i)
             && Turn(m, keys[i], m', p, epoch, offset, src, wild)
    requires forall j :: i < j < |keys| ==> keys[j] != keys[i]
    ensures Untouched(d, m', keys, i + 1) && m'.off > m.off
  {
    BlankWord(d, keys[i], epoch);
    BlankTurn(m, keys[i], m', p, epoch, offset, src, wild);
  }

  /** The first byte of the request is not where a reader looks for it: the block it belongs to comes last on the list,
      and gets a later part of the request. */
  lemma FirstByteMissed(d: Data, starts: seq<nat>, keys: seq<Key>, p: Policy, epoch: nat, offset: nat, len: nat,
      src: int -> byte, wild: int -> byte, ms: seq<Progress>)
    requires Blank(d, epoch) && Request(d.logs, starts, keys, offset, len) && !OneBlock(d.logs, offset, len)
    requires WriteRun(ms, keys, p, epoch, offset, src, wild) && ms[0] == Progress(d, offset, len)
    ensures var d' := ms[|keys|].d;
            && SameLayout(d.logs, d'.logs) && d'.file == d.file && !Logged(d'.logs, offset)
  {
    Several(d.logs, starts, keys, offset, len);
    var last := |keys| - 1;
    RunOnBlank(d, starts, keys, p, epoch, offset, len, src, wild, ms, last);
    assert TurnAt(ms, keys, last, p, epoch, offset, src, wild);
    var k, m, d' := keys[last], ms[last], ms[|keys|].d;
    BlankWord(d, k, epoch);
    BlankTurn(m, k, ms[|keys|], p, epoch, offset, src, wild);
    LayoutTrans(d.logs, m.d.logs, d'.logs);
    SameKey(d.logs, d'.logs, offset);
    NotLogged(d'.logs, offset, m.off);
  }

  lemma NotLogged(t: Index, offset: nat, off: nat)
    requires HasEntry(t, KeyOf(t, offset)) && off > offset
    requires LogsFrom(EntryOf(t, KeyOf(t, offset)), off, SizeAt(t, offset))
    ensures !Logged(t, offset)
  {
    StartIsStart(t, offset);
  }

  /** A run on a blank state after which the first byte of the request is not logged. */
  lemma MissingRun(t: Index, starts: seq<nat>, keys: seq<Key>, p: Policy, epoch: nat, offset: nat, len: nat,
      src: int -> byte, wild: int -> byte) returns (d: Data, ms: seq<Progress>)
    requires Request(t, starts, keys, offset, len) && !OneBlock(t, offset, len)
    ensures SameLayout(t, d.logs) && Blank(d, epoch) && |d.file| == offset + len && RightSoFar(d, p, epoch)
    ensures WriteRun(ms, keys, p, epoch, offset, src, wild) && ms[0] == Progress(d, offset, len)
    ensures ms[|keys|].d.file == d.file && !Logged(ms[|keys|].d.logs, offset)
  {
    d := BlankLike(t, epoch, offset + len);
    BlankIsRight(d, p, epoch);
    SameRequest(t, d.logs, starts, keys, offset, len);
    SameOneBlock(t, d.logs, offset, len);
    ListedEntries(d.logs, keys, starts);
    ms := MakeRun(d, keys, p, epoch, offset, len, src, wild);
    FirstByteMissed(d, starts, keys, p, epoch, offset, len, src, wild, ms);
  }

  lemma SeveralFail(t: Index, starts: seq<nat>, keys: seq<Key>, epoch: nat, offset: nat, len: nat)
    requires Request(t, starts, keys, offset, len) && !OneBlock(t, offset, len)
    ensures !AlwaysWrites(t, keys, epoch, offset, len)
  {
    var src: int -> byte, wild: int -> byte := i => 1, i => 0;
    var d, ms := MissingRun(t, starts, keys, REDO, epoch, offset, len, src, wild);
    Refutes(t, keys, epoch, offset, len, ms, src, wild, offset);
  }

  /** A run that leaves a wrong byte. */
  lemma Refutes(t: Index, keys: seq<Key>, epoch: nat, offset: nat, len: nat, ms: seq<Progress>, src: int -> byte,
      wild: int -> byte, i: nat)
    requires WriteRun(ms, keys, REDO, epoch, offset, src, wild) && StartsWrite(t, ms, epoch, offset, len)
    requires var d, d' := ms[0].d, ms[|keys|].d;
             && i < |d.file| == |d'.file|
             && (Bounded(d'.logs) ==>
                   ByteAt(d', REDO, i) != if offset <= i < offset + len then src(i - offset) else ByteAt(d, REDO, i))
    ensures !AlwaysWrites(t, keys, epoch, offset, len)
  {
    WrongAt(ms[|keys|].d, ViewOf(ms[0].d, REDO), offset, len, src, i);
  }

  /** One wrong byte. */
  lemma WrongAt(d': Data, view: seq<byte>, offset: nat, len: nat, src: int -> byte, i: nat)
    requires |d'.file| == |view| && offset + len <= |view| && i < |view|
    requires Bounded(d'.logs) ==> ByteAt(d', REDO, i) != if offset <= i < offset + len then src(i - offset) else view[i]
    ensures !(Bounded(d'.logs) && ViewOf(d', REDO) == Splice(view, offset, FromFile(src, 0, len)))
  {
    if Bounded(d'.logs) {
      assert ViewOf(d', REDO)[i] == ByteAt(d', REDO, i);
    }
  }

  // ----- one block beyond the coverage

  /** The block of the coverage that has the slot of the block at `x`. */
  lemma HomeBlock(t: Index, x: nat) returns (h: nat)
    requires Sized(t, x) && StartOf(t, x) == x
    ensures Sized(t, h) && StartOf(t, h) == h && KeyOf(t, h) == KeyOf(t, x) && SizeAt(t, h) == SizeAt(t, x)
    ensures h / REGION < t.cov && h <= x && (x / REGION >= t.cov ==> h + SizeAt(t, h) <= x)
  {
    var s, r := t.tables[TableOf(t, x)].size, TableOf(t, x);
    AddressOfPlace(s, x);
    h := Address(s, r, TableIndex(s, x), 0);
    PlaceOfAddress(s, r, TableIndex(s, x), 0);
    SmallMod(r, t.cov);
    ModBelow(x / REGION, t.cov);
    assert h % Bytes(s) == 0;
    if x / REGION >= t.cov {
      BlocksApart(t, h, x);
    }
  }

  lemma ModBelow(x: nat, m: nat)
    requires m > 0
    ensures x % m <= x && x % m < m
  {
    var r := Low(x, m);
  }

  /** The blank state with a block of the coverage logged in full as ones. */
  lemma OneLogged(d0: Data, p: Policy, epoch: nat, h: nat) returns (d: Data)
    requires Blank(d0, epoch) && Sized(d0.logs, h) && StartOf(d0.logs, h) == h && h / REGION < d0.logs.cov
    requires HasEntry(d0.logs, KeyOf(d0.logs, h)) && h + SizeAt(d0.logs, h) <= |d0.file|
    ensures SameLayout(d0.logs, d.logs) && RightSoFar(d, p, epoch) && d.file == d0.file
    ensures HasEntry(d.logs, KeyOf(d0.logs, h))
            && FullOf(EntryOf(d.logs, KeyOf(d0.logs, h)), p, epoch, SizeAt(d0.logs, h), h)
    ensures forall i :: 0 <= i < |d.file| && KeyOf(d.logs, i) != KeyOf(d0.logs, h) ==> ByteAt(d, REDO, i) == 0
    ensures forall k :: HasEntry(d.logs, k) && k != KeyOf(d0.logs, h) ==> EntryOf(d.logs, k).word.len == 0
    ensures forall k :: HasEntry(d.logs, k) ==> EntryOf(d.logs, k).word.epoch == epoch
  {
    var k, size := KeyOf(d0.logs, h), SizeAt(d0.logs, h);
    var e := Entry(Word(epoch, 0, size, p), seq(size, j => 1 as byte), h);
    d := d0.(logs := PutEntry(d0.logs, k, e));
    BlankIsRight(d0, p, epoch);
    FitsOf(d0.logs, k);
    PutKeeps(d0.logs, k, e, p, epoch);
    PutPlaced(d0, k, e, d);
    PutHome(d0.logs, k, e);
    forall k' | HasEntry(d.logs, k') && k' != k
      ensures EntryOf(d.logs, k').word.len == 0 && EntryOf(d.logs, k').word.epoch == epoch
    {
      SameHas(d0.logs, d.logs, k');
      BlankWord(d0, k', epoch);
    }
    forall i | 0 <= i < |d.file| && KeyOf(d.logs, i) != k ensures ByteAt(d, REDO, i) == 0 {
    }
  }

  ghost predicate FullOf(e: Entry, p: Policy, epoch: nat, size: nat, h: nat) {
    && e.word == Word(epoch, 0, size, p) && e.dst == h && |e.log| == size
    && forall j :: 0 <= j < size ==> e.log[j] == 1
  }

  /** A state in which the slot of the request's only block logs the block of the coverage. */
  lemma AliasedState(t: Index, p: Policy, epoch: nat, offset: nat, len: nat) returns (d: Data, h: nat)
    requires Bounded(t) && OneBlock(t, offset, len) && offset / REGION >= t.cov
    ensures SameLayout(t, d.logs) && RightSoFar(d, p, epoch) && offset + len == |d.file| && h < offset
    ensures HasEntry(d.logs, KeyOf(t, offset))
            && FullOf(EntryOf(d.logs, KeyOf(t, offset)), p, epoch, SizeAt(t, offset), h)
    ensures forall k :: HasEntry(d.logs, k) ==> EntryOf(d.logs, k).word.epoch == epoch
    ensures Sized(d.logs, h) && KeyOf(d.logs, h) == KeyOf(t, offset) && StartOf(d.logs, h) == h
            && h != StartOf(t, offset)
    ensures Zero(d.file) && Bounded(d.logs)
  {
    var d0 := BlankLike(t, epoch, offset + len);
    SameKey(t, d0.logs, offset);
    SameHas(t, d0.logs, KeyOf(t, offset));
    StartIsStart(d0.logs, offset);
    h := HomeBlock(d0.logs, StartOf(d0.logs, offset));
    d := OneLogged(d0, p, epoch, h);
    LayoutTrans(t, d0.logs, d.logs);
    SameKey(d0.logs, d.logs, h);
  }

  /** A run on such a state. */
  lemma AliasedRun(t: Index, starts: seq<nat>, keys: seq<Key>, p: Policy, epoch: nat, offset: nat, len: nat,
      src: int -> byte, wild: int -> byte) returns (d: Data, h: nat, ms: seq<Progress>)
    requires Request(t, starts, keys, offset, len) && OneBlock(t, offset, len) && offset / REGION >= t.cov
    ensures WriteRun(ms, keys, p, epoch, offset, src, wild) && ms[0] == Progress(d, offset, len) && |keys| == 1
    ensures SameLayout(t, d.logs) && RightSoFar(d, p, epoch) && offset + len == |d.file| && h < offset && Zero(d.file)
    ensures forall k :: HasEntry(d.logs, k) ==> EntryOf(d.logs, k).word.epoch == epoch
    ensures HasEntry(d.logs, keys[0]) && EntryOf(d.logs, keys[0]).dst == h
    ensures ViewOf(d, REDO)[h] == 1 && Sized(d.logs, h) && KeyOf(d.logs, h) == keys[0] && StartOf(d.logs, h) == h
    ensures Sized(d.logs, offset) && h != StartOf(d.logs, offset) && KeyOf(d.logs, offset) == keys[0]
    ensures var d' := ms[1].d;
            && d'.file == d.file && SameLayout(d.logs, d'.logs) && HasEntry(d'.logs, keys[0])
            && EntryOf(d'.logs, keys[0]).dst == if len < SizeAt(t, offset) then h else StartOf(d.logs, offset)
  {
    d, h := AliasedState(t, p, epoch, offset, len);
    SameRequest(t, d.logs, starts, keys, offset, len);
    SameOneBlock(t, d.logs, offset, len);
    SameKey(t, d.logs, offset);
    ListedEntries(d.logs, keys, starts);
    ms := MakeRun(d, keys, p, epoch, offset, len, src, wild);
    OneTurn(ms, starts, keys, p, epoch, offset, len, src, wild);
    HomeShows(d, h, p, epoch);
    var e' := CurrentTurn(ms[0], keys[0], ms[1], p, epoch, offset, src, wild);
    PutLayout(d.logs, keys[0], e');
  }

  ghost predicate Zero(s: seq<byte>) { forall i :: 0 <= i < |s| ==> s[i] == 0 }

  lemma AliasedFails(t: Index, starts: seq<nat>, keys: seq<Key>, epoch: nat, offset: nat, len: nat)
    requires Request(t, starts, keys, offset, len) && OneBlock(t, offset, len) && offset / REGION >= t.cov
    ensures !AlwaysWrites(t, keys, epoch, offset, len)
  {
    var src: int -> byte, wild: int -> byte := i => 1, i => 0;
    var d, h, ms := AliasedRun(t, starts, keys, REDO, epoch, offset, len, src, wild);
    SameKey(d.logs, ms[1].d.logs, offset);
    SameKey(d.logs, ms[1].d.logs, h);
    if len < SizeAt(t, offset) {
      assert !Logged(ms[1].d.logs, offset);
      Refutes(t, keys, epoch, offset, len, ms, src, wild, offset);
    } else {
      assert !Logged(ms[1].d.logs, h);
      Refutes(t, keys, epoch, offset, len, ms, src, wild, h);
    }
  }

  /** In the state before, the block of the coverage shows its log. */
  lemma HomeShows(d: Data, h: nat, p: Policy, epoch: nat)
    requires Bounded(d.logs) && h < |d.file| && Sized(d.logs, h) && StartOf(d.logs, h) == h
             && HasEntry(d.logs, KeyOf(d.logs, h))
    requires FullOf(EntryOf(d.logs, KeyOf(d.logs, h)), p, epoch, SizeAt(d.logs, h), h)
    ensures ViewOf(d, REDO)[h] == 1
  {
    BlockSpan(d.logs, h, h);
    assert Logged(d.logs, h);
  }

  // ----- reading

  /** From every state laid out as `t` that is right so far, and whose log the request does not overrun, the read loop
      over `keys` returns the view. */
  ghost predicate AlwaysReads(t: Index, keys: seq<Key>, epoch: nat, offset: nat, len: nat) {
    forall d: Data, cs: seq<Cursor>, wild: int -> byte :: ReadRun(d, cs, keys, wild)
      && StartsRead(t, d, cs, epoch, offset, len)
      ==> cs[|keys|].buf == ViewOf(d, REDO)[offset..offset + len]
  }

  ghost predicate StartsRead(t: Index, d: Data, cs: seq<Cursor>, epoch: nat, offset: nat, len: nat) {
    && |cs| > 0 && cs[0] == Cursor(offset, len, [])
    && SameLayout(t, d.logs) && Homely(d, REDO, epoch) && offset + len <= |d.file| && !Overruns(d.logs, offset, len)
  }

  /** The REDO read loop returns the view, whatever the contents that the request does not overrun, if and only if the
      request lies in one block of the coverage. */
  lemma ReadExact(t: Index, starts: seq<nat>, keys: seq<Key>, epoch: nat, offset: nat, len: nat)
    requires Request(t, starts, keys, offset, len)
    ensures AlwaysReads(t, keys, epoch, offset, len) <==> OneCovered(t, offset, len)
  {
    if OneCovered(t, offset, len) {
      forall d: Data, cs: seq<Cursor>, wild: int -> byte
        | ReadRun(d, cs, keys, wild) && StartsRead(t, d, cs, epoch, offset, len)
        ensures cs[|keys|].buf == ViewOf(d, REDO)[offset..offset + len]
      {
        SameRequest(t, d.logs, starts, keys, offset, len);
        SameOneBlock(t, d.logs, offset, len);
        OneBlockLocked(t, offset, len);
        CoveredOwns(d, offset);
        ReadRunOne(d, cs, starts, keys, offset, len, len, wild);
      }
    } else if OneBlock(t, offset, len) {
      AliasedMisread(t, starts, keys, epoch, offset, len);
    } else {
      SeveralMisread(t, starts, keys, epoch, offset, len);
    }
  }

  lemma AliasedMisread(t: Index, starts: seq<nat>, keys: seq<Key>, epoch: nat, offset: nat, len: nat)
    requires Request(t, starts, keys, offset, len) && OneBlock(t, offset, len) && offset / REGION >= t.cov
    ensures !AlwaysReads(t, keys, epoch, offset, len)
  {
    var d, h := AliasedState(t, REDO, epoch, offset, len);
    SameRequest(t, d.logs, starts, keys, offset, len);
    SameOneBlock(t, d.logs, offset, len);
    SameKey(t, d.logs, offset);
    ListedEntries(d.logs, keys, starts);
    OneTile(d.logs, starts, keys, offset, len);
    assert !Logged(d.logs, offset);
    MisreadRun(t, d, keys, epoch, offset, len, h);
  }

  lemma MisreadRun(t: Index, d: Data, keys: seq<Key>, epoch: nat, offset: nat, len: nat, h: nat)
    requires SameLayout(t, d.logs) && Homely(d, REDO, epoch) && offset + len <= |d.file|
             && !Overruns(d.logs, offset, len)
    requires AllEntries(d.logs, keys) && keys != [] && len > 0 && ByteAt(d, REDO, offset) == 0
    requires FullOf(EntryOf(d.logs, keys[0]), REDO, epoch, SizeOf(d.logs, keys[0]), h)
    ensures !AlwaysReads(t, keys, epoch, offset, len)
  {
    var wild: int -> byte := i => 0;
    var cs := MakeReadRun(d, keys, offset, len, wild);
    Misread(d, cs, keys, epoch, offset, len, wild, h);
    assert StartsRead(t, d, cs, epoch, offset, len);
  }

  lemma SeveralMisread(t: Index, starts: seq<nat>, keys: seq<Key>, epoch: nat, offset: nat, len: nat)
    requires Request(t, starts, keys, offset, len) && !OneBlock(t, offset, len)
    ensures !AlwaysReads(t, keys, epoch, offset, len)
  {
    var d, h := LastLogged(t, starts, keys, epoch, offset, len);
    MisreadRun(t, d, keys, epoch, offset, len, h);
  }

  /** A state in which the slot of the request's last block has a full log. */
  lemma LastLogged(t: Index, starts: seq<nat>, keys: seq<Key>, epoch: nat, offset: nat, len: nat)
      returns (d: Data, h: nat)
    requires Request(t, starts, keys, offset, len) && !OneBlock(t, offset, len)
    ensures SameLayout(t, d.logs) && Homely(d, REDO, epoch) && offset + len <= |d.file|
            && !Overruns(d.logs, offset, len)
    ensures keys != [] && AllEntries(d.logs, keys) && ByteAt(d, REDO, offset) == 0
    ensures FullOf(EntryOf(d.logs, keys[0]), REDO, epoch, SizeOf(d.logs, keys[0]), h)
  {
    var d0 := BlankLike(t, epoch, offset + len + 2 * REGION);
    SameRequest(t, d0.logs, starts, keys, offset, len);
    SameOneBlock(t, d0.logs, offset, len);
    Several(d0.logs, starts, keys, offset, len);
    KeysDiffer(d0.logs, starts, keys, offset, len, 0, |keys| - 1);
    d, h := TopLogged(d0, epoch, starts[|starts| - 1]);
    LayoutTrans(t, d0.logs, d.logs);
    SameKey(d0.logs, d.logs, offset);
    ListedEntries(d0.logs, keys, starts);
    SameEntries(d0.logs, d.logs, keys);
  }

  lemma SameEntries(t: Index, t': Index, keys: seq<Key>)
    requires SameLayout(t, t') && AllEntries(t, keys)
    ensures AllEntries(t', keys)
  {
    forall i | 0 <= i < |keys| ensures HasEntry(t', keys[i]) {
      SameHas(t, t', keys[i]);
    }
  }

  lemma TopLogged(d0: Data, epoch: nat, x: nat) returns (d: Data, h: nat)
    requires Blank(d0, epoch) && Sized(d0.logs, x) && StartOf(d0.logs, x) == x && HasEntry(d0.logs, KeyOf(d0.logs, x))
    requires x + 2 * REGION <= |d0.file|
    ensures SameLayout(d0.logs, d.logs) && Homely(d, REDO, epoch) && d.file == d0.file
    ensures HasEntry(d.logs, KeyOf(d0.logs, x))
    ensures FullOf(EntryOf(d.logs, KeyOf(d0.logs, x)), REDO, epoch, SizeOf(d.logs, KeyOf(d0.logs, x)), h)
    ensures forall i :: 0 <= i < |d.file| && KeyOf(d.logs, i) != KeyOf(d0.logs, x) ==> ByteAt(d, REDO, i) == 0
    ensures forall k :: HasEntry(d.logs, k) && k != KeyOf(d0.logs, x) ==> EntryOf(d.logs, k).word.len == 0
  {
    h := HomeBlock(d0.logs, x);
    SizeAtMost(d0.logs.tables[TableOf(d0.logs, x)].size);
    d := OneLogged(d0, REDO, epoch, h);
    SameHas(d0.logs, d.logs, KeyOf(d0.logs, x));
  }

  lemma SizeAtMost(s: LogSize)
    ensures Bytes(s) <= REGION
  {
    SizesOf(s);
  }

  lemma Misread(d: Data, cs: seq<Cursor>, keys: seq<Key>, epoch: nat, offset: nat, len: nat, wild: int -> byte, h: nat)
    requires ReadRun(d, cs, keys, wild) && cs[0] == Cursor(offset, len, []) && Bounded(d.logs) && len > 0
             && offset + len <= |d.file|
    requires keys != [] && HasEntry(d.logs, keys[0]) && ByteAt(d, REDO, offset) == 0
    requires FullOf(EntryOf(d.logs, keys[0]), REDO, epoch, SizeOf(d.logs, keys[0]), h)
    ensures cs[|keys|].buf != ViewOf(d, REDO)[offset..offset + len]
  {
    assert ReadTurnAt(d, cs, keys, 0, wild);
    FirstByteIsLogged(d, keys[0], epoch, offset, len, wild, h);
    BufferGrows(d, cs, keys, wild, |keys|);
    assert cs[|keys|].buf[0] == 1;
    assert ViewOf(d, REDO)[offset..offset + len][0] == ByteAt(d, REDO, offset);
  }

  lemma FirstByteIsLogged(d: Data, k: Key, epoch: nat, offset: nat, len: nat, wild: int -> byte, h: nat)
    requires HasEntry(d.logs, k) && EntryFits(d.logs.tables[k.region].size, k.index, EntryOf(d.logs, k)) && len > 0
    requires FullOf(EntryOf(d.logs, k), REDO, epoch, SizeOf(d.logs, k), h)
    ensures |ReadOne(d, k, offset, len, wild)| > 0 && ReadOne(d, k, offset, len, wild)[0] == 1
  {
  }

  lemma {:induction false} BufferGrows(d: Data, cs: seq<Cursor>, keys: seq<Key>, wild: int -> byte, i: nat)
    requires ReadRun(d, cs, keys, wild) && 1 <= i <= |keys|
    ensures cs[1].buf <= cs[i].buf
    decreases i
  {
    if i > 1 {
      BufferGrows(d, cs, keys, wild, i - 1);
      assert ReadTurnAt(d, cs, keys, i - 1, wild);
    }
  }

  lemma {:induction false} MakeReadRun(d: Data, keys: seq<Key>, offset: nat, len: nat, wild: int -> byte)
      returns (cs: seq<Cursor>)
    requires Bounded(d.logs) && AllEntries(d.logs, keys)
    ensures ReadRun(d, cs, keys, wild) && cs[0] == Cursor(offset, len, [])
    decreases |keys|
  {
    cs := [Cursor(offset, len, [])];
    if keys != [] {
      var n := |keys| - 1;
      cs := MakeReadRun(d, keys[..n], offset, len, wild);
      var c, k := cs[n], keys[n];
      FitsOf(d.logs, k);
      var out := ReadOne(d, k, c.off, c.left, wild);
      var c' := Cursor(c.off + |out|, c.left - |out|, c.buf + out);
      ReadAppend(d, cs, keys[..n], c', k, wild);
      assert keys[..n] + [k] == keys;
      cs := cs + [c'];
    }
  }
}
