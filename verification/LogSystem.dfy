/** The parts common to the REDO and the UNDO step systems: blocks in persistent memory, crash images, the atomic file
    they implement, and runs of it.  Every block has an entry of its own, as blocks within the coverage of the radix
    shortcut do (RadixLog.Root.SkipWalk). */
module LogSystem {
  import opened Pmem
  import opened BlockLog
  import opened Options

  /** An index entry: its packed word, whether the last store to the word has been
      flushed, and its log. */
  datatype Entry = Entry(word: Cell<Word>, flushed: bool, log: Region)

  /** The stores of `mmio_write` to one block, one constructor for each point between two of them
      (src/mmio.c:249-264, 301-400). */
  datatype WriterPc =
    | Locked                        // the entry lock is held
    | CopiedBack                    // old log copied to the file (255)
    | Copied                        // ... and fenced (256)
    | Reset(fields: nat)            // so many of epoch, policy, len, offset reset (258-261)
    | ResetFlushed                  // (262)
    | Ready                         // the entry is of the current epoch
    | LogStored                     // new or old data in the log (317, 322)
    | GapStored(off: nat, len: nat) // gap filled (344, 369); the range to record
    | OffSet(len: nat)              // entry->offset assigned
    | LenSet                        // entry->len assigned
    | PolicySet                     // entry->policy assigned
    | Flushed                       // (382)
    | Fenced                        // (391)
    | FileStored                    // UNDO only: the file is updated in place (395)

  /** The stores of `checkpoint_mmio` to one block (src/mmio.c:195-212). */
  datatype CheckpointPc = Checked | Copying | CopyFenced

  /** Who holds the write lock of the block's entry. */
  datatype Owner =
    | Nobody
    | Writer(pc: WriterPc, lo: nat, data: seq<byte>)
    | Checkpointer(kpc: CheckpointPc)

  datatype Block = Block(file: Region, entry: Option<Entry>, owner: Owner)

  datatype Commit = Idle | Exclusive | Bumped

  datatype State = State(epoch: Cell<nat>, commit: Commit, blocks: map<nat, Block>)

  // ----- what a crash leaves

  datatype BlockImage = BlockImage(file: seq<byte>, entry: Option<EntryImage>)
  datatype EntryImage = EntryImage(word: Word, log: seq<byte>)
  datatype Image = Image(epoch: nat, blocks: map<nat, BlockImage>)

  ghost predicate EntryCrash(en: Entry, ei: EntryImage) {
    ei.word in en.word.may && CouldBe(en.log, ei.log)
  }

  ghost predicate BlockCrash(b: Block, im: BlockImage) {
    && CouldBe(b.file, im.file)
    && b.entry.Some? == im.entry.Some?
    && (b.entry.Some? ==> EntryCrash(b.entry.value, im.entry.value))
  }

  ghost predicate Crash(s: State, im: Image) {
    && im.epoch in s.epoch.may
    && im.blocks.Keys == s.blocks.Keys
    && forall k :: k in s.blocks ==> BlockCrash(s.blocks[k], im.blocks[k])
  }

  /** Recovery of one block of a file with logging policy `p`.  A REDO log is replayed once its
      epoch has committed; an UNDO log is put back as long as its epoch has not.  The repository
      has no recovery routine: this is the meaning that its epoch numbers give to a log. */
  ghost function RecoverBlock(p: Policy, epoch: nat, im: BlockImage): seq<byte> {
    if im.entry.None? || |im.entry.value.log| != |im.file| then im.file
    else
      var w := im.entry.value.word;
      if (if p == REDO then w.epoch < epoch else w.epoch == epoch)
      then View(im.file, im.entry.value.log, w)
      else im.file
  }

  ghost function Recover(p: Policy, im: Image): map<nat, seq<byte>> {
    map k | k in im.blocks :: RecoverBlock(p, im.epoch, im.blocks[k])
  }

  // ----- the specification: a file whose updates become durable all at once

  datatype Event =
    | Internal
    | Began(k: nat, lo: nat, data: seq<byte>)
    | Wrote(k: nat, lo: nat, data: seq<byte>)
    | Read(k: nat, lo: nat, out: seq<byte>)
    | Committed

  /** `cur` is what readers see; `com` is what survives a crash. */
  datatype AtomicBlock = AtomicBlock(cur: seq<byte>, com: seq<byte>)
  type AtomicFile = map<nat, AtomicBlock>

  ghost function Apply(a: AtomicFile, ev: Event): AtomicFile {
    match ev
    case Wrote(k, lo, data) =>
      if k in a && lo + |data| <= |a[k].cur| then a[k := WriteAtomic(a[k], lo, data)] else a
    case Committed => map k | k in a :: AtomicBlock(a[k].cur, a[k].cur)
    case _ => a
  }

  ghost function WriteAtomic(b: AtomicBlock, lo: nat, data: seq<byte>): AtomicBlock
    requires lo + |data| <= |b.cur|
  {
    AtomicBlock(Splice(b.cur, lo, data), b.com)
  }

  ghost function Replay(a: AtomicFile, evs: seq<Event>): AtomicFile {
    if evs == [] then a else Apply(Replay(a, evs[..|evs| - 1]), evs[|evs| - 1])
  }

  /** No write begins on bytes that differ from their committed values; in particular none does if no byte is written
      a second time before the next commit. */
  ghost predicate NoRewrites(a: AtomicFile, evs: seq<Event>) {
    forall i :: 0 <= i < |evs| ==> BeginsFresh(a, evs, i)
  }

  ghost predicate BeginsFresh(a: AtomicFile, evs: seq<Event>, i: nat)
    requires i < |evs|
  {
    evs[i].Began? && evs[i].k in Replay(a, evs[..i]) ==>
      Untouched(Replay(a, evs[..i])[evs[i].k], evs[i].lo, |evs[i].data|)
  }

  ghost predicate Untouched(b: AtomicBlock, lo: nat, n: nat) {
    forall i :: 0 <= i < |b.cur| && i < |b.com| && Within(i, lo, n) ==> b.cur[i] == b.com[i]
  }

  /** A writer takes the entry lock of a block for a request inside it. */
  ghost predicate Begins(k: nat, b: Block, ev: Event, b': Block)
    requires ev.Began?
  {
    && ev.k == k && b.owner.Nobody? && b.entry.Some?
    && |ev.data| > 0 && ev.lo + |ev.data| <= |b.file|
    && b' == b.(owner := Writer(Locked, ev.lo, ev.data))
  }

  /** What a thread reads may also be what a crash leaves. */
  ghost predicate Possible(r: Region) {
    forall i :: 0 <= i < |r| ==> r[i].vol in r[i].may
  }

  ghost predicate PossibleBlock(b: Block) {
    && Possible(b.file)
    && (b.entry.Some? ==> Possible(b.entry.value.log) && b.entry.value.word.vol in b.entry.value.word.may)
  }

  /** A fresh entry: the zero word is durable, the epoch is not flushed (src/radixlog.c:306-309). */
  ghost predicate Creates(b: Block, e: nat, b': Block) {
    && b.owner.Nobody? && b.entry.None? && b'.entry.Some? && b' == b.(entry := b'.entry)
    && |b'.entry.value.log| == |b.file| && Possible(b'.entry.value.log) && !b'.entry.value.flushed
    && var zero, now := Word(0, 0, 0, UNDO), Word(Trunc(e), 0, 0, UNDO);
       b'.entry.value.word == Cell(now, {zero, now})
  }

  /** A checkpointer takes the entry lock of a block whose log is of a committed epoch.  It compares with
      an epoch number it has read at some time before, hence not above `e` (src/mmio.c:184, 195-197). */
  ghost predicate Claims(b: Block, e: nat, b': Block) {
    && b.owner.Nobody? && b.entry.Some? && b.entry.value.word.vol.epoch < e
    && b' == b.(owner := Checkpointer(Checked))
  }

  /** fsync, which runs while no other thread holds the file lock (src/mmio.c:622-647). */
  ghost predicate CommitStep(s: State, ev: Event, s': State) {
    || (ev.Internal? && s.commit.Idle? && (forall k :: k in s.blocks ==> s.blocks[k].owner.Nobody?)
        && s' == s.(commit := Exclusive))
    || (ev.Internal? && s.commit.Exclusive? && s' == s.(epoch := Put(s.epoch, s.epoch.vol + 1), commit := Bumped))
    || (ev.Committed? && s.commit.Bumped? && s' == s.(epoch := Drain(s.epoch), commit := Idle))
  }

  /** The epoch that recovery finds unless the commit in progress is durable. */
  ghost function BaseEpoch(s: State): nat {
    if s.commit.Bumped? && s.epoch.vol > 0 then s.epoch.vol - 1 else s.epoch.vol
  }

  /** The epoch counter as every run keeps it. */
  ghost predicate EpochInv(s: State) {
    && (!s.commit.Idle? ==> forall k :: k in s.blocks ==> s.blocks[k].owner.Nobody?)
    && (if s.commit.Bumped? then s.epoch.vol > 0 && s.epoch.may == {s.epoch.vol - 1, s.epoch.vol}
        else s.epoch.may == {s.epoch.vol})
  }

  /** An idle file with no logs, holding `a`. */
  ghost predicate Init(s: State, a: AtomicFile) {
    && s.commit.Idle? && s.epoch.may == {s.epoch.vol} && s.blocks.Keys == a.Keys
    && forall k :: k in s.blocks ==>
         && s.blocks[k].owner.Nobody? && s.blocks[k].entry.None?
         && Settled(s.blocks[k].file, a[k].cur) && a[k] == AtomicBlock(a[k].cur, a[k].cur)
  }

  /** What recovery must find: the content of the last commit; once fsync has stored the new epoch,
      the epoch found decides between that and the content being committed. */
  ghost function Expected(s: State, a: AtomicFile, im: Image): map<nat, seq<byte>> {
    map k | k in a :: ExpectedAt(s, a, im.epoch, k)
  }

  ghost function ExpectedAt(s: State, a: AtomicFile, epoch: nat, k: nat): seq<byte>
    requires k in a
  {
    if s.commit.Bumped? && epoch == s.epoch.vol then a[k].cur else a[k].com
  }

  lemma AllRecovered(p: Policy, s: State, a: AtomicFile, im: Image)
    requires im.blocks.Keys == a.Keys
    requires forall k :: k in a ==> RecoverBlock(p, im.epoch, im.blocks[k]) == ExpectedAt(s, a, im.epoch, k)
    ensures Recover(p, im) == Expected(s, a, im)
  {
  }

  /** The crash that loses nothing. */
  ghost function Intact(b: Block): BlockImage {
    BlockImage(Vols(b.file),
               if b.entry.None? then None else Some(EntryImage(b.entry.value.word.vol, Vols(b.entry.value.log))))
  }

  lemma IntactIsCrash(b: Block)
    requires PossibleBlock(b)
    ensures BlockCrash(b, Intact(b))
  {
  }

  /** Epochs stay at or below `m`. */
  ghost predicate UpTo(ss: seq<State>, m: nat) {
    forall i :: 0 <= i < |ss| ==> ss[i].epoch.vol <= m
  }

  lemma UpToNext(ss: seq<State>, ss': seq<State>, m: nat)
    requires UpTo(ss, m) && ss != [] && |ss'| == |ss| + 1 && ss'[|ss|].epoch == ss[|ss| - 1].epoch
    requires forall i :: 0 <= i < |ss| ==> ss'[i] == ss[i]
    ensures UpTo(ss', m)
  {
  }

  /** Every crash in this state recovers what it should. */
  ghost predicate AlwaysRecovers(p: Policy, s: State, a: AtomicFile) {
    forall im :: Crash(s, im) ==> Recover(p, im) == Expected(s, a, im)
  }

  lemma LostAtEnd(p: Policy, s: State, a: AtomicFile, k: nat)
    requires s.commit.Idle? && s.epoch.vol in s.epoch.may && k in s.blocks && k in a
    requires forall j :: j in s.blocks ==> PossibleBlock(s.blocks[j])
    requires RecoverBlock(p, s.epoch.vol, Intact(s.blocks[k])) != a[k].com
    ensures !AlwaysRecovers(p, s, a)
  {
    var im := Image(s.epoch.vol, map j | j in s.blocks :: Intact(s.blocks[j]));
    forall j | j in s.blocks ensures BlockCrash(s.blocks[j], im.blocks[j]) {
      IntactIsCrash(s.blocks[j]);
    }
    assert Crash(s, im);
    assert Recover(p, im)[k] != Expected(s, a, im)[k];
  }

  lemma IntactSettled(b: Block, file: seq<byte>, log: seq<byte>)
    requires b.entry.Some? && Settled(b.file, file) && Settled(b.entry.value.log, log)
    ensures Intact(b) == BlockImage(file, Some(EntryImage(b.entry.value.word.vol, log)))
  {
    assert Vols(b.file) == file && Vols(b.entry.value.log) == log;
  }

  /** Block, log and atomic block have one size. */
  ghost predicate Sized(b: Block, a: AtomicBlock) {
    && |b.file| == |a.cur| == |a.com|
    && (b.entry.Some? ==> |b.entry.value.log| == |b.file|)
  }

  /** A step on block `k` changes nothing else, and is not taken during fsync. */
  ghost predicate Onto(k: nat, s: State, s': State)
    requires k in s.blocks
  {
    s.commit.Idle? && s'.blocks.Keys == s.blocks.Keys && s' == s.(blocks := s.blocks[k := s'.blocks[k]])
  }

  // ----- single persistent-memory operations on a block

  function FenceBlock(b: Block): Block {
    b.(file := Fence(b.file),
       entry := if b.entry.None? then None
                else Some(Entry(if b.entry.value.flushed then Drain(b.entry.value.word) else b.entry.value.word,
                                b.entry.value.flushed, Fence(b.entry.value.log))))
  }

  function PutWord(b: Block, w: Word): Block
    requires b.entry.Some?
  {
    b.(entry := Some(b.entry.value.(word := Put(b.entry.value.word, w), flushed := false)))
  }

  function FlushWord(b: Block): Block
    requires b.entry.Some?
  {
    b.(entry := Some(b.entry.value.(flushed := true)))
  }

  function StoreLog(b: Block, at: nat, data: seq<byte>): Block
    requires b.entry.Some? && at + |data| <= |b.entry.value.log|
  {
    b.(entry := Some(b.entry.value.(log := Store(b.entry.value.log, at, data))))
  }

  function StoreFile(b: Block, at: nat, data: seq<byte>): Block
    requires at + |data| <= |b.file|
  {
    b.(file := Store(b.file, at, data))
  }

  function At(b: Block, pc: WriterPc): Block
    requires b.owner.Writer?
  {
    b.(owner := b.owner.(pc := pc))
  }

  /** What a running thread finds of a block at point `pc` of a write. */
  ghost predicate Finds(b: Block, pc: WriterPc, lo: nat, data: seq<byte>, file: seq<byte>, log: seq<byte>, w: Word) {
    && b.owner == Writer(pc, lo, data) && b.entry.Some? && |b.entry.value.log| == |b.file|
    && b.entry.value.word.vol == w
    && Vols(b.file) == file && Vols(b.entry.value.log) == log
  }

  lemma StoredVols(r: Region, at: nat, data: seq<byte>)
    requires at + |data| <= |r|
    ensures Vols(Store(r, at, data)) == Splice(Vols(r), at, data)
  {
  }

  /** A stretch of `src` is stored at its own place. */
  lemma StoredFrom(r: Region, src: seq<byte>, at: nat, n: nat, i: nat)
    requires at + n <= |r| == |src| && i < |r|
    ensures Store(r, at, src[at..at + n])[i].vol == if Within(i, at, n) then src[i] else r[i].vol
  {
  }

  lemma FencedVols(r: Region)
    ensures Vols(Fence(r)) == Vols(r) && |Fence(r)| == |r|
  {
  }
}
