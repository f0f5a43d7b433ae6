/** REDO logging as an interleaving of the stores of any number of writers, the background
    checkpointer and fsync, with a crash possible between and during any two of them. */
module RedoCrash {
  import opened Pmem
  import opened BlockLog
  import opened LogSystem
  import opened Options

  /** What a writer's next store needs in order to stay inside the block. */
  predicate Runnable(b: Block) {
    && b.owner.Writer? && b.entry.Some? && |b.entry.value.log| == |b.file|
    && |b.owner.data| > 0 && b.owner.lo + |b.owner.data| <= |b.file|
    && (b.owner.pc.Locked? || b.owner.pc.LogStored? ==> InBlock(b.entry.value.word.vol, |b.file|))
    && !b.owner.pc.Fenced? && !b.owner.pc.FileStored?
  }

  /** The writer's next store, flush or fence (src/mmio.c:249-264, 301-391). */
  function WriterStep(b: Block, e: nat): Block
    requires Runnable(b)
  {
    var en, lo, data := b.entry.value, b.owner.lo, b.owner.data;
    var w := en.word.vol;
    match b.owner.pc
    case Locked =>
      if w.epoch < e then
        if w.policy == REDO
        then At(StoreFile(b, w.off, Vols(en.log)[w.off..w.off + w.len]), CopiedBack)
        else At(b, Copied)
      else At(b, Ready)
    case CopiedBack => At(FenceBlock(b), Copied)
    case Copied => At(PutWord(b, w.(epoch := Trunc(e))), Reset(1))
    case Reset(k) =>
      if k == 1 then At(PutWord(b, w.(policy := REDO)), Reset(2))
      else if k == 2 then At(PutWord(b, w.(len := 0)), Reset(3))
      else if k == 3 then At(PutWord(b, w.(off := 0)), Reset(4))
      else At(FlushWord(b), ResetFlushed)
    case ResetFlushed => At(FenceBlock(b), Ready)
    case Ready => At(StoreLog(b, lo, data), LogStored)
    case LogStored =>
      var p := Merge(w.off, w.len, lo, |data|, |b.file|);
      At(StoreLog(b, p.gapAt, Vols(b.file)[p.gapAt..p.gapAt + p.gapLen]), GapStored(p.off, p.len))
    case GapStored(off, len) => At(PutWord(b, w.(off := off)), OffSet(len))
    case OffSet(len) => At(PutWord(b, w.(len := len)), LenSet)
    case LenSet => At(PutWord(b, w.(policy := REDO)), PolicySet)
    case PolicySet => At(FlushWord(b), Flushed)
    case Flushed => At(FenceBlock(b), Fenced)
  }

  predicate KRunnable(b: Block) {
    && b.owner.Checkpointer? && b.entry.Some? && |b.entry.value.log| == |b.file|
    && InBlock(b.entry.value.word.vol, |b.file|)
  }

  /** The checkpointer's next store on an entry it has locked (src/mmio.c:198-207). */
  function CheckpointStep(b: Block): Block
    requires KRunnable(b)
  {
    var en := b.entry.value;
    var w := en.word.vol;
    match b.owner.kpc
    case Checked =>
      if w.policy == REDO
      then StoreFile(b, w.off, Vols(en.log)[w.off..w.off + w.len]).(owner := Checkpointer(Copying))
      else b.(owner := Checkpointer(CopyFenced))
    case Copying => FenceBlock(b).(owner := Checkpointer(CopyFenced))
    case CopyFenced => b.(entry := None, owner := Nobody)
  }

  /** One step of any thread on block `k` while the file's epoch is `e`. */
  ghost predicate BlockStep(k: nat, b: Block, e: nat, ev: Event, b': Block) {
    match ev
    case Internal =>
      || Creates(b, e, b')
      || (Runnable(b) && b' == WriterStep(b, e))
      || Claims(b, e, b')
      || (KRunnable(b) && b' == CheckpointStep(b))
    case Began(_, _, _) => Begins(k, b, ev, b')
    case Wrote(k', lo, data) =>
      k' == k && b.owner == Writer(Fenced, lo, data) && b' == b.(owner := Nobody)
    case Read(k', lo, out) =>
      && k' == k && b.owner.Nobody? && b.entry.Some? && b' == b
      && |b.entry.value.log| == |b.file| && InBlock(b.entry.value.word.vol, |b.file|)
      && lo + |out| <= |b.file| && !OverrunsLog(b.entry.value.word.vol, lo, |out|)
      && out == ReadBlock(FileMem(b), Vols(b.entry.value.log), b.entry.value.word.vol, lo, |out|)
    case Committed => false
  }

  function FileMem(b: Block): int -> byte {
    i => if 0 <= i < |b.file| then b.file[i].vol else 0
  }

  /** One step of the file. */
  ghost predicate Step(s: State, ev: Event, s': State) {
    || (exists k :: k in s.blocks && OnBlock(k, s, ev, s'))
    || CommitStep(s, ev, s')
  }

  ghost predicate OnBlock(k: nat, s: State, ev: Event, s': State)
    requires k in s.blocks
  {
    Onto(k, s, s') && BlockStep(k, s.blocks[k], s.epoch.vol, ev, s'.blocks[k])
  }

  // ----- the invariant of one block

  /** No thread has a store in flight on the block. */
  ghost predicate Quiet(b: Block, e: nat, a: AtomicBlock)
    requires Sized(b, a)
  {
    match b.entry
    case None => Settled(b.file, a.cur) && a.cur == a.com
    case Some(en) =>
      var w := en.word.vol;
      && w.epoch <= e && InBlock(w, |b.file|) && w in en.word.may
      && if w.len == 0
         then (forall v :: v in en.word.may ==> v.len == 0) && Settled(b.file, a.cur) && a.cur == a.com
         else && en.word.may == {w} && w.policy == REDO
              && (forall i :: 0 <= i < |b.file| && Covers(w, i) ==> en.log[i] == Cell(a.cur[i], {a.cur[i]}))
              && (forall i :: 0 <= i < |b.file| && !Covers(w, i) ==> b.file[i] == Cell(a.cur[i], {a.cur[i]}))
              && (w.epoch == e ==> Settled(b.file, a.com))
              && (w.epoch < e ==> a.cur == a.com)
  }

  /** A committed log is being copied to the file. */
  ghost predicate CopyingBack(b: Block, en: Entry, e: nat, a: AtomicBlock)
    requires Sized(b, a) && |en.log| == |b.file|
  {
    var w := en.word.vol;
    && a.cur == a.com && w.epoch < e && InBlock(w, |b.file|)
    && (if w.len == 0 then w in en.word.may && forall v :: v in en.word.may ==> v.len == 0
        else en.word.may == {w})
    && (forall i :: 0 <= i < |b.file| && Covers(w, i) ==> en.log[i] == Cell(a.cur[i], {a.cur[i]}))
    && (forall i :: 0 <= i < |b.file| ==> b.file[i].vol == a.com[i])
    && (forall i :: 0 <= i < |b.file| && !Covers(w, i) ==> b.file[i].may == {a.com[i]})
  }

  /** Replaying the log under word `v` gives the committed content, or is not done at all. */
  ghost predicate Harmless(v: Word, log: Region, e: nat, com: seq<byte>)
    requires |log| == |com|
  {
    v.epoch == e || forall i :: 0 <= i < |com| && Covers(v, i) ==> log[i] == Cell(com[i], {com[i]})
  }

  /** The file alone has the committed content; the word is being reset. */
  ghost predicate Resetting(b: Block, en: Entry, e: nat, a: AtomicBlock)
    requires |en.log| == |a.com|
  {
    && a.cur == a.com && Settled(b.file, a.com) && en.word.vol in en.word.may
    && InBlock(en.word.vol, |b.file|)
    && forall v :: v in en.word.may ==> Harmless(v, en.log, e, a.com)
  }

  /** The entry belongs to the current epoch, so recovery does not look at its log. */
  ghost predicate Current(b: Block, en: Entry, e: nat, a: AtomicBlock) {
    && Settled(b.file, a.com) && en.word.vol in en.word.may && en.word.vol.epoch == e
    && forall v :: v in en.word.may ==> v.epoch == e || v.len == 0
  }

  /** With [off, off+len) logged, a reader will see `a.cur` with `data` written at `lo`. */
  ghost predicate Merged(b: Block, en: Entry, a: AtomicBlock, off: nat, len: nat, lo: nat, data: seq<byte>)
    requires |en.log| == |b.file| == |a.cur| == |a.com| && lo + |data| <= |a.cur|
  {
    && 0 < len && off + len <= |b.file|
    && forall i :: 0 <= i < |b.file| ==>
         Splice(a.cur, lo, data)[i] == if Within(i, off, len) then en.log[i].vol else a.com[i]
  }

  ghost predicate WriterInv(b: Block, en: Entry, e: nat, a: AtomicBlock)
    requires b.owner.Writer? && Sized(b, a) && |en.log| == |b.file|
    requires b.owner.lo + |b.owner.data| <= |b.file|
  {
    var lo, data, w := b.owner.lo, b.owner.data, en.word.vol;
    match b.owner.pc
    case Locked => Quiet(b, e, a)
    case CopiedBack => CopyingBack(b, en, e, a)
    case Copied => Resetting(b, en, e, a)
    case Reset(k) =>
      && 1 <= k <= 4 && Resetting(b, en, e, a) && w.epoch == e
      && (k >= 2 ==> w.policy == REDO) && (k >= 3 ==> w.len == 0)
    case ResetFlushed => Resetting(b, en, e, a) && w.epoch == e && w.policy == REDO && w.len == 0 && en.flushed
    case Ready =>
      && Current(b, en, e, a) && InBlock(w, |b.file|) && (w.len > 0 ==> w.policy == REDO)
      && forall i :: 0 <= i < |b.file| ==> a.cur[i] == if Covers(w, i) then en.log[i].vol else a.com[i]
    case LogStored =>
      && Current(b, en, e, a) && InBlock(w, |b.file|)
      && (forall i :: 0 <= i < |b.file| && Covers(w, i) && !Within(i, lo, |data|) ==> en.log[i].vol == a.cur[i])
      && (forall i :: 0 <= i < |b.file| && !Covers(w, i) ==> a.cur[i] == a.com[i])
      && (forall i :: 0 <= i < |b.file| && Within(i, lo, |data|) ==> en.log[i].vol == data[i - lo])
    case GapStored(off, len) => Current(b, en, e, a) && Merged(b, en, a, off, len, lo, data)
    case OffSet(len) => Current(b, en, e, a) && Merged(b, en, a, w.off, len, lo, data)
    case LenSet => Current(b, en, e, a) && Merged(b, en, a, w.off, w.len, lo, data)
    case PolicySet => Current(b, en, e, a) && Merged(b, en, a, w.off, w.len, lo, data) && w.policy == REDO
    case Flushed => Current(b, en, e, a) && Merged(b, en, a, w.off, w.len, lo, data) && w.policy == REDO && en.flushed
    case Fenced =>
      && Current(b, en, e, a) && Merged(b, en, a, w.off, w.len, lo, data) && w.policy == REDO
      && en.word.may == {w} && forall i :: 0 <= i < |b.file| ==> en.log[i].may == {en.log[i].vol}
    case FileStored => false
  }

  ghost predicate BlockInv(b: Block, e: nat, a: AtomicBlock) {
    match b.owner
    case Nobody => Sized(b, a) && Quiet(b, e, a)
    case Writer(pc, lo, data) =>
      && Sized(b, a) && b.entry.Some? && |data| > 0 && lo + |data| <= |b.file|
      && WriterInv(b, b.entry.value, e, a)
    case Checkpointer(kpc) =>
      && Sized(b, a) && b.entry.Some?
      && match kpc
         case Checked => Quiet(b, e, a) && b.entry.value.word.vol.epoch < e
         case Copying => CopyingBack(b, b.entry.value, e, a)
         case CopyFenced => Resetting(b, b.entry.value, e, a)
  }

  // ----- crash of one block

  /** At every point of every operation, a crash before the commit leaves the committed content. */
  lemma BlockCrashSafe(b: Block, e: nat, a: AtomicBlock, im: BlockImage)
    requires BlockInv(b, e, a) && BlockCrash(b, im)
    ensures RecoverBlock(REDO, e, im) == a.com
  {
    var r := RecoverBlock(REDO, e, im);
    forall i | 0 <= i < |r| ensures r[i] == a.com[i] {
      assert im.file[i] in b.file[i].may;
      if b.entry.Some? {
        assert im.entry.value.log[i] in b.entry.value.log[i].may;
      }
    }
  }

  /** On a quiet block the next epoch number alone turns the current content into the committed one. */
  lemma BlockCommitSafe(b: Block, e: nat, a: AtomicBlock, im: BlockImage)
    requires BlockInv(b, e, a) && b.owner.Nobody? && BlockCrash(b, im)
    ensures RecoverBlock(REDO, e + 1, im) == a.cur
  {
    var r := RecoverBlock(REDO, e + 1, im);
    forall i | 0 <= i < |r| ensures r[i] == a.cur[i] {
      assert im.file[i] in b.file[i].may;
      if b.entry.Some? {
        assert im.entry.value.log[i] in b.entry.value.log[i].may;
      }
    }
  }

  // ----- every step of a thread keeps the invariant

  lemma CopyKeeps(b: Block, e: nat, a: AtomicBlock)
    requires BlockInv(b, e, a) && e < EPOCHS && Runnable(b) && (b.owner.pc.Locked? || b.owner.pc.CopiedBack?)
    ensures BlockInv(WriterStep(b, e), e, a)
  {
  }

  lemma ResetKeeps(b: Block, e: nat, a: AtomicBlock)
    requires BlockInv(b, e, a) && e < EPOCHS && Runnable(b)
    requires b.owner.pc.Copied? || b.owner.pc.Reset? || b.owner.pc.ResetFlushed?
    ensures BlockInv(WriterStep(b, e), e, a)
  {
  }

  lemma LogStoreKeeps(b: Block, e: nat, a: AtomicBlock)
    requires BlockInv(b, e, a) && e < EPOCHS && Runnable(b) && b.owner.pc.Ready?
    ensures BlockInv(WriterStep(b, e), e, a)
  {
  }

  /** The gap fill completes the hull of the old log and the new data. */
  lemma GapFillMerges(b: Block, e: nat, a: AtomicBlock, p: Plan, b': Block)
    requires BlockInv(b, e, a) && Runnable(b) && b.owner.pc.LogStored?
    requires IsHull(p, b.entry.value.word.vol.off, b.entry.value.word.vol.len, b.owner.lo, |b.owner.data|, |b.file|)
    requires b' == At(StoreLog(b, p.gapAt, Vols(b.file)[p.gapAt..p.gapAt + p.gapLen]), GapStored(p.off, p.len))
    ensures BlockInv(b', e, a)
  {
    var en, lo, data := b.entry.value, b.owner.lo, b.owner.data;
    var log' := b'.entry.value.log;
    forall i | 0 <= i < |b.file|
      ensures Splice(a.cur, lo, data)[i] == if Within(i, p.off, p.len) then log'[i].vol else a.com[i]
    {
      StoredFrom(en.log, Vols(b.file), p.gapAt, p.gapLen, i);
      assert log'[i].vol == if Within(i, p.gapAt, p.gapLen) then a.com[i] else en.log[i].vol;
      assert Covers(en.word.vol, i) == Within(i, en.word.vol.off, en.word.vol.len);
    }
  }

  lemma GapStoreKeeps(b: Block, e: nat, a: AtomicBlock)
    requires BlockInv(b, e, a) && e < EPOCHS && Runnable(b) && b.owner.pc.LogStored?
    ensures BlockInv(WriterStep(b, e), e, a)
  {
    var w := b.entry.value.word.vol;
    var p := Merge(w.off, w.len, b.owner.lo, |b.owner.data|, |b.file|);
    GapFillMerges(b, e, a, p, WriterStep(b, e));
  }

  lemma WordKeeps(b: Block, e: nat, a: AtomicBlock)
    requires BlockInv(b, e, a) && e < EPOCHS && Runnable(b)
    requires b.owner.pc.GapStored? || b.owner.pc.OffSet? || b.owner.pc.LenSet?
    ensures BlockInv(WriterStep(b, e), e, a)
  {
  }

  lemma FlushKeeps(b: Block, e: nat, a: AtomicBlock)
    requires BlockInv(b, e, a) && e < EPOCHS && Runnable(b) && (b.owner.pc.PolicySet? || b.owner.pc.Flushed?)
    ensures BlockInv(WriterStep(b, e), e, a)
  {
  }

  lemma CheckpointKeeps(b: Block, e: nat, a: AtomicBlock)
    requires BlockInv(b, e, a) && e < EPOCHS && KRunnable(b)
    ensures BlockInv(CheckpointStep(b), e, a)
  {
  }

  lemma FinishKeeps(b: Block, e: nat, a: AtomicBlock)
    requires BlockInv(b, e, a) && b.owner.Writer? && b.owner.pc.Fenced?
    ensures BlockInv(b.(owner := Nobody), e, WriteAtomic(a, b.owner.lo, b.owner.data))
  {
  }

  lemma WriterKeeps(b: Block, e: nat, a: AtomicBlock)
    requires BlockInv(b, e, a) && e < EPOCHS && Runnable(b)
    ensures BlockInv(WriterStep(b, e), e, a)
  {
    var pc := b.owner.pc;
    if pc.Ready? {
      LogStoreKeeps(b, e, a);
    } else if pc.LogStored? {
      GapStoreKeeps(b, e, a);
    } else if pc.GapStored? || pc.OffSet? || pc.LenSet? {
      WordKeeps(b, e, a);
    } else if pc.PolicySet? || pc.Flushed? {
      FlushKeeps(b, e, a);
    } else if pc.Locked? || pc.CopiedBack? {
      CopyKeeps(b, e, a);
    } else {
      ResetKeeps(b, e, a);
    }
  }

  /** No thread ever gets stuck on a block or reaches outside it. */
  lemma BlockProgress(b: Block, e: nat, a: AtomicBlock)
    requires BlockInv(b, e, a)
    ensures b.owner.Writer? && !b.owner.pc.Fenced? ==> Runnable(b)
    ensures b.owner.Checkpointer? ==> KRunnable(b)
  {
  }

  /** Reads between writes return the current content. */
  lemma ReadsCurrent(k: nat, b: Block, e: nat, a: AtomicBlock, lo: nat, out: seq<byte>)
    requires BlockInv(b, e, a) && BlockStep(k, b, e, Read(k, lo, out), b)
    ensures lo + |out| <= |a.cur| && out == a.cur[lo..lo + |out|]
  {
    var log, w := Vols(b.entry.value.log), b.entry.value.word.vol;
    ReadIsView(FileMem(b), log, w, lo, |out|);
    forall j | 0 <= j < |out| ensures out[j] == a.cur[lo + j] {
      assert out[j] == ViewAt(FileMem(b), log, w, lo + j);
      assert log[lo + j] == b.entry.value.log[lo + j].vol;
    }
  }

  lemma BlockStepKeeps(k: nat, b: Block, e: nat, a: AtomicBlock, ev: Event, b': Block)
    requires BlockInv(b, e, a) && e < EPOCHS && BlockStep(k, b, e, ev, b')
    ensures BlockInv(b', e, if ev.Wrote? then WriteAtomic(a, ev.lo, ev.data) else a)
  {
    match ev
    case Internal =>
      if Runnable(b) && b' == WriterStep(b, e) {
        WriterKeeps(b, e, a);
      } else if KRunnable(b) && b' == CheckpointStep(b) {
        CheckpointKeeps(b, e, a);
      }
    case Wrote(_, _, _) => FinishKeeps(b, e, a);
    case _ =>
  }

  // ----- runs

  ghost predicate Inv(s: State, a: AtomicFile) {
    && EpochInv(s) && s.blocks.Keys == a.Keys
    && forall k :: k in s.blocks ==> BlockInv(s.blocks[k], BaseEpoch(s), a[k])
  }

  /** A commit turns a quiet block's current content into its committed content. */
  lemma CommitKeeps(b: Block, e: nat, a: AtomicBlock)
    requires BlockInv(b, e, a) && b.owner.Nobody?
    ensures BlockInv(b, e + 1, AtomicBlock(a.cur, a.cur))
  {
  }

  lemma OnBlockKeeps(k: nat, s: State, a: AtomicFile, ev: Event, s': State)
    requires Inv(s, a) && s.epoch.vol < EPOCHS && k in s.blocks && OnBlock(k, s, ev, s')
    ensures Inv(s', Apply(a, ev))
  {
    var e, b, b' := s.epoch.vol, s.blocks[k], s'.blocks[k];
    assert ev.Wrote? ==> ev.k == k && ev.lo + |ev.data| <= |a[k].cur|;
    BlockStepKeeps(k, b, e, a[k], ev, b');
    assert Apply(a, ev).Keys == a.Keys;
    forall j | j in s'.blocks ensures BlockInv(s'.blocks[j], e, Apply(a, ev)[j]) {
      if j != k {
        assert s'.blocks[j] == s.blocks[j] && Apply(a, ev)[j] == a[j];
      }
    }
  }

  lemma CommitStepKeeps(s: State, a: AtomicFile, ev: Event, s': State)
    requires Inv(s, a) && CommitStep(s, ev, s')
    ensures Inv(s', Apply(a, ev))
  {
    if ev.Committed? {
      forall k | k in s'.blocks ensures BlockInv(s'.blocks[k], BaseEpoch(s'), Apply(a, ev)[k]) {
        CommitKeeps(s.blocks[k], BaseEpoch(s), a[k]);
      }
    }
  }

  lemma StepKeeps(s: State, a: AtomicFile, ev: Event, s': State)
    requires Inv(s, a) && s.epoch.vol < EPOCHS && Step(s, ev, s')
    ensures Inv(s', Apply(a, ev))
  {
    if k :| k in s.blocks && OnBlock(k, s, ev, s') {
      OnBlockKeeps(k, s, a, ev, s');
    } else {
      CommitStepKeeps(s, a, ev, s');
    }
  }

  ghost predicate Run(ss: seq<State>, evs: seq<Event>) {
    && |ss| == |evs| + 1
    && forall i :: 0 <= i < |evs| ==> Taken(ss, evs, i)
  }

  ghost predicate Taken(ss: seq<State>, evs: seq<Event>, i: nat)
    requires i < |evs| && i + 1 < |ss|
  {
    Step(ss[i], evs[i], ss[i + 1])
  }

  lemma StepAt(ss: seq<State>, evs: seq<Event>, i: nat)
    requires Run(ss, evs) && i < |evs|
    ensures Step(ss[i], evs[i], ss[i + 1])
  {
    assert Taken(ss, evs, i);
  }

  lemma {:induction false} RunKeeps(ss: seq<State>, evs: seq<Event>, a: AtomicFile, n: nat)
    requires Run(ss, evs) && Init(ss[0], a) && n <= |evs|
    requires forall i :: 0 <= i < |ss| ==> ss[i].epoch.vol < EPOCHS
    ensures Inv(ss[n], Replay(a, evs[..n]))
  {
    if n == 0 {
      assert evs[..0] == [];
    } else {
      RunKeeps(ss, evs, a, n - 1);
      StepAt(ss, evs, n - 1);
      StepKeeps(ss[n - 1], Replay(a, evs[..n - 1]), evs[n - 1], ss[n]);
      assert evs[..n][..n - 1] == evs[..n - 1];
    }
  }

  lemma CrashSafeAt(s: State, a: AtomicFile, im: Image, k: nat)
    requires Inv(s, a) && Crash(s, im) && k in a
    ensures RecoverBlock(REDO, im.epoch, im.blocks[k]) == ExpectedAt(s, a, im.epoch, k)
  {
    if im.epoch == BaseEpoch(s) {
      BlockCrashSafe(s.blocks[k], BaseEpoch(s), a[k], im.blocks[k]);
    } else {
      BlockCommitSafe(s.blocks[k], BaseEpoch(s), a[k], im.blocks[k]);
    }
  }

  lemma CrashSafe(s: State, a: AtomicFile, im: Image)
    requires Inv(s, a) && Crash(s, im)
    ensures Recover(REDO, im) == Expected(s, a, im)
  {
    forall k | k in a ensures RecoverBlock(REDO, im.epoch, im.blocks[k]) == ExpectedAt(s, a, im.epoch, k) {
      CrashSafeAt(s, a, im, k);
    }
    AllRecovered(REDO, s, a, im);
  }

  /** REDO crash atomicity: after any run, a crash at any point leaves a state from which recovery
      rebuilds what the completed commits made of the completed writes, and nothing else. */
  lemma {:induction false} CrashAtomicity(ss: seq<State>, evs: seq<Event>, a: AtomicFile, im: Image)
    requires Run(ss, evs) && Init(ss[0], a)
    requires forall i :: 0 <= i < |ss| ==> ss[i].epoch.vol < EPOCHS
    requires Crash(ss[|evs|], im)
    ensures Recover(REDO, im) == Expected(ss[|evs|], Replay(a, evs), im)
  {
    RunKeeps(ss, evs, a, |evs|);
    assert evs[..|evs|] == evs;
    CrashSafe(ss[|evs|], Replay(a, evs), im);
  }

  lemma StepReads(s: State, a: AtomicFile, ev: Event, s': State)
    requires Inv(s, a) && Step(s, ev, s') && ev.Read?
    ensures ev.k in a && ev.lo + |ev.out| <= |a[ev.k].cur| && ev.out == a[ev.k].cur[ev.lo..ev.lo + |ev.out|]
  {
    var k :| k in s.blocks && OnBlock(k, s, ev, s');
    ReadsCurrent(k, s.blocks[k], s.epoch.vol, a[k], ev.lo, ev.out);
  }

  /** Every read of every run returns the current content: the writes completed before it, in order. */
  lemma {:induction false} ReadsLastWritten(ss: seq<State>, evs: seq<Event>, a: AtomicFile, i: nat)
    requires Run(ss, evs) && Init(ss[0], a)
    requires forall i :: 0 <= i < |ss| ==> ss[i].epoch.vol < EPOCHS
    requires i < |evs| && evs[i].Read?
    ensures var now, ev := Replay(a, evs[..i]), evs[i];
            && ev.k in now && ev.lo + |ev.out| <= |now[ev.k].cur|
            && ev.out == now[ev.k].cur[ev.lo..ev.lo + |ev.out|]
  {
    RunKeeps(ss, evs, a, i);
    StepAt(ss, evs, i);
    StepReads(ss[i], Replay(a, evs[..i]), evs[i], ss[i + 1]);
  }

  /** The entry word has 20 bits for the epoch.  A log written in epoch `e` is left alone by a recovery in
      epoch `e`, whatever the contents, exactly as long as `e` fits. */
  lemma EpochWidthExact(e: nat, off: nat, len: nat, size: nat)
    requires 0 < len && off + len <= size
    ensures (forall file: seq<byte>, log: seq<byte> :: |file| == |log| == size ==>
               RecoverBlock(REDO, e, BlockImage(file, Some(EntryImage(Word(Trunc(e), off, len, REDO), log)))) == file)
            <==> e < EPOCHS
  {
    if e >= EPOCHS {
      var file, log := seq(size, i => 0 as byte), seq(size, i => 1 as byte);
      var w := Word(Trunc(e), off, len, REDO);
      assert View(file, log, w)[off] == 1;
      assert RecoverBlock(REDO, e, BlockImage(file, Some(EntryImage(w, log)))) == View(file, log, w);
    }
  }
}
