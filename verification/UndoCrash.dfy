/** UNDO logging as an interleaving of the stores of any number of writers, the background
    checkpointer and fsync.  The code puts no fence between the log store, the entry update and
    the gap fill, so here stores reach persistence in issue order: a crash loses a suffix of the
    stores and any part of the last one.  The packed entry word is stored as a whole. */
module UndoCrash {
  import opened Pmem
  import opened BlockLog
  import opened LogSystem
  import opened Options

  /** Issue order: before the next store everything stored so far is durable. */
  function Ordered(b: Block): Block {
    b.(file := Fence(b.file),
       entry := if b.entry.None? then None
                else Some(Entry(Drain(b.entry.value.word), b.entry.value.flushed, Fence(b.entry.value.log))))
  }

  predicate Runnable(b: Block) {
    && b.owner.Writer? && b.entry.Some? && |b.entry.value.log| == |b.file|
    && |b.owner.data| > 0 && b.owner.lo + |b.owner.data| <= |b.file|
    && (b.owner.pc.LogStored? ==> InBlock(b.entry.value.word.vol, |b.file|))
    && (b.owner.pc.Locked? || b.owner.pc.Ready? || b.owner.pc.LogStored? || b.owner.pc.GapStored?
        || b.owner.pc.PolicySet? || b.owner.pc.Fenced?)
  }

  /** The writer's next store or fence (src/mmio.c:249-264, 301-400). */
  function WriterStep(b: Block, e: nat): Block
    requires Runnable(b)
  {
    var lo, data, w, o := b.owner.lo, b.owner.data, b.entry.value.word.vol, Ordered(b);
    match b.owner.pc
    case Locked =>
      if w.epoch < e then At(PutWord(o, Word(Trunc(e), 0, 0, UNDO)), Ready) else At(b, Ready)
    case Ready => At(StoreLog(o, lo, Vols(b.file)[lo..lo + |data|]), LogStored)
    case LogStored =>
      var p := Merge(w.off, w.len, lo, |data|, |b.file|);
      At(StoreLog(o, p.gapAt, Vols(b.file)[p.gapAt..p.gapAt + p.gapLen]), GapStored(p.off, p.len))
    case GapStored(off, len) => At(PutWord(o, Word(w.epoch, off, len, UNDO)), PolicySet)
    case PolicySet => At(FenceBlock(FlushWord(b)), Fenced)
    case _ => At(StoreFile(o, lo, data), FileStored)
  }

  /** One step of any thread on block `k` while the file's epoch is `e`. */
  ghost predicate BlockStep(k: nat, b: Block, e: nat, ev: Event, b': Block) {
    match ev
    case Internal =>
      || Creates(b, e, b')
      || (Runnable(b) && b' == WriterStep(b, e))
      || Claims(b, e, b')
      || (b.owner.Checkpointer? && b' == b.(entry := None, owner := Nobody))
    case Began(_, _, _) => Begins(k, b, ev, b')
    case Wrote(k', lo, data) =>
      k' == k && b.owner == Writer(FileStored, lo, data) && b' == Ordered(b).(owner := Nobody)
    case Read(k', lo, out) =>
      && k' == k && b.owner.Nobody? && b' == b
      && lo + |out| <= |b.file| && out == Vols(b.file)[lo..lo + |out|]
    case Committed => false
  }

  ghost predicate OnBlock(k: nat, s: State, ev: Event, s': State)
    requires k in s.blocks
  {
    Onto(k, s, s') && BlockStep(k, s.blocks[k], s.epoch.vol, ev, s'.blocks[k])
  }

  ghost predicate Step(s: State, ev: Event, s': State) {
    || (exists k :: k in s.blocks && OnBlock(k, s, ev, s'))
    || CommitStep(s, ev, s')
  }

  // ----- the invariant of one block

  /** A crash that leaves word `v` leaves the committed content: in the log where recovery
      puts the log back, in the file elsewhere. */
  ghost predicate Safe(v: Word, b: Block, en: Entry, e: nat, com: seq<byte>)
    requires |en.log| == |b.file| == |com|
  {
    forall i :: 0 <= i < |com| ==>
      if v.epoch == e && Covers(v, i) then en.log[i].may == {com[i]} else b.file[i].may == {com[i]}
  }

  /** The file holds the current content; it differs from the committed one only where an entry of this epoch has the
      committed bytes in its log. */
  ghost predicate Quiet(b: Block, e: nat, a: AtomicBlock)
    requires Sized(b, a)
  {
    && Settled(b.file, a.cur)
    && match b.entry
       case None => a.cur == a.com
       case Some(en) =>
         var w := en.word.vol;
         && w in en.word.may && w.epoch <= e && InBlock(w, |b.file|)
         && (forall v :: v in en.word.may ==> v.epoch <= w.epoch && Safe(v, b, en, e, a.com))
         && (w.epoch < e ==> a.cur == a.com)
         && (w.epoch == e ==> AltersOnly(a, w) && Logged(b, en, a, w.off, w.len))
  }

  /** Only bytes that `w` covers differ from their committed values. */
  ghost predicate AltersOnly(a: AtomicBlock, w: Word) {
    forall i :: 0 <= i < |a.cur| && i < |a.com| && !Covers(w, i) ==> a.cur[i] == a.com[i]
  }

  /** [off, off+len) of the log holds what was committed. */
  ghost predicate Logged(b: Block, en: Entry, a: AtomicBlock, off: nat, len: nat)
    requires Sized(b, a) && |en.log| == |b.file|
  {
    forall i :: 0 <= i < |b.file| && Within(i, off, len) ==> en.log[i].vol == a.com[i]
  }

  ghost predicate WriterInv(b: Block, en: Entry, e: nat, a: AtomicBlock)
    requires b.owner.Writer? && Sized(b, a) && b.entry == Some(en)
    requires b.owner.lo + |b.owner.data| <= |b.file|
  {
    var lo, data, w := b.owner.lo, b.owner.data, en.word.vol;
    match b.owner.pc
    case Locked => Quiet(b, e, a)
    case Ready => Quiet(b, e, a) && w.epoch == e
    case LogStored => Quiet(b, e, a) && w.epoch == e && Logged(b, en, a, lo, |data|)
    case GapStored(off, len) =>
      && Quiet(b, e, a) && w.epoch == e && Logged(b, en, a, off, len)
      && off + len <= |b.file| && (forall i :: Within(i, lo, |data|) || Covers(w, i) ==> Within(i, off, len))
    case PolicySet => Quiet(b, e, a) && w.epoch == e && forall i :: Within(i, lo, |data|) ==> Covers(w, i)
    case Fenced => Quiet(b, e, a) && w.epoch == e && forall i :: Within(i, lo, |data|) ==> Covers(w, i)
    case FileStored =>
      && w.epoch == e && en.word.may == {w} && InBlock(w, |b.file|) && Safe(w, b, en, e, a.com)
      && Logged(b, en, a, w.off, w.len)
      && AltersOnly(a, w) && (forall i :: Within(i, lo, |data|) ==> Covers(w, i))
      && (forall i :: 0 <= i < |b.file| ==> b.file[i].vol == Splice(a.cur, lo, data)[i])
    case _ => false
  }

  ghost predicate BlockInv(b: Block, e: nat, a: AtomicBlock) {
    match b.owner
    case Nobody => Sized(b, a) && Quiet(b, e, a)
    case Writer(pc, lo, data) =>
      && Sized(b, a) && b.entry.Some? && |data| > 0 && lo + |data| <= |b.file| && Untouched(a, lo, |data|)
      && WriterInv(b, b.entry.value, e, a)
    case Checkpointer(kpc) => Sized(b, a) && b.entry.Some? && Quiet(b, e, a) && b.entry.value.word.vol.epoch < e
  }

  // ----- crash of one block

  /** At every point of every operation, a crash before the commit leaves the committed content. */
  lemma BlockCrashSafe(b: Block, e: nat, a: AtomicBlock, im: BlockImage)
    requires BlockInv(b, e, a) && BlockCrash(b, im)
    ensures RecoverBlock(UNDO, e, im) == a.com
  {
    var r := RecoverBlock(UNDO, e, im);
    forall i | 0 <= i < |r| ensures r[i] == a.com[i] {
      assert im.file[i] in b.file[i].may;
      if b.entry.Some? {
        assert im.entry.value.log[i] in b.entry.value.log[i].may;
        assert Safe(im.entry.value.word, b, b.entry.value, e, a.com);
      }
    }
  }

  /** On a quiet block the next epoch number alone turns the current content into the committed one. */
  lemma BlockCommitSafe(b: Block, e: nat, a: AtomicBlock, im: BlockImage)
    requires BlockInv(b, e, a) && b.owner.Nobody? && BlockCrash(b, im)
    ensures RecoverBlock(UNDO, e + 1, im) == a.cur
  {
    var r := RecoverBlock(UNDO, e + 1, im);
    forall i | 0 <= i < |r| ensures r[i] == a.cur[i] {
      assert im.file[i] in b.file[i].may;
    }
  }

  // ----- every step of a thread keeps the invariant

  lemma StartKeeps(b: Block, e: nat, a: AtomicBlock)
    requires BlockInv(b, e, a) && e < EPOCHS && Runnable(b) && (b.owner.pc.Locked? || b.owner.pc.Ready?)
    ensures BlockInv(WriterStep(b, e), e, a)
  {
  }

  lemma GapFillKeeps(b: Block, e: nat, a: AtomicBlock, p: Plan, b': Block)
    requires BlockInv(b, e, a) && Runnable(b) && b.owner.pc.LogStored?
    requires IsHull(p, b.entry.value.word.vol.off, b.entry.value.word.vol.len, b.owner.lo, |b.owner.data|, |b.file|)
    requires b' == At(StoreLog(Ordered(b), p.gapAt, Vols(b.file)[p.gapAt..p.gapAt + p.gapLen]),
                     GapStored(p.off, p.len))
    ensures BlockInv(b', e, a)
  {
    var w, log, log' := b.entry.value.word.vol, b.entry.value.log, b'.entry.value.log;
    assert log' == Store(Fence(log), p.gapAt, Vols(b.file)[p.gapAt..p.gapAt + p.gapLen]);
    forall i | 0 <= i < |b.file| && Within(i, p.off, p.len) ensures log'[i].vol == a.com[i] {
      StoredFrom(Fence(log), Vols(b.file), p.gapAt, p.gapLen, i);
      if Within(i, p.gapAt, p.gapLen) {
        assert !Within(i, b.owner.lo, |b.owner.data|) && !Covers(w, i);
      } else {
        assert Within(i, b.owner.lo, |b.owner.data|) || Covers(w, i);
      }
    }
  }

  lemma WordKeeps(b: Block, e: nat, a: AtomicBlock)
    requires BlockInv(b, e, a) && e < EPOCHS && Runnable(b) && (b.owner.pc.GapStored? || b.owner.pc.PolicySet?)
    ensures BlockInv(WriterStep(b, e), e, a)
  {
  }

  lemma StoreKeeps(b: Block, e: nat, a: AtomicBlock)
    requires BlockInv(b, e, a) && e < EPOCHS && Runnable(b) && b.owner.pc.Fenced?
    ensures BlockInv(WriterStep(b, e), e, a)
  {
  }

  lemma GapStoreKeeps(b: Block, e: nat, a: AtomicBlock)
    requires BlockInv(b, e, a) && e < EPOCHS && Runnable(b) && b.owner.pc.LogStored?
    ensures BlockInv(WriterStep(b, e), e, a)
  {
    var w := b.entry.value.word.vol;
    GapFillKeeps(b, e, a, Merge(w.off, w.len, b.owner.lo, |b.owner.data|, |b.file|), WriterStep(b, e));
  }

  lemma WriterKeeps(b: Block, e: nat, a: AtomicBlock)
    requires BlockInv(b, e, a) && e < EPOCHS && Runnable(b)
    ensures BlockInv(WriterStep(b, e), e, a)
  {
    var pc := b.owner.pc;
    if pc.LogStored? {
      GapStoreKeeps(b, e, a);
    } else if pc.Locked? || pc.Ready? {
      StartKeeps(b, e, a);
    } else if pc.Fenced? {
      StoreKeeps(b, e, a);
    } else {
      WordKeeps(b, e, a);
    }
  }

  lemma FinishKeeps(b: Block, e: nat, a: AtomicBlock)
    requires BlockInv(b, e, a) && b.owner.Writer? && b.owner.pc.FileStored?
    ensures BlockInv(Ordered(b).(owner := Nobody), e, WriteAtomic(a, b.owner.lo, b.owner.data))
  {
  }

  lemma BlockStepKeeps(k: nat, b: Block, e: nat, a: AtomicBlock, ev: Event, b': Block)
    requires BlockInv(b, e, a) && e < EPOCHS && BlockStep(k, b, e, ev, b')
    requires ev.Began? ==> Untouched(a, ev.lo, |ev.data|)
    ensures BlockInv(b', e, if ev.Wrote? then WriteAtomic(a, ev.lo, ev.data) else a)
  {
    match ev
    case Internal =>
      if Runnable(b) && b' == WriterStep(b, e) {
        WriterKeeps(b, e, a);
      }
    case Wrote(_, _, _) => FinishKeeps(b, e, a);
    case _ =>
  }

  /** No thread ever gets stuck on a block or reaches outside it. */
  lemma BlockProgress(b: Block, e: nat, a: AtomicBlock)
    requires BlockInv(b, e, a)
    ensures b.owner.Writer? && !b.owner.pc.FileStored? ==> Runnable(b)
  {
  }

  // ----- runs

  ghost predicate Inv(s: State, a: AtomicFile) {
    && EpochInv(s) && s.blocks.Keys == a.Keys
    && forall k :: k in s.blocks ==> BlockInv(s.blocks[k], BaseEpoch(s), a[k])
  }

  lemma CommitKeeps(b: Block, e: nat, a: AtomicBlock)
    requires BlockInv(b, e, a) && b.owner.Nobody?
    ensures BlockInv(b, e + 1, AtomicBlock(a.cur, a.cur))
  {
  }

  lemma OnBlockKeeps(k: nat, s: State, a: AtomicFile, ev: Event, s': State)
    requires Inv(s, a) && s.epoch.vol < EPOCHS && k in s.blocks && OnBlock(k, s, ev, s')
    requires ev.Began? ==> Untouched(a[k], ev.lo, |ev.data|)
    ensures Inv(s', Apply(a, ev))
  {
    var e, b, b' := s.epoch.vol, s.blocks[k], s'.blocks[k];
    assert ev.Wrote? ==> ev.k == k && ev.lo + |ev.data| <= |a[k].cur|;
    BlockStepKeeps(k, b, e, a[k], ev, b');
    assert Apply(a, ev).Keys == a.Keys;
    forall j | j in s'.blocks ensures BlockInv(s'.blocks[j], e, Apply(a, ev)[j]) {
      if j != k {
        assert s'.blocks[j] == s.blocks[j] && Apply(a, ev)[j] == a[j];
      }
    }
  }

  lemma CommitStepKeeps(s: State, a: AtomicFile, ev: Event, s': State)
    requires Inv(s, a) && CommitStep(s, ev, s')
    ensures Inv(s', Apply(a, ev))
  {
    if ev.Committed? {
      forall k | k in s'.blocks ensures BlockInv(s'.blocks[k], BaseEpoch(s'), Apply(a, ev)[k]) {
        CommitKeeps(s.blocks[k], BaseEpoch(s), a[k]);
      }
    }
  }

  lemma StepKeeps(s: State, a: AtomicFile, ev: Event, s': State)
    requires Inv(s, a) && s.epoch.vol < EPOCHS && Step(s, ev, s')
    requires ev.Began? && ev.k in a ==> Untouched(a[ev.k], ev.lo, |ev.data|)
    ensures Inv(s', Apply(a, ev))
  {
    if k :| k in s.blocks && OnBlock(k, s, ev, s') {
      OnBlockKeeps(k, s, a, ev, s');
    } else {
      CommitStepKeeps(s, a, ev, s');
    }
  }

  ghost predicate Run(ss: seq<State>, evs: seq<Event>) {
    && |ss| == |evs| + 1
    && forall i :: 0 <= i < |evs| ==> Taken(ss, evs, i)
  }

  ghost predicate Taken(ss: seq<State>, evs: seq<Event>, i: nat)
    requires i < |evs| && i + 1 < |ss|
  {
    Step(ss[i], evs[i], ss[i + 1])
  }

  lemma StepAt(ss: seq<State>, evs: seq<Event>, i: nat)
    requires Run(ss, evs) && i < |evs|
    ensures Step(ss[i], evs[i], ss[i + 1])
  {
    assert Taken(ss, evs, i);
  }

  lemma {:induction false} RunKeeps(ss: seq<State>, evs: seq<Event>, a: AtomicFile, n: nat)
    requires Run(ss, evs) && Init(ss[0], a) && NoRewrites(a, evs) && n <= |evs|
    requires forall i :: 0 <= i < |ss| ==> ss[i].epoch.vol < EPOCHS
    ensures Inv(ss[n], Replay(a, evs[..n]))
  {
    if n == 0 {
      assert evs[..0] == [];
    } else {
      RunKeeps(ss, evs, a, n - 1);
      StepAt(ss, evs, n - 1);
      assert BeginsFresh(a, evs, n - 1);
      StepKeeps(ss[n - 1], Replay(a, evs[..n - 1]), evs[n - 1], ss[n]);
      assert evs[..n][..n - 1] == evs[..n - 1];
    }
  }

  lemma CrashSafeAt(s: State, a: AtomicFile, im: Image, k: nat)
    requires Inv(s, a) && Crash(s, im) && k in a
    ensures RecoverBlock(UNDO, im.epoch, im.blocks[k]) == ExpectedAt(s, a, im.epoch, k)
  {
    if im.epoch == BaseEpoch(s) {
      BlockCrashSafe(s.blocks[k], BaseEpoch(s), a[k], im.blocks[k]);
    } else {
      BlockCommitSafe(s.blocks[k], BaseEpoch(s), a[k], im.blocks[k]);
    }
  }

  lemma CrashSafe(s: State, a: AtomicFile, im: Image)
    requires Inv(s, a) && Crash(s, im)
    ensures Recover(UNDO, im) == Expected(s, a, im)
  {
    forall k | k in a ensures RecoverBlock(UNDO, im.epoch, im.blocks[k]) == ExpectedAt(s, a, im.epoch, k) {
      CrashSafeAt(s, a, im, k);
    }
    AllRecovered(UNDO, s, a, im);
  }

  /** UNDO image: after any run in which no byte is written twice between commits, a crash at any
      point leaves a state from which recovery rebuilds what the completed commits made of the
      completed writes, and nothing else. */
  lemma {:induction false} CrashAtomicity(ss: seq<State>, evs: seq<Event>, a: AtomicFile, im: Image)
    requires Run(ss, evs) && Init(ss[0], a) && NoRewrites(a, evs)
    requires forall i :: 0 <= i < |ss| ==> ss[i].epoch.vol < EPOCHS
    requires Crash(ss[|evs|], im)
    ensures Recover(UNDO, im) == Expected(ss[|evs|], Replay(a, evs), im)
  {
    RunKeeps(ss, evs, a, |evs|);
    assert evs[..|evs|] == evs;
    CrashSafe(ss[|evs|], Replay(a, evs), im);
  }

  /** Every read of every such run returns the current content: the writes completed before it, in order. */
  lemma {:induction false} ReadsLastWritten(ss: seq<State>, evs: seq<Event>, a: AtomicFile, i: nat)
    requires Run(ss, evs) && Init(ss[0], a) && NoRewrites(a, evs)
    requires forall i :: 0 <= i < |ss| ==> ss[i].epoch.vol < EPOCHS
    requires i < |evs| && evs[i].Read?
    ensures var now, ev := Replay(a, evs[..i]), evs[i];
            && ev.k in now && ev.lo + |ev.out| <= |now[ev.k].cur|
            && ev.out == now[ev.k].cur[ev.lo..ev.lo + |ev.out|]
  {
    RunKeeps(ss, evs, a, i);
    StepAt(ss, evs, i);
    StepReads(ss[i], Replay(a, evs[..i]), evs[i], ss[i + 1]);
  }

  lemma StepReads(s: State, a: AtomicFile, ev: Event, s': State)
    requires Inv(s, a) && Step(s, ev, s') && ev.Read?
    ensures ev.k in a && ev.lo + |ev.out| <= |a[ev.k].cur| && ev.out == a[ev.k].cur[ev.lo..ev.lo + |ev.out|]
  {
    var k :| k in s.blocks && OnBlock(k, s, ev, s');
    QuietReads(s.blocks[k], s.epoch.vol, a[k]);
  }

  lemma QuietReads(b: Block, e: nat, a: AtomicBlock)
    requires BlockInv(b, e, a) && b.owner.Nobody?
    ensures Vols(b.file) == a.cur
  {
  }
}
