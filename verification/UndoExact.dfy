/** The conditions under which UNDO logging recovers, each exactly: what a whole write leaves, when a write may follow
    another, and what goes wrong without issue order and without whole-word updates, in states that runs reach. */
module UndoExact {
  import opened Pmem
  import opened BlockLog
  import opened LogSystem
  import opened Options
  import opened UndoCrash

  // ----- a write as a whole

  /** What a write on an entry of the current epoch leaves in file, log and word. */
  function WriteFile(file: seq<byte>, lo: nat, data: seq<byte>): seq<byte>
    requires lo + |data| <= |file|
  {
    Splice(file, lo, data)
  }

  function WriteLog(file: seq<byte>, log: seq<byte>, w: Word, lo: nat, n: nat): seq<byte>
    requires |log| == |file| && InBlock(w, |file|) && 0 < n && lo + n <= |file|
  {
    var p := Merge(w.off, w.len, lo, n, |file|);
    Splice(Splice(log, lo, file[lo..lo + n]), p.gapAt, file[p.gapAt..p.gapAt + p.gapLen])
  }

  function WriteWord(w: Word, lo: nat, n: nat, size: nat): Word
    requires InBlock(w, size) && 0 < n && lo + n <= size
  {
    var p := Merge(w.off, w.len, lo, n, size);
    Word(w.epoch, p.off, p.len, UNDO)
  }

  /** The word that a write finds once it is past checkpoint_entry. */
  function Renewed(w: Word, e: nat): Word {
    if w.epoch < e then Word(Trunc(e), 0, 0, UNDO) else w
  }

  /** A block that a writer may lock. */
  ghost predicate Open(b: Block, lo: nat, data: seq<byte>) {
    && b.owner.Nobody? && b.entry.Some? && |b.entry.value.log| == |b.file| && InBlock(b.entry.value.word.vol, |b.file|)
    && |data| > 0 && lo + |data| <= |b.file|
  }

  /** The seven points of a write after the first, and its end. */
  ghost predicate WholeWrite(bs: seq<Block>, e: nat) {
    |bs| == 7 && Chain(bs, e) && bs[6].owner.Writer? && bs[6].owner.pc.FileStored?
  }

  /** One store after the other. */
  ghost predicate Chain(bs: seq<Block>, e: nat) {
    forall i :: 0 <= i < |bs| - 1 ==> Follows(bs, e, i)
  }

  ghost predicate Follows(bs: seq<Block>, e: nat, i: nat)
    requires i + 1 < |bs|
  {
    Runnable(bs[i]) && bs[i + 1] == WriterStep(bs[i], e)
  }

  lemma ChainNext(bs: seq<Block>, e: nat)
    requires bs != [] && Chain(bs, e) && Runnable(bs[|bs| - 1])
    ensures Chain(bs + [WriterStep(bs[|bs| - 1], e)], e)
  {
    var more := bs + [WriterStep(bs[|bs| - 1], e)];
    forall i | 0 <= i < |more| - 1 ensures Follows(more, e, i) {
      assert i < |bs| - 1 ==> Follows(bs, e, i);
    }
  }

  lemma OrderedFinds(b: Block, pc: WriterPc, lo: nat, data: seq<byte>, file: seq<byte>, log: seq<byte>, w: Word)
    requires Finds(b, pc, lo, data, file, log, w)
    ensures Finds(Ordered(b), pc, lo, data, file, log, w)
  {
    FencedVols(b.file);
    FencedVols(b.entry.value.log);
  }

  lemma StartStep(b: Block, e: nat, lo: nat, data: seq<byte>, file: seq<byte>, log: seq<byte>, w: Word)
    requires Finds(b, Locked, lo, data, file, log, w) && |data| > 0 && lo + |data| <= |file|
    ensures Runnable(b) && Finds(WriterStep(b, e), Ready, lo, data, file, log, Renewed(w, e))
  {
    OrderedFinds(b, Locked, lo, data, file, log, w);
  }

  lemma LogStep(b: Block, e: nat, lo: nat, data: seq<byte>, file: seq<byte>, log: seq<byte>, w: Word)
    requires Finds(b, Ready, lo, data, file, log, w) && |data| > 0 && lo + |data| <= |file|
    ensures Runnable(b) && Finds(WriterStep(b, e), LogStored, lo, data, file, Splice(log, lo, file[lo..lo + |data|]), w)
  {
    OrderedFinds(b, Ready, lo, data, file, log, w);
    StoredVols(Ordered(b).entry.value.log, lo, file[lo..lo + |data|]);
  }

  lemma GapStep(b: Block, e: nat, lo: nat, data: seq<byte>, file: seq<byte>, log: seq<byte>, w: Word, p: Plan)
    requires Finds(b, LogStored, lo, data, file, log, w) && |data| > 0 && lo + |data| <= |file| && InBlock(w, |file|)
    requires p == Merge(w.off, w.len, lo, |data|, |file|)
    ensures Runnable(b)
    ensures Finds(WriterStep(b, e), GapStored(p.off, p.len), lo, data, file,
                  Splice(log, p.gapAt, file[p.gapAt..p.gapAt + p.gapLen]), w)
  {
    OrderedFinds(b, LogStored, lo, data, file, log, w);
    StoredVols(Ordered(b).entry.value.log, p.gapAt, file[p.gapAt..p.gapAt + p.gapLen]);
  }

  lemma WordSteps(b: Block, e: nat, lo: nat, data: seq<byte>, file: seq<byte>, log: seq<byte>, w: Word, off: nat,
      len: nat)
    requires Finds(b, GapStored(off, len), lo, data, file, log, w) && |data| > 0 && lo + |data| <= |file|
    ensures Runnable(b) && Finds(WriterStep(b, e), PolicySet, lo, data, file, log, Word(w.epoch, off, len, UNDO))
  {
    OrderedFinds(b, GapStored(off, len), lo, data, file, log, w);
  }

  lemma FenceStep(b: Block, e: nat, lo: nat, data: seq<byte>, file: seq<byte>, log: seq<byte>, w: Word)
    requires Finds(b, PolicySet, lo, data, file, log, w) && |data| > 0 && lo + |data| <= |file|
    ensures Runnable(b) && Finds(WriterStep(b, e), Fenced, lo, data, file, log, w)
  {
    FencedVols(b.file);
    FencedVols(b.entry.value.log);
  }

  lemma FileStep(b: Block, e: nat, lo: nat, data: seq<byte>, file: seq<byte>, log: seq<byte>, w: Word)
    requires Finds(b, Fenced, lo, data, file, log, w) && |data| > 0 && lo + |data| <= |file|
    ensures Runnable(b) && Finds(WriterStep(b, e), FileStored, lo, data, WriteFile(file, lo, data), log, w)
  {
    OrderedFinds(b, Fenced, lo, data, file, log, w);
    StoredVols(Ordered(b).file, lo, data);
  }

  /** The stores to the log add up to WriteLog. */
  lemma LogSteps(bs: seq<Block>, e: nat, lo: nat, data: seq<byte>, file: seq<byte>, log: seq<byte>, w: Word)
      returns (bs': seq<Block>)
    requires bs != [] && Chain(bs, e) && Finds(bs[|bs| - 1], Ready, lo, data, file, log, w)
    requires |data| > 0 && lo + |data| <= |file| && InBlock(w, |file|)
    ensures |bs'| == |bs| + 2 && bs'[0] == bs[0] && Chain(bs', e)
    ensures var p := Merge(w.off, w.len, lo, |data|, |file|);
            Finds(bs'[|bs'| - 1], GapStored(p.off, p.len), lo, data, file, WriteLog(file, log, w, lo, |data|), w)
  {
    var b := bs[|bs| - 1];
    LogStep(b, e, lo, data, file, log, w);
    ChainNext(bs, e);
    var b1 := WriterStep(b, e);
    GapStep(b1, e, lo, data, file, Splice(log, lo, file[lo..lo + |data|]), w, Merge(w.off, w.len, lo, |data|, |file|));
    ChainNext(bs + [b1], e);
    bs' := bs + [b1] + [WriterStep(b1, e)];
  }

  /** Word, fence and file. */
  lemma FileSteps(bs: seq<Block>, e: nat, lo: nat, data: seq<byte>, file: seq<byte>, log: seq<byte>, w: Word, off: nat,
      len: nat)
      returns (bs': seq<Block>)
    requires bs != [] && Chain(bs, e) && Finds(bs[|bs| - 1], GapStored(off, len), lo, data, file, log, w)
    requires |data| > 0 && lo + |data| <= |file|
    ensures |bs'| == |bs| + 3 && bs'[0] == bs[0] && Chain(bs', e)
    ensures Finds(bs'[|bs'| - 1], FileStored, lo, data, WriteFile(file, lo, data), log, Word(w.epoch, off, len, UNDO))
  {
    var b, w' := bs[|bs| - 1], Word(w.epoch, off, len, UNDO);
    WordSteps(b, e, lo, data, file, log, w, off, len);
    ChainNext(bs, e);
    var b1 := WriterStep(b, e);
    FenceStep(b1, e, lo, data, file, log, w');
    ChainNext(bs + [b1], e);
    var b2 := WriterStep(b1, e);
    FileStep(b2, e, lo, data, file, log, w');
    ChainNext(bs + [b1] + [b2], e);
    bs' := bs + [b1] + [b2] + [WriterStep(b2, e)];
  }

  /** Every write runs through, and its stores add up to WriteFile, WriteLog and WriteWord. */
  lemma StepsWrite(b: Block, e: nat, lo: nat, data: seq<byte>) returns (bs: seq<Block>)
    requires Open(b, lo, data)
    ensures WholeWrite(bs, e) && bs[0] == b.(owner := Writer(Locked, lo, data))
    ensures var file, log, w := Vols(b.file), Vols(b.entry.value.log), Renewed(b.entry.value.word.vol, e);
            Finds(bs[6], FileStored, lo, data, WriteFile(file, lo, data), WriteLog(file, log, w, lo, |data|),
                  WriteWord(w, lo, |data|, |file|))
  {
    var file, log, w0 := Vols(b.file), Vols(b.entry.value.log), b.entry.value.word.vol;
    var w := Renewed(w0, e);
    var p := Merge(w.off, w.len, lo, |data|, |file|);
    bs := [b.(owner := Writer(Locked, lo, data))];
    StartStep(bs[0], e, lo, data, file, log, w0);
    ChainNext(bs, e);
    bs := bs + [WriterStep(bs[0], e)];
    bs := LogSteps(bs, e, lo, data, file, log, w);
    bs := FileSteps(bs, e, lo, data, file, WriteLog(file, log, w, lo, |data|), w, p.off, p.len);
  }

  // ----- when a write may follow another

  /** If restoring the log gives the committed content before a write, it does so after the write
      exactly when the bytes overwritten still held their committed values. */
  lemma RewriteExact(file: seq<byte>, log: seq<byte>, w: Word, lo: nat, data: seq<byte>)
    requires |log| == |file| && InBlock(w, |file|) && 0 < |data| && lo + |data| <= |file|
    ensures var com := View(file, log, w);
            View(WriteFile(file, lo, data), WriteLog(file, log, w, lo, |data|), WriteWord(w, lo, |data|, |file|)) == com
            <==> file[lo..lo + |data|] == com[lo..lo + |data|]
  {
    RewriteExactFor(file, log, w, lo, data, Merge(w.off, w.len, lo, |data|, |file|));
  }

  lemma RewriteExactFor(file: seq<byte>, log: seq<byte>, w: Word, lo: nat, data: seq<byte>, p: Plan)
    requires |log| == |file| && InBlock(w, |file|) && 0 < |data| && lo + |data| <= |file|
    requires IsHull(p, w.off, w.len, lo, |data|, |file|)
    ensures var com := View(file, log, w);
            var log' := Splice(Splice(log, lo, file[lo..lo + |data|]), p.gapAt, file[p.gapAt..p.gapAt + p.gapLen]);
            View(Splice(file, lo, data), log', Word(w.epoch, p.off, p.len, UNDO)) == com
            <==> file[lo..lo + |data|] == com[lo..lo + |data|]
  {
    var com, n := View(file, log, w), |data|;
    var log' := Splice(Splice(log, lo, file[lo..lo + n]), p.gapAt, file[p.gapAt..p.gapAt + p.gapLen]);
    var r := View(Splice(file, lo, data), log', Word(w.epoch, p.off, p.len, UNDO));
    forall i | 0 <= i < |file|
      ensures r[i] == if Within(i, lo, n) then file[i] else com[i]
    {
      if Within(i, p.gapAt, p.gapLen) {
      } else if Within(i, lo, n) {
      } else if Covers(w, i) {
        assert Within(i, p.off, p.len);
      }
    }
    if r == com {
      var x, y := file[lo..lo + n], com[lo..lo + n];
      forall j | 0 <= j < n ensures x[j] == y[j] {
        assert Within(lo + j, lo, n);
      }
    }
    if file[lo..lo + n] == com[lo..lo + n] {
      forall i | 0 <= i < |file| ensures r[i] == com[i] {
        if Within(i, lo, n) {
          assert file[i] == file[lo..lo + n][i - lo];
          assert com[i] == com[lo..lo + n][i - lo];
        }
      }
    }
  }

  // ----- runs

  /** What a running thread reads, a crash may leave, in every state of every run. */
  lemma StepPossible(k: nat, b: Block, e: nat, ev: Event, b': Block)
    requires PossibleBlock(b) && BlockStep(k, b, e, ev, b')
    ensures PossibleBlock(b')
  {
    if ev.Internal? && Runnable(b) && b' == WriterStep(b, e) {
      WriterPossible(b, e);
    }
  }

  lemma WriterPossible(b: Block, e: nat)
    requires PossibleBlock(b) && Runnable(b)
    ensures PossibleBlock(WriterStep(b, e))
  {
  }

  lemma {:induction false} RunPossible(ss: seq<State>, evs: seq<Event>, a: AtomicFile, n: nat)
    requires Run(ss, evs) && Init(ss[0], a) && n < |ss|
    ensures forall k :: k in ss[n].blocks ==> PossibleBlock(ss[n].blocks[k])
  {
    if n > 0 {
      RunPossible(ss, evs, a, n - 1);
      var s, ev, s' := ss[n - 1], evs[n - 1], ss[n];
      StepAt(ss, evs, n - 1);
      if k :| k in s.blocks && OnBlock(k, s, ev, s') {
        StepPossible(k, s.blocks[k], s.epoch.vol, ev, s'.blocks[k]);
      }
    }
  }

  /** `evs` may go on with `ev`. */
  lemma {:induction false} Extend(ss: seq<State>, evs: seq<Event>, a: AtomicFile, k: nat, ev: Event, b': Block)
      returns (ss': seq<State>, evs': seq<Event>)
    requires Run(ss, evs)
    requires var s := ss[|evs|]; s.commit.Idle? && k in s.blocks && BlockStep(k, s.blocks[k], s.epoch.vol, ev, b')
    ensures Run(ss', evs') && ss'[0] == ss[0] && evs' == evs + [ev]
    ensures ss'[|evs'|] == ss[|evs|].(blocks := ss[|evs|].blocks[k := b'])
    ensures Replay(a, evs') == Apply(Replay(a, evs), ev)
    ensures |ss'| == |ss| + 1 && forall i :: 0 <= i < |ss| ==> ss'[i] == ss[i]
  {
    var s := ss[|evs|];
    var s' := s.(blocks := s.blocks[k := b']);
    assert OnBlock(k, s, ev, s');
    ss', evs' := ss + [s'], evs + [ev];
    assert evs'[..|evs|] == evs;
    forall i | 0 <= i < |evs'| ensures Taken(ss', evs', i) {
      assert i < |evs| ==> Taken(ss, evs, i);
    }
  }

  /** `n` stores of a write, one after the other. */
  lemma {:induction false} WriterRun(ss: seq<State>, evs: seq<Event>, a: AtomicFile, k: nat, bs: seq<Block>, j: nat,
      m: nat) returns (ss': seq<State>, evs': seq<Event>)
    requires Run(ss, evs) && UpTo(ss, m)
    requires var s := ss[|evs|];
             s.commit.Idle? && k in s.blocks && WholeWrite(bs, s.epoch.vol) && j <= 6 && s.blocks[k] == bs[j]
    ensures Run(ss', evs') && ss'[0] == ss[0] && UpTo(ss', m) && evs' == evs + seq(6 - j, i => Internal)
    ensures ss'[|evs'|] == ss[|evs|].(blocks := ss[|evs|].blocks[k := bs[6]]) && Replay(a, evs') == Replay(a, evs)
    decreases 6 - j
  {
    ss', evs' := ss, evs;
    if j < 6 {
      assert Follows(bs, ss[|evs|].epoch.vol, j);
      ss', evs' := Extend(ss, evs, a, k, Internal, bs[j + 1]);
      UpToNext(ss, ss', m);
      ss', evs' := WriterRun(ss', evs', a, k, bs, j + 1, m);
    }
  }

  function WriteEvents(k: nat, lo: nat, data: seq<byte>): seq<Event> {
    [Began(k, lo, data)] + seq(6, i => Internal) + [Wrote(k, lo, data)]
  }

  /** A run may go on with a whole write. */
  lemma {:induction false} WriteRun(ss: seq<State>, evs: seq<Event>, a: AtomicFile, k: nat, lo: nat, data: seq<byte>,
      m: nat)
      returns (ss': seq<State>, evs': seq<Event>)
    requires Run(ss, evs) && UpTo(ss, m)
    requires var s := ss[|evs|]; s.commit.Idle? && k in s.blocks && Open(s.blocks[k], lo, data)
    ensures Run(ss', evs') && ss'[0] == ss[0] && UpTo(ss', m) && evs' == evs + WriteEvents(k, lo, data)
    ensures Replay(a, evs') == Apply(Replay(a, evs), Wrote(k, lo, data))
    ensures var s, s' := ss[|evs|], ss'[|evs'|];
            && k in s'.blocks && s' == s.(blocks := s.blocks[k := s'.blocks[k]])
            && Written(s.blocks[k], s.epoch.vol, lo, data, s'.blocks[k])
  {
    var s := ss[|evs|];
    var b := s.blocks[k];
    var bs, b' := WrittenBlock(b, s.epoch.vol, lo, data);
    ss', evs' := StoresRun(ss, evs, a, k, lo, data, bs, m);
    ss', evs' := Extend(ss', evs', a, k, Wrote(k, lo, data), b');
    assert ss'[|evs'|].blocks == s.blocks[k := b'];
  }

  lemma {:induction false} StoresRun(ss: seq<State>, evs: seq<Event>, a: AtomicFile, k: nat, lo: nat, data: seq<byte>,
      bs: seq<Block>, m: nat)
      returns (ss': seq<State>, evs': seq<Event>)
    requires Run(ss, evs) && UpTo(ss, m)
    requires var s := ss[|evs|];
             && s.commit.Idle? && k in s.blocks && Open(s.blocks[k], lo, data) && WholeWrite(bs, s.epoch.vol)
             && bs[0] == s.blocks[k].(owner := Writer(Locked, lo, data))
    ensures Run(ss', evs') && ss'[0] == ss[0] && UpTo(ss', m)
            && evs' == evs + [Began(k, lo, data)] + seq(6, i => Internal)
    ensures Replay(a, evs') == Replay(a, evs) && ss'[|evs'|] == ss[|evs|].(blocks := ss[|evs|].blocks[k := bs[6]])
  {
    var s := ss[|evs|];
    ss', evs' := Extend(ss, evs, a, k, Began(k, lo, data), bs[0]);
    ss', evs' := WriterRun(ss', evs', a, k, bs, 0, m);
    assert ss'[|evs'|].blocks == s.blocks[k := bs[6]];
  }

  lemma WrittenBlock(b: Block, e: nat, lo: nat, data: seq<byte>) returns (bs: seq<Block>, b': Block)
    requires Open(b, lo, data)
    ensures WholeWrite(bs, e) && bs[0] == b.(owner := Writer(Locked, lo, data))
    ensures bs[6].owner == Writer(FileStored, lo, data) && b' == Ordered(bs[6]).(owner := Nobody)
            && Written(b, e, lo, data, b')
  {
    bs := StepsWrite(b, e, lo, data);
    b' := Ordered(bs[6]).(owner := Nobody);
    SettledVols(bs[6].file);
    SettledVols(bs[6].entry.value.log);
  }

  lemma SettledVols(r: Region)
    ensures Settled(Fence(r), Vols(r))
  {
  }

  /** `b'` is what a whole write leaves of `b`, all of it durable. */
  ghost predicate Written(b: Block, e: nat, lo: nat, data: seq<byte>, b': Block)
    requires Open(b, lo, data)
  {
    var file, log, w := Vols(b.file), Vols(b.entry.value.log), Renewed(b.entry.value.word.vol, e);
    && b'.owner.Nobody? && b'.entry.Some? && |b'.entry.value.log| == |b'.file| == |b.file|
    && Settled(b'.file, WriteFile(file, lo, data)) && Settled(b'.entry.value.log, WriteLog(file, log, w, lo, |data|))
    && b'.entry.value.word == Cell(WriteWord(w, lo, |data|, |file|), {WriteWord(w, lo, |data|, |file|)})
  }

  /** Before the write: the log of the current epoch restores the committed content, and the file has the current
      one. */
  lemma QuietRestores(b: Block, e: nat, a: AtomicBlock)
    requires BlockInv(b, e, a) && b.owner.Nobody? && b.entry.Some?
    ensures Vols(b.file) == a.cur && InBlock(b.entry.value.word.vol, |b.file|) && |a.com| == |a.cur|
    ensures if b.entry.value.word.vol.epoch < e then a.cur == a.com
            else View(a.cur, Vols(b.entry.value.log), b.entry.value.word.vol) == a.com
  {
  }

  lemma WrittenRecovers(b: Block, e: nat, a: AtomicBlock, lo: nat, data: seq<byte>, b': Block)
    requires BlockInv(b, e, a) && Open(b, lo, data) && e < EPOCHS && Written(b, e, lo, data, b')
             && !Untouched(a, lo, |data|)
    ensures RecoverBlock(UNDO, e, Intact(b')) != a.com
  {
    QuietRestores(b, e, a);
    var i :| 0 <= i < |a.cur| && Within(i, lo, |data|) && a.cur[i] != a.com[i];
    RewrittenLost(b, e, a.cur, a.com, lo, data, b', i);
  }

  lemma RewrittenLost(b: Block, e: nat, cur: seq<byte>, com: seq<byte>, lo: nat, data: seq<byte>, b': Block, i: nat)
    requires Open(b, lo, data) && Written(b, e, lo, data, b') && Vols(b.file) == cur && |com| == |cur|
    requires b.entry.value.word.vol.epoch == e && View(cur, Vols(b.entry.value.log), b.entry.value.word.vol) == com
    requires i < |cur| && Within(i, lo, |data|) && cur[i] != com[i]
    ensures RecoverBlock(UNDO, e, Intact(b')) != com
  {
    var log, w := Vols(b.entry.value.log), b.entry.value.word.vol;
    RewriteBreaks(cur, log, w, lo, data, i);
    IntactSettled(b', WriteFile(cur, lo, data), WriteLog(cur, log, w, lo, |data|));
  }

  lemma RewriteBreaks(file: seq<byte>, log: seq<byte>, w: Word, lo: nat, data: seq<byte>, i: nat)
    requires |log| == |file| && InBlock(w, |file|) && 0 < |data| && lo + |data| <= |file|
    requires lo <= i < lo + |data| && file[i] != View(file, log, w)[i]
    ensures View(WriteFile(file, lo, data), WriteLog(file, log, w, lo, |data|), WriteWord(w, lo, |data|, |file|)) !=
            View(file, log, w)
  {
    RewriteExact(file, log, w, lo, data);
    SlicesDiffer(file, View(file, log, w), lo, |data|, i);
  }

  lemma SlicesDiffer(s: seq<byte>, s': seq<byte>, lo: nat, n: nat, i: nat)
    requires lo <= i < lo + n <= |s| == |s'| && s[i] != s'[i]
    ensures s[lo..lo + n] != s'[lo..lo + n]
  {
    assert s[lo..lo + n][i - lo] != s'[lo..lo + n][i - lo];
  }

  lemma FreshPrefix(a: AtomicFile, evs: seq<Event>, more: seq<Event>, i: nat)
    requires i < |evs| && BeginsFresh(a, evs, i)
    ensures BeginsFresh(a, evs + more, i)
  {
    assert (evs + more)[..i] == evs[..i];
  }

  lemma {:induction false} FreshNext(a: AtomicFile, evs: seq<Event>, more: seq<Event>)
    requires more != []
    requires more[0].Began? && more[0].k in Replay(a, evs) ==>
             Untouched(Replay(a, evs)[more[0].k], more[0].lo, |more[0].data|)
    ensures BeginsFresh(a, evs + more, |evs|)
  {
    assert (evs + more)[..|evs|] == evs;
  }

  /** What follows has no beginning but its first event. */
  lemma {:induction false} NoRewritesMore(a: AtomicFile, evs: seq<Event>, more: seq<Event>)
    requires NoRewrites(a, evs) && more != [] && forall i :: 0 < i < |more| ==> !more[i].Began?
    requires more[0].Began? && more[0].k in Replay(a, evs) ==>
             Untouched(Replay(a, evs)[more[0].k], more[0].lo, |more[0].data|)
    ensures NoRewrites(a, evs + more)
  {
    FreshNext(a, evs, more);
    forall i | 0 <= i < |evs + more| ensures BeginsFresh(a, evs + more, i) {
      if i < |evs| {
        FreshPrefix(a, evs, more, i);
      } else if i > |evs| {
        assert (evs + more)[i] == more[i - |evs|];
      }
    }
  }

  /** After any run without rewrites, let a write follow.  Then every crash after it recovers the committed content if
      and only if the bytes it overwrites held their committed values. */
  lemma {:induction false} RunRewriteExact(ss: seq<State>, evs: seq<Event>, a: AtomicFile, k: nat, lo: nat,
      data: seq<byte>)
      returns (ss': seq<State>, evs': seq<Event>)
    requires Run(ss, evs) && Init(ss[0], a) && NoRewrites(a, evs) && UpTo(ss, EPOCHS - 1)
    requires var s := ss[|evs|]; s.commit.Idle? && k in s.blocks && Open(s.blocks[k], lo, data)
    ensures Run(ss', evs') && ss'[0] == ss[0] && evs' == evs + WriteEvents(k, lo, data)
    ensures k in Replay(a, evs)
    ensures AlwaysRecovers(UNDO, ss'[|evs'|], Replay(a, evs')) <==> Untouched(Replay(a, evs)[k], lo, |data|)
  {
    EndKeeps(ss, evs, a);
    ss', evs' := WriteRun(ss, evs, a, k, lo, data, EPOCHS - 1);
    if Untouched(Replay(a, evs)[k], lo, |data|) {
      NoRewritesMore(a, evs, WriteEvents(k, lo, data));
      RunRecovers(ss', evs', a);
    } else {
      EndPossible(ss', evs', a);
      RewriteLoses(ss[|evs|], Replay(a, evs), k, lo, data, ss'[|evs'|]);
    }
  }

  lemma {:induction false} EndKeeps(ss: seq<State>, evs: seq<Event>, a: AtomicFile)
    requires Run(ss, evs) && Init(ss[0], a) && NoRewrites(a, evs) && UpTo(ss, EPOCHS - 1)
    ensures Inv(ss[|evs|], Replay(a, evs)) && ss[|evs|].epoch.vol < EPOCHS
  {
    RunKeeps(ss, evs, a, |evs|);
    assert evs[..|evs|] == evs;
  }

  lemma EndPossible(ss: seq<State>, evs: seq<Event>, a: AtomicFile)
    requires Run(ss, evs) && Init(ss[0], a)
    ensures forall k :: k in ss[|evs|].blocks ==> PossibleBlock(ss[|evs|].blocks[k])
  {
    RunPossible(ss, evs, a, |evs|);
  }

  lemma RewriteLoses(s: State, now: AtomicFile, k: nat, lo: nat, data: seq<byte>, s': State)
    requires Inv(s, now) && s.commit.Idle? && s.epoch.vol < EPOCHS && k in s.blocks && Open(s.blocks[k], lo, data)
    requires k in s'.blocks && s' == s.(blocks := s.blocks[k := s'.blocks[k]])
    requires Written(s.blocks[k], s.epoch.vol, lo, data, s'.blocks[k]) && !Untouched(now[k], lo, |data|)
    requires forall j :: j in s'.blocks ==> PossibleBlock(s'.blocks[j])
    ensures !AlwaysRecovers(UNDO, s', Apply(now, Wrote(k, lo, data)))
  {
    WrittenRecovers(s.blocks[k], s.epoch.vol, now[k], lo, data, s'.blocks[k]);
    LostAtEnd(UNDO, s', Apply(now, Wrote(k, lo, data)), k);
  }

  lemma {:induction false} RunRecovers(ss: seq<State>, evs: seq<Event>, a: AtomicFile)
    requires Run(ss, evs) && Init(ss[0], a) && NoRewrites(a, evs) && UpTo(ss, EPOCHS - 1)
    ensures AlwaysRecovers(UNDO, ss[|evs|], Replay(a, evs))
  {
    forall im | Crash(ss[|evs|], im) ensures Recover(UNDO, im) == Expected(ss[|evs|], Replay(a, evs), im) {
      CrashAtomicity(ss, evs, a, im);
    }
  }

  // ----- issue order

  /** Log, gap and word of a write, stored one after the other with nothing durable in between. */
  ghost function Unordered(b: Block): Block
    requires Runnable(b) && InBlock(b.entry.value.word.vol, |b.file|)
  {
    var lo, n, w, file := b.owner.lo, |b.owner.data|, b.entry.value.word.vol, Vols(b.file);
    var p := Merge(w.off, w.len, lo, n, |b.file|);
    var logged := StoreLog(StoreLog(b, lo, file[lo..lo + n]), p.gapAt, file[p.gapAt..p.gapAt + p.gapLen]);
    PutWord(logged, Word(w.epoch, p.off, p.len, UNDO))
  }

  /** The bytes that the write adds to the logged range. */
  ghost predicate Added(w: Word, lo: nat, n: nat, size: nat, i: int)
    requires InBlock(w, size) && 0 < n && lo + n <= size
  {
    var p := Merge(w.off, w.len, lo, n, size);
    Within(i, p.off, p.len) && !Covers(w, i)
  }

  ghost predicate BlockRecovers(b: Block, e: nat, com: seq<byte>) {
    forall im :: BlockCrash(b, im) ==> RecoverBlock(UNDO, e, im) == com
  }

  /** Without issue order the entry word may become durable before the log bytes it covers.  Then every crash recovers
      if and only if the log, before the write, happened to have the committed bytes where the write adds to it. */
  lemma NeedsIssueOrder(b: Block, e: nat, a: AtomicBlock)
    requires BlockInv(b, e, a) && b.owner.Writer? && b.owner.pc.Ready?
    requires Settled(b.entry.value.log, Vols(b.entry.value.log))
    ensures Runnable(b) && InBlock(b.entry.value.word.vol, |b.file|)
    ensures BlockRecovers(Unordered(b), e, a.com) <==>
            forall i :: 0 <= i < |b.file| && Added(b.entry.value.word.vol, b.owner.lo, |b.owner.data|, |b.file|, i) ==>
              b.entry.value.log[i].vol == a.com[i]
  {
    var w, lo, n := b.entry.value.word.vol, b.owner.lo, |b.owner.data|;
    var p := Merge(w.off, w.len, lo, n, |b.file|);
    assert Runnable(b);
    if i :| 0 <= i < |b.file| && Added(w, lo, n, |b.file|, i) && b.entry.value.log[i].vol != a.com[i] {
      WordFirst(b, e, a, p, i);
    } else {
      forall im | BlockCrash(Unordered(b), im) ensures RecoverBlock(UNDO, e, im) == a.com {
        AnyOrder(b, e, a, p, im);
      }
    }
  }

  /** The crash that leaves the new word and the old log. */
  lemma WordFirst(b: Block, e: nat, a: AtomicBlock, p: Plan, i: nat)
    requires BlockInv(b, e, a) && b.owner.Writer? && b.owner.pc.Ready? && Runnable(b)
             && InBlock(b.entry.value.word.vol, |b.file|)
    requires p == Merge(b.entry.value.word.vol.off, b.entry.value.word.vol.len, b.owner.lo, |b.owner.data|, |b.file|)
    requires Settled(b.entry.value.log, Vols(b.entry.value.log))
    requires i < |b.file| && Within(i, p.off, p.len) && b.entry.value.log[i].vol != a.com[i]
    ensures !BlockRecovers(Unordered(b), e, a.com)
  {
    var w := Word(e, p.off, p.len, UNDO);
    var im := BlockImage(a.cur, Some(EntryImage(w, Vols(b.entry.value.log))));
    WordFirstLeft(b, p, a.cur, w);
    assert RecoverBlock(UNDO, e, im)[i] == b.entry.value.log[i].vol;
  }

  lemma WordFirstLeft(b: Block, p: Plan, cur: seq<byte>, w: Word)
    requires Runnable(b) && InBlock(b.entry.value.word.vol, |b.file|) && Settled(b.file, cur)
    requires p == Merge(b.entry.value.word.vol.off, b.entry.value.word.vol.len, b.owner.lo, |b.owner.data|, |b.file|)
    requires Settled(b.entry.value.log, Vols(b.entry.value.log))
             && w == Word(b.entry.value.word.vol.epoch, p.off, p.len, UNDO)
    ensures BlockCrash(Unordered(b), BlockImage(cur, Some(EntryImage(w, Vols(b.entry.value.log)))))
  {
    var log := b.entry.value.log;
    forall i | 0 <= i < |log| ensures Vols(log)[i] in Unordered(b).entry.value.log[i].may {
      UnorderedLog(b, p, i);
      assert log[i].vol in log[i].may;
    }
  }

  lemma AnyOrder(b: Block, e: nat, a: AtomicBlock, p: Plan, im: BlockImage)
    requires BlockInv(b, e, a) && b.owner.Writer? && b.owner.pc.Ready? && Runnable(b)
             && InBlock(b.entry.value.word.vol, |b.file|)
    requires p == Merge(b.entry.value.word.vol.off, b.entry.value.word.vol.len, b.owner.lo, |b.owner.data|, |b.file|)
    requires Settled(b.entry.value.log, Vols(b.entry.value.log)) && BlockCrash(Unordered(b), im)
    requires forall i :: 0 <= i < |b.file| && Within(i, p.off, p.len) && !Covers(b.entry.value.word.vol, i) ==>
               b.entry.value.log[i].vol == a.com[i]
    ensures RecoverBlock(UNDO, e, im) == a.com
  {
    var w, v, r := b.entry.value.word.vol, im.entry.value.word, RecoverBlock(UNDO, e, im);
    forall i | 0 <= i < |b.file| ensures r[i] == a.com[i] {
      UnorderedCell(b, e, a, p, i);
      assert im.file[i] in b.file[i].may && im.entry.value.log[i] in Unordered(b).entry.value.log[i].may;
      assert Safe(w, b, b.entry.value, e, a.com);
      assert v in b.entry.value.word.may ==> Safe(v, b, b.entry.value, e, a.com);
      assert Covers(w, i) ==> Within(i, p.off, p.len);
    }
  }

  lemma UnorderedCell(b: Block, e: nat, a: AtomicBlock, p: Plan, i: nat)
    requires BlockInv(b, e, a) && b.owner.Writer? && b.owner.pc.Ready? && Runnable(b)
             && InBlock(b.entry.value.word.vol, |b.file|)
    requires p == Merge(b.entry.value.word.vol.off, b.entry.value.word.vol.len, b.owner.lo, |b.owner.data|, |b.file|)
    requires i < |b.file|
    ensures Unordered(b).entry.value.log[i].may <= b.entry.value.log[i].may + {a.com[i]}
    ensures Unordered(b).entry.value.word.may == b.entry.value.word.may + {Word(e, p.off, p.len, UNDO)}
  {
    var w, lo, n, file := b.entry.value.word.vol, b.owner.lo, |b.owner.data|, Vols(b.file);
    assert file == a.cur;
    assert Within(i, lo, n) ==> a.cur[i] == a.com[i];
    assert Within(i, p.gapAt, p.gapLen) ==> !Covers(w, i);
    UnorderedLog(b, p, i);
  }

  lemma UnorderedLog(b: Block, p: Plan, i: nat)
    requires Runnable(b) && InBlock(b.entry.value.word.vol, |b.file|) && i < |b.file|
    requires p == Merge(b.entry.value.word.vol.off, b.entry.value.word.vol.len, b.owner.lo, |b.owner.data|, |b.file|)
    ensures b.entry.value.log[i].may <= Unordered(b).entry.value.log[i].may <=
            b.entry.value.log[i].may
            + if Within(i, b.owner.lo, |b.owner.data|) || Within(i, p.gapAt, p.gapLen) then {b.file[i].vol} else {}
  {
    var lo, n, file := b.owner.lo, |b.owner.data|, Vols(b.file);
    StoredCell(b.entry.value.log, lo, file, n, i);
    var r := Store(b.entry.value.log, lo, file[lo..lo + n]);
    StoredCell(r, p.gapAt, file, p.gapLen, i);
    assert Unordered(b).entry.value.log == Store(r, p.gapAt, file[p.gapAt..p.gapAt + p.gapLen]);
  }

  lemma StoredCell(r: Region, at: nat, file: seq<byte>, n: nat, i: nat)
    requires at + n <= |r| == |file| && i < |r|
    ensures Store(r, at, file[at..at + n])[i].may == r[i].may + if Within(i, at, n) then {file[i]} else {}
  {
  }

  // ----- whole-word updates

  /** Suppose the reset of an old entry reached persistence field by field, the epoch first as the code assigns them
      (src/mmio.c:258-261).  Then every crash recovers if and only if the old log happened to have the committed
      bytes. */
  lemma NeedsWholeWord(b: Block, e: nat, a: AtomicBlock)
    requires BlockInv(b, e, a) && b.owner.Writer? && b.owner.pc.Locked? && b.entry.value.word.vol.epoch < e
    requires Settled(b.entry.value.log, Vols(b.entry.value.log))
    ensures BlockRecovers(PutWord(b, b.entry.value.word.vol.(epoch := e)), e, a.com) <==>
            forall i :: 0 <= i < |b.file| && Covers(b.entry.value.word.vol, i) ==> b.entry.value.log[i].vol == a.com[i]
  {
    var w := b.entry.value.word.vol.(epoch := e);
    if i :| 0 <= i < |b.file| && Covers(b.entry.value.word.vol, i) && b.entry.value.log[i].vol != a.com[i] {
      OldLogRevives(b, e, a, i);
    } else {
      forall im | BlockCrash(PutWord(b, w), im) ensures RecoverBlock(UNDO, e, im) == a.com {
        OldLogRestores(b, e, a, im);
      }
    }
  }

  lemma OldLogRevives(b: Block, e: nat, a: AtomicBlock, i: nat)
    requires BlockInv(b, e, a) && b.owner.Writer? && b.owner.pc.Locked? && b.entry.value.word.vol.epoch < e
    requires Settled(b.entry.value.log, Vols(b.entry.value.log))
    requires i < |b.file| && Covers(b.entry.value.word.vol, i) && b.entry.value.log[i].vol != a.com[i]
    ensures !BlockRecovers(PutWord(b, b.entry.value.word.vol.(epoch := e)), e, a.com)
  {
    var w := b.entry.value.word.vol.(epoch := e);
    var im := BlockImage(a.cur, Some(EntryImage(w, Vols(b.entry.value.log))));
    assert BlockCrash(PutWord(b, w), im);
    assert RecoverBlock(UNDO, e, im)[i] == b.entry.value.log[i].vol;
  }

  lemma OldLogRestores(b: Block, e: nat, a: AtomicBlock, im: BlockImage)
    requires BlockInv(b, e, a) && b.owner.Writer? && b.owner.pc.Locked? && b.entry.value.word.vol.epoch < e
    requires Settled(b.entry.value.log, Vols(b.entry.value.log))
    requires forall i :: 0 <= i < |b.file| && Covers(b.entry.value.word.vol, i) ==> b.entry.value.log[i].vol == a.com[i]
    requires BlockCrash(PutWord(b, b.entry.value.word.vol.(epoch := e)), im)
    ensures RecoverBlock(UNDO, e, im) == a.com
  {
    var w, v, r := b.entry.value.word.vol.(epoch := e), im.entry.value.word, RecoverBlock(UNDO, e, im);
    forall i | 0 <= i < |b.file| ensures r[i] == a.com[i] {
      assert im.file[i] in b.file[i].may && im.entry.value.log[i] in b.entry.value.log[i].may;
      assert v != w ==> Safe(v, b, b.entry.value, e, a.com);
      assert Covers(w, i) == Covers(b.entry.value.word.vol, i);
    }
  }

  // ----- runs that reach the faults

  /** A run may create the entry of a block, with any log. */
  lemma {:induction false} CreateRun(s: State, a: AtomicFile, k: nat, stale: seq<byte>, m: nat)
      returns (ss: seq<State>, evs: seq<Event>)
    requires Init(s, a) && k in a && |stale| == |a[k].cur| && s.epoch.vol <= m
    ensures Run(ss, evs) && ss[0] == s && evs == [Internal] && UpTo(ss, m) && Replay(a, evs) == a && NoRewrites(a, evs)
    ensures var s', now := ss[1], Word(Trunc(s.epoch.vol), 0, 0, UNDO);
            && k in s'.blocks && s' == s.(blocks := s.blocks[k := s'.blocks[k]])
            && s'.blocks[k].owner.Nobody? && s'.blocks[k].file == s.blocks[k].file
            && s'.blocks[k].entry.Some? && Settled(s'.blocks[k].entry.value.log, stale)
            && s'.blocks[k].entry.value.word.vol == now
  {
    var now := Word(Trunc(s.epoch.vol), 0, 0, UNDO);
    var log := seq(|stale|, i requires 0 <= i < |stale| => Cell(stale[i], {stale[i]}));
    var b' := s.blocks[k].(entry := Some(Entry(Cell(now, {Word(0, 0, 0, UNDO), now}), false, log)));
    assert Creates(s.blocks[k], s.epoch.vol, b');
    assert Run([s], []);
    ss, evs := Extend([s], [], a, k, Internal, b');
    assert evs == [Internal];
  }

  /** The loss is reached: from any initial state, two writes of a range in one epoch lose the committed content unless
      the first one stored just that, whatever the second one stores. */
  lemma {:induction false} SecondWriteLosesCommitted(s: State, a: AtomicFile, k: nat, lo: nat, first: seq<byte>,
      second: seq<byte>)
      returns (ss: seq<State>, evs: seq<Event>)
    requires Init(s, a) && k in a && s.epoch.vol < EPOCHS && 0 < |first| == |second| && lo + |first| <= |a[k].cur|
    ensures Run(ss, evs) && ss[0] == s
    ensures evs == [Internal] + WriteEvents(k, lo, first) + WriteEvents(k, lo, second)
    ensures AlwaysRecovers(UNDO, ss[|evs|], Replay(a, evs)) <==> first == a[k].com[lo..lo + |first|]
  {
    ss, evs := CreateRun(s, a, k, a[k].cur, EPOCHS - 1);
    var ss1, evs1 := WriteRun(ss, evs, a, k, lo, first, EPOCHS - 1);
    NoRewritesMore(a, evs, WriteEvents(k, lo, first));
    OpenAgain(ss[|evs|].blocks[k], s.epoch.vol, lo, first, ss1[|evs1|].blocks[k], second);
    ss, evs := RunRewriteExact(ss1, evs1, a, k, lo, second);
    FirstTouches(a[k], lo, first);
  }

  lemma OpenAgain(b: Block, e: nat, lo: nat, data: seq<byte>, b': Block, second: seq<byte>)
    requires Open(b, lo, data) && Written(b, e, lo, data, b') && |second| == |data|
    ensures Open(b', lo, second)
  {
  }

  lemma FirstTouches(b: AtomicBlock, lo: nat, first: seq<byte>)
    requires b.cur == b.com && lo + |first| <= |b.cur|
    ensures Untouched(WriteAtomic(b, lo, first), lo, |first|) <==> first == b.com[lo..lo + |first|]
  {
    var b' := WriteAtomic(b, lo, first);
    if Untouched(b', lo, |first|) {
      forall j | 0 <= j < |first| ensures first[j] == b.com[lo + j] {
        assert Within(lo + j, lo, |first|) && b'.cur[lo + j] == first[j];
      }
    } else {
      var i :| 0 <= i < |b'.cur| && i < |b'.com| && Within(i, lo, |first|) && b'.cur[i] != b'.com[i];
      assert first[i - lo] != b.com[lo..lo + |first|][i - lo];
    }
  }

  /** The hypotheses of NeedsIssueOrder are reached, with any content of the fresh log. */
  lemma {:induction false} FreshLogReached(s: State, a: AtomicFile, k: nat, stale: seq<byte>, lo: nat, data: seq<byte>)
      returns (ss: seq<State>, evs: seq<Event>)
    requires Init(s, a) && k in a && |stale| == |a[k].cur| && s.epoch.vol < EPOCHS && 0 < |data|
             && lo + |data| <= |a[k].cur|
    ensures Run(ss, evs) && ss[0] == s && NoRewrites(a, evs) && UpTo(ss, EPOCHS - 1) && Replay(a, evs) == a
    ensures var s', e := ss[|evs|], s.epoch.vol;
            && k in s'.blocks && BlockInv(s'.blocks[k], e, a[k]) && s'.blocks[k].owner == Writer(Ready, lo, data)
            && s'.blocks[k].entry.Some? && Settled(s'.blocks[k].entry.value.log, stale)
            && s'.blocks[k].entry.value.word.vol == Word(e, 0, 0, UNDO)
  {
    ss, evs := CreateRun(s, a, k, stale, EPOCHS - 1);
    NoRewritesMore(a, evs, [Began(k, lo, data), Internal]);
    ss, evs := ReadyRun(ss, evs, a, k, lo, data, EPOCHS - 1);
    RunKeeps(ss, evs, a, |evs|);
    assert evs[..|evs|] == evs;
  }

  /** A run may go on with the beginning of a write to an entry of the current epoch. */
  lemma {:induction false} ReadyRun(ss: seq<State>, evs: seq<Event>, a: AtomicFile, k: nat, lo: nat, data: seq<byte>,
      m: nat)
      returns (ss': seq<State>, evs': seq<Event>)
    requires Run(ss, evs) && UpTo(ss, m)
    requires var s := ss[|evs|];
             s.commit.Idle? && k in s.blocks && Open(s.blocks[k], lo, data)
               && s.blocks[k].entry.value.word.vol.epoch >= s.epoch.vol
    ensures Run(ss', evs') && ss'[0] == ss[0] && UpTo(ss', m) && evs' == evs + [Began(k, lo, data), Internal]
    ensures Replay(a, evs') == Replay(a, evs)
    ensures ss'[|evs'|] == ss[|evs|].(blocks :=
            ss[|evs|].blocks[k := ss[|evs|].blocks[k].(owner := Writer(Ready, lo, data))])
  {
    var s := ss[|evs|];
    var b := s.blocks[k].(owner := Writer(Locked, lo, data));
    ss', evs' := Extend(ss, evs, a, k, Began(k, lo, data), b);
    ss', evs' := Extend(ss', evs', a, k, Internal, WriterStep(b, s.epoch.vol));
    assert evs' == evs + [Began(k, lo, data), Internal];
    assert s.blocks[k := b][k := WriterStep(b, s.epoch.vol)] == s.blocks[k := WriterStep(b, s.epoch.vol)];
  }

  lemma {:induction false} CommitEvent(ss: seq<State>, evs: seq<Event>, a: AtomicFile, ev: Event, s': State)
      returns (ss': seq<State>, evs': seq<Event>)
    requires Run(ss, evs) && CommitStep(ss[|evs|], ev, s')
    ensures Run(ss', evs') && evs' == evs + [ev] && ss' == ss + [s'] && Replay(a, evs') == Apply(Replay(a, evs), ev)
  {
    ss', evs' := ss + [s'], evs + [ev];
    assert evs'[..|evs|] == evs;
    forall i | 0 <= i < |evs'| ensures Taken(ss', evs', i) {
      assert i < |evs| ==> Taken(ss, evs, i);
    }
  }

  /** A run may go on with a commit. */
  lemma {:induction false} CommitRun(ss: seq<State>, evs: seq<Event>, a: AtomicFile, m: nat)
      returns (ss': seq<State>, evs': seq<Event>)
    requires Run(ss, evs) && UpTo(ss, m) && ss[|evs|].epoch.vol + 1 <= m
    requires var s := ss[|evs|]; s.commit.Idle? && forall k :: k in s.blocks ==> s.blocks[k].owner.Nobody?
    ensures Run(ss', evs') && ss'[0] == ss[0] && UpTo(ss', m) && evs' == evs + [Internal, Internal, Committed]
    ensures Replay(a, evs') == Apply(Replay(a, evs), Committed)
    ensures ss'[|evs'|] == ss[|evs|].(epoch := Cell(ss[|evs|].epoch.vol + 1, {ss[|evs|].epoch.vol + 1}))
  {
    var s := ss[|evs|];
    var s1 := s.(commit := Exclusive);
    var s2 := s1.(epoch := Put(s.epoch, s.epoch.vol + 1), commit := Bumped);
    var s3 := s2.(epoch := Drain(s2.epoch), commit := Idle);
    assert CommitStep(s, Internal, s1) && CommitStep(s1, Internal, s2) && CommitStep(s2, Committed, s3);
    ss', evs' := CommitEvent(ss, evs, a, Internal, s1);
    ss', evs' := CommitEvent(ss', evs', a, Internal, s2);
    ss', evs' := CommitEvent(ss', evs', a, Committed, s3);
    assert evs' == evs + [Internal] + [Internal] + [Committed];
  }

  /** A run that creates an entry, writes and commits. */
  lemma {:induction false} CommittedRun(s: State, a: AtomicFile, k: nat, lo: nat, first: seq<byte>)
      returns (ss: seq<State>, evs: seq<Event>)
    requires Init(s, a) && k in a && s.epoch.vol + 1 < EPOCHS && 0 < |first| && lo + |first| <= |a[k].cur|
    ensures Run(ss, evs) && ss[0] == s && NoRewrites(a, evs) && UpTo(ss, EPOCHS - 1)
    ensures Replay(a, evs) == Apply(Apply(a, Wrote(k, lo, first)), Committed)
    ensures var s', e := ss[|evs|], s.epoch.vol;
            && s'.commit.Idle? && s'.epoch.vol == e + 1 && k in s'.blocks && Open(s'.blocks[k], lo, first)
            && Settled(s'.blocks[k].entry.value.log, a[k].com)
            && s'.blocks[k].entry.value.word.vol == Word(e, lo, |first|, UNDO)
  {
    ss, evs := CreateRun(s, a, k, a[k].cur, EPOCHS - 1);
    var b := ss[|evs|].blocks[k];
    NoRewritesMore(a, evs, WriteEvents(k, lo, first));
    ss, evs := WriteRun(ss, evs, a, k, lo, first, EPOCHS - 1);
    FirstLogged(b, s.epoch.vol, a[k].cur, lo, first, ss[|evs|].blocks[k]);
    NoRewritesMore(a, evs, [Internal, Internal, Committed]);
    ss, evs := CommitRun(ss, evs, a, EPOCHS - 1);
  }

  /** The hypotheses of NeedsWholeWord are reached: after a write and a commit the log has what was committed before,
      so it differs from the committed content wherever the write changed anything. */
  lemma {:induction false} OldLogReached(s: State, a: AtomicFile, k: nat, lo: nat, first: seq<byte>, second: seq<byte>)
      returns (ss: seq<State>, evs: seq<Event>)
    requires Init(s, a) && k in a && s.epoch.vol + 1 < EPOCHS && 0 < |first| == |second| && lo + |first| <= |a[k].cur|
    ensures Run(ss, evs) && ss[0] == s && NoRewrites(a, evs) && UpTo(ss, EPOCHS - 1)
    ensures var s', now := ss[|evs|], Replay(a, evs);
            && k in s'.blocks && k in now && now[k].com == Splice(a[k].com, lo, first)
            && BlockInv(s'.blocks[k], s.epoch.vol + 1, now[k]) && s'.blocks[k].owner == Writer(Locked, lo, second)
            && s'.blocks[k].entry.Some? && s'.blocks[k].entry.value.word.vol == Word(s.epoch.vol, lo, |first|, UNDO)
            && Settled(s'.blocks[k].entry.value.log, a[k].com)
  {
    ss, evs := CommittedRun(s, a, k, lo, first);
    NoRewritesMore(a, evs, [Began(k, lo, second)]);
    ss, evs := Extend(ss, evs, a, k, Began(k, lo, second), ss[|evs|].blocks[k].(owner := Writer(Locked, lo, second)));
    RunKeeps(ss, evs, a, |evs|);
    assert evs[..|evs|] == evs;
  }

  lemma FirstLogged(b: Block, e: nat, com: seq<byte>, lo: nat, first: seq<byte>, b': Block)
    requires Open(b, lo, first) && Written(b, e, lo, first, b') && e < EPOCHS
    requires Settled(b.file, com) && Settled(b.entry.value.log, com) && b.entry.value.word.vol == Word(e, 0, 0, UNDO)
    ensures Open(b', lo, first) && Settled(b'.entry.value.log, com)
            && b'.entry.value.word.vol == Word(e, lo, |first|, UNDO)
  {
    assert Vols(b.file) == com && Vols(b.entry.value.log) == com;
    assert WriteLog(com, com, Word(e, 0, 0, UNDO), lo, |first|) == com;
  }

  // ----- the width of the epoch

  /** Every crash recovers in every run from `s` that commits nothing and rewrites nothing. */
  ghost predicate EpochRecovers(s: State, a: AtomicFile) {
    forall ss: seq<State>, evs: seq<Event> ::
      Run(ss, evs) && ss[0] == s && UpTo(ss, s.epoch.vol) && NoRewrites(a, evs) ==>
        AlwaysRecovers(UNDO, ss[|evs|], Replay(a, evs))
  }

  /** An epoch that the entry word cannot hold: the entry never looks like one of this epoch, and no write can be
      undone. */
  lemma WideWriteStays(b: Block, e: nat, a: AtomicBlock, lo: nat, data: seq<byte>, b': Block)
    requires Open(b, lo, data) && Written(b, e, lo, data, b') && e >= EPOCHS
    requires Settled(b.file, a.com) && b.entry.value.word.vol.epoch < e && data != a.com[lo..lo + |data|]
    ensures RecoverBlock(UNDO, e, Intact(b')) != a.com
  {
    var file, log, w := Vols(b.file), Vols(b.entry.value.log), Renewed(b.entry.value.word.vol, e);
    assert file == a.com;
    IntactSettled(b', WriteFile(file, lo, data), WriteLog(file, log, w, lo, |data|));
    assert WriteFile(file, lo, data)[lo..lo + |data|] == data;
  }

  /** From any idle file in such an epoch, one write that changes anything is lost to recovery. */
  lemma {:induction false} WideWriteLoses(s: State, a: AtomicFile, k: nat, lo: nat, data: seq<byte>)
      returns (ss: seq<State>, evs: seq<Event>)
    requires Init(s, a) && k in a && s.epoch.vol >= EPOCHS && lo + |data| <= |a[k].cur|
    requires data != a[k].com[lo..lo + |data|]
    ensures Run(ss, evs) && ss[0] == s && UpTo(ss, s.epoch.vol) && NoRewrites(a, evs)
    ensures evs == [Internal] + WriteEvents(k, lo, data) && !AlwaysRecovers(UNDO, ss[|evs|], Replay(a, evs))
  {
    ss, evs := CreateRun(s, a, k, a[k].cur, s.epoch.vol);
    var b := ss[|evs|].blocks[k];
    NoRewritesMore(a, evs, WriteEvents(k, lo, data));
    ss, evs := WriteRun(ss, evs, a, k, lo, data, s.epoch.vol);
    WideWriteStays(b, s.epoch.vol, a[k], lo, data, ss[|evs|].blocks[k]);
    EndPossible(ss, evs, a);
    LostAtEnd(UNDO, ss[|evs|], Apply(a, Wrote(k, lo, data)), k);
  }

  /** From an idle file with a byte in it, all crashes within the epoch recover if and only if the word can hold the
      epoch. */
  lemma EpochExact(s: State, a: AtomicFile, k: nat)
    requires Init(s, a) && k in a && |a[k].cur| > 0
    ensures EpochRecovers(s, a) <==> s.epoch.vol < EPOCHS
  {
    if s.epoch.vol < EPOCHS {
      forall ss: seq<State>, evs: seq<Event>
        | Run(ss, evs) && ss[0] == s && UpTo(ss, s.epoch.vol) && NoRewrites(a, evs)
        ensures AlwaysRecovers(UNDO, ss[|evs|], Replay(a, evs))
      {
        RunRecovers(ss, evs, a);
      }
    } else {
      var other: byte := if a[k].com[0] == 0 then 1 else 0;
      assert [other][0] != a[k].com[0..1][0];
      var ss, evs := WideWriteLoses(s, a, k, 0, [other]);
    }
  }
}
