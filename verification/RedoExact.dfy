/** REDO logging in an epoch that the 20 bits of the entry word cannot hold, exactly; and that a run of the REDO steps
    never has a thread read what a crash could not leave. */
module RedoExact {
  import opened Pmem
  import opened BlockLog
  import opened LogSystem
  import opened Options
  import opened RedoCrash

  // ----- what a thread reads, a crash may leave

  lemma WriterPossible(b: Block, e: nat)
    requires PossibleBlock(b) && Runnable(b)
    ensures PossibleBlock(WriterStep(b, e))
  {
  }

  lemma StepPossible(k: nat, b: Block, e: nat, ev: Event, b': Block)
    requires PossibleBlock(b) && BlockStep(k, b, e, ev, b')
    ensures PossibleBlock(b')
  {
    if ev.Internal? && Runnable(b) && b' == WriterStep(b, e) {
      WriterPossible(b, e);
    }
  }

  /** What a running thread reads, a crash may leave, in every state of every run. */
  lemma {:induction false} RunPossible(ss: seq<State>, evs: seq<Event>, a: AtomicFile, n: nat)
    requires Run(ss, evs) && Init(ss[0], a) && n < |ss|
    ensures forall k :: k in ss[n].blocks ==> PossibleBlock(ss[n].blocks[k])
  {
    if n > 0 {
      RunPossible(ss, evs, a, n - 1);
      var s, ev, s' := ss[n - 1], evs[n - 1], ss[n];
      StepAt(ss, evs, n - 1);
      if k :| k in s.blocks && OnBlock(k, s, ev, s') {
        StepPossible(k, s.blocks[k], s.epoch.vol, ev, s'.blocks[k]);
      }
    }
  }

  // ----- a write in an epoch too wide for the word

  /** Stores, flushes and fences left of a write to an entry with nothing logged. */
  function StepsLeft(pc: WriterPc): int {
    match pc
    case Locked => 14
    case Copied => 13
    case Reset(k) => 13 - k
    case ResetFlushed => 8
    case Ready => 7
    case LogStored => 6
    case GapStored(_, _) => 5
    case OffSet(_) => 4
    case LenSet => 3
    case PolicySet => 2
    case Flushed => 1
    case _ => 0
  }

  /** The fields of the word at each of these points: the epoch is truncated, the range is that of the write once it
      has been recorded. */
  ghost predicate WordAt(pc: WriterPc, w: Word, e: nat, lo: nat, n: nat) {
    && w.epoch == Trunc(e)
    && match pc
       case Locked => w.off == w.len == 0 && w.policy == UNDO
       case Copied => w.off == w.len == 0
       case Reset(k) => 1 <= k <= 4 && w.off == w.len == 0
       case ResetFlushed => w.off == w.len == 0
       case Ready => w.off == w.len == 0
       case LogStored => w.off == w.len == 0
       case GapStored(off, len) => off == lo && len == n
       case OffSet(len) => w.off == lo && len == n
       case LenSet => w.off == lo && w.len == n
       case PolicySet => w.off == lo && w.len == n
       case Flushed => w.off == lo && w.len == n
       case Fenced => w.off == lo && w.len == n
       case _ => false
  }

  /** A write at any of these points: the file is as committed, the new data is in the log once it is stored. */
  ghost predicate Writing(b: Block, e: nat, com: seq<byte>, lo: nat, data: seq<byte>) {
    && b.owner.Writer? && b.owner.lo == lo && b.owner.data == data && |data| > 0 && lo + |data| <= |com|
    && b.entry.Some? && |b.entry.value.log| == |b.file| && Vols(b.file) == com
    && WordAt(b.owner.pc, b.entry.value.word.vol, e, lo, |data|)
    && (StepsLeft(b.owner.pc) < 7 ==> Vols(b.entry.value.log)[lo..lo + |data|] == data)
  }

  lemma WritingNext(b: Block, e: nat, com: seq<byte>, lo: nat, data: seq<byte>)
    requires Writing(b, e, com, lo, data) && e >= EPOCHS && !b.owner.pc.Fenced?
    ensures Runnable(b) && Writing(WriterStep(b, e), e, com, lo, data)
    ensures StepsLeft(WriterStep(b, e).owner.pc) == StepsLeft(b.owner.pc) - 1
  {
    if StepsLeft(b.owner.pc) > 7 {
      RenewingNext(b, e, com, lo, data);
    } else {
      LoggingNext(b, e, com, lo, data);
    }
  }

  /** The entry is reset. */
  lemma RenewingNext(b: Block, e: nat, com: seq<byte>, lo: nat, data: seq<byte>)
    requires Writing(b, e, com, lo, data) && e >= EPOCHS && StepsLeft(b.owner.pc) > 7
    ensures Runnable(b) && Writing(WriterStep(b, e), e, com, lo, data)
    ensures StepsLeft(WriterStep(b, e).owner.pc) == StepsLeft(b.owner.pc) - 1
  {
    FencedVols(b.file);
    FencedVols(b.entry.value.log);
  }

  /** The data and its range are logged. */
  lemma LoggingNext(b: Block, e: nat, com: seq<byte>, lo: nat, data: seq<byte>)
    requires Writing(b, e, com, lo, data) && e >= EPOCHS && StepsLeft(b.owner.pc) <= 7 && !b.owner.pc.Fenced?
    ensures Runnable(b) && Writing(WriterStep(b, e), e, com, lo, data)
    ensures StepsLeft(WriterStep(b, e).owner.pc) == StepsLeft(b.owner.pc) - 1
  {
    FencedVols(b.file);
    FencedVols(b.entry.value.log);
    if b.owner.pc.Ready? {
      StoredVols(b.entry.value.log, lo, data);
    } else if b.owner.pc.LogStored? {
      StoredVols(b.entry.value.log, 0, []);
    }
  }

  /** `evs` may go on with `ev`. */
  lemma {:induction false} Extend(ss: seq<State>, evs: seq<Event>, a: AtomicFile, k: nat, ev: Event, b': Block)
      returns (ss': seq<State>, evs': seq<Event>)
    requires Run(ss, evs)
    requires var s := ss[|evs|]; s.commit.Idle? && k in s.blocks && BlockStep(k, s.blocks[k], s.epoch.vol, ev, b')
    ensures Run(ss', evs') && ss'[0] == ss[0] && evs' == evs + [ev]
    ensures ss'[|evs'|] == ss[|evs|].(blocks := ss[|evs|].blocks[k := b'])
    ensures Replay(a, evs') == Apply(Replay(a, evs), ev)
    ensures |ss'| == |ss| + 1 && forall i :: 0 <= i < |ss| ==> ss'[i] == ss[i]
  {
    var s := ss[|evs|];
    var s' := s.(blocks := s.blocks[k := b']);
    assert OnBlock(k, s, ev, s');
    ss', evs' := ss + [s'], evs + [ev];
    assert evs'[..|evs|] == evs;
    forall i | 0 <= i < |evs'| ensures Taken(ss', evs', i) {
      assert i < |evs| ==> Taken(ss, evs, i);
    }
  }

  /** A run in which a write has begun may go on to its last fence. */
  lemma {:induction false} WritingRun(ss: seq<State>, evs: seq<Event>, a: AtomicFile, k: nat, e: nat, com: seq<byte>,
      lo: nat, data: seq<byte>)
      returns (ss': seq<State>, evs': seq<Event>)
    requires Run(ss, evs) && UpTo(ss, e) && e >= EPOCHS
    requires var s := ss[|evs|];
             s.commit.Idle? && s.epoch.vol == e && k in s.blocks && Writing(s.blocks[k], e, com, lo, data)
    ensures Run(ss', evs') && ss'[0] == ss[0] && UpTo(ss', e) && Replay(a, evs') == Replay(a, evs)
    ensures var s, s' := ss[|evs|], ss'[|evs'|];
            && s'.commit.Idle? && s'.epoch == s.epoch && k in s'.blocks && Writing(s'.blocks[k], e, com, lo, data)
            && s'.blocks[k].owner.pc.Fenced?
    decreases StepsLeft(ss[|evs|].blocks[k].owner.pc)
  {
    ss', evs' := ss, evs;
    var b := ss[|evs|].blocks[k];
    if !b.owner.pc.Fenced? {
      WritingNext(b, e, com, lo, data);
      ss', evs' := Extend(ss, evs, a, k, Internal, WriterStep(b, e));
      ss', evs' := WritingRun(ss', evs', a, k, e, com, lo, data);
    }
  }

  /** The entry of a block may be created, and a write to it begin. */
  lemma BeginSteps(k: nat, b: Block, e: nat, com: seq<byte>, lo: nat, data: seq<byte>)
      returns (b1: Block, b2: Block)
    requires b.owner.Nobody? && b.entry.None? && Settled(b.file, com) && 0 < |data| && lo + |data| <= |com|
    ensures BlockStep(k, b, e, Internal, b1) && BlockStep(k, b1, e, Began(k, lo, data), b2)
    ensures Writing(b2, e, com, lo, data)
  {
    var zero, now := Word(0, 0, 0, UNDO), Word(Trunc(e), 0, 0, UNDO);
    b1 := b.(entry := Some(Entry(Cell(now, {zero, now}), false, b.file)));
    assert Creates(b, e, b1);
    b2 := b1.(owner := Writer(Locked, lo, data));
    assert Vols(b.file) == com;
  }

  lemma {:induction false} BeginRun(s: State, a: AtomicFile, k: nat, lo: nat, data: seq<byte>)
      returns (ss: seq<State>, evs: seq<Event>)
    requires Init(s, a) && k in a && 0 < |data| && lo + |data| <= |a[k].cur|
    ensures Run(ss, evs) && ss[0] == s && UpTo(ss, s.epoch.vol) && Replay(a, evs) == a
    ensures var s' := ss[|evs|];
            && s'.commit.Idle? && s'.epoch == s.epoch && k in s'.blocks
            && Writing(s'.blocks[k], s.epoch.vol, a[k].com, lo, data)
  {
    var b1, b2 := BeginSteps(k, s.blocks[k], s.epoch.vol, a[k].com, lo, data);
    ss, evs := [s], [];
    ss, evs := Extend(ss, evs, a, k, Internal, b1);
    ss, evs := Extend(ss, evs, a, k, Began(k, lo, data), b2);
  }

  /** The word of the finished write looks like one of an epoch committed long ago, and recovery replays its log. */
  lemma WrittenReplays(b: Block, e: nat, com: seq<byte>, lo: nat, data: seq<byte>)
    requires Writing(b, e, com, lo, data) && b.owner.pc.Fenced? && e >= EPOCHS && data != com[lo..lo + |data|]
    ensures RecoverBlock(REDO, e, Intact(b.(owner := Nobody))) != com
  {
    var log, w := Vols(b.entry.value.log), b.entry.value.word.vol;
    var i :| 0 <= i < |data| && data[i] != com[lo..lo + |data|][i];
    assert log[lo..lo + |data|][i] == data[i] && Covers(w, lo + i);
    assert View(com, log, w)[lo + i] != com[lo + i];
  }

  /** From any idle file in such an epoch, a crash after one write that changes anything shows the write, which no
      commit has made durable. */
  lemma {:induction false} WideWriteShows(s: State, a: AtomicFile, k: nat, lo: nat, data: seq<byte>)
      returns (ss: seq<State>, evs: seq<Event>)
    requires Init(s, a) && k in a && s.epoch.vol >= EPOCHS && lo + |data| <= |a[k].cur|
    requires data != a[k].com[lo..lo + |data|]
    ensures Run(ss, evs) && ss[0] == s && UpTo(ss, s.epoch.vol)
    ensures Replay(a, evs) == Apply(a, Wrote(k, lo, data)) && !AlwaysRecovers(REDO, ss[|evs|], Replay(a, evs))
  {
    var e, com := s.epoch.vol, a[k].com;
    ss, evs := BeginRun(s, a, k, lo, data);
    ss, evs := WritingRun(ss, evs, a, k, e, com, lo, data);
    var b, before := ss[|evs|].blocks[k], ss;
    ss, evs := Extend(ss, evs, a, k, Wrote(k, lo, data), b.(owner := Nobody));
    UpToNext(before, ss, e);
    WrittenReplays(b, e, com, lo, data);
    RunPossible(ss, evs, a, |evs|);
    LostAtEnd(REDO, ss[|evs|], Apply(a, Wrote(k, lo, data)), k);
  }

  /** Every crash recovers in every run from `s` that commits nothing. */
  ghost predicate EpochRecovers(s: State, a: AtomicFile) {
    forall ss: seq<State>, evs: seq<Event> ::
      Run(ss, evs) && ss[0] == s && UpTo(ss, s.epoch.vol) ==> AlwaysRecovers(REDO, ss[|evs|], Replay(a, evs))
  }

  /** From an idle file with a byte in it, all crashes within the epoch recover if and only if the word can hold the
      epoch. */
  lemma EpochExact(s: State, a: AtomicFile, k: nat)
    requires Init(s, a) && k in a && |a[k].cur| > 0
    ensures EpochRecovers(s, a) <==> s.epoch.vol < EPOCHS
  {
    if s.epoch.vol < EPOCHS {
      forall ss: seq<State>, evs: seq<Event> | Run(ss, evs) && ss[0] == s && UpTo(ss, s.epoch.vol)
        ensures AlwaysRecovers(REDO, ss[|evs|], Replay(a, evs))
      {
        forall im | Crash(ss[|evs|], im) ensures Recover(REDO, im) == Expected(ss[|evs|], Replay(a, evs), im) {
          CrashAtomicity(ss, evs, a, im);
        }
      }
    } else {
      var other: byte := if a[k].com[0] == 0 then 1 else 0;
      assert [other][0] != a[k].com[0..1][0];
      var ss, evs := WideWriteShows(s, a, k, 0, [other]);
    }
  }
}
