/** Any sequence of operations on a file, run one after the other: what each makes of the state, that together they are
    those of a plain array of bytes, and that recovery finds what that array held at the last commit. */
module MmioRuns {
  import opened Pmem
  import opened BlockLog
  import opened Geometry
  import opened Arithmetic
  import opened MmioData
  import opened Mmio
  import opened MmioSpec
  import opened Recovery

  datatype Op =
    | WriteOp(offset: nat, len: nat, src: int -> byte)
    | ReadOp(offset: nat, len: nat)
    | CommitOp
    | CheckpointOp(tryEntry: Key -> bool)

  /** The state between two operations. */
  datatype Moment = Moment(d: Data, epoch: nat, fsize: nat)

  /** What a call hands back; one that is not done spins, or shifts by a negative number. */
  datatype Result = Result(done: bool, ret: nat, out: seq<byte>)

  ghost function MomentOf(f: File): Moment
    reads f
  {
    Moment(f.Now(), f.epoch, f.fsize)
  }

  // ----- one operation, exactly

  /** How it was done. */
  datatype How = Writing(s: Story) | Reading(l: Locks, cs: seq<Cursor>) | Otherwise

  ghost predicate Wrote(p: Policy, m: Moment, offset: nat, len: nat, src: int -> byte, wild: int -> byte, s: Story,
      r: Result, m': Moment) {
    && m'.epoch == m.epoch && m'.fsize == (if r.done then Max(m.fsize, offset + r.ret) else m.fsize)
    && WroteAs(p, m.d, s, m'.d, r.done, r.ret, m.epoch, offset, len, src, wild)
  }

  /** A read beyond the file size is not made: lseek keeps the offset within it. */
  ghost predicate DidRead(p: Policy, m: Moment, offset: nat, len: nat, wild: int -> byte, how: How, r: Result,
      m': Moment) {
    && m'.epoch == m.epoch && m'.fsize == m.fsize
    && if offset > m.fsize then r.done && r.out == [] && m' == m
       else how.Reading? && ReadAs(p, m.d, how.l, how.cs, m'.d, r.done, r.ret, r.out, m.fsize, m.epoch, offset, len,
                                   wild)
  }

  ghost predicate DidCheckpoint(m: Moment, tryEntry: Key -> bool, r: Result, m': Moment) {
    && m'.epoch == m.epoch && m'.fsize == m.fsize && (r.done <==> AllSized(m.d.logs))
    && m'.d == if r.done then RegionsAfter(m.d, RegionsOf(|m.d.file|), m.epoch, tryEntry) else m.d
  }

  ghost predicate Performed(p: Policy, m: Moment, op: Op, wild: int -> byte, how: How, r: Result, m': Moment) {
    match op
    case WriteOp(offset, len, src) => how.Writing? && Wrote(p, m, offset, len, src, wild, how.s, r, m')
    case ReadOp(offset, len) => DidRead(p, m, offset, len, wild, how, r, m')
    case CommitOp => r.done && m' == m.(epoch := m.epoch + 1)
    case CheckpointOp(tryEntry) => DidCheckpoint(m, tryEntry, r, m')
  }

  /** What holds of a file between operations. */
  ghost predicate Good(p: Policy, m: Moment) {
    |m.d.file| > 0 && Bounded(m.d.logs) && Dated(m.d.logs, p, m.epoch) && Tidy(m.d.logs)
  }

  // ----- ... and what follows from that

  ghost predicate ReadFound(p: Policy, m: Moment, offset: nat, len: nat, wild: int -> byte, how: How, r: Result,
      m': Moment)
    requires Bounded(m.d.logs) && Bounded(m'.d.logs)
  {
    if offset > m.fsize then m' == m
    else && how.Reading? && AllEntries(m'.d.logs, KeysOf(how.l)) && (r.done ==> r.ret == Min(len, m.fsize - offset))
         && ReadOutcome(p, m.d, how.l, m'.d, r.done, r.ret, r.out, m.epoch, offset, len, wild)
  }

  ghost predicate Known(p: Policy, m: Moment, op: Op, wild: int -> byte, how: How, r: Result, m': Moment) {
    && Bounded(m.d.logs) && Bounded(m'.d.logs) && m'.epoch == (if op.CommitOp? then m.epoch + 1 else m.epoch)
    && match op
       case WriteOp(offset, len, src) =>
         && |m'.d.file| == MappedTo(|m.d.file|, offset + len)
         && Outcome(p, m.d, m'.d, r.done, r.ret, m.epoch, offset, len, src)
       case ReadOp(offset, len) => ReadFound(p, m, offset, len, wild, how, r, m')
       case CommitOp => m'.d == m.d
       case CheckpointOp(tryEntry) => Transparent(p, m.epoch, m.d, m'.d)
  }

  lemma PerformedKnown(p: Policy, m: Moment, op: Op, wild: int -> byte, how: How, r: Result, m': Moment)
    requires Good(p, m) && Good(p, m') && Performed(p, m, op, wild, how, r, m')
    ensures Known(p, m, op, wild, how, r, m')
  {
    match op
    case WriteOp(offset, len, src) => WroteKnown(p, m, offset, len, src, wild, how.s, r, m');
    case ReadOp(offset, len) => ReadKnown(p, m, offset, len, wild, how, r, m');
    case CommitOp =>
    case CheckpointOp(tryEntry) => CheckpointKnown(p, m, tryEntry, r, m');
  }

  lemma WroteKnown(p: Policy, m: Moment, offset: nat, len: nat, src: int -> byte, wild: int -> byte, s: Story,
      r: Result, m': Moment)
    requires Bounded(m.d.logs) && Wrote(p, m, offset, len, src, wild, s, r, m')
    ensures Bounded(m'.d.logs) && |m'.d.file| == MappedTo(|m.d.file|, offset + len)
    ensures Outcome(p, m.d, m'.d, r.done, r.ret, m.epoch, offset, len, src)
  {
    WroteAll(p, m.d, s, m'.d, r.done, r.ret, m.epoch, offset, len, src, wild);
  }

  lemma ReadKnown(p: Policy, m: Moment, offset: nat, len: nat, wild: int -> byte, how: How, r: Result, m': Moment)
    requires Bounded(m.d.logs) && Bounded(m'.d.logs) && DidRead(p, m, offset, len, wild, how, r, m')
    ensures ReadFound(p, m, offset, len, wild, how, r, m')
  {
    if offset <= m.fsize {
      ReadAll(p, m.d, how.l, how.cs, m'.d, r.done, r.ret, r.out, m.fsize, m.epoch, offset, len, wild);
    }
  }

  lemma CheckpointKnown(p: Policy, m: Moment, tryEntry: Key -> bool, r: Result, m': Moment)
    requires Good(p, m) && Bounded(m'.d.logs) && DidCheckpoint(m, tryEntry, r, m')
    ensures Transparent(p, m.epoch, m.d, m'.d)
  {
    NothingChanged(p, m.epoch, m.d);
    RegionsCheckpoint(m.d, p, m.epoch, tryEntry);
  }

  method PerformRead(f: File, op: Op, wild: int -> byte)
      returns (r: Result, ghost how: How, ghost m: Moment, ghost m': Moment)
    requires f.Valid() && f.lock.Free() && op.ReadOp?
    modifies f
    ensures f.Valid() && f.lock.Free() && m == old(MomentOf(f)) && m' == MomentOf(f)
    ensures Performed(f.policy, m, op, wild, how, r, m')
  {
    m := MomentOf(f);
    if op.offset > f.fsize {
      r, how, m' := Result(true, 0, []), Otherwise, m;
    } else {
      var done, ret, buf;
      ghost var l, cs;
      done, ret, buf, l, cs := f.Read(op.offset, op.len, wild);
      m' := MomentOf(f);
      r, how := Result(done, ret, buf), Reading(l, cs);
    }
  }

  method PerformWrite(f: File, op: Op, wild: int -> byte)
      returns (r: Result, ghost how: How, ghost m: Moment, ghost m': Moment)
    requires f.Valid() && f.lock.Free() && op.WriteOp?
    modifies f
    ensures f.Valid() && f.lock.Free() && m == old(MomentOf(f)) && m' == MomentOf(f)
    ensures Performed(f.policy, m, op, wild, how, r, m')
  {
    m := MomentOf(f);
    var done, ret;
    ghost var s;
    done, ret, s := f.Write(op.offset, op.len, op.src, wild);
    r, how, m' := Result(done, ret, []), Writing(s), MomentOf(f);
  }

  method PerformCommit(f: File, ghost op: Op, ghost wild: int -> byte)
      returns (r: Result, ghost how: How, ghost m: Moment, ghost m': Moment)
    requires f.Valid() && f.lock.Free() && op.CommitOp?
    modifies f, f.lock
    ensures f.Valid() && f.lock.Free() && m == old(MomentOf(f)) && m' == MomentOf(f)
    ensures Performed(f.policy, m, op, wild, how, r, m')
  {
    m := MomentOf(f);
    f.Commit(k => true);
    r, how, m' := Result(true, 0, []), Otherwise, MomentOf(f);
  }

  method PerformCheckpoint(f: File, op: Op, ghost wild: int -> byte)
      returns (r: Result, ghost how: How, ghost m: Moment, ghost m': Moment)
    requires f.Valid() && f.lock.Free() && op.CheckpointOp?
    modifies f, f.lock
    ensures f.Valid() && (r.done ==> f.lock.Free()) && m == old(MomentOf(f)) && m' == MomentOf(f)
    ensures Performed(f.policy, m, op, wild, how, r, m')
  {
    m := MomentOf(f);
    var defined := f.Checkpoint(op.tryEntry);
    r, how, m' := Result(defined, 0, []), Otherwise, MomentOf(f);
  }

  method PerformOne(f: File, op: Op, wild: int -> byte)
      returns (r: Result, ghost how: How, ghost m: Moment, ghost m': Moment)
    requires f.Valid() && f.lock.Free()
    modifies f, f.lock
    ensures f.Valid() && (r.done ==> f.lock.Free()) && m == old(MomentOf(f)) && m' == MomentOf(f)
    ensures Performed(f.policy, m, op, wild, how, r, m')
  {
    if op.WriteOp? {
      r, how, m, m' := PerformWrite(f, op, wild);
    } else if op.ReadOp? {
      r, how, m, m' := PerformRead(f, op, wild);
    } else if op.CommitOp? {
      r, how, m, m' := PerformCommit(f, op, wild);
    } else {
      r, how, m, m' := PerformCheckpoint(f, op, wild);
    }
  }

  // ----- any sequence of them

  ghost predicate Trace(p: Policy, ms: seq<Moment>, ops: seq<Op>, wild: int -> byte, hows: seq<How>, rs: seq<Result>) {
    && |ms| == |rs| + 1 && |rs| == |hows| <= |ops| && (forall i :: 0 <= i < |ms| ==> Good(p, ms[i]))
    && forall i :: 0 <= i < |rs| ==> DoneAt(p, ms, ops, wild, hows, rs, i)
  }

  ghost predicate DoneAt(p: Policy, ms: seq<Moment>, ops: seq<Op>, wild: int -> byte, hows: seq<How>,
      rs: seq<Result>, i: nat)
    requires i < |rs| == |hows| <= |ops| && |ms| == |rs| + 1
  {
    Performed(p, ms[i], ops[i], wild, hows[i], rs[i], ms[i + 1])
  }

  lemma TraceAt(p: Policy, ms: seq<Moment>, ops: seq<Op>, wild: int -> byte, hows: seq<How>, rs: seq<Result>, i: nat)
    requires Trace(p, ms, ops, wild, hows, rs) && i < |rs|
    ensures Good(p, ms[i]) && Known(p, ms[i], ops[i], wild, hows[i], rs[i], ms[i + 1])
  {
    assert DoneAt(p, ms, ops, wild, hows, rs, i);
    PerformedKnown(p, ms[i], ops[i], wild, hows[i], rs[i], ms[i + 1]);
  }

  lemma TraceNext(p: Policy, ms: seq<Moment>, ops: seq<Op>, wild: int -> byte, hows: seq<How>, rs: seq<Result>,
      how: How, r: Result, m: Moment)
    requires Trace(p, ms, ops, wild, hows, rs) && |rs| < |ops| && Good(p, m)
    requires Performed(p, ms[|rs|], ops[|rs|], wild, how, r, m)
    ensures Trace(p, ms + [m], ops, wild, hows + [how], rs + [r])
  {
    var ms', hows', rs' := ms + [m], hows + [how], rs + [r];
    forall i | 0 <= i < |rs'| ensures DoneAt(p, ms', ops, wild, hows', rs', i) {
      assert i < |rs| ==> DoneAt(p, ms, ops, wild, hows, rs, i);
    }
  }

  /** All operations are performed, unless one of them does not come to its end. */
  ghost predicate Complete(ops: seq<Op>, rs: seq<Result>) {
    && (forall i :: 0 <= i < |rs| - 1 ==> rs[i].done)
    && (|rs| == |ops| || (rs != [] && !rs[|rs| - 1].done))
  }

  /** Whatever the operations, requests of several blocks, beyond the coverage and of any length included, entries keep
      to their blocks, and each operation does exactly what it should to what the one before it left. */
  method Perform(f: File, ops: seq<Op>, wild: int -> byte)
      returns (rs: seq<Result>, ghost ms: seq<Moment>, ghost hows: seq<How>)
    requires f.Valid() && f.lock.Free()
    modifies f, f.lock
    ensures f.Valid() && Trace(f.policy, ms, ops, wild, hows, rs) && Complete(ops, rs)
    ensures ms[0] == old(MomentOf(f)) && ms[|rs|] == MomentOf(f)
  {
    rs, ms, hows := [], [MomentOf(f)], [];
    while |rs| < |ops|
      invariant |rs| <= |ops| && f.Valid() && f.lock.Free()
      invariant Trace(f.policy, ms, ops, wild, hows, rs) && ms[0] == old(MomentOf(f)) && ms[|rs|] == MomentOf(f)
      invariant forall i :: 0 <= i < |rs| ==> rs[i].done
      decreases |ops| - |rs|
    {
      var r;
      ghost var how, m, m';
      r, how, m, m' := PerformOne(f, ops[|rs|], wild);
      TraceNext(f.policy, ms, ops, wild, hows, rs, how, r, m');
      rs, ms, hows := rs + [r], ms + [m'], hows + [how];
      if !r.done {
        return;
      }
    }
  }

  // ----- the file as an array of bytes

  /** Content beyond the end is zero. */
  ghost function Byte(s: seq<byte>, i: nat): byte {
    if i < |s| then s[i] else 0
  }

  /** Byte `i` of an array that held `init`, after the first `n` operations. */
  ghost function ByteAfter(init: seq<byte>, ops: seq<Op>, n: nat, i: nat): byte
    requires n <= |ops|
  {
    if n == 0 then Byte(init, i)
    else match ops[n - 1]
         case WriteOp(offset, len, src) =>
           if Within(i, offset, len) then src(i - offset) else ByteAfter(init, ops, n - 1, i)
         case _ => ByteAfter(init, ops, n - 1, i)
  }

  /** `s` is the array after `n` operations. */
  ghost predicate IsAfter(s: seq<byte>, init: seq<byte>, ops: seq<Op>, n: nat)
    requires n <= |ops|
  {
    forall i :: 0 <= i ==> Byte(s, i) == ByteAfter(init, ops, n, i)
  }

  lemma SplicedByte(v: seq<byte>, zeros: nat, offset: nat, len: nat, src: int -> byte, i: nat)
    requires offset + len <= |v| + zeros
    ensures Byte(Splice(v + Zeros(zeros), offset, FromFile(src, 0, len)), i) ==
            if Within(i, offset, len) then src(i - offset) else Byte(v, i)
  {
  }

  /** Zeros at the end are not seen. */
  lemma ZerosAfter(s: seq<byte>, zeros: nat, init: seq<byte>, ops: seq<Op>, n: nat)
    requires n <= |ops| && IsAfter(s, init, ops, n)
    ensures IsAfter(s + Zeros(zeros), init, ops, n)
  {
    forall i: nat ensures Byte(s + Zeros(zeros), i) == ByteAfter(init, ops, n, i) {
      assert Byte(s + Zeros(zeros), i) == Byte(s, i);
    }
  }

  lemma WrittenAfter(v: seq<byte>, zeros: nat, init: seq<byte>, ops: seq<Op>, n: nat)
    requires n < |ops| && ops[n].WriteOp? && ops[n].offset + ops[n].len <= |v| + zeros && IsAfter(v, init, ops, n)
    ensures IsAfter(Splice(v + Zeros(zeros), ops[n].offset, FromFile(ops[n].src, 0, ops[n].len)), init, ops, n + 1)
  {
    forall i: nat
      ensures Byte(Splice(v + Zeros(zeros), ops[n].offset, FromFile(ops[n].src, 0, ops[n].len)), i) ==
              ByteAfter(init, ops, n + 1, i)
    {
      SplicedByte(v, zeros, ops[n].offset, ops[n].len, ops[n].src, i);
    }
  }

  // ----- what the file shows

  /** A write that the code gets right: under UNDO any that returns, under REDO one that fits into one block of the
      coverage. */
  ghost predicate RightWrite(p: Policy, m: Moment, op: Op, r: Result) {
    op.WriteOp? ==> if p == UNDO then r.done else FitsCovered(m.d.logs, op.offset, op.len)
  }

  ghost predicate RightWrites(p: Policy, ms: seq<Moment>, ops: seq<Op>, rs: seq<Result>, n: nat)
    requires |ms| == |rs| + 1 && |rs| <= |ops| && n <= |rs|
  {
    forall i :: 0 <= i < n ==> RightWrite(p, ms[i], ops[i], rs[i])
  }

  lemma RightAt(p: Policy, ms: seq<Moment>, ops: seq<Op>, rs: seq<Result>, n: nat, i: nat)
    requires |ms| == |rs| + 1 && |rs| <= |ops| && n <= |rs| && RightWrites(p, ms, ops, rs, n) && i < n
    ensures RightWrite(p, ms[i], ops[i], rs[i]) && RightWrites(p, ms, ops, rs, i)
  {
  }

  /** One operation, on the array. */
  lemma StepShows(p: Policy, m: Moment, wild: int -> byte, how: How, r: Result, m': Moment, init: seq<byte>,
      ops: seq<Op>, n: nat)
    requires n < |ops| && Good(p, m) && Known(p, m, ops[n], wild, how, r, m') && RightWrite(p, m, ops[n], r)
    requires Homely(m.d, p, m.epoch) && IsAfter(ViewOf(m.d, p), init, ops, n)
    ensures Homely(m'.d, p, m'.epoch) && IsAfter(ViewOf(m'.d, p), init, ops, n + 1)
  {
    match ops[n]
    case WriteOp(_, _, _) => WrittenAfter(ViewOf(m.d, p), |m'.d.file| - |m.d.file|, init, ops, n);
    case ReadOp(_, _) => NoZeros(ViewOf(m.d, p));
    case CommitOp => Commits(m.d, p, m.epoch);
    case CheckpointOp(_) =>
  }

  /** Over any sequence of operations whose writes are such, what the file shows is what an array of bytes would. */
  lemma {:induction false} RunShows(p: Policy, ms: seq<Moment>, ops: seq<Op>, wild: int -> byte, hows: seq<How>,
      rs: seq<Result>, n: nat)
    requires Trace(p, ms, ops, wild, hows, rs) && n <= |rs| && RightWrites(p, ms, ops, rs, n)
    requires Homely(ms[0].d, p, ms[0].epoch)
    ensures Bounded(ms[n].d.logs) && Homely(ms[n].d, p, ms[n].epoch)
    ensures IsAfter(ViewOf(ms[n].d, p), ViewOf(ms[0].d, p), ops, n)
  {
    if n > 0 {
      RightAt(p, ms, ops, rs, n, n - 1);
      RunShows(p, ms, ops, wild, hows, rs, n - 1);
      TraceAt(p, ms, ops, wild, hows, rs, n - 1);
      StepShows(p, ms[n - 1], wild, hows[n - 1], rs[n - 1], ms[n], ViewOf(ms[0].d, p), ops, n - 1);
    }
  }

  /** A read that the code gets right: under UNDO any that returns, under REDO one that fits into one block of the
      coverage and does not overrun its log. */
  ghost predicate RightRead(p: Policy, m: Moment, op: Op, r: Result)
    requires op.ReadOp? && op.offset <= m.fsize
  {
    var n := Min(op.len, m.fsize - op.offset);
    && r.done && op.offset + n <= |m.d.file|
    && (p == REDO ==> FitsCovered(m.d.logs, op.offset, op.len) && !Overruns(m.d.logs, op.offset, n))
  }

  lemma ReadReturns(p: Policy, m: Moment, op: Op, wild: int -> byte, how: How, r: Result, m': Moment)
    requires op.ReadOp? && op.offset <= m.fsize && Good(p, m) && Known(p, m, op, wild, how, r, m')
    requires Homely(m.d, p, m.epoch) && RightRead(p, m, op, r)
    ensures |r.out| == r.ret == Min(op.len, m.fsize - op.offset) && op.offset + r.ret <= |m.d.file|
    ensures r.out == ViewOf(m.d, p)[op.offset..op.offset + r.ret]
  {
    RightReads(m.d, p, m.epoch, op.offset, op.len, r.ret);
  }

  /** Every read of such a sequence returns the bytes last written, whatever commits and checkpoints came between, if
      it is one that the code gets right. */
  lemma {:induction false} ReadsLastWritten(p: Policy, ms: seq<Moment>, ops: seq<Op>, wild: int -> byte,
      hows: seq<How>, rs: seq<Result>, n: nat, i: nat)
    requires Trace(p, ms, ops, wild, hows, rs) && n < |rs| && RightWrites(p, ms, ops, rs, n)
    requires Homely(ms[0].d, p, ms[0].epoch)
    requires ops[n].ReadOp? && ops[n].offset <= ms[n].fsize && RightRead(p, ms[n], ops[n], rs[n])
    requires i < |rs[n].out|
    ensures |rs[n].out| == Min(ops[n].len, ms[n].fsize - ops[n].offset)
    ensures rs[n].out[i] == ByteAfter(ViewOf(ms[0].d, p), ops, n, ops[n].offset + i)
  {
    RunShows(p, ms, ops, wild, hows, rs, n);
    TraceAt(p, ms, ops, wild, hows, rs, n);
    ReadByte(p, ms[n], wild, hows[n], rs[n], ms[n + 1], ViewOf(ms[0].d, p), ops, n, i);
  }

  lemma ReadByte(p: Policy, m: Moment, wild: int -> byte, how: How, r: Result, m': Moment, init: seq<byte>,
      ops: seq<Op>, n: nat, i: nat)
    requires n < |ops| && ops[n].ReadOp? && ops[n].offset <= m.fsize && Good(p, m) && i < |r.out|
    requires Known(p, m, ops[n], wild, how, r, m') && Homely(m.d, p, m.epoch) && RightRead(p, m, ops[n], r)
    requires IsAfter(ViewOf(m.d, p), init, ops, n)
    ensures |r.out| == Min(ops[n].len, m.fsize - ops[n].offset)
    ensures r.out[i] == ByteAfter(init, ops, n, ops[n].offset + i)
  {
    ReadReturns(p, m, ops[n], wild, how, r, m');
    ByteRead(ViewOf(m.d, p), init, ops, n, ops[n].offset, r.out, i);
  }

  lemma ByteRead(v: seq<byte>, init: seq<byte>, ops: seq<Op>, n: nat, offset: nat, out: seq<byte>, i: nat)
    requires n <= |ops| && IsAfter(v, init, ops, n) && offset + |out| <= |v| && out == v[offset..offset + |out|]
    requires i < |out|
    ensures out[i] == ByteAfter(init, ops, n, offset + i)
  {
    assert Byte(v, offset + i) == out[i];
  }

  // ----- what recovery finds

  /** Of the first `n` operations, how many there are up to the last commit. */
  function LastCommit(ops: seq<Op>, n: nat): (c: nat)
    requires n <= |ops|
    ensures c <= n && (c > 0 ==> ops[c - 1].CommitOp?) && forall i :: c <= i < n ==> !ops[i].CommitOp?
  {
    if n == 0 || ops[n - 1].CommitOp? then n else LastCommit(ops, n - 1)
  }

  /** A write that can be recovered from: it fits into one block of the coverage; under UNDO it is on bytes that hold
      their committed values. */
  ghost predicate SafeWrite(p: Policy, m: Moment, op: Op)
    requires Good(p, m)
  {
    op.WriteOp? ==>
      && FitsCovered(m.d.logs, op.offset, op.len)
      && (p == UNDO ==> OnCommitted(m.d, m.epoch, op.offset, op.len))
  }

  ghost predicate SafeWrites(p: Policy, ms: seq<Moment>, ops: seq<Op>, n: nat)
    requires n <= |ms| && n <= |ops| && forall i :: 0 <= i < |ms| ==> Good(p, ms[i])
  {
    forall i :: 0 <= i < n ==> SafeWrite(p, ms[i], ops[i])
  }

  /** The file shows the array after `n` operations, and recovery finds the array as of the last commit. */
  ghost predicate Recoverable(p: Policy, m: Moment, init: seq<byte>, ops: seq<Op>, n: nat)
    requires n <= |ops|
  {
    && RightSoFar(m.d, p, m.epoch) && IsAfter(ViewOf(m.d, p), init, ops, n)
    && IsAfter(Recovered(m.d, p, m.epoch), init, ops, LastCommit(ops, n))
  }

  lemma WriteRecovers(p: Policy, m: Moment, op: Op, wild: int -> byte, how: How, r: Result, m': Moment,
      init: seq<byte>, ops: seq<Op>, n: nat)
    requires n < |ops| && op == ops[n] && op.WriteOp? && Good(p, m) && Known(p, m, op, wild, how, r, m')
    requires SafeWrite(p, m, op) && m.epoch < EPOCHS && Recoverable(p, m, init, ops, n)
    ensures Recoverable(p, m', init, ops, n + 1)
  {
    WrittenAfter(ViewOf(m.d, p), |m'.d.file| - |m.d.file|, init, ops, n);
    ZerosAfter(Recovered(m.d, p, m.epoch), |m'.d.file| - |m.d.file|, init, ops, LastCommit(ops, n));
  }

  lemma StepRecovers(p: Policy, m: Moment, wild: int -> byte, how: How, r: Result, m': Moment, init: seq<byte>,
      ops: seq<Op>, n: nat)
    requires n < |ops| && Good(p, m) && Known(p, m, ops[n], wild, how, r, m') && SafeWrite(p, m, ops[n])
    requires m.epoch < EPOCHS && Recoverable(p, m, init, ops, n)
    ensures Recoverable(p, m', init, ops, n + 1)
  {
    match ops[n]
    case WriteOp(_, _, _) => WriteRecovers(p, m, ops[n], wild, how, r, m', init, ops, n);
    case ReadOp(_, _) =>
      NoZeros(ViewOf(m.d, p));
      NoZeros(Recovered(m.d, p, m.epoch));
    case CommitOp => Commits(m.d, p, m.epoch);
    case CheckpointOp(_) =>
  }

  /** Over any sequence of operations whose writes are such, what recovery would find at any time, the mapping grown or
      not, is what an array of bytes held at the last commit. */
  lemma {:induction false} RunRecovers(p: Policy, ms: seq<Moment>, ops: seq<Op>, wild: int -> byte, hows: seq<How>,
      rs: seq<Result>, n: nat)
    requires Trace(p, ms, ops, wild, hows, rs) && n <= |rs| && SafeWrites(p, ms, ops, n) && ms[n].epoch < EPOCHS
    requires RightSoFar(ms[0].d, p, ms[0].epoch) && Recovered(ms[0].d, p, ms[0].epoch) == ViewOf(ms[0].d, p)
    ensures Recoverable(p, ms[n], ViewOf(ms[0].d, p), ops, n)
  {
    if n > 0 {
      TraceAt(p, ms, ops, wild, hows, rs, n - 1);
      assert SafeWrite(p, ms[n - 1], ops[n - 1]);
      assert ms[n - 1].epoch <= ms[n].epoch;
      RunRecovers(p, ms, ops, wild, hows, rs, n - 1);
      StepRecovers(p, ms[n - 1], wild, hows[n - 1], rs[n - 1], ms[n], ViewOf(ms[0].d, p), ops, n - 1);
    }
  }
}
