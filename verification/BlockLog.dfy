/** One log block: the packed index-entry word, the overlap classification, the
    merge of a write into an existing log, and what a reader of the block sees. */
module BlockLog {
  import opened Pmem
  import opened Arithmetic

  datatype Policy = UNDO | REDO

  /** The packed 64-bit word of an index entry (src/radixlog.h:28-38). */
  datatype Word = Word(epoch: nat, off: nat, len: nat, policy: Policy)

  /** The word keeps 20 bits of the epoch (src/radixlog.h:33). */
  const EPOCHS: nat := 0x10_0000

  function Trunc(epoch: nat): nat { epoch % EPOCHS }

  ghost predicate Within(i: int, at: int, n: int) {
    at <= i < at + n
  }

  ghost predicate Covers(w: Word, i: int) {
    Within(i, w.off, w.len)
  }

  predicate InBlock(w: Word, size: nat) {
    w.off + w.len <= size
  }

  /** check_log (src/mmio.c:151-171): how a request range lies against a log range. */
  function CheckLog(reqStart: int, reqEnd: int, logStart: int, logEnd: int): int {
    if reqStart <= logStart then
      if reqEnd >= logStart then
        if reqEnd < logEnd then 2 else 3
      else 1
    else
      if reqEnd <= logEnd then 4
      else if logEnd < reqStart then 6 else 5
  }

  function Splice(s: seq<byte>, at: nat, data: seq<byte>): (r: seq<byte>)
    requires at + |data| <= |s|
    ensures |r| == |s|
    ensures forall i :: 0 <= i < |s| ==> r[i] == if at <= i < at + |data| then data[i - at] else s[i]
  {
    s[..at] + data + s[at + |data|..]
  }

  /** What a reader sees: the logged bytes over the file bytes. */
  ghost function View(file: seq<byte>, log: seq<byte>, w: Word): (v: seq<byte>)
    requires |log| == |file|
  {
    seq(|file|, i requires 0 <= i < |file| => if Covers(w, i) then log[i] else file[i])
  }

  /** The new logged range of an entry, and the gap filled from the file. */
  datatype Plan = Plan(off: nat, len: nat, gapAt: nat, gapLen: nat)

  /** `p` records a range of the block with both [off, off+len) and [lo, lo+n) in it, and its gap is
      exactly what of that range neither of them covers. */
  ghost predicate IsHull(p: Plan, off: nat, len: nat, lo: nat, n: nat, size: nat) {
    && 0 < p.len && p.off + p.len <= size && p.gapAt + p.gapLen <= size
    && (forall i :: Within(i, lo, n) || Within(i, off, len) ==> Within(i, p.off, p.len))
    && (forall i :: Within(i, p.gapAt, p.gapLen) <==>
                      Within(i, p.off, p.len) && !Within(i, lo, n) && !Within(i, off, len))
  }

  /** The range part of a write of [lo, lo+n) into a block of `size` bytes whose entry
      logs [off, off+len) (src/mmio.c:331-381).  Whatever the overlap, the new range is the
      hull of both, it stays in the block, and the gap is what of it neither covers. */
  function Merge(off: nat, len: nat, lo: nat, n: nat, size: nat): (p: Plan)
    requires n > 0 && lo + n <= size && off + len <= size
    ensures IsHull(p, off, len, lo, n, size)
    ensures len > 0 ==> p.off == Min(off, lo) && p.off + p.len == Max(off + len, lo + n)
  {
    if len > 0 && n != size then
      match CheckLog(lo, lo + n, off, off + len)
      case 1 => Plan(lo, off + len - lo, lo + n, off - (lo + n))
      case 2 => Plan(lo, off + len - lo, 0, 0)
      case 3 => Plan(lo, n, 0, 0)
      case 4 => Plan(off, len, 0, 0)
      case 5 => Plan(off, lo + n - off, 0, 0)
      case _ => Plan(off, lo + n - off, off + len, lo - (off + len))
    else
      Plan(lo, n, 0, 0)
  }

  // ----- read_redolog on one block (src/mmio.c:428-539)

  /** memcpy of `n` bytes of the mapped file, addressed from the start of the block. */
  function FromFile(mem: int -> byte, at: int, n: nat): seq<byte> {
    seq(n, j => mem(at + j))
  }

  /** The copies read_redolog makes for a request [lo, lo+n) inside one block, source line 485's
      address included: there the offset has already moved past the log. */
  function ReadBlock(mem: int -> byte, log: seq<byte>, w: Word, lo: nat, n: nat): (out: seq<byte>)
    requires InBlock(w, |log|) && lo + n <= |log|
    ensures |out| == n
  {
    var logStart, logEnd, reqEnd := w.off, w.off + w.len, lo + n;
    if w.len > 0 then
      match CheckLog(lo, reqEnd, logStart, logEnd)
      case 1 => FromFile(mem, lo, n)
      case 2 => FromFile(mem, lo, logStart - lo) + log[logStart..reqEnd]
      case 3 => FromFile(mem, lo, logStart - lo) + log[logStart..logEnd]
                + FromFile(mem, logEnd + (logEnd - lo), reqEnd - logEnd)
      case 4 => log[lo..reqEnd]
      case 5 => log[lo..logEnd] + FromFile(mem, logEnd, reqEnd - logEnd)
      case _ => FromFile(mem, lo, n)
    else
      FromFile(mem, lo, n)
  }

  /** The bytes the request should return. */
  ghost function ViewAt(mem: int -> byte, log: seq<byte>, w: Word, i: nat): byte
    requires InBlock(w, |log|)
  {
    if Covers(w, i) then log[i] else mem(i)
  }

  ghost predicate ReadsView(mem: int -> byte, log: seq<byte>, w: Word, lo: nat, n: nat)
    requires InBlock(w, |log|) && lo + n <= |log|
  {
    forall j :: 0 <= j < n ==> ReadBlock(mem, log, w, lo, n)[j] == ViewAt(mem, log, w, lo + j)
  }

  /** The request starts at or before the log and ends strictly after it. */
  predicate OverrunsLog(w: Word, lo: nat, n: nat) {
    w.len > 0 && lo <= w.off && w.off + w.len < lo + n
  }

  lemma ReadIsView(mem: int -> byte, log: seq<byte>, w: Word, lo: nat, n: nat)
    requires InBlock(w, |log|) && lo + n <= |log|
    requires !OverrunsLog(w, lo, n)
    ensures ReadsView(mem, log, w, lo, n)
  {
  }

  /** read_redolog returns the view of a single-block request, whatever the contents,
      exactly when the request does not overrun the log. */
  lemma ReadExact(w: Word, lo: nat, n: nat, size: nat)
    requires InBlock(w, size) && lo + n <= size
    ensures (forall mem: int -> byte, log: seq<byte> :: |log| == size ==> ReadsView(mem, log, w, lo, n))
            <==> !OverrunsLog(w, lo, n)
  {
    if OverrunsLog(w, lo, n) {
      var logEnd := w.off + w.len;
      var mem: int -> byte := i => if i == logEnd then 1 else 0;
      var log := seq(size, i => 0 as byte);
      assert !ReadsView(mem, log, w, lo, n) by {
        assert ReadBlock(mem, log, w, lo, n)[logEnd - lo] == mem(logEnd + (logEnd - lo));
        assert ViewAt(mem, log, w, lo + (logEnd - lo)) == mem(logEnd);
      }
    } else {
      forall mem: int -> byte, log: seq<byte> | |log| == size
        ensures ReadsView(mem, log, w, lo, n)
      {
        ReadIsView(mem, log, w, lo, n);
      }
    }
  }
}
