/** Exactly when what UNDO logs of a request puts the file back: over any state whose logs are right so far, whatever
    the contents. */
module UndoImage {
  import opened Pmem
  import opened BlockLog
  import opened Geometry
  import opened Arithmetic
  import opened MmioData
  import opened MmioSpec
  import opened MultiBlock
  import opened Recovery

  // ----- the condition

  /** Epochs fit the 20 bits that the entry word has for them. */
  ghost predicate Narrow(t: Index) {
    forall k :: HasEntry(t, k) ==> EntryOf(t, k).word.epoch < EPOCHS
  }

  /** A request on bytes that hold their committed values, in a state that is right so far. */
  ghost predicate StartsUndo(t: Index, ms: seq<Progress>, epoch: nat, offset: nat, len: nat) {
    && |ms| > 0 && ms[0].off == offset && ms[0].n == len
    && var d := ms[0].d;
       && SameLayout(t, d.logs) && RightSoFar(d, UNDO, epoch) && Narrow(d.logs) && offset + len <= |d.file|
       && forall i :: offset <= i < offset + len ==> RecoveredAt(d, UNDO, epoch, i) == d.file[i]
  }

  /** After the loop and the in-place store the logs still put the committed content back. */
  ghost predicate Restores(d: Data, d': Data, epoch: nat, offset: nat, len: nat, src: int -> byte) {
    && Bounded(d.logs) && Bounded(d'.logs) && offset + len <= |d.file|
    && Recovered(Stored(d, d', offset, len, src), UNDO, epoch) == Recovered(d, UNDO, epoch)
  }

  ghost predicate AlwaysRestores(t: Index, keys: seq<Key>, epoch: nat, offset: nat, len: nat) {
    forall ms: seq<Progress>, src: int -> byte, wild: int -> byte ::
      WriteRun(ms, keys, UNDO, epoch, offset, src, wild) && StartsUndo(t, ms, epoch, offset, len) ==>
        Restores(ms[0].d, ms[|keys|].d, epoch, offset, len, src)
  }

  /** UNDO logging of a request can be undone, whatever the contents and whatever is logged so far, if and only if the
      request lies in one block of the coverage and the epoch fits its 20 bits. */
  lemma RestoreExact(t: Index, starts: seq<nat>, keys: seq<Key>, epoch: nat, offset: nat, len: nat)
    requires Request(t, starts, keys, offset, len)
    ensures AlwaysRestores(t, keys, epoch, offset, len) <==> OneCovered(t, offset, len) && epoch < EPOCHS
  {
    if epoch >= EPOCHS {
      WideLost(t, starts, keys, epoch, offset, len);
    } else if OneCovered(t, offset, len) {
      forall ms: seq<Progress>, src: int -> byte, wild: int -> byte
        | WriteRun(ms, keys, UNDO, epoch, offset, src, wild) && StartsUndo(t, ms, epoch, offset, len)
        ensures Restores(ms[0].d, ms[|keys|].d, epoch, offset, len, src)
      {
        CoveredRestores(t, starts, keys, epoch, offset, len, ms, src, wild);
      }
    } else if OneBlock(t, offset, len) {
      AliasedLost(t, starts, keys, epoch, offset, len);
    } else {
      SeveralLost(t, starts, keys, epoch, offset, len);
    }
  }

  // ----- one covered block

  lemma CoveredRestores(t: Index, starts: seq<nat>, keys: seq<Key>, epoch: nat, offset: nat, len: nat,
      ms: seq<Progress>, src: int -> byte, wild: int -> byte)
    requires Request(t, starts, keys, offset, len) && OneCovered(t, offset, len) && epoch < EPOCHS
    requires WriteRun(ms, keys, UNDO, epoch, offset, src, wild) && StartsUndo(t, ms, epoch, offset, len)
    ensures Restores(ms[0].d, ms[|keys|].d, epoch, offset, len, src)
  {
    var d := ms[0].d;
    SameRequest(t, d.logs, starts, keys, offset, len);
    SameOneBlock(t, d.logs, offset, len);
    OneTurn(ms, starts, keys, UNDO, epoch, offset, len, src, wild);
    RunKeeps(ms, keys, 1, UNDO, epoch, offset, src, wild);
    var e := PreservingTurn(ms[0], keys[0], ms[1], epoch, offset, src, wild);
    var after := Stored(d, ms[1].d, offset, len, src);
    forall i | 0 <= i < |d.file| ensures RecoveredAt(after, UNDO, epoch, i) == RecoveredAt(d, UNDO, epoch, i) {
      PreservedByte(d, after, keys[0], e, wild, epoch, offset, len, i);
    }
    RestoredAll(d, ms[1].d, epoch, offset, len, src);
  }

  lemma RestoredAll(d: Data, d': Data, epoch: nat, offset: nat, len: nat, src: int -> byte)
    requires Bounded(d.logs) && Bounded(d'.logs) && offset + len <= |d.file|
    requires forall i :: 0 <= i < |d.file| ==>
               RecoveredAt(Stored(d, d', offset, len, src), UNDO, epoch, i) == RecoveredAt(d, UNDO, epoch, i)
    ensures Restores(d, d', epoch, offset, len, src)
  {
  }

  // ----- where the first byte is not put back

  lemma NotRestored(d: Data, d': Data, epoch: nat, offset: nat, len: nat, src: int -> byte, i: nat)
    requires Bounded(d.logs) && len > 0 && offset + len <= |d.file| && i < |d.file|
    requires Bounded(d'.logs) ==>
             RecoveredAt(Stored(d, d', offset, len, src), UNDO, epoch, i) != RecoveredAt(d, UNDO, epoch, i)
    ensures !Restores(d, d', epoch, offset, len, src)
  {
    if Bounded(d'.logs) {
      assert Recovered(Stored(d, d', offset, len, src), UNDO, epoch)[i] != Recovered(d, UNDO, epoch)[i];
    }
  }

  /** One such run is enough. */
  lemma LostBy(t: Index, keys: seq<Key>, epoch: nat, offset: nat, len: nat, ms: seq<Progress>, src: int -> byte,
      wild: int -> byte)
    requires WriteRun(ms, keys, UNDO, epoch, offset, src, wild) && StartsUndo(t, ms, epoch, offset, len)
    requires !Restores(ms[0].d, ms[|keys|].d, epoch, offset, len, src)
    ensures !AlwaysRestores(t, keys, epoch, offset, len)
  {
  }

  lemma BlankStarts(t: Index, d: Data, ms: seq<Progress>, word: nat, epoch: nat, offset: nat, len: nat)
    requires Blank(d, word) && word <= epoch && word < EPOCHS && SameLayout(t, d.logs) && offset + len <= |d.file|
    requires |ms| > 0 && ms[0] == Progress(d, offset, len)
    ensures StartsUndo(t, ms, epoch, offset, len)
    ensures forall i :: 0 <= i < |d.file| ==> RecoveredAt(d, UNDO, epoch, i) == 0
  {
    forall k | HasEntry(d.logs, k) ensures EntryOf(d.logs, k).word == Word(word, 0, 0, REDO) {
      BlankWord(d, k, word);
    }
  }

  lemma SeveralLost(t: Index, starts: seq<nat>, keys: seq<Key>, epoch: nat, offset: nat, len: nat)
    requires Request(t, starts, keys, offset, len) && !OneBlock(t, offset, len) && epoch < EPOCHS
    ensures !AlwaysRestores(t, keys, epoch, offset, len)
  {
    var src: int -> byte, wild: int -> byte := i => 1, i => 0;
    var d, ms := MissingRun(t, starts, keys, UNDO, epoch, offset, len, src, wild);
    BlankStarts(t, d, ms, epoch, epoch, offset, len);
    NotRestored(d, ms[|keys|].d, epoch, offset, len, src, offset);
    LostBy(t, keys, epoch, offset, len, ms, src, wild);
  }

  lemma AliasedLost(t: Index, starts: seq<nat>, keys: seq<Key>, epoch: nat, offset: nat, len: nat)
    requires Request(t, starts, keys, offset, len) && OneBlock(t, offset, len) && offset / REGION >= t.cov
    requires epoch < EPOCHS
    ensures !AlwaysRestores(t, keys, epoch, offset, len)
  {
    var src: int -> byte, wild: int -> byte := i => 1, i => 0;
    var d, h, ms := AliasedRun(t, starts, keys, UNDO, epoch, offset, len, src, wild);
    SameOneBlock(t, d.logs, offset, len);
    AliasedStarts(t, d, keys[0], ms, h, epoch, offset, len);
    HomeUndone(d, h, epoch);
    SameKey(d.logs, ms[1].d.logs, offset);
    SameKey(d.logs, ms[1].d.logs, h);
    if len < SizeAt(t, offset) {
      assert !Logged(ms[1].d.logs, offset);
      NotRestored(d, ms[1].d, epoch, offset, len, src, offset);
    } else {
      assert !Logged(ms[1].d.logs, h);
      NotRestored(d, ms[1].d, epoch, offset, len, src, h);
    }
    LostBy(t, keys, epoch, offset, len, ms, src, wild);
  }

  lemma WideLost(t: Index, starts: seq<nat>, keys: seq<Key>, epoch: nat, offset: nat, len: nat)
    requires Request(t, starts, keys, offset, len) && epoch >= EPOCHS
    ensures !AlwaysRestores(t, keys, epoch, offset, len)
  {
    var src: int -> byte, wild: int -> byte := i => 1, i => 0;
    var d := BlankLike(t, 0, offset + len);
    SameRequest(t, d.logs, starts, keys, offset, len);
    ListedEntries(d.logs, keys, starts);
    var ms := MakeRun(d, keys, UNDO, epoch, offset, len, src, wild);
    BlankStarts(t, d, ms, 0, epoch, offset, len);
    RunNarrow(ms, keys, |keys|, epoch, offset, src, wild);
    NotRestored(d, ms[|keys|].d, epoch, offset, len, src, offset);
    LostBy(t, keys, epoch, offset, len, ms, src, wild);
  }

  lemma TurnNarrow(m: Progress, k: Key, m': Progress, epoch: nat, offset: nat, src: int -> byte, wild: int -> byte)
    requires Turn(m, k, m', UNDO, epoch, offset, src, wild) && Narrow(m.d.logs)
    ensures Narrow(m'.d.logs)
  {
    var d1, t' := Renewed(m.d, k, UNDO, epoch), m'.d.logs;
    assert HasEntry(d1.logs, k) && EntryOf(d1.logs, k).word.epoch < EPOCHS;
    var e' := EntryOf(t', k);
    assert e'.word.epoch == EntryOf(d1.logs, k).word.epoch;
    forall k' | HasEntry(t', k') ensures EntryOf(t', k').word.epoch < EPOCHS {
      assert k' != k ==> HasEntry(m.d.logs, k') && EntryOf(t', k') == EntryOf(m.d.logs, k');
    }
  }

  lemma TurnAtNarrow(ms: seq<Progress>, keys: seq<Key>, i: nat, epoch: nat, offset: nat, src: int -> byte,
      wild: int -> byte)
    requires WriteRun(ms, keys, UNDO, epoch, offset, src, wild) && i < |keys| && Narrow(ms[i].d.logs)
    ensures Narrow(ms[i + 1].d.logs)
  {
    assert TurnAt(ms, keys, i, UNDO, epoch, offset, src, wild);
    TurnNarrow(ms[i], keys[i], ms[i + 1], epoch, offset, src, wild);
  }

  lemma {:induction false} RunNarrow(ms: seq<Progress>, keys: seq<Key>, n: nat, epoch: nat, offset: nat,
      src: int -> byte, wild: int -> byte)
    requires WriteRun(ms, keys, UNDO, epoch, offset, src, wild) && n <= |keys| && Narrow(ms[0].d.logs)
    ensures Narrow(ms[n].d.logs)
  {
    if n > 0 {
      RunNarrow(ms, keys, n - 1, epoch, offset, src, wild);
      TurnAtNarrow(ms, keys, n - 1, epoch, offset, src, wild);
    }
  }

  lemma AliasedStarts(t: Index, d: Data, k: Key, ms: seq<Progress>, h: nat, epoch: nat, offset: nat, len: nat)
    requires |ms| > 0 && ms[0] == Progress(d, offset, len) && epoch < EPOCHS && OneBlock(d.logs, offset, len)
    requires SameLayout(t, d.logs) && RightSoFar(d, UNDO, epoch) && offset + len <= |d.file|
    requires forall k :: HasEntry(d.logs, k) ==> EntryOf(d.logs, k).word.epoch == epoch
    requires k == KeyOf(d.logs, offset) && EntryOf(d.logs, k).dst == h && h != StartOf(d.logs, offset)
    ensures StartsUndo(t, ms, epoch, offset, len)
  {
    forall i | offset <= i < offset + len ensures RecoveredAt(d, UNDO, epoch, i) == d.file[i] {
      StartIsStart(d.logs, offset);
      BlockSpan(d.logs, StartOf(d.logs, offset), i);
    }
  }

  lemma HomeUndone(d: Data, h: nat, epoch: nat)
    requires Bounded(d.logs) && h < |d.file| && ViewOf(d, REDO)[h] == 1 && d.file[h] == 0
    requires forall k :: HasEntry(d.logs, k) ==> EntryOf(d.logs, k).word.epoch == epoch
    ensures RecoveredAt(d, UNDO, epoch, h) == 1
  {
  }
}
