/** The lock of a file as the thread at hand meets it.  Each operation is a run of that thread alone in Bravo. */
module FileLocks {
  import opened Bravo
  import opened BravoSolo

  /** The thread, with one slot for it. */
  const ME := Proc(0, 0)
  ghost const ALONE := Config(p => 0, 1)

  /** bravo_rwlock_t; `slot` is the thread's slot in the table of visible readers. */
  class FileLock {
    var rbias: bool
    var readers: nat
    var writer: bool
    var slot: bool

    constructor ()
      ensures rbias && readers == 0 && !writer && !slot
    {
      rbias, readers, writer, slot := true, 0, false, false;
    }

    /** The state of the lock, with the thread at `pc`. */
    ghost function At(pc: Pc): State
      reads this
    {
      State(map[0 := Lock(rbias, readers, writer)], if slot then map[0 := 0] else map[], map[ME := pc])
    }

    /** A writer has returned from bravo_write_lock. */
    ghost predicate Exclusive()
      reads this
    {
      writer && !rbias && readers == 0 && !slot
    }

    ghost predicate Free()
      reads this
    {
      !writer && readers == 0 && !slot
    }

    /** bravo_read_trylock (src/bravo.c:90-124); 0 is success.  With no other thread at work the second test of
        rbias (line 99) has the result of the first. */
    method ReadTrylock() returns (s: int)
      modifies this
      ensures s == 0 || s == 16
      ensures var pc := if s != 0 then Idle else if old(rbias && !slot) then HoldFast else HoldSlow;
              Reader(ALONE, old(At(Idle)), ME, true, At(pc))
      ensures old(Free()) ==> s == 0
      ensures old(Exclusive()) ==> s != 0 && Exclusive()
      ensures s == 0 && old(Free()) ==> !writer && ((slot && readers == 0) || (!slot && readers == 1))
    {
      if rbias && !slot {
        slot := true;
        return 0;
      }
      if writer {
        return 16;
      }
      readers := readers + 1;
      var late := *;
      if !rbias && late {
        rbias := true;
      }
      return 0;
    }

    /** bravo_read_unlock (src/bravo.c:126-139). */
    method ReadUnlock()
      requires slot || readers > 0
      modifies this
      ensures At(Idle) == ReadUnlocked(ALONE, old(At(HoldFast)), ME)
      ensures writer == old(writer)
      ensures old(slot) ==> !slot && readers == old(readers)
      ensures !old(slot) ==> !slot && readers == old(readers) - 1
    {
      if slot {
        slot := false;
      } else {
        readers := readers - 1;
      }
    }

    /** bravo_write_lock (src/bravo.c:170-181) with nobody else in the lock. */
    method WriteLock()
      requires Free()
      modifies this
      ensures Exclusive() && Writer(ALONE, old(At(Idle)), ME, false, At(HoldWrite))
    {
      writer := true;
      if rbias {
        rbias := false;
      }
    }

    method WriteUnlock()
      requires Exclusive()
      modifies this
      ensures Free() && rbias == old(rbias) && Step(ALONE, old(At(HoldWrite)), ME, At(Idle))
    {
      writer := false;
    }
  }
}
