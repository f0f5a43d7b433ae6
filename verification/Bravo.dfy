/** The BRAVO biased reader-writer lock (src/bravo.c) as an interleaving of the shared-memory accesses
    of any number of threads on any number of locks, under sequential consistency.

    A process is a (thread, lock) pair; a thread has at most one operation in progress on a lock.  The hash
    that gives a pair its slot in the shared table is left open, and so is the table's length. */
module Bravo {

  datatype Proc = Proc(thread: nat, lock: nat)

  /** A point between two shared accesses; the numbers are lines of src/bravo.c.  `fast` tells how the lock that is
      being released was taken, which the code does not know. */
  datatype Pc =
    | Idle
    | Cas(try: bool)         // rbias was true, slot computed; CAS next (63, 98)
    | Recheck(try: bool)     // slot taken; read rbias again (64, 99)
    | Withdraw(try: bool)    // rbias was false; clear the slot (68, 103)
    | SlowPath(try: bool)    // take the underlying lock for reading (73, 108)
    | TestRebias             // holds it; test rbias and the clock (85, 120)
    | SetBias                // set rbias (86, 121)
    | HoldFast               // returned, through the slot
    | HoldSlow               // returned, through the underlying lock
    | ClearSlot(fast: bool)  // unlock found the slot occupied; clear it (132)
    | DropUnderlying(fast: bool) // unlock found it NULL; unlock the underlying lock (134)
    | WantWrite(try: bool)   // take the underlying lock for writing (173, 186)
    | TestBias               // holds it; test rbias (178, 191)
    | Revoke                 // clear rbias (146)
    | Scan(next: nat)        // slots below `next` have been scanned (153-157)
    | HoldWrite              // returned

  /** One bravo_rwlock_t: the bias and the underlying pthread lock. */
  datatype Lock = Lock(rbias: bool, readers: nat, writer: bool)

  /** `slots` is visible_readers, a slot absent from it being NULL. */
  datatype State = State(locks: map<nat, Lock>, slots: map<nat, nat>, pcs: map<Proc, Pc>)

  datatype Config = Config(hash: Proc -> nat, slots: nat)

  function Go(s: State, p: Proc, pc: Pc): State { s.(pcs := s.pcs[p := pc]) }

  function SetLock(s: State, l: nat, lock: Lock): State { s.(locks := s.locks[l := lock]) }

  /** One access of process `p`. */
  ghost predicate Step(c: Config, s: State, p: Proc, s': State)
    requires p in s.pcs && p.lock in s.locks
  {
    var l, slot := p.lock, c.hash(p);
    var lock := s.locks[l];
    match s.pcs[p]
    case Idle =>
      || s' == Go(s, p, if lock.rbias then Cas(false) else SlowPath(false))
      || s' == Go(s, p, if lock.rbias then Cas(true) else SlowPath(true))
      || s' == Go(s, p, WantWrite(false))
      || s' == Go(s, p, WantWrite(true))
    case Cas(try) =>
      s' == if slot !in s.slots then Go(s, p, Recheck(try)).(slots := s.slots[slot := l]) else Go(s, p, SlowPath(try))
    case Recheck(try) => s' == Go(s, p, if lock.rbias then HoldFast else Withdraw(try))
    case Withdraw(try) => s' == Go(s, p, SlowPath(try)).(slots := s.slots - {slot})
    case SlowPath(try) =>
      if lock.writer then try && s' == Go(s, p, Idle)
      else s' == SetLock(Go(s, p, TestRebias), l, lock.(readers := lock.readers + 1))
    case TestRebias => s' == Go(s, p, HoldSlow) || (!lock.rbias && s' == Go(s, p, SetBias))
    case SetBias => s' == SetLock(Go(s, p, HoldSlow), l, lock.(rbias := true))
    case HoldFast => s' == Go(s, p, if slot in s.slots then ClearSlot(true) else DropUnderlying(true))
    case HoldSlow => s' == Go(s, p, if slot in s.slots then ClearSlot(false) else DropUnderlying(false))
    case ClearSlot(_) => s' == Go(s, p, Idle).(slots := s.slots - {slot})
    case DropUnderlying(_) =>
      s' == SetLock(Go(s, p, Idle), l, lock.(readers := if lock.readers > 0 then lock.readers - 1 else 0))
    case WantWrite(try) =>
      if lock.writer || lock.readers > 0 then try && s' == Go(s, p, Idle)
      else s' == SetLock(Go(s, p, TestBias), l, lock.(writer := true))
    case TestBias => s' == Go(s, p, if lock.rbias then Revoke else HoldWrite)
    case Revoke => s' == SetLock(Go(s, p, Scan(0)), l, lock.(rbias := false))
    case Scan(next) =>
      if next >= c.slots then s' == Go(s, p, HoldWrite)
      else !(next in s.slots && s.slots[next] == l) && s' == Go(s, p, Scan(next + 1))
    case HoldWrite => s' == SetLock(Go(s, p, Idle), l, lock.(writer := false))
  }

  /** Every process may move, and does not name a lock that is not there. */
  predicate WellFormed(s: State) {
    forall p :: p in s.pcs ==> p.lock in s.locks
  }

  ghost predicate Init(s: State) {
    && WellFormed(s) && s.slots == map[]
    && (forall p :: p in s.pcs ==> s.pcs[p] == Idle)
    && (forall l :: l in s.locks ==> s.locks[l] == Lock(true, 0, false))
  }

  /** The process has published, or means to publish, in its slot. */
  predicate Reading(pc: Pc) {
    pc.Cas? || pc.Recheck? || pc.Withdraw? || pc.SlowPath? || pc.TestRebias? || pc.SetBias?
    || pc.HoldFast? || pc.HoldSlow? || pc.ClearSlot? || pc.DropUnderlying?
  }

  /** The process has published in its slot, and has not found the slot empty since. */
  predicate Published(pc: Pc) {
    pc.Recheck? || pc.Withdraw? || pc.HoldFast? || (pc.ClearSlot? && pc.fast)
  }

  predicate Fast(pc: Pc) { Published(pc) || (pc.DropUnderlying? && pc.fast) }

  predicate Slow(pc: Pc) {
    pc.TestRebias? || pc.SetBias? || pc.HoldSlow? || ((pc.DropUnderlying? || pc.ClearSlot?) && !pc.fast)
  }

  predicate Writing(pc: Pc) { pc.TestBias? || pc.Revoke? || pc.Scan? || pc.HoldWrite? }

  /** Active readers of the locks `ls` do not share a slot of the table with readers of other locks. */
  ghost predicate ApartLocks(c: Config, s: State, ls: iset<nat>) {
    && (forall p :: p in s.pcs && Reading(s.pcs[p]) ==> c.hash(p) < c.slots)
    && forall p, q ::
         p in s.pcs && q in s.pcs && Reading(s.pcs[p]) && Reading(s.pcs[q]) && p.lock in ls && p.lock != q.lock ==>
           c.hash(p) != c.hash(q)
  }

  ghost function SlowReaders(s: State, l: nat): set<Proc> {
    set p | p in s.pcs && p.lock == l && Slow(s.pcs[p])
  }

  ghost function FastReaders(s: State, l: nat): set<Proc> {
    set p | p in s.pcs && p.lock == l && Fast(s.pcs[p])
  }

  /** The slots that show lock `l`. */
  ghost function Shows(s: State, l: nat): set<nat> {
    set i | i in s.slots && s.slots[i] == l
  }

  /** An occupied slot shows the lock of a reader that published in it. */
  ghost predicate SlotsInv(c: Config, s: State) {
    forall i :: i in s.slots ==> Shown(c, s, i, s.slots[i])
  }

  ghost predicate Shown(c: Config, s: State, i: nat, l: nat) {
    exists p :: p in s.pcs && Published(s.pcs[p]) && c.hash(p) == i && p.lock == l
  }

  /** Readers of one lock that share a slot may clear it for each other, and then unlock what they did not lock.  Still
      the underlying lock counts at least the slow readers and the fast readers that no slot shows. */
  ghost predicate CountInv(s: State, ls: iset<nat>) {
    forall l :: l in s.locks && l in ls ==> Balanced(s, l)
  }

  /** A writer of the underlying lock is alone in it. */
  ghost predicate WritersInv(s: State)
    requires WellFormed(s)
  {
    && (forall l :: l in s.locks && s.locks[l].writer ==> s.locks[l].readers == 0)
    && (forall p :: p in s.pcs && Writing(s.pcs[p]) ==> s.locks[p.lock].writer)
    && (forall p, q :: p in s.pcs && q in s.pcs && Writing(s.pcs[p]) && Writing(s.pcs[q]) && p.lock == q.lock ==>
       p == q)
  }

  ghost predicate Balanced(s: State, l: nat)
    requires l in s.locks
  {
    s.locks[l].readers + |Shows(s, l)| >= |SlowReaders(s, l)| + |FastReaders(s, l)|
  }

  /** Some writer of `l` is scanning and has not passed slot `i`. */
  ghost predicate Scanning(s: State, l: nat, i: nat) {
    exists w :: w in s.pcs && w.lock == l && s.pcs[w].Scan? && s.pcs[w].next <= i
  }

  /** Without bias, every fast reader is one that a revocation in progress still waits for. */
  ghost predicate BiasInv(c: Config, s: State, ls: iset<nat>)
    requires WellFormed(s)
  {
    && (forall p :: p in s.pcs && p.lock in ls && (s.pcs[p].Scan? || s.pcs[p].HoldWrite?) ==> !s.locks[p.lock].rbias)
    && forall p :: p in s.pcs && p.lock in ls && s.pcs[p].HoldFast? && !s.locks[p.lock].rbias ==>
         Scanning(s, p.lock, c.hash(p))
  }

  /** What runs keep where the readers of the locks `ls` share no slots with readers of other locks.  Any other locks
      may collide among themselves. */
  ghost predicate Inv(c: Config, s: State, ls: iset<nat>) {
    WellFormed(s) && SlotsInv(c, s) && WritersInv(s) && CountInv(s, ls) && BiasInv(c, s, ls)
  }

  // ----- a lock that counts no readers has none that a slot does not show

  lemma {:induction false} Onto(c: Config, a: set<Proc>, b: set<nat>)
    requires forall i :: i in b ==> exists p :: p in a && c.hash(p) == i
    ensures |b| <= |a|
  {
    if b != {} {
      var i :| i in b;
      var p :| p in a && c.hash(p) == i;
      forall j | j in b - {i} ensures exists q :: q in a - {p} && c.hash(q) == j {
        var q :| q in a && c.hash(q) == j;
        assert q in a - {p};
      }
      Onto(c, a - {p}, b - {i});
    }
  }

  lemma Within<T>(a: set<T>, b: set<T>)
    requires a <= b
    ensures |a| <= |b| && (|a| == |b| ==> a == b)
  {
    assert b == a + (b - a);
    assert |b - a| == 0 ==> b - a == {};
  }

  /** The readers of `l` that their slots show. */
  ghost function ShownReaders(c: Config, s: State, l: nat): set<Proc> {
    set p | p in s.pcs && p.lock == l && Published(s.pcs[p]) && c.hash(p) in Shows(s, l)
  }

  /** There is one for every slot. */
  lemma EnoughShown(c: Config, s: State, l: nat)
    requires SlotsInv(c, s)
    ensures |Shows(s, l)| <= |ShownReaders(c, s, l)|
    ensures ShownReaders(c, s, l) <= FastReaders(s, l)
  {
    forall i | i in Shows(s, l) ensures exists p :: p in ShownReaders(c, s, l) && c.hash(p) == i {
      assert Shown(c, s, i, l);
      var p :| p in s.pcs && Published(s.pcs[p]) && c.hash(p) == i && p.lock == l;
      assert p in ShownReaders(c, s, l);
    }
    Onto(c, ShownReaders(c, s, l), Shows(s, l));
  }

  lemma AllShown(c: Config, s: State, l: nat)
    requires WellFormed(s) && SlotsInv(c, s) && l in s.locks && Balanced(s, l) && s.locks[l].readers == 0
    ensures forall p :: p in s.pcs && p.lock == l ==> !Slow(s.pcs[p])
    ensures forall p :: p in s.pcs && p.lock == l && Fast(s.pcs[p]) ==>
              Published(s.pcs[p]) && c.hash(p) in s.slots && s.slots[c.hash(p)] == l
  {
    EnoughShown(c, s, l);
    Within(ShownReaders(c, s, l), FastReaders(s, l));
    assert SlowReaders(s, l) == {};
    assert ShownReaders(c, s, l) == FastReaders(s, l);
    assert forall p :: p in s.pcs && p.lock == l && Slow(s.pcs[p]) ==> p in SlowReaders(s, l);
    assert forall p :: p in s.pcs && p.lock == l && Fast(s.pcs[p]) ==> p in FastReaders(s, l);
  }

  /** Nobody unlocks an underlying lock that counts no reader. */
  lemma NoUnderflow(c: Config, s: State, p: Proc)
    requires WellFormed(s) && SlotsInv(c, s) && p in s.pcs && Balanced(s, p.lock) && s.pcs[p].DropUnderlying?
    ensures s.locks[p.lock].readers > 0
  {
    if s.locks[p.lock].readers == 0 {
      AllShown(c, s, p.lock);
    }
  }

  // ----- what a step does to each part of the state

  ghost predicate Frame(s: State, p: Proc, s': State) {
    && p in s.pcs && p in s'.pcs && s'.pcs == s.pcs[p := s'.pcs[p]]
    && p.lock in s.locks && p.lock in s'.locks && s'.locks == s.locks[p.lock := s'.locks[p.lock]]
  }

  /** `p` publishes in its free slot, clears its slot, enters or leaves the underlying lock as a reader, or does
      nothing of this kind. */
  ghost predicate ReadMove(c: Config, s: State, p: Proc, s': State)
    requires Frame(s, p, s')
  {
    var i, pc, pc', n, n' := c.hash(p), s.pcs[p], s'.pcs[p], s.locks[p.lock].readers, s'.locks[p.lock].readers;
    || (s'.slots == s.slots && n' == n && Slow(pc) == Slow(pc') && Fast(pc) == Fast(pc')
        && (Published(pc) && !Published(pc') ==> i !in s.slots) && (Published(pc') ==> Published(pc)))
    || (i !in s.slots && s'.slots == s.slots[i := p.lock] && n' == n && !Slow(pc) && !Slow(pc') && !Fast(pc)
       && Published(pc'))
    || (s'.slots == s.slots - {i} && n' == n && !Slow(pc') && !Fast(pc') && Reading(pc)
        && if pc.ClearSlot? then Slow(pc) == !Fast(pc) else Published(pc))
    || (s'.slots == s.slots && n' == n + 1 && !Slow(pc) && !Fast(pc) && Slow(pc') && !Fast(pc')
       && !s.locks[p.lock].writer)
    || (s'.slots == s.slots && n' == (if n > 0 then n - 1 else 0) && pc.DropUnderlying?
        && !Slow(pc') && !Fast(pc'))
  }

  /** `p` enters or leaves the underlying lock as a writer, or neither. */
  ghost predicate WriteMove(s: State, p: Proc, s': State)
    requires Frame(s, p, s')
  {
    var pc, pc', lock, lock' := s.pcs[p], s'.pcs[p], s.locks[p.lock], s'.locks[p.lock];
    || (Writing(pc) == Writing(pc') && lock'.writer == lock.writer)
    || (!Writing(pc) && Writing(pc') && !lock.writer && lock.readers == 0 && lock'.writer && lock'.readers == 0)
    || (Writing(pc) && !Writing(pc') && !lock'.writer && lock'.readers == lock.readers)
  }

  /** The bias is set by a slow reader, cleared by a writer that starts its scan, or left alone; a reader
      becomes fast only under the bias, and a scan passes only slots that do not show its lock. */
  ghost predicate BiasMove(c: Config, s: State, p: Proc, s': State)
    requires Frame(s, p, s')
  {
    var pc, pc', bias, bias' := s.pcs[p], s'.pcs[p], s.locks[p.lock].rbias, s'.locks[p.lock].rbias;
    && (pc'.HoldFast? ==> bias' && pc.Recheck?)
    && (pc'.Scan? ==>
          && !bias'
          && if pc.Scan? then pc'.next == pc.next + 1 && !(pc.next in s.slots && s.slots[pc.next] == p.lock)
             else pc.Revoke? && pc'.next == 0)
    && (pc'.HoldWrite? ==> !bias' && ((pc.Scan? && pc.next >= c.slots) || pc.TestBias?))
    && (pc.Scan? ==> pc'.Scan? || pc'.HoldWrite?)
    && (bias' != bias ==> if bias' then Slow(pc) && !Writing(pc') else pc.Revoke? && pc'.Scan?)
  }

  lemma StepFrame(c: Config, s: State, p: Proc, s': State)
    requires p in s.pcs && p.lock in s.locks && Step(c, s, p, s')
    ensures Frame(s, p, s')
  {
    assert s.locks == s.locks[p.lock := s.locks[p.lock]];
  }

  lemma StepRead(c: Config, s: State, p: Proc, s': State)
    requires p in s.pcs && p.lock in s.locks && Step(c, s, p, s') && Frame(s, p, s')
    ensures ReadMove(c, s, p, s')
  {
    var pc := s.pcs[p];
    if pc.Cas? || pc.Withdraw? || pc.ClearSlot? || pc.SlowPath? || pc.DropUnderlying? {
      StepCounts(c, s, p, s');
    } else {
      StepStays(c, s, p, s');
    }
  }

  lemma StepCounts(c: Config, s: State, p: Proc, s': State)
    requires p in s.pcs && p.lock in s.locks && Step(c, s, p, s') && Frame(s, p, s')
    requires var pc := s.pcs[p]; pc.Cas? || pc.Withdraw? || pc.ClearSlot? || pc.SlowPath? || pc.DropUnderlying?
    ensures ReadMove(c, s, p, s')
  {
  }

  lemma StepStays(c: Config, s: State, p: Proc, s': State)
    requires p in s.pcs && p.lock in s.locks && Step(c, s, p, s') && Frame(s, p, s')
    requires var pc := s.pcs[p]; !(pc.Cas? || pc.Withdraw? || pc.ClearSlot? || pc.SlowPath? || pc.DropUnderlying?)
    ensures ReadMove(c, s, p, s')
  {
    assert s'.slots == s.slots;
    assert s'.locks[p.lock].readers == s.locks[p.lock].readers;
  }

  lemma StepWrite(c: Config, s: State, p: Proc, s': State)
    requires p in s.pcs && p.lock in s.locks && Step(c, s, p, s') && Frame(s, p, s')
    ensures WriteMove(s, p, s')
  {
    var pc := s.pcs[p];
    if pc.WantWrite? || pc.HoldWrite? {
      StepEnters(c, s, p, s');
    } else {
      StepNeither(c, s, p, s');
    }
  }

  lemma StepEnters(c: Config, s: State, p: Proc, s': State)
    requires p in s.pcs && p.lock in s.locks && Step(c, s, p, s') && Frame(s, p, s')
    requires s.pcs[p].WantWrite? || s.pcs[p].HoldWrite?
    ensures WriteMove(s, p, s')
  {
  }

  lemma StepNeither(c: Config, s: State, p: Proc, s': State)
    requires p in s.pcs && p.lock in s.locks && Step(c, s, p, s') && Frame(s, p, s')
    requires !s.pcs[p].WantWrite? && !s.pcs[p].HoldWrite?
    ensures Writing(s.pcs[p]) == Writing(s'.pcs[p]) && s'.locks[p.lock].writer == s.locks[p.lock].writer
  {
  }

  lemma StepBias(c: Config, s: State, p: Proc, s': State)
    requires p in s.pcs && p.lock in s.locks && Step(c, s, p, s') && Frame(s, p, s')
    requires s.pcs[p].Scan? ==> !s.locks[p.lock].rbias
    ensures BiasMove(c, s, p, s')
  {
    var pc, pc' := s.pcs[p], s'.pcs[p];
    match pc
    case SetBias => assert pc'.HoldSlow?;
    case Revoke => assert pc' == Scan(0);
    case _ => assert s'.locks[p.lock].rbias == s.locks[p.lock].rbias;
  }

  lemma StepMoves(c: Config, s: State, ls: iset<nat>, p: Proc, s': State)
    requires WellFormed(s) && BiasInv(c, s, ls) && p in s.pcs && Step(c, s, p, s')
    ensures Frame(s, p, s') && ReadMove(c, s, p, s') && WriteMove(s, p, s')
    ensures p.lock in ls ==> BiasMove(c, s, p, s')
  {
    StepFrame(c, s, p, s');
    StepRead(c, s, p, s');
    StepWrite(c, s, p, s');
    if p.lock in ls {
      StepBias(c, s, p, s');
    }
  }

  // ----- preservation

  /** A reader clears no slot that shows another lock, if either lock is one of `ls`. */
  lemma OwnSlot(c: Config, s: State, ls: iset<nat>, p: Proc)
    requires SlotsInv(c, s) && ApartLocks(c, s, ls) && p in s.pcs && Reading(s.pcs[p]) && c.hash(p) in s.slots
    requires p.lock in ls || s.slots[c.hash(p)] in ls
    ensures s.slots[c.hash(p)] == p.lock
  {
    assert Shown(c, s, c.hash(p), s.slots[c.hash(p)]);
  }

  lemma SlotsKept(c: Config, s: State, p: Proc, s': State)
    requires SlotsInv(c, s) && Frame(s, p, s') && ReadMove(c, s, p, s')
    ensures SlotsInv(c, s')
  {
    forall i | i in s'.slots ensures Shown(c, s', i, s'.slots[i]) {
      if i in s.slots {
        assert Shown(c, s, i, s.slots[i]);
        var q :| q in s.pcs && Published(s.pcs[q]) && c.hash(q) == i && q.lock == s.slots[i];
        assert q in s'.pcs && Published(s'.pcs[q]);
      } else {
        assert p in s'.pcs && Published(s'.pcs[p]) && c.hash(p) == i;
      }
    }
  }

  ghost predicate Joins<T>(a: set<T>, x: T, was: bool, now: bool, b: set<T>) {
    && (x in a <==> was) && (x in b <==> now) && b == (if now then a + {x} else a - {x})
  }

  function One(b: bool): int {
    if b then 1 else 0
  }

  lemma JoinsCount<T>(a: set<T>, x: T, was: bool, now: bool, b: set<T>)
    requires Joins(a, x, was, now, b)
    ensures |b| == |a| + One(now) - One(was)
  {
    if was && now {
      assert b == a;
    } else if !was && !now {
      assert b == a;
    } else if was {
      assert a == b + {x};
    }
  }

  /** Only `p` may change its place among the readers, and only its slot what it shows. */
  lemma SlowMove(s: State, p: Proc, s': State, l: nat)
    requires Frame(s, p, s')
    ensures |SlowReaders(s', l)| ==
            |SlowReaders(s, l)| + if l == p.lock then One(Slow(s'.pcs[p])) - One(Slow(s.pcs[p])) else 0
  {
    if l == p.lock {
      JoinsCount(SlowReaders(s, l), p, Slow(s.pcs[p]), Slow(s'.pcs[p]), SlowReaders(s', l));
    } else {
      assert SlowReaders(s', l) == SlowReaders(s, l);
    }
  }

  lemma FastMove(s: State, p: Proc, s': State, l: nat)
    requires Frame(s, p, s')
    ensures |FastReaders(s', l)| ==
            |FastReaders(s, l)| + if l == p.lock then One(Fast(s'.pcs[p])) - One(Fast(s.pcs[p])) else 0
  {
    if l == p.lock {
      JoinsCount(FastReaders(s, l), p, Fast(s.pcs[p]), Fast(s'.pcs[p]), FastReaders(s', l));
    } else {
      assert FastReaders(s', l) == FastReaders(s, l);
    }
  }

  lemma ShowsMove(c: Config, s: State, ls: iset<nat>, p: Proc, s': State, l: nat)
    requires SlotsInv(c, s) && ApartLocks(c, s, ls) && Frame(s, p, s') && ReadMove(c, s, p, s') && l in ls
    ensures if l != p.lock then Shows(s', l) == Shows(s, l)
            else Joins(Shows(s, l), c.hash(p), c.hash(p) in Shows(s, l), c.hash(p) in Shows(s', l), Shows(s', l))
    ensures s'.slots == s.slots[c.hash(p) := p.lock] && l == p.lock ==> c.hash(p) in Shows(s', l)
    ensures s'.slots == s.slots ==> Shows(s', l) == Shows(s, l)
  {
    if Reading(s.pcs[p]) && c.hash(p) in s.slots && s.slots[c.hash(p)] == l {
      OwnSlot(c, s, ls, p);
    }
  }

  lemma BalanceKept(c: Config, s: State, ls: iset<nat>, p: Proc, s': State, l: nat)
    requires SlotsInv(c, s) && ApartLocks(c, s, ls) && Frame(s, p, s') && ReadMove(c, s, p, s')
    requires l in s.locks && l in ls && Balanced(s, l)
    ensures l in s'.locks && Balanced(s', l)
  {
    SlowMove(s, p, s', l);
    FastMove(s, p, s', l);
    ShowsMove(c, s, ls, p, s', l);
    ShowsCount(c, s, p, s', l);
  }

  lemma ShowsCount(c: Config, s: State, p: Proc, s': State, l: nat)
    requires if l != p.lock then Shows(s', l) == Shows(s, l)
             else Joins(Shows(s, l), c.hash(p), c.hash(p) in Shows(s, l), c.hash(p) in Shows(s', l), Shows(s', l))
    ensures |Shows(s', l)| == |Shows(s, l)|
            + if l == p.lock then One(c.hash(p) in Shows(s', l)) - One(c.hash(p) in Shows(s, l)) else 0
  {
    if l == p.lock {
      JoinsCount(Shows(s, l), c.hash(p), c.hash(p) in Shows(s, l), c.hash(p) in Shows(s', l), Shows(s', l));
    }
  }

  lemma WriterAlone(c: Config, s: State, p: Proc, s': State)
    requires WellFormed(s) && WritersInv(s) && Frame(s, p, s') && ReadMove(c, s, p, s') && WriteMove(s, p, s')
    ensures s'.locks[p.lock].writer ==> s'.locks[p.lock].readers == 0
    ensures Writing(s'.pcs[p]) ==> s'.locks[p.lock].writer
  {
  }

  lemma OneWriter(s: State, p: Proc, s': State, q: Proc)
    requires WellFormed(s) && WritersInv(s) && Frame(s, p, s') && WriteMove(s, p, s')
    requires q in s.pcs && q != p && q.lock == p.lock && Writing(s.pcs[q])
    ensures s'.locks[p.lock].writer && !Writing(s'.pcs[p])
  {
  }

  lemma WritersKept(c: Config, s: State, p: Proc, s': State)
    requires WellFormed(s) && WritersInv(s) && Frame(s, p, s') && ReadMove(c, s, p, s') && WriteMove(s, p, s')
    ensures WellFormed(s') && WritersInv(s')
  {
    WriterAlone(c, s, p, s');
    forall q | q in s'.pcs && q != p && Writing(s'.pcs[q])
      ensures s'.locks[q.lock].writer && (q.lock == p.lock ==> !Writing(s'.pcs[p]))
    {
      if q.lock == p.lock {
        OneWriter(s, p, s', q);
      }
    }
  }

  lemma SlowExcludesWriter(c: Config, s: State, p: Proc)
    requires WellFormed(s) && SlotsInv(c, s) && WritersInv(s) && p in s.pcs && Balanced(s, p.lock) && Slow(s.pcs[p])
    ensures !s.locks[p.lock].writer
  {
    if s.locks[p.lock].writer {
      AllShown(c, s, p.lock);
    }
  }

  lemma WriterBiasKept(c: Config, s: State, ls: iset<nat>, p: Proc, s': State, w: Proc)
    requires Inv(c, s, ls) && Frame(s, p, s') && (p.lock in ls ==> BiasMove(c, s, p, s')) && WellFormed(s')
    requires w in s'.pcs && w.lock in ls && (s'.pcs[w].Scan? || s'.pcs[w].HoldWrite?)
    ensures !s'.locks[w.lock].rbias
  {
    if w != p && w.lock == p.lock && Slow(s.pcs[p]) {
      SlowExcludesWriter(c, s, p);
    }
  }

  lemma ScanWaits(c: Config, s: State, w: Proc, q: Proc)
    requires WellFormed(s) && SlotsInv(c, s) && WritersInv(s) && w in s.pcs && Balanced(s, w.lock) && s.pcs[w].Scan?
    requires q in s.pcs && q.lock == w.lock && s.pcs[q].HoldFast?
    ensures c.hash(q) in s.slots && s.slots[c.hash(q)] == w.lock
  {
    assert Writing(s.pcs[w]);
    AllShown(c, s, w.lock);
  }

  lemma ScanGoesOn(c: Config, s: State, p: Proc, s': State, w: Proc, i: nat)
    requires Frame(s, p, s') && (p.lock == w.lock ==> BiasMove(c, s, p, s'))
    requires w in s.pcs && s.pcs[w].Scan? && s.pcs[w].next <= i < c.slots && i in s.slots && s.slots[i] == w.lock
    ensures Scanning(s', w.lock, i)
  {
    assert w in s'.pcs && s'.pcs[w].Scan? && s'.pcs[w].next <= i;
  }

  /** A fast reader that a scan has before it stays so: its slot shows the lock, so the scan cannot pass. */
  lemma FastBiasKept(c: Config, s: State, ls: iset<nat>, p: Proc, s': State, q: Proc)
    requires Inv(c, s, ls) && Frame(s, p, s') && (p.lock in ls ==> BiasMove(c, s, p, s'))
    requires q in s.pcs && q.lock in ls && c.hash(q) < c.slots && s'.pcs[q].HoldFast? && !s'.locks[q.lock].rbias
    ensures Scanning(s', q.lock, c.hash(q))
  {
    if s.pcs[p].Revoke? && p.lock == q.lock && s'.pcs[p].Scan? {
      assert s'.pcs[p].next <= c.hash(q);
    } else {
      FastBefore(c, s, ls, p, s', q);
      var w :| w in s.pcs && w.lock == q.lock && s.pcs[w].Scan? && s.pcs[w].next <= c.hash(q);
      ScanWaits(c, s, w, q);
      ScanGoesOn(c, s, p, s', w, c.hash(q));
    }
  }

  lemma FastBefore(c: Config, s: State, ls: iset<nat>, p: Proc, s': State, q: Proc)
    requires WellFormed(s) && BiasInv(c, s, ls) && Frame(s, p, s') && (p.lock in ls ==> BiasMove(c, s, p, s'))
    requires q in s.pcs && q.lock in ls && s'.pcs[q].HoldFast? && !s'.locks[q.lock].rbias
             && !(s.pcs[p].Revoke? && p.lock == q.lock && s'.pcs[p].Scan?)
    ensures s.pcs[q].HoldFast? && Scanning(s, q.lock, c.hash(q))
  {
    assert s.locks[q.lock].rbias == s'.locks[q.lock].rbias;
  }

  lemma BiasKept(c: Config, s: State, ls: iset<nat>, p: Proc, s': State)
    requires Inv(c, s, ls) && Frame(s, p, s') && (p.lock in ls ==> BiasMove(c, s, p, s')) && WellFormed(s')
    requires forall q :: q in s.pcs && Reading(s.pcs[q]) ==> c.hash(q) < c.slots
    ensures BiasInv(c, s', ls)
  {
    forall w | w in s'.pcs && w.lock in ls && (s'.pcs[w].Scan? || s'.pcs[w].HoldWrite?)
      ensures !s'.locks[w.lock].rbias
    {
      WriterBiasKept(c, s, ls, p, s', w);
    }
    forall q | q in s'.pcs && q.lock in ls && s'.pcs[q].HoldFast? && !s'.locks[q.lock].rbias
      ensures Scanning(s', q.lock, c.hash(q))
    {
      FastBiasKept(c, s, ls, p, s', q);
    }
  }

  lemma StepKeeps(c: Config, s: State, ls: iset<nat>, p: Proc, s': State)
    requires Inv(c, s, ls) && ApartLocks(c, s, ls) && p in s.pcs && Step(c, s, p, s')
    ensures Inv(c, s', ls)
  {
    StepMoves(c, s, ls, p, s');
    SlotsKept(c, s, p, s');
    forall l | l in s'.locks && l in ls ensures Balanced(s', l) {
      BalanceKept(c, s, ls, p, s', l);
    }
    WritersKept(c, s, p, s');
    BiasKept(c, s, ls, p, s');
  }

  // ----- runs

  ghost predicate Path(c: Config, ss: seq<State>, ps: seq<Proc>) {
    && |ss| == |ps| + 1
    && forall i :: 0 <= i < |ps| ==> Taken(c, ss, ps, i)
  }

  ghost predicate Taken(c: Config, ss: seq<State>, ps: seq<Proc>, i: nat)
    requires i < |ps| && i + 1 < |ss|
  {
    WellFormed(ss[i]) && ps[i] in ss[i].pcs && Step(c, ss[i], ps[i], ss[i + 1])
  }

  ghost predicate Run(c: Config, ss: seq<State>, ps: seq<Proc>) {
    Path(c, ss, ps) && Init(ss[0])
  }

  /** `s` is a state of a run in which active readers of the locks `ls` never share a slot with those of others. */
  ghost predicate Reachable(c: Config, s: State, ls: iset<nat>) {
    exists ss, ps :: Run(c, ss, ps) && (forall i :: 0 <= i < |ss| ==> ApartLocks(c, ss[i], ls)) && ss[|ps|] == s
  }

  lemma InitInv(c: Config, s: State, ls: iset<nat>)
    requires Init(s)
    ensures Inv(c, s, ls)
  {
    forall l | l in s.locks ensures Balanced(s, l) {
      assert SlowReaders(s, l) == {} && FastReaders(s, l) == {};
    }
  }

  lemma {:induction false} RunKeeps(c: Config, ss: seq<State>, ls: iset<nat>, ps: seq<Proc>, n: nat)
    requires Run(c, ss, ps) && n < |ss| && forall i :: 0 <= i < |ss| ==> ApartLocks(c, ss[i], ls)
    ensures Inv(c, ss[n], ls)
  {
    if n == 0 {
      InitInv(c, ss[0], ls);
    } else {
      RunKeeps(c, ss, ls, ps, n - 1);
      assert Taken(c, ss, ps, n - 1);
      StepKeeps(c, ss[n - 1], ls, ps[n - 1], ss[n]);
    }
  }

  lemma ReachableInv(c: Config, s: State, ls: iset<nat>)
    requires Reachable(c, s, ls)
    ensures Inv(c, s, ls) && ApartLocks(c, s, ls)
  {
    var ss, ps :| Run(c, ss, ps) && (forall i :: 0 <= i < |ss| ==> ApartLocks(c, ss[i], ls)) && ss[|ps|] == s;
    RunKeeps(c, ss, ls, ps, |ps|);
  }

  /** Who has returned from bravo_write_lock of one of the locks `ls` shares it with no reader, fast or slow, and with
      no writer. */
  ghost predicate Excludes(s: State, ls: iset<nat>) {
    forall w, q :: w in s.pcs && q in s.pcs && w != q && w.lock == q.lock && w.lock in ls && s.pcs[w].HoldWrite? ==>
      !s.pcs[q].HoldFast? && !s.pcs[q].HoldSlow? && !s.pcs[q].HoldWrite?
  }

  /** Mutual exclusion, in every state of every run, for all locks whose readers share no slots with readers of other
      locks. */
  lemma MutualExclusion(c: Config, s: State, ls: iset<nat>)
    requires Reachable(c, s, ls)
    ensures Excludes(s, ls)
  {
    ReachableInv(c, s, ls);
    forall w, q | w in s.pcs && q in s.pcs && w != q && w.lock == q.lock && w.lock in ls && s.pcs[w].HoldWrite?
      ensures !s.pcs[q].HoldFast? && !s.pcs[q].HoldSlow? && !s.pcs[q].HoldWrite?
    {
      if s.pcs[q].HoldSlow? {
        SlowExcludesWriter(c, s, q);
      }
    }
  }

  ghost function FastHolders(s: State, l: nat): set<Proc> {
    set p | p in s.pcs && p.lock == l && s.pcs[p].HoldFast?
  }

  /** While a writer scans, no thread becomes a fast holder of its lock, and none is left below the scan. */
  lemma RevocationShrinks(c: Config, s: State, ls: iset<nat>, p: Proc, s': State, w: Proc)
    requires Reachable(c, s, ls) && p in s.pcs && p.lock in s.locks && Step(c, s, p, s')
    requires w in s.pcs && w.lock in ls && s.pcs[w].Scan?
    ensures FastHolders(s', w.lock) <= FastHolders(s, w.lock)
    ensures forall q :: q in FastHolders(s, w.lock) ==> s.pcs[w].next <= c.hash(q)
  {
    ReachableInv(c, s, ls);
    StepFrame(c, s, p, s');
    if p.lock == w.lock {
      StepBias(c, s, p, s');
    }
    ScanIsLowBound(c, s, ls, w);
  }

  lemma ScanIsLowBound(c: Config, s: State, ls: iset<nat>, w: Proc)
    requires Inv(c, s, ls) && w in s.pcs && w.lock in ls && s.pcs[w].Scan?
    ensures forall q :: q in FastHolders(s, w.lock) ==> s.pcs[w].next <= c.hash(q)
  {
    forall q | q in FastHolders(s, w.lock) ensures s.pcs[w].next <= c.hash(q) {
      assert Scanning(s, w.lock, c.hash(q));
    }
  }

  lemma WriterHolds(c: Config, s: State, ls: iset<nat>, w: Proc)
    requires Inv(c, s, ls) && w in s.pcs && w.lock in ls && s.pcs[w].HoldWrite?
    ensures s.locks[w.lock].writer && !s.locks[w.lock].rbias
  {
  }

  lemma TryFails(c: Config, s: State, p: Proc, s': State)
    requires p in s.pcs && p.lock in s.locks && Step(c, s, p, s') && s.locks[p.lock].writer && !s.locks[p.lock].rbias
    ensures s.pcs[p].Idle? ==> !s'.pcs[p].Cas?
    ensures s.pcs[p].SlowPath? ==> s.pcs[p].try && s' == Go(s, p, Idle)
  {
  }

  /** Under a writer that has returned, an attempt to read-lock takes the slow path, and a try there
      fails and changes nothing but the attempt itself. */
  lemma TryFailsUnderWriter(c: Config, s: State, ls: iset<nat>, p: Proc, s': State, w: Proc)
    requires Reachable(c, s, ls) && p in s.pcs && p.lock in s.locks && Step(c, s, p, s')
    requires w in s.pcs && s.pcs[w].HoldWrite? && p.lock == w.lock && w.lock in ls && p != w
    ensures s.pcs[p].Idle? ==> !s'.pcs[p].Cas?
    ensures s.pcs[p].SlowPath? ==> s.pcs[p].try && s' == Go(s, p, Idle)
  {
    ReachableInv(c, s, ls);
    WriterHolds(c, s, ls, w);
    TryFails(c, s, p, s');
  }

  // ----- release agreement, which needs slots of their own also for readers of one lock

  ghost const ALL: iset<nat> := iset l: nat | true

  ghost predicate DistinctSlots(c: Config, s: State) {
    && (forall p :: p in s.pcs && Reading(s.pcs[p]) ==> c.hash(p) < c.slots)
    && forall p, q :: p in s.pcs && q in s.pcs && p != q && Reading(s.pcs[p]) && Reading(s.pcs[q]) ==>
       c.hash(p) != c.hash(q)
  }

  /** Every published reader is shown, everyone releases the way he acquired, and the count is exact. */
  ghost predicate Agreed(c: Config, s: State)
    requires WellFormed(s)
  {
    && (forall p :: p in s.pcs && Published(s.pcs[p]) ==> c.hash(p) in s.slots)
    && (forall p :: p in s.pcs ==>
       !(s.pcs[p].DropUnderlying? && s.pcs[p].fast) && !(s.pcs[p].ClearSlot? && !s.pcs[p].fast))
    && forall l :: l in s.locks ==> s.locks[l].readers == |SlowReaders(s, l)|
  }

  /** A reader finds its slot occupied when it unlocks iff it acquired through the slot. */
  lemma ReleaseAgrees(c: Config, s: State, p: Proc)
    requires WellFormed(s) && SlotsInv(c, s) && DistinctSlots(c, s) && Agreed(c, s) && p in s.pcs
    ensures s.pcs[p].HoldFast? ==> c.hash(p) in s.slots
    ensures s.pcs[p].HoldSlow? ==> c.hash(p) !in s.slots
  {
    assert c.hash(p) in s.slots ==> Shown(c, s, c.hash(p), s.slots[c.hash(p)]);
  }

  lemma AgreedKept(c: Config, s: State, p: Proc, s': State)
    requires Inv(c, s, ALL) && DistinctSlots(c, s) && Agreed(c, s) && p in s.pcs && Step(c, s, p, s')
    ensures WellFormed(s') && Agreed(c, s')
  {
    ReleaseAgrees(c, s, p);
    StepMoves(c, s, ALL, p, s');
    if s.pcs[p].DropUnderlying? {
      NoUnderflow(c, s, p);
    }
    AgreedPcs(c, s, p, s');
    AgreedSlots(c, s, p, s');
    forall l | l in s'.locks ensures s'.locks[l].readers == |SlowReaders(s', l)| {
      SlowMove(s, p, s', l);
      AgreedCount(c, s, p, s', l);
    }
    AgreedOthers(s, p, s');
  }

  lemma AgreedOthers(s: State, p: Proc, s': State)
    requires Frame(s, p, s') && !(s'.pcs[p].DropUnderlying? && s'.pcs[p].fast)
             && !(s'.pcs[p].ClearSlot? && !s'.pcs[p].fast)
    requires forall q :: q in s.pcs ==>
             !(s.pcs[q].DropUnderlying? && s.pcs[q].fast) && !(s.pcs[q].ClearSlot? && !s.pcs[q].fast)
    ensures forall q :: q in s'.pcs ==>
            !(s'.pcs[q].DropUnderlying? && s'.pcs[q].fast) && !(s'.pcs[q].ClearSlot? && !s'.pcs[q].fast)
  {
  }

  lemma AgreedSlots(c: Config, s: State, p: Proc, s': State)
    requires DistinctSlots(c, s) && Frame(s, p, s') && ReadMove(c, s, p, s')
    requires forall q :: q in s.pcs && Published(s.pcs[q]) ==> c.hash(q) in s.slots
    ensures forall q :: q in s'.pcs && Published(s'.pcs[q]) ==> c.hash(q) in s'.slots
  {
  }

  lemma AgreedCount(c: Config, s: State, p: Proc, s': State, l: nat)
    requires Frame(s, p, s') && ReadMove(c, s, p, s') && l in s.locks && s.locks[l].readers == |SlowReaders(s, l)|
    requires !(s.pcs[p].DropUnderlying? && s.pcs[p].fast) && !(s.pcs[p].ClearSlot? && !s.pcs[p].fast)
    requires s.pcs[p].DropUnderlying? ==> s.locks[p.lock].readers > 0
    requires |SlowReaders(s', l)| ==
             |SlowReaders(s, l)| + if l == p.lock then One(Slow(s'.pcs[p])) - One(Slow(s.pcs[p])) else 0
    ensures s'.locks[l].readers == |SlowReaders(s', l)|
  {
  }

  lemma AgreedPcs(c: Config, s: State, p: Proc, s': State)
    requires p in s.pcs && p.lock in s.locks && Step(c, s, p, s') && Frame(s, p, s') && ReadMove(c, s, p, s')
    requires s.pcs[p].HoldFast? ==> c.hash(p) in s.slots
    requires s.pcs[p].HoldSlow? ==> c.hash(p) !in s.slots
    ensures !(s'.pcs[p].DropUnderlying? && s'.pcs[p].fast) && !(s'.pcs[p].ClearSlot? && !s'.pcs[p].fast)
  {
  }

  ghost predicate ReachableApart(c: Config, s: State) {
    exists ss, ps :: Run(c, ss, ps) && (forall i :: 0 <= i < |ss| ==> DistinctSlots(c, ss[i])) && ss[|ps|] == s
  }

  lemma {:induction false} RunAgrees(c: Config, ss: seq<State>, ps: seq<Proc>, n: nat)
    requires Run(c, ss, ps) && n < |ss| && forall i :: 0 <= i < |ss| ==> DistinctSlots(c, ss[i])
    ensures Inv(c, ss[n], ALL) && Agreed(c, ss[n])
  {
    if n == 0 {
      InitInv(c, ss[0], ALL);
      InitAgrees(c, ss[0]);
    } else {
      RunAgrees(c, ss, ps, n - 1);
      assert Taken(c, ss, ps, n - 1);
      AgreedStep(c, ss[n - 1], ps[n - 1], ss[n]);
    }
  }

  lemma InitAgrees(c: Config, s: State)
    requires Init(s)
    ensures Agreed(c, s)
  {
    forall l | l in s.locks ensures s.locks[l].readers == |SlowReaders(s, l)| {
      assert SlowReaders(s, l) == {};
    }
  }

  lemma AgreedStep(c: Config, s: State, p: Proc, s': State)
    requires Inv(c, s, ALL) && DistinctSlots(c, s) && Agreed(c, s) && p in s.pcs && Step(c, s, p, s')
    ensures Inv(c, s', ALL) && Agreed(c, s')
  {
    DistinctApart(c, s);
    StepKeeps(c, s, ALL, p, s');
    AgreedKept(c, s, p, s');
  }

  lemma DistinctApart(c: Config, s: State)
    requires DistinctSlots(c, s)
    ensures ApartLocks(c, s, ALL)
  {
  }

  /** Release agreement: where all active readers have slots of their own, the reader count of the underlying lock is
      the number of slow readers, a fast holder unlocks through its slot, a slow one through the underlying lock. */
  lemma ReleaseAgreement(c: Config, s: State, p: Proc, s': State)
    requires ReachableApart(c, s) && p in s.pcs && p.lock in s.locks && Step(c, s, p, s')
    ensures s.locks[p.lock].readers == |SlowReaders(s, p.lock)|
    ensures s.pcs[p].HoldFast? ==> s' == Go(s, p, ClearSlot(true))
    ensures s.pcs[p].HoldSlow? ==> s' == Go(s, p, DropUnderlying(false))
  {
    var ss, ps :| Run(c, ss, ps) && (forall i :: 0 <= i < |ss| ==> DistinctSlots(c, ss[i])) && ss[|ps|] == s;
    RunAgrees(c, ss, ps, |ps|);
    ReleaseAgrees(c, s, p);
  }
}
