/** A thread that runs alone through one operation of the lock, from any state that the others may have left: what it
    comes to, by every sequence of its own steps, and that it comes there.  In particular a try succeeds exactly if it
    can. */
module BravoSolo {
  import opened Bravo

  /** Steps of `p` and of nobody else. */
  ghost predicate Solo(c: Config, ss: seq<State>, p: Proc) {
    |ss| > 0 && forall i :: 0 <= i < |ss| - 1 ==> SoloStep(c, ss, p, i)
  }

  ghost predicate SoloStep(c: Config, ss: seq<State>, p: Proc, i: nat)
    requires i + 1 < |ss|
  {
    WellFormed(ss[i]) && p in ss[i].pcs && Step(c, ss[i], p, ss[i + 1])
  }

  // ----- reading

  /** `p` has begun to lock for reading in state `s`; this is the state it has come to, in each case exactly. */
  ghost predicate Reader(c: Config, s: State, p: Proc, try: bool, s': State)
    requires p in s.pcs && p.lock in s.locks && p in s'.pcs
  {
    var l, slot := p.lock, c.hash(p);
    var lock, pc := s.locks[l], s'.pcs[p];
    var taken := s.slots[slot := l];
    var counted := lock.(readers := lock.readers + 1);
    var fast := lock.rbias && slot !in s.slots;
    match pc
    case Cas(t) => t == try && lock.rbias && s' == Go(s, p, pc)
    case Recheck(t) => t == try && fast && s' == Go(s, p, pc).(slots := taken)
    case HoldFast => fast && s' == Go(s, p, pc).(slots := taken)
    case SlowPath(t) => t == try && !fast && s' == Go(s, p, pc)
    case TestRebias => !fast && !lock.writer && s' == SetLock(Go(s, p, pc), l, counted)
    case SetBias => !fast && !lock.writer && !lock.rbias && s' == SetLock(Go(s, p, pc), l, counted)
    case HoldSlow =>
      && !fast && !lock.writer
      && (s' == SetLock(Go(s, p, pc), l, counted)
          || (!lock.rbias && s' == SetLock(Go(s, p, pc), l, counted.(rbias := true))))
    case Idle => try && !fast && lock.writer && s' == Go(s, p, pc)
    case _ => false
  }

  /** It has returned. */
  predicate ReadDone(pc: Pc) { pc.HoldFast? || pc.HoldSlow? || pc.Idle? }

  function ReadSteps(pc: Pc): nat {
    match pc
    case Cas(_) => 5
    case SlowPath(_) => 4
    case TestRebias => 3
    case Recheck(_) => 2
    case SetBias => 1
    case _ => 0
  }

  lemma ReaderBegins(c: Config, s: State, p: Proc, try: bool, s': State)
    requires p in s.pcs && p.lock in s.locks && s.pcs[p].Idle? && Step(c, s, p, s')
    requires p in s'.pcs && (s'.pcs[p] == Cas(try) || s'.pcs[p] == SlowPath(try))
    ensures Reader(c, s, p, try, s')
  {
  }

  lemma GoTwice(s: State, p: Proc, pc: Pc, pc': Pc)
    ensures s.pcs[p := pc][p := pc'] == s.pcs[p := pc']
  {
  }

  lemma SetTwice(s: State, l: nat, lock: Lock, lock': Lock)
    ensures s.locks[l := lock][l := lock'] == s.locks[l := lock']
  {
  }

  lemma FastGoesOn(c: Config, s: State, p: Proc, try: bool, s1: State, s2: State)
    requires p in s.pcs && p.lock in s.locks && p in s1.pcs && Reader(c, s, p, try, s1)
    requires s1.pcs[p].Cas? || s1.pcs[p].Recheck?
    requires p.lock in s1.locks && Step(c, s1, p, s2)
    ensures p in s2.pcs && Reader(c, s, p, try, s2) && ReadSteps(s2.pcs[p]) < ReadSteps(s1.pcs[p])
  {
    GoTwice(s, p, s1.pcs[p], Recheck(try));
    GoTwice(s, p, s1.pcs[p], SlowPath(try));
    GoTwice(s, p, s1.pcs[p], HoldFast);
  }

  lemma TakesCount(c: Config, s: State, p: Proc, try: bool, s1: State, s2: State)
    requires p in s.pcs && p.lock in s.locks && p in s1.pcs && Reader(c, s, p, try, s1) && s1.pcs[p].SlowPath?
    requires p.lock in s1.locks && Step(c, s1, p, s2)
    ensures p in s2.pcs && Reader(c, s, p, try, s2) && ReadSteps(s2.pcs[p]) < ReadSteps(s1.pcs[p])
  {
    GoTwice(s, p, s1.pcs[p], TestRebias);
    GoTwice(s, p, s1.pcs[p], Idle);
  }

  lemma SlowGoesOn(c: Config, s: State, p: Proc, try: bool, s1: State, s2: State)
    requires p in s.pcs && p.lock in s.locks && p in s1.pcs && Reader(c, s, p, try, s1)
    requires s1.pcs[p].TestRebias? || s1.pcs[p].SetBias?
    requires p.lock in s1.locks && Step(c, s1, p, s2)
    ensures p in s2.pcs && Reader(c, s, p, try, s2) && ReadSteps(s2.pcs[p]) < ReadSteps(s1.pcs[p])
  {
    var l := p.lock;
    var counted := s.locks[l].(readers := s.locks[l].readers + 1);
    GoTwice(s, p, s1.pcs[p], HoldSlow);
    GoTwice(s, p, s1.pcs[p], SetBias);
    SetTwice(s, l, counted, counted.(rbias := true));
  }

  /** Each step of its own takes it on; it never comes to withdraw. */
  lemma ReaderGoesOn(c: Config, s: State, p: Proc, try: bool, s1: State, s2: State)
    requires p in s.pcs && p.lock in s.locks && p in s1.pcs && Reader(c, s, p, try, s1) && !ReadDone(s1.pcs[p])
    requires p.lock in s1.locks && Step(c, s1, p, s2)
    ensures p in s2.pcs && Reader(c, s, p, try, s2) && ReadSteps(s2.pcs[p]) < ReadSteps(s1.pcs[p])
  {
    if s1.pcs[p].Cas? || s1.pcs[p].Recheck? {
      FastGoesOn(c, s, p, try, s1, s2);
    } else if s1.pcs[p].SlowPath? {
      TakesCount(c, s, p, try, s1, s2);
    } else {
      SlowGoesOn(c, s, p, try, s1, s2);
    }
  }

  /** There is one, unless it waits for a writer. */
  lemma ReaderMoves(c: Config, s: State, p: Proc, try: bool, s1: State) returns (s2: State)
    requires p in s.pcs && p.lock in s.locks && p in s1.pcs && Reader(c, s, p, try, s1) && !ReadDone(s1.pcs[p])
    requires try || !s.locks[p.lock].writer
    ensures p.lock in s1.locks && Step(c, s1, p, s2)
  {
    var l, slot := p.lock, c.hash(p);
    var lock := s1.locks[l];
    match s1.pcs[p]
    case Cas(t) =>
      s2 := if slot !in s1.slots then Go(s1, p, Recheck(t)).(slots := s1.slots[slot := l]) else Go(s1, p, SlowPath(t));
    case Recheck(_) => s2 := Go(s1, p, HoldFast);
    case SlowPath(_) =>
      s2 := if lock.writer then Go(s1, p, Idle)
            else SetLock(Go(s1, p, TestRebias), l, lock.(readers := lock.readers + 1));
    case TestRebias => s2 := Go(s1, p, HoldSlow);
    case _ => s2 := SetLock(Go(s1, p, HoldSlow), l, lock.(rbias := true));
  }

  /** So, however it goes, it has come to one of these states, and has returned after at most six steps; in a state that
      other threads may have left in any way. */
  lemma {:induction false} ReaderRun(c: Config, ss: seq<State>, p: Proc, try: bool, n: nat)
    requires Solo(c, ss, p) && 1 <= n < |ss| && p in ss[0].pcs && p.lock in ss[0].locks && ss[0].pcs[p].Idle?
    requires p in ss[1].pcs && (ss[1].pcs[p] == Cas(try) || ss[1].pcs[p] == SlowPath(try))
    requires forall i :: 1 <= i < n ==> p in ss[i].pcs && !ReadDone(ss[i].pcs[p])
    ensures p in ss[n].pcs && Reader(c, ss[0], p, try, ss[n]) && n + ReadSteps(ss[n].pcs[p]) <= 6
  {
    assert SoloStep(c, ss, p, n - 1);
    if n == 1 {
      ReaderBegins(c, ss[0], p, try, ss[1]);
    } else {
      ReaderRun(c, ss, p, try, n - 1);
      ReaderGoesOn(c, ss[0], p, try, ss[n - 1], ss[n]);
    }
  }

  /** A try that has returned has failed exactly if the slow path had to be taken and there was a writer; then nothing
      has changed.  Else it holds the lock: through its slot if there was a bias and the slot was free, through the
      underlying lock if not. */
  lemma TryExact(c: Config, s: State, p: Proc, s': State)
    requires p in s.pcs && p.lock in s.locks && s.pcs[p].Idle? && p in s'.pcs
    requires Reader(c, s, p, true, s') && ReadDone(s'.pcs[p])
    ensures s'.pcs[p].HoldFast? <==> s.locks[p.lock].rbias && c.hash(p) !in s.slots
    ensures s'.pcs[p].Idle? <==> !(s.locks[p.lock].rbias && c.hash(p) !in s.slots) && s.locks[p.lock].writer
    ensures s'.pcs[p].Idle? ==> s' == s
  {
    assert s.pcs[p := Idle] == s.pcs;
  }

  /** It does return: a try always, else if there is no writer. */
  lemma {:induction false} ReaderReturns(c: Config, s: State, p: Proc, try: bool, ss: seq<State>)
      returns (ss': seq<State>)
    requires WellFormed(s) && p in s.pcs && (try || !s.locks[p.lock].writer)
    requires Solo(c, ss, p) && ss[0] == s && p in ss[|ss| - 1].pcs && Reader(c, s, p, try, ss[|ss| - 1])
             && WellFormed(ss[|ss| - 1])
    ensures Solo(c, ss', p) && ss'[0] == s && p in ss'[|ss'| - 1].pcs
    ensures Reader(c, s, p, try, ss'[|ss'| - 1]) && ReadDone(ss'[|ss'| - 1].pcs[p])
    decreases ReadSteps(ss[|ss| - 1].pcs[p])
  {
    ss' := ss;
    var s1 := ss[|ss| - 1];
    if !ReadDone(s1.pcs[p]) {
      var s2 := ReaderMoves(c, s, p, try, s1);
      ReaderGoesOn(c, s, p, try, s1, s2);
      SoloNext(c, ss, p, s2);
      StepFrame(c, s1, p, s2);
      ss' := ReaderReturns(c, s, p, try, ss + [s2]);
    }
  }

  lemma SoloNext(c: Config, ss: seq<State>, p: Proc, s': State)
    requires Solo(c, ss, p) && WellFormed(ss[|ss| - 1]) && p in ss[|ss| - 1].pcs && Step(c, ss[|ss| - 1], p, s')
    ensures Solo(c, ss + [s'], p)
  {
    forall i | 0 <= i < |ss| ensures SoloStep(c, ss + [s'], p, i) {
      assert i < |ss| - 1 ==> SoloStep(c, ss, p, i);
    }
  }

  /** From every state a try comes to its end, as TryExact says. */
  lemma TryReturns(c: Config, s: State, p: Proc) returns (ss: seq<State>)
    requires WellFormed(s) && p in s.pcs && s.pcs[p].Idle?
    ensures Solo(c, ss, p) && ss[0] == s && p in ss[|ss| - 1].pcs
    ensures Reader(c, s, p, true, ss[|ss| - 1]) && ReadDone(ss[|ss| - 1].pcs[p])
  {
    var s1 := Go(s, p, if s.locks[p.lock].rbias then Cas(true) else SlowPath(true));
    assert Solo(c, [s], p);
    SoloNext(c, [s], p, s1);
    ReaderBegins(c, s, p, true, s1);
    ss := ReaderReturns(c, s, p, true, [s] + [s1]);
  }

  /** Without a writer a try from an idle thread leads to a lock held. */
  lemma TrySucceeds(c: Config, s: State, p: Proc) returns (ss: seq<State>)
    requires WellFormed(s) && p in s.pcs && s.pcs[p].Idle? && !s.locks[p.lock].writer
    ensures Solo(c, ss, p) && ss[0] == s && p in ss[|ss| - 1].pcs
    ensures ss[|ss| - 1].pcs[p].HoldFast? || ss[|ss| - 1].pcs[p].HoldSlow?
  {
    ss := TryReturns(c, s, p);
    TryExact(c, s, p, ss[|ss| - 1]);
  }

  /** The steps on which tries fail. */
  lemma TryStepExact(c: Config, s: State, p: Proc, s': State)
    requires p in s.pcs && p.lock in s.locks && p in s'.pcs && Step(c, s, p, s')
    ensures s.pcs[p] == SlowPath(true) ==> (s'.pcs[p].Idle? <==> s.locks[p.lock].writer)
    ensures s.pcs[p] == WantWrite(true) ==>
              (s'.pcs[p].Idle? <==> s.locks[p.lock].writer || s.locks[p.lock].readers > 0)
  {
  }

  // ----- writing

  /** No slot below `n` shows the lock. */
  ghost predicate Hidden(s: State, l: nat, n: nat) {
    forall i :: 0 <= i < n ==> !(i in s.slots && s.slots[i] == l)
  }

  /** `p` has begun to lock for writing in state `s`. */
  ghost predicate Writer(c: Config, s: State, p: Proc, try: bool, s': State)
    requires p in s.pcs && p.lock in s.locks && p in s'.pcs
  {
    var lock, pc := s.locks[p.lock], s'.pcs[p];
    var free := !lock.writer && lock.readers == 0;
    match pc
    case WantWrite(t) => t == try && s' == Go(s, p, pc)
    case Idle => try && !free && s' == Go(s, p, pc)
    case TestBias => free && s' == SetLock(Go(s, p, pc), p.lock, lock.(writer := true))
    case Revoke => free && lock.rbias && s' == SetLock(Go(s, p, pc), p.lock, lock.(writer := true))
    case Scan(n) =>
      && free && lock.rbias && n <= c.slots && Hidden(s, p.lock, n)
      && s' == SetLock(Go(s, p, pc), p.lock, Lock(false, 0, true))
    case HoldWrite =>
      && free && s' == SetLock(Go(s, p, pc), p.lock, Lock(false, 0, true))
         && (lock.rbias ==> Hidden(s, p.lock, c.slots))
    case _ => false
  }

  predicate WriteDone(pc: Pc) { pc.HoldWrite? || pc.Idle? }

  function WriteSteps(c: Config, pc: Pc): nat {
    match pc
    case WantWrite(_) => c.slots + 4
    case TestBias => c.slots + 3
    case Revoke => c.slots + 2
    case Scan(n) => if n <= c.slots then c.slots - n + 1 else 0
    case _ => 0
  }

  lemma WriterGoesOn(c: Config, s: State, p: Proc, try: bool, s1: State, s2: State)
    requires p in s.pcs && p.lock in s.locks && p in s1.pcs && Writer(c, s, p, try, s1) && !WriteDone(s1.pcs[p])
    requires p.lock in s1.locks && Step(c, s1, p, s2)
    ensures p in s2.pcs && Writer(c, s, p, try, s2) && WriteSteps(c, s2.pcs[p]) < WriteSteps(c, s1.pcs[p])
  {
    GoTwice(s, p, s1.pcs[p], s2.pcs[p]);
    SetTwice(s, p.lock, s1.locks[p.lock], s2.locks[p.lock]);
    if s1.pcs[p].TestBias? && !s.locks[p.lock].rbias {
      assert s1.locks[p.lock] == Lock(false, 0, true);
    }
  }

  /** It waits only for a lock that is taken, and for a slot that shows the lock. */
  lemma WriterMoves(c: Config, s: State, p: Proc, try: bool, s1: State) returns (s2: State)
    requires p in s.pcs && p.lock in s.locks && p in s1.pcs && Writer(c, s, p, try, s1) && !WriteDone(s1.pcs[p])
    requires try || (!s.locks[p.lock].writer && s.locks[p.lock].readers == 0)
    requires Hidden(s, p.lock, c.slots)
    ensures p.lock in s1.locks && Step(c, s1, p, s2)
  {
    var l := p.lock;
    var lock := s1.locks[l];
    match s1.pcs[p]
    case WantWrite(_) =>
      s2 := if lock.writer || lock.readers > 0 then Go(s1, p, Idle)
            else SetLock(Go(s1, p, TestBias), l, lock.(writer := true));
    case TestBias => s2 := Go(s1, p, if lock.rbias then Revoke else HoldWrite);
    case Revoke => s2 := SetLock(Go(s1, p, Scan(0)), l, lock.(rbias := false));
    case Scan(n) => s2 := if n >= c.slots then Go(s1, p, HoldWrite) else Go(s1, p, Scan(n + 1));
    case _ =>
  }

  lemma {:induction false} WriterReturns(c: Config, s: State, p: Proc, try: bool, ss: seq<State>)
      returns (ss': seq<State>)
    requires WellFormed(s) && p in s.pcs && Hidden(s, p.lock, c.slots)
    requires try || (!s.locks[p.lock].writer && s.locks[p.lock].readers == 0)
    requires Solo(c, ss, p) && ss[0] == s && p in ss[|ss| - 1].pcs && Writer(c, s, p, try, ss[|ss| - 1])
             && WellFormed(ss[|ss| - 1])
    ensures Solo(c, ss', p) && ss'[0] == s && p in ss'[|ss'| - 1].pcs
    ensures Writer(c, s, p, try, ss'[|ss'| - 1]) && WriteDone(ss'[|ss'| - 1].pcs[p])
    decreases WriteSteps(c, ss[|ss| - 1].pcs[p])
  {
    ss' := ss;
    var s1 := ss[|ss| - 1];
    if !WriteDone(s1.pcs[p]) {
      var s2 := WriterMoves(c, s, p, try, s1);
      WriterGoesOn(c, s, p, try, s1, s2);
      SoloNext(c, ss, p, s2);
      StepFrame(c, s1, p, s2);
      ss' := WriterReturns(c, s, p, try, ss + [s2]);
    }
  }

  /** Whoever wants to write, trying or not, comes to hold a lock that nobody holds: none in the underlying lock, and no
      slot shows it. */
  lemma WriteSucceeds(c: Config, s: State, p: Proc, try: bool) returns (ss: seq<State>)
    requires WellFormed(s) && p in s.pcs && s.pcs[p].Idle? && Hidden(s, p.lock, c.slots)
    requires !s.locks[p.lock].writer && s.locks[p.lock].readers == 0
    ensures Solo(c, ss, p) && ss[0] == s && p in ss[|ss| - 1].pcs && ss[|ss| - 1].pcs[p].HoldWrite?
    ensures ss[|ss| - 1] == SetLock(Go(s, p, HoldWrite), p.lock, Lock(false, 0, true))
  {
    var s1 := Go(s, p, WantWrite(try));
    assert Solo(c, [s], p);
    SoloNext(c, [s], p, s1);
    ss := WriterReturns(c, s, p, try, [s] + [s1]);
  }

  /** However it goes, a write lock has come to one of these states, and has gone so many steps at most. */
  lemma {:induction false} WriterRun(c: Config, ss: seq<State>, p: Proc, try: bool, n: nat)
    requires Solo(c, ss, p) && 1 <= n < |ss| && p in ss[0].pcs && p.lock in ss[0].locks && ss[0].pcs[p].Idle?
    requires p in ss[1].pcs && ss[1].pcs[p] == WantWrite(try)
    requires forall i :: 1 <= i < n ==> p in ss[i].pcs && !WriteDone(ss[i].pcs[p])
    ensures p in ss[n].pcs && Writer(c, ss[0], p, try, ss[n]) && n + WriteSteps(c, ss[n].pcs[p]) <= c.slots + 5
  {
    assert SoloStep(c, ss, p, n - 1);
    if n > 1 {
      WriterRun(c, ss, p, try, n - 1);
      WriterGoesOn(c, ss[0], p, try, ss[n - 1], ss[n]);
    }
  }

  // ----- unlocking

  /** What a reader's unlock makes of a state. */
  ghost function ReadUnlocked(c: Config, s: State, p: Proc): State
    requires p.lock in s.locks
  {
    var lock := s.locks[p.lock];
    if c.hash(p) in s.slots then Go(s, p, Idle).(slots := s.slots - {c.hash(p)})
    else SetLock(Go(s, p, Idle), p.lock, lock.(readers := if lock.readers > 0 then lock.readers - 1 else 0))
  }

  lemma UnlockRun(c: Config, ss: seq<State>, p: Proc)
    requires Solo(c, ss, p) && |ss| == 3 && p in ss[0].pcs && p.lock in ss[0].locks
    requires ss[0].pcs[p].HoldFast? || ss[0].pcs[p].HoldSlow?
    ensures ss[2] == ReadUnlocked(c, ss[0], p)
  {
    assert SoloStep(c, ss, p, 0) && SoloStep(c, ss, p, 1);
    GoTwice(ss[0], p, ss[1].pcs[p], Idle);
  }

  /** A reader that unlocks alone has undone its lock, but for a bias that it may have set, exactly if its slot was
      free. */
  lemma ReadRoundTrip(c: Config, s: State, p: Proc, try: bool, s': State)
    requires p in s.pcs && p.lock in s.locks && s.pcs[p].Idle? && p in s'.pcs && p.lock in s'.locks
    requires Reader(c, s, p, try, s') && (s'.pcs[p].HoldFast? || s'.pcs[p].HoldSlow?)
    ensures var s'' := ReadUnlocked(c, s', p);
            (s''.slots == s.slots && s''.pcs == s.pcs
             && (s''.locks == s.locks || s''.locks == s.locks[p.lock := s.locks[p.lock].(rbias := true)]))
            <==> c.hash(p) !in s.slots
  {
    var l, lock := p.lock, s.locks[p.lock];
    GoTwice(s, p, s'.pcs[p], Idle);
    assert s.pcs[p := Idle] == s.pcs;
    if c.hash(p) !in s.slots {
      assert s.slots[c.hash(p) := l] - {c.hash(p)} == s.slots;
      assert s.locks[l := lock] == s.locks;
      var counted := lock.(readers := lock.readers + 1);
      SetTwice(s, l, counted, lock);
      SetTwice(s, l, counted.(rbias := true), lock.(rbias := true));
    }
  }
}
