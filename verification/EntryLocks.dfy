/** Entry locks: any number of threads that take the locks of their requests' blocks in ascending order, spinning on
    each (src/mmio.c:26-46), go through the list of them, and release them by going through it again
    (src/mmio.c:49-56), and checkpointers that only try (src/mmio.c:196-212).

    The link of the list lies in the entry (src/radixlog.h:43), one for all threads: whoever gets the lock of a block,
    be it for reading, overwrites it.  UNLOCK_ENTRIES follows the link of a block it has already unlocked.  Blocks are
    numbered upwards through the file, so that a request takes consecutive numbers (Mmio.Tiling).

    A block has one entry all along: entries that a checkpointer retires and that another block uses afterwards are not
    modelled, although a reader may still have to follow the link of such an entry. */
module EntryLocks {

  import opened Options

  datatype Request = Request(first: nat, count: nat, wr: bool)

  predicate Covers(r: Request, b: nat) { r.first <= b < r.first + r.count }

  /** The last block is in front of the list, and links lead downwards. */
  function Head(r: Request, have: nat): Option<nat> { if have == 0 then None else Some(r.first + have - 1) }

  function Below(r: Request, b: nat): Option<nat> { if b <= r.first then None else Some(b - 1) }

  datatype Phase =
    | Idle
    | Acquiring(req: Request, have: nat)                        // so many locks are taken
    | Working(req: Request, at: Option<nat>)                    // the loop over the list has come to `at`
    | Releasing(req: Request, at: Option<nat>, unlocked: bool)  // so has UNLOCK_ENTRIES
    | Checkpointing(block: nat)

  /** pthread_rwlock_t */
  datatype Lock = Lock(readers: nat, writer: bool)

  /** The threads, the links (a block without one has NULL) and the locks (free where nobody was yet). */
  datatype State = State(threads: seq<Phase>, next: map<nat, nat>, locks: map<nat, Lock>)

  const FREE := Lock(0, false)

  function LockAt(locks: map<nat, Lock>, b: nat): Lock { if b in locks then locks[b] else FREE }

  function NextAt(next: map<nat, nat>, b: nat): Option<nat> { if b in next then Some(next[b]) else None }

  function LockOf(s: State, b: nat): Lock { LockAt(s.locks, b) }

  function NextOf(s: State, b: nat): Option<nat> { NextAt(s.next, b) }

  predicate Grants(l: Lock, wr: bool) { !l.writer && (wr ==> l.readers == 0) }

  function Taken(l: Lock, wr: bool): Lock { if wr then Lock(l.readers, true) else Lock(l.readers + 1, l.writer) }

  function Unlocked(l: Lock): Lock {
    if l.writer then Lock(l.readers, false) else Lock(if l.readers > 0 then l.readers - 1 else 0, false)
  }

  function Go(s: State, t: nat, ph: Phase): State
    requires t < |s.threads|
  {
    s.(threads := s.threads[t := ph])
  }

  function SetLock(s: State, b: nat, l: Lock): State { s.(locks := s.locks[b := l]) }

  function SetNext(s: State, b: nat, n: Option<nat>): State {
    s.(next := if n.None? then s.next - {b} else s.next[b := n.value])
  }

  /** A thread takes up a request. */
  ghost predicate Begin(s: State, t: nat, r: Request, s': State) {
    t < |s.threads| && s.threads[t].Idle? && s' == Go(s, t, Acquiring(r, 0))
  }

  /** A checkpointer gets a lock it tries. */
  ghost predicate Try(s: State, t: nat, b: nat, s': State) {
    && t < |s.threads| && s.threads[t].Idle? && Grants(LockOf(s, b), true)
    && s' == SetLock(Go(s, t, Checkpointing(b)), b, Taken(LockOf(s, b), true))
  }

  /** A thread gets ahead; a spin that fails is no step. */
  ghost predicate Advance(s: State, t: nat, s': State) {
    && t < |s.threads|
    && match s.threads[t]
       case Idle => false
       case Acquiring(r, have) =>
         if have < r.count then
           var b := r.first + have;
           && Grants(LockOf(s, b), r.wr)
           && s' == SetNext(SetLock(Go(s, t, Acquiring(r, have + 1)), b, Taken(LockOf(s, b), r.wr)), b, Head(r, have))
         else s' == Go(s, t, Working(r, Head(r, r.count)))
       case Working(r, at) =>
         s' == Go(s, t, if at.Some? then Working(r, NextOf(s, at.value)) else Releasing(r, Head(r, r.count), false))
       case Releasing(r, at, unlocked) =>
         if at.None? then s' == Go(s, t, Idle)
         else if unlocked then s' == Go(s, t, Releasing(r, NextOf(s, at.value), false))
         else s' == SetLock(Go(s, t, Releasing(r, at, true)), at.value, Unlocked(LockOf(s, at.value)))
       case Checkpointing(b) => s' == SetLock(Go(s, t, Idle), b, Unlocked(LockOf(s, b)))
  }

  /** One step of thread `t`; requests are those of `reqs`. */
  ghost predicate Step(reqs: set<Request>, s: State, t: nat, s': State) {
    || (exists r :: r in reqs && Begin(s, t, r, s'))
    || (exists b :: Try(s, t, b, s'))
    || Advance(s, t, s')
  }

  ghost predicate Init(s: State) {
    (forall t :: 0 <= t < |s.threads| ==> s.threads[t].Idle?) && s.next == map[] && s.locks == map[]
  }

  ghost predicate Path(reqs: set<Request>, ss: seq<State>, ts: seq<nat>) {
    |ss| == |ts| + 1 && forall i :: 0 <= i < |ts| ==> Stepped(reqs, ss, ts, i)
  }

  ghost predicate Stepped(reqs: set<Request>, ss: seq<State>, ts: seq<nat>, i: nat)
    requires i < |ts| && i + 1 < |ss|
  {
    Step(reqs, ss[i], ts[i], ss[i + 1])
  }

  ghost predicate Run(reqs: set<Request>, ss: seq<State>, ts: seq<nat>) {
    Path(reqs, ss, ts) && Init(ss[0])
  }

  // ----- what should hold

  /** The thread has taken the lock of `b` and has not come to unlock it. */
  ghost predicate Uses(ph: Phase, b: nat) {
    match ph
    case Idle => false
    case Acquiring(r, have) => r.first <= b < r.first + have
    case Working(r, _) => Covers(r, b)
    case Releasing(r, at, unlocked) => at.Some? && Covers(r, b) && b <= at.value && (b == at.value ==> !unlocked)
    case Checkpointing(block) => b == block
  }

  predicate Writes(ph: Phase) {
    match ph
    case Idle => false
    case Checkpointing(_) => true
    case _ => ph.req.wr
  }

  ghost predicate Reads(ph: Phase, b: nat) { Uses(ph, b) && !Writes(ph) }

  ghost predicate Rewrites(ph: Phase, b: nat) { Uses(ph, b) && Writes(ph) }

  /** A block that a thread writes is used by no other. */
  ghost predicate Exclusive(s: State) {
    forall t, u, b ::
      0 <= t < |s.threads| && 0 <= u < |s.threads| && t != u && Uses(s.threads[t], b) && Uses(s.threads[u], b) ==>
        !Writes(s.threads[t]) && !Writes(s.threads[u])
  }

  /** Nobody is at work, and no lock is taken. */
  ghost predicate AtRest(s: State) {
    (forall t :: 0 <= t < |s.threads| ==> s.threads[t].Idle?) && forall b :: LockOf(s, b) == FREE
  }

  /** From `s` on, if nothing new begins, some order of steps brings everything to rest. */
  ghost predicate Completes(s: State) {
    exists ss: seq<State>, ts: seq<nat> :: Drive(ss, ts) && ss[0] == s && AtRest(ss[|ts|])
  }

  ghost predicate Drive(ss: seq<State>, ts: seq<nat>) {
    |ss| == |ts| + 1 && forall i :: 0 <= i < |ts| ==> Advance(ss[i], ts[i], ss[i + 1])
  }

  /** If a thread is at work, some thread can get ahead. */
  ghost predicate Live(s: State) {
    (exists t :: 0 <= t < |s.threads| && !s.threads[t].Idle?) ==> exists t, s' :: Advance(s, t, s')
  }

  // ----- the condition

  /** Two requests share no block, or start in the same one. */
  predicate Compatible(r: Request, q: Request) {
    r.first == q.first || r.first + r.count <= q.first || q.first + q.count <= r.first || r.count == 0 || q.count == 0
  }

  predicate AtWork(ph: Phase) { ph.Acquiring? || ph.Working? || ph.Releasing? }

  /** The requests at work at this time are compatible. */
  ghost predicate NoClash(s: State) {
    forall t, u :: 0 <= t < |s.threads| && 0 <= u < |s.threads| && AtWork(s.threads[t]) && AtWork(s.threads[u]) ==>
      Compatible(s.threads[t].req, s.threads[u].req)
  }

  ghost predicate AllCompatible(reqs: set<Request>) {
    forall r, q :: r in reqs && q in reqs ==> Compatible(r, q)
  }

  // ----- the invariant

  /** A thread is somewhere in its request. */
  ghost predicate Placed(ph: Phase) {
    match ph
    case Acquiring(r, have) => have <= r.count
    case Working(r, at) => at.Some? ==> Covers(r, at.value)
    case Releasing(r, at, _) => at.Some? ==> Covers(r, at.value)
    case _ => true
  }

  /** The thread has pushed `b`, and may yet follow its link. */
  ghost predicate Follows(ph: Phase, b: nat) {
    match ph
    case Acquiring(r, have) => r.first <= b < r.first + have
    case Working(r, _) => Covers(r, b)
    case Releasing(r, at, _) => at.Some? && Covers(r, b) && b <= at.value
    case _ => false
  }

  ghost predicate LinksRight(s: State) {
    forall t, b :: 0 <= t < |s.threads| && Follows(s.threads[t], b) ==> NextOf(s, b) == Below(s.threads[t].req, b)
  }

  ghost function Readers(s: State, b: nat): set<nat> {
    set t: nat | t < |s.threads| && Reads(s.threads[t], b)
  }

  /** The lock of `b` counts those who use it. */
  ghost predicate Honest(s: State, b: nat) {
    && (LockOf(s, b).writer <==> exists t :: 0 <= t < |s.threads| && Rewrites(s.threads[t], b))
    && LockOf(s, b).readers == |Readers(s, b)|
    && (LockOf(s, b).writer ==> LockOf(s, b).readers == 0)
    && forall t, u ::
         0 <= t < |s.threads| && 0 <= u < |s.threads| && Rewrites(s.threads[t], b) && Rewrites(s.threads[u], b) ==>
           t == u
  }

  ghost predicate Inv(s: State) {
    && (forall t :: 0 <= t < |s.threads| ==> Placed(s.threads[t]))
    && LinksRight(s)
    && forall b :: Honest(s, b)
  }

  // ----- locks

  /** Who uses `b` for reading, as a count, and for writing, as a fact. */
  lemma UnusedIsFree(s: State, b: nat)
    requires Honest(s, b) && forall t :: 0 <= t < |s.threads| ==> !Uses(s.threads[t], b)
    ensures LockOf(s, b) == FREE
  {
    assert Readers(s, b) == {};
  }

  lemma FreeIsUnused(s: State, b: nat, t: nat)
    requires Honest(s, b) && LockOf(s, b) == FREE && t < |s.threads|
    ensures !Uses(s.threads[t], b)
  {
    assert Readers(s, b) == {};
    assert t !in Readers(s, b);
  }

  lemma ReadIsCounted(s: State, b: nat, t: nat)
    requires Honest(s, b) && t < |s.threads| && Reads(s.threads[t], b)
    ensures LockOf(s, b).readers > 0 && !LockOf(s, b).writer
  {
    assert t in Readers(s, b);
  }

  /** Thread `t` changes to `ph`, using `b` as before. */
  lemma SameUse(s: State, t: nat, ph: Phase, s': State, b: nat)
    requires t < |s.threads| && s'.threads == s.threads[t := ph] && LockOf(s', b) == LockOf(s, b) && Honest(s, b)
    requires (Reads(ph, b) <==> Reads(s.threads[t], b)) && (Rewrites(ph, b) <==> Rewrites(s.threads[t], b))
    ensures Honest(s', b)
  {
    assert Readers(s', b) == Readers(s, b);
    assert forall u :: 0 <= u < |s.threads| ==> Rewrites(s'.threads[u], b) == Rewrites(s.threads[u], b);
  }

  /** Thread `t` is granted the lock of `b`. */
  lemma Acquires(s: State, t: nat, ph: Phase, s': State, b: nat)
    requires t < |s.threads| && s'.threads == s.threads[t := ph] && Honest(s, b) && !Uses(s.threads[t], b)
             && Uses(ph, b)
    requires Grants(LockOf(s, b), Writes(ph)) && LockOf(s', b) == Taken(LockOf(s, b), Writes(ph))
    ensures Honest(s', b)
  {
    if Writes(ph) {
      forall u | 0 <= u < |s.threads| ensures !Uses(s.threads[u], b) {
        FreeIsUnused(s, b, u);
      }
      assert Readers(s', b) == {} by {
        assert forall u :: 0 <= u < |s.threads| ==> !Reads(s'.threads[u], b);
      }
      assert Rewrites(s'.threads[t], b);
    } else {
      assert Readers(s', b) == Readers(s, b) + {t};
      assert forall u :: 0 <= u < |s.threads| ==> !Rewrites(s'.threads[u], b);
    }
  }

  /** Thread `t` unlocks a block that it uses. */
  lemma Releases(s: State, t: nat, ph: Phase, s': State, b: nat)
    requires t < |s.threads| && s'.threads == s.threads[t := ph] && Honest(s, b) && Uses(s.threads[t], b)
             && !Uses(ph, b)
    requires LockOf(s', b) == Unlocked(LockOf(s, b))
    ensures Honest(s', b)
  {
    if Writes(s.threads[t]) {
      assert Rewrites(s.threads[t], b);
      assert Readers(s, b) == {};
      assert Readers(s', b) == {};
      assert forall u :: 0 <= u < |s.threads| ==> !Rewrites(s'.threads[u], b);
    } else {
      ReadIsCounted(s, b, t);
      assert Readers(s', b) == Readers(s, b) - {t};
      assert forall u :: 0 <= u < |s.threads| ==> !Rewrites(s'.threads[u], b);
    }
  }

  // ----- every step keeps the invariant as long as the requests at work do not clash

  lemma LinksStay(s: State, t: nat, ph: Phase, s': State)
    requires LinksRight(s) && t < |s.threads| && s'.threads == s.threads[t := ph] && s'.next == s.next
    requires ph.Checkpointing? || (ph.Acquiring? && ph.have == 0)
    ensures LinksRight(s')
  {
    forall u, b | 0 <= u < |s'.threads| && Follows(s'.threads[u], b)
      ensures NextOf(s', b) == Below(s'.threads[u].req, b) {
      assert u != t && Follows(s.threads[u], b);
      assert NextOf(s, b) == Below(s.threads[u].req, b);
    }
  }

  lemma BeginKeeps(s: State, t: nat, r: Request, s': State)
    requires Inv(s) && Begin(s, t, r, s')
    ensures Inv(s')
  {
    LinksStay(s, t, s'.threads[t], s');
    forall b ensures Honest(s', b) {
      SameUse(s, t, s'.threads[t], s', b);
    }
  }

  lemma TryKeeps(s: State, t: nat, b: nat, s': State)
    requires Inv(s) && Try(s, t, b, s')
    ensures Inv(s')
  {
    LinksStay(s, t, s'.threads[t], s');
    forall c ensures Honest(s', c) {
      if c == b {
        Acquires(s, t, s'.threads[t], s', b);
      } else {
        SameUse(s, t, s'.threads[t], s', c);
      }
    }
  }

  /** The step that unlocks or locks block `b`, if the thread's next step is one. */
  ghost predicate Touches(ph: Phase, b: nat) {
    match ph
    case Acquiring(r, have) => have < r.count && b == r.first + have
    case Releasing(_, at, unlocked) => at == Some(b) && !unlocked
    case Checkpointing(block) => b == block
    case _ => false
  }

  lemma AdvanceKeepsPlace(s: State, t: nat, s': State)
    requires Inv(s) && Advance(s, t, s')
    ensures s'.threads == s.threads[t := s'.threads[t]] && Placed(s'.threads[t])
  {
    var ph := s.threads[t];
    assert Placed(ph);
    if ph.Working? && ph.at.Some? {
      assert Follows(ph, ph.at.value);
    } else if ph.Releasing? && ph.at.Some? {
      assert Follows(ph, ph.at.value);
    }
  }

  lemma AdvanceTakes(s: State, t: nat, s': State, b: nat)
    requires Advance(s, t, s') && Placed(s.threads[t]) && s.threads[t].Acquiring?
    ensures if Touches(s.threads[t], b)
            then && !Uses(s.threads[t], b) && Uses(s'.threads[t], b) && Writes(s'.threads[t]) == Writes(s.threads[t])
                 && Grants(LockOf(s, b), Writes(s.threads[t]))
                 && LockOf(s', b) == Taken(LockOf(s, b), Writes(s.threads[t]))
            else && (Uses(s'.threads[t], b) <==> Uses(s.threads[t], b)) && LockOf(s', b) == LockOf(s, b)
                 && Writes(s'.threads[t]) == Writes(s.threads[t])
  {
  }

  lemma AdvanceLeaves(s: State, t: nat, s': State, b: nat)
    requires Inv(s) && Advance(s, t, s') && !s.threads[t].Acquiring?
    ensures if Touches(s.threads[t], b)
            then Uses(s.threads[t], b) && !Uses(s'.threads[t], b) && LockOf(s', b) == Unlocked(LockOf(s, b))
            else && (Uses(s'.threads[t], b) <==> Uses(s.threads[t], b)) && LockOf(s', b) == LockOf(s, b)
                 && (Uses(s.threads[t], b) ==> Writes(s'.threads[t]) == Writes(s.threads[t]))
  {
    var ph := s.threads[t];
    assert Placed(ph);
    if ph.Working? && ph.at.Some? {
      assert Follows(ph, ph.at.value);
    } else if ph.Releasing? && ph.at.Some? {
      assert Follows(ph, ph.at.value);
    }
  }

  lemma AdvanceUses(s: State, t: nat, s': State, b: nat)
    requires Inv(s) && Advance(s, t, s')
    ensures s'.threads == s.threads[t := s'.threads[t]] && Placed(s'.threads[t])
    ensures Touches(s.threads[t], b) && s.threads[t].Acquiring? ==>
              && !Uses(s.threads[t], b) && Uses(s'.threads[t], b) && Writes(s'.threads[t]) == Writes(s.threads[t])
              && Grants(LockOf(s, b), Writes(s.threads[t]))
              && LockOf(s', b) == Taken(LockOf(s, b), Writes(s.threads[t]))
    ensures Touches(s.threads[t], b) && !s.threads[t].Acquiring? ==>
              Uses(s.threads[t], b) && !Uses(s'.threads[t], b) && LockOf(s', b) == Unlocked(LockOf(s, b))
    ensures !Touches(s.threads[t], b) ==>
              && (Uses(s'.threads[t], b) <==> Uses(s.threads[t], b)) && LockOf(s', b) == LockOf(s, b)
              && (Uses(s.threads[t], b) ==> Writes(s'.threads[t]) == Writes(s.threads[t]))
  {
    AdvanceKeepsPlace(s, t, s');
    assert Placed(s.threads[t]);
    if s.threads[t].Acquiring? {
      AdvanceTakes(s, t, s', b);
    } else {
      AdvanceLeaves(s, t, s', b);
    }
  }

  lemma AdvanceLinks(s: State, t: nat, s': State)
    requires Inv(s) && NoClash(s) && Advance(s, t, s')
    ensures LinksRight(s')
  {
    var ph := s.threads[t];
    assert Placed(ph);
    forall u, b | 0 <= u < |s'.threads| && Follows(s'.threads[u], b)
      ensures NextOf(s', b) == Below(s'.threads[u].req, b)
    {
      if ph.Acquiring? && Touches(ph, b) {
        assert u != t ==> Compatible(ph.req, s.threads[u].req) && Covers(s.threads[u].req, b) by {
          assert Placed(s.threads[u]);
        }
      } else {
        StillFollows(s, t, s', b);
        assert Follows(s.threads[u], b);
      }
    }
  }

  lemma StillFollows(s: State, t: nat, s': State, b: nat)
    requires Inv(s) && Advance(s, t, s') && !(s.threads[t].Acquiring? && Touches(s.threads[t], b))
    ensures Follows(s'.threads[t], b) ==> Follows(s.threads[t], b) && s'.threads[t].req == s.threads[t].req
    ensures NextOf(s', b) == NextOf(s, b)
  {
    var ph := s.threads[t];
    assert Placed(ph);
    if ph.Releasing? && ph.at.Some? {
      assert Follows(ph, ph.at.value);
    }
  }

  lemma AdvanceKeeps(s: State, t: nat, s': State)
    requires Inv(s) && NoClash(s) && Advance(s, t, s')
    ensures Inv(s') && NoClash(s')
  {
    AdvanceLinks(s, t, s');
    forall b ensures Honest(s', b) {
      AdvanceUses(s, t, s', b);
      if !Touches(s.threads[t], b) {
        SameUse(s, t, s'.threads[t], s', b);
      } else if s.threads[t].Acquiring? {
        Acquires(s, t, s'.threads[t], s', b);
      } else {
        Releases(s, t, s'.threads[t], s', b);
      }
    }
    AdvanceUses(s, t, s', 0);
    AdvanceReq(s, t, s');
  }

  lemma AdvanceReq(s: State, t: nat, s': State)
    requires NoClash(s) && Advance(s, t, s')
    ensures NoClash(s')
  {
    assert AtWork(s'.threads[t]) ==> AtWork(s.threads[t]) && s'.threads[t].req == s.threads[t].req;
  }

  lemma StepKeeps(reqs: set<Request>, s: State, t: nat, s': State)
    requires Inv(s) && NoClash(s) && Step(reqs, s, t, s')
    ensures Inv(s')
  {
    if r :| r in reqs && Begin(s, t, r, s') {
      BeginKeeps(s, t, r, s');
    } else if b :| Try(s, t, b, s') {
      TryKeeps(s, t, b, s');
    } else {
      AdvanceKeeps(s, t, s');
    }
  }

  lemma InitInv(s: State)
    requires Init(s)
    ensures Inv(s)
  {
    forall b ensures Honest(s, b) {
      assert Readers(s, b) == {};
    }
  }

  /** Every run whose requests at work never clash keeps the invariant, whatever comes after. */
  lemma {:induction false} RunKeeps(reqs: set<Request>, ss: seq<State>, ts: seq<nat>, n: nat)
    requires Run(reqs, ss, ts) && n < |ss| && forall i :: 0 <= i < n ==> NoClash(ss[i])
    ensures Inv(ss[n])
  {
    if n == 0 {
      InitInv(ss[0]);
    } else {
      RunKeeps(reqs, ss, ts, n - 1);
      assert Stepped(reqs, ss, ts, n - 1);
      StepKeeps(reqs, ss[n - 1], ts[n - 1], ss[n]);
    }
  }

  /** Mutual exclusion: in every state of every run without clashes, readers share a block and a writer has it alone. */
  lemma EntryExclusion(reqs: set<Request>, ss: seq<State>, ts: seq<nat>, n: nat)
    requires Run(reqs, ss, ts) && n < |ss| && forall i :: 0 <= i < n ==> NoClash(ss[i])
    ensures Exclusive(ss[n])
  {
    RunKeeps(reqs, ss, ts, n);
    InvExclusive(ss[n]);
  }

  lemma InvExclusive(s: State)
    requires Inv(s)
    ensures Exclusive(s)
  {
    forall t, u, b | 0 <= t < |s.threads| && 0 <= u < |s.threads| && t != u && Uses(s.threads[t], b)
      && Uses(s.threads[u], b)
      ensures !Writes(s.threads[t]) && !Writes(s.threads[u])
    {
      assert Honest(s, b);
      WriterAlone(s, b, t, u);
      WriterAlone(s, b, u, t);
    }
  }

  lemma WriterAlone(s: State, b: nat, t: nat, u: nat)
    requires Honest(s, b) && t < |s.threads| && u < |s.threads| && t != u && Uses(s.threads[t], b)
             && Uses(s.threads[u], b)
    ensures !Writes(s.threads[t])
  {
    assert Rewrites(s.threads[t], b) <==> Writes(s.threads[t]);
    assert Rewrites(s.threads[u], b) || u in Readers(s, b);
  }

  /** Each loop over the list goes through the thread's own blocks, from the last one downwards. */
  lemma WalksOwnBlocks(reqs: set<Request>, ss: seq<State>, ts: seq<nat>, n: nat, t: nat)
    requires Run(reqs, ss, ts) && n < |ts| && ts[n] == t && t < |ss[n].threads|
    requires forall i :: 0 <= i <= n ==> NoClash(ss[i])
    ensures |ss[n + 1].threads| == |ss[n].threads|
    ensures var ph, ph' := ss[n].threads[t], ss[n + 1].threads[t];
            ph.Working? && ph.at.Some? ==>
              Covers(ph.req, ph.at.value) && ph' == Working(ph.req, Below(ph.req, ph.at.value))
  {
    RunKeeps(reqs, ss, ts, n);
    var ph := ss[n].threads[t];
    assert Placed(ph);
    assert Stepped(reqs, ss, ts, n);
    if ph.Working? && ph.at.Some? {
      assert Follows(ph, ph.at.value);
    }
  }

  // ----- progress

  predicate Waiting(ph: Phase) { ph.Acquiring? && ph.have < ph.req.count }

  function Awaited(ph: Phase): nat
    requires Waiting(ph)
  {
    ph.req.first + ph.have
  }

  /** Every thread waits for a block strictly above all blocks it holds. */
  lemma WaitsAbove(ph: Phase, b: nat)
    requires Waiting(ph) && Uses(ph, b)
    ensures b < Awaited(ph)
  {
  }

  /** Of the first `n` threads, one that waits for a highest block. */
  lemma {:induction false} HighestWaiter(s: State, n: nat) returns (t: nat)
    requires n <= |s.threads| && exists u :: 0 <= u < n && Waiting(s.threads[u])
    ensures t < n && Waiting(s.threads[t])
    ensures forall u :: 0 <= u < n && Waiting(s.threads[u]) ==> Awaited(s.threads[u]) <= Awaited(s.threads[t])
  {
    if exists u :: 0 <= u < n - 1 && Waiting(s.threads[u]) {
      t := HighestWaiter(s, n - 1);
      if Waiting(s.threads[n - 1]) && Awaited(s.threads[t]) < Awaited(s.threads[n - 1]) {
        t := n - 1;
      }
    } else {
      t := n - 1;
    }
  }

  /** If any thread is not idle, some thread can get ahead. */
  lemma SomeoneAdvances(s: State) returns (t: nat, s': State)
    requires Inv(s) && exists u :: 0 <= u < |s.threads| && !s.threads[u].Idle?
    ensures Advance(s, t, s')
  {
    if u :| 0 <= u < |s.threads| && !s.threads[u].Idle? && !Waiting(s.threads[u]) {
      t, s' := AdvanceOf(s, u);
    } else {
      assert exists u :: 0 <= u < |s.threads| && Waiting(s.threads[u]);
      var w := HighestWaiter(s, |s.threads|);
      var b := Awaited(s.threads[w]);
      forall u | 0 <= u < |s.threads| ensures !Uses(s.threads[u], b) {
        assert s.threads[u].Idle? || Waiting(s.threads[u]);
      }
      assert Honest(s, b);
      UnusedIsFree(s, b);
      t, s' := Granted(s, w);
    }
  }

  lemma Granted(s: State, w: nat) returns (t: nat, s': State)
    requires w < |s.threads| && Waiting(s.threads[w]) && LockOf(s, Awaited(s.threads[w])) == FREE
    ensures Advance(s, t, s')
  {
    t := w;
    var r, have, b := s.threads[w].req, s.threads[w].have, Awaited(s.threads[w]);
    s' := SetNext(SetLock(Go(s, w, Acquiring(r, have + 1)), b, Taken(LockOf(s, b), r.wr)), b, Head(r, have));
  }

  lemma AdvanceOf(s: State, u: nat) returns (t: nat, s': State)
    requires u < |s.threads| && !s.threads[u].Idle? && !Waiting(s.threads[u])
    ensures Advance(s, t, s')
  {
    t := u;
    match s.threads[u]
    case Acquiring(r, have) => s' := Go(s, u, Working(r, Head(r, r.count)));
    case Working(r, at) =>
      s' := Go(s, u, if at.Some? then Working(r, NextOf(s, at.value)) else Releasing(r, Head(r, r.count), false));
    case Releasing(r, at, unlocked) =>
      if at.None? {
        s' := Go(s, u, Idle);
      } else if unlocked {
        s' := Go(s, u, Releasing(r, NextOf(s, at.value), false));
      } else {
        s' := SetLock(Go(s, u, Releasing(r, at, true)), at.value, Unlocked(LockOf(s, at.value)));
      }
    case Checkpointing(b) => s' := SetLock(Go(s, u, Idle), b, Unlocked(LockOf(s, b)));
  }

  /** Deadlock freedom: in every state of every run without clashes in which a thread is at work, some thread can get
      ahead. */
  lemma DeadlockFree(reqs: set<Request>, ss: seq<State>, ts: seq<nat>, n: nat)
    requires Run(reqs, ss, ts) && n < |ss| && forall i :: 0 <= i < n ==> NoClash(ss[i])
    ensures Live(ss[n])
  {
    RunKeeps(reqs, ss, ts, n);
    if exists t :: 0 <= t < |ss[n].threads| && !ss[n].threads[t].Idle? {
      var t, s' := SomeoneAdvances(ss[n]);
    }
  }

  // ----- requests complete

  /** How many steps a thread is from idle. */
  ghost function Left(ph: Phase): nat {
    if !Placed(ph) then 0
    else
      match ph
      case Idle => 0
      case Acquiring(r, have) => (r.count - have) + 1 + (r.count + 1) + (2 * r.count + 1)
      case Working(r, at) => (if at.None? then 0 else at.value - r.first + 1) + 1 + (2 * r.count + 1)
      case Releasing(r, at, unlocked) =>
        if at.None? then 1 else 2 * (at.value - r.first + 1) + 1 - if unlocked then 1 else 0
      case Checkpointing(_) => 1
  }

  ghost function Total(phs: seq<Phase>): nat {
    if phs == [] then 0 else Left(phs[0]) + Total(phs[1..])
  }

  lemma {:induction false} TotalUpdate(phs: seq<Phase>, t: nat, ph: Phase)
    requires t < |phs|
    ensures Total(phs[t := ph]) == Total(phs) - Left(phs[t]) + Left(ph)
  {
    if t == 0 {
      assert phs[t := ph][1..] == phs[1..];
    } else {
      TotalUpdate(phs[1..], t - 1, ph);
      assert phs[t := ph][1..] == phs[1..][t - 1 := ph];
    }
  }

  /** Any sequence of advances is finite: each takes one of the steps left. */
  lemma {:induction false} AdvanceShrinks(s: State, t: nat, s': State)
    requires Inv(s) && Advance(s, t, s')
    ensures |s'.threads| == |s.threads| && Total(s'.threads) == Total(s.threads) - 1
  {
    AdvanceUses(s, t, s', 0);
    TotalUpdate(s.threads, t, s'.threads[t]);
    var ph := s.threads[t];
    assert Placed(ph);
    if (ph.Working? || ph.Releasing?) && ph.at.Some? {
      assert Follows(ph, ph.at.value);
    }
  }

  /** Completion: if nothing new begins, exactly as many advances as there are steps left bring all threads to idle and
      all locks to free, whichever thread that can is let ahead. */
  lemma {:induction false} AllComplete(s: State) returns (ss: seq<State>, ts: seq<nat>)
    requires Inv(s) && NoClash(s)
    ensures Drive(ss, ts) && ss[0] == s && |ts| == Total(s.threads) && AtRest(ss[|ts|])
    decreases Total(s.threads)
  {
    if exists u :: 0 <= u < |s.threads| && !s.threads[u].Idle? {
      var t, s' := SomeoneAdvances(s);
      AdvanceShrinks(s, t, s');
      AdvanceKeeps(s, t, s');
      ss, ts := AllComplete(s');
      ss, ts := [s] + ss, [t] + ts;
    } else {
      AllIdle(s.threads);
      forall b ensures LockOf(s, b) == FREE {
        assert Honest(s, b);
        UnusedIsFree(s, b);
      }
      ss, ts := [s], [];
    }
  }

  lemma {:induction false} AllIdle(phs: seq<Phase>)
    requires forall t :: 0 <= t < |phs| ==> phs[t].Idle?
    ensures Total(phs) == 0
  {
    if phs != [] {
      AllIdle(phs[1..]);
    }
  }
}
