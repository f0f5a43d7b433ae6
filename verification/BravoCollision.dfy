/** Exactly when the lock excludes.  bravo_read_unlock only asks whether its slot is occupied (src/bravo.c:131), so a
    slow reader of one lock that shares its slot with a fast reader of another makes that reader invisible, while no
    count stands for it.  Readers of the same lock do each other no such harm. */
module BravoCollision {
  import opened Bravo

  lemma Extend(c: Config, ss: seq<State>, ps: seq<Proc>, p: Proc, s: State) returns (ss': seq<State>, ps': seq<Proc>)
    requires Path(c, ss, ps)
    requires WellFormed(ss[|ps|]) && p in ss[|ps|].pcs && Step(c, ss[|ps|], p, s)
    ensures Path(c, ss', ps') && ss'[0] == ss[0] && ss'[|ps'|] == s
  {
    ss', ps' := ss + [s], ps + [p];
    forall i | 0 <= i < |ps'| ensures Taken(c, ss', ps', i) {
      assert i < |ps| ==> Taken(c, ss, ps, i);
    }
  }

  /** A scan that meets no slot with its lock ends. */
  lemma {:induction false} ScanEnds(c: Config, ss: seq<State>, ps: seq<Proc>, w: Proc)
      returns (ss': seq<State>, ps': seq<Proc>)
    requires Path(c, ss, ps)
    requires var s := ss[|ps|];
             WellFormed(s) && s.slots == map[] && w in s.pcs && s.pcs[w].Scan? && s.pcs[w].next <= c.slots
    ensures Path(c, ss', ps') && ss'[0] == ss[0] && ss'[|ps'|] == Go(ss[|ps|], w, HoldWrite)
    decreases c.slots - ss[|ps|].pcs[w].next
  {
    var s := ss[|ps|];
    if s.pcs[w].next == c.slots {
      ss', ps' := Extend(c, ss, ps, w, Go(s, w, HoldWrite));
    } else {
      var t := Go(s, w, Scan(s.pcs[w].next + 1));
      ss', ps' := Extend(c, ss, ps, w, t);
      ss', ps' := ScanEnds(c, ss', ps', w);
      assert Go(t, w, HoldWrite) == Go(s, w, HoldWrite);
    }
  }

  /** If any two processes of different locks share a slot, then from every initial state there is a run in which a
      third one returns from write-locking the lock that the first holds for reading.  The table may have any
      length. */
  lemma CollisionBreaksExclusion(c: Config, s: State, p: Proc, q: Proc, w: Proc) returns (ss: seq<State>, ps: seq<Proc>)
    requires Init(s) && p in s.pcs && q in s.pcs && w in s.pcs && p.lock != q.lock && w.lock == p.lock && w != p
    requires c.hash(p) == c.hash(q)
    ensures Run(c, ss, ps) && ss[0] == s
    ensures ss[|ps|].pcs == s.pcs[p := HoldFast][w := HoldWrite]
  {
    ss, ps := FastReader(c, [s], [], p, s);
    ss, ps := SlowRead(c, ss, ps, q, ss[|ps|]);
    ss, ps := WriterLocks(c, ss, ps, w, ss[|ps|]);
    ss, ps := WriterEnters(c, ss, ps, w, ss[|ps|]);
  }

  ghost predicate AlwaysExcludes(c: Config, procs: set<Proc>) {
    forall ss: seq<State>, ps: seq<Proc>, n :: Run(c, ss, ps) && ss[0].pcs.Keys == procs && 0 <= n < |ss| ==>
      Excludes(ss[n], ALL)
  }

  /** Another process uses the same lock. */
  ghost predicate HasRival(procs: set<Proc>, p: Proc) {
    exists w :: w in procs && w != p && w.lock == p.lock
  }

  /** No two processes of different locks share a slot, unless each is the only one of its lock. */
  ghost predicate LocksApart(c: Config, procs: set<Proc>) {
    forall p, q :: p in procs && q in procs && p.lock != q.lock && HasRival(procs, p) ==> c.hash(p) != c.hash(q)
  }

  /** The locks of more than one process. */
  ghost function Contended(procs: set<Proc>): iset<nat> {
    iset p | p in procs && HasRival(procs, p) :: p.lock
  }

  lemma {:induction false} SameProcs(c: Config, ss: seq<State>, ps: seq<Proc>, n: nat)
    requires Run(c, ss, ps) && n < |ss|
    ensures ss[n].pcs.Keys == ss[0].pcs.Keys
  {
    if n > 0 {
      SameProcs(c, ss, ps, n - 1);
      assert Taken(c, ss, ps, n - 1);
      StepFrame(c, ss[n - 1], ps[n - 1], ss[n]);
    }
  }

  /** Mutual exclusion holds in every state of every run if and only if no two processes of different locks, of which
      one has a rival for its lock, share a slot. */
  lemma ExclusionExact(c: Config, procs: set<Proc>)
    requires forall p :: p in procs ==> c.hash(p) < c.slots
    ensures AlwaysExcludes(c, procs) <==> LocksApart(c, procs)
  {
    if LocksApart(c, procs) {
      forall ss: seq<State>, ps: seq<Proc>, n | Run(c, ss, ps) && ss[0].pcs.Keys == procs && 0 <= n < |ss|
        ensures Excludes(ss[n], ALL)
      {
        ApartExcludes(c, ss, ps, n);
      }
    } else {
      CrossingBreaks(c, procs);
    }
  }

  lemma CrossingBreaks(c: Config, procs: set<Proc>)
    requires !LocksApart(c, procs)
    ensures !AlwaysExcludes(c, procs)
  {
    var p, q :| p in procs && q in procs && p.lock != q.lock && HasRival(procs, p) && c.hash(p) == c.hash(q);
    var w :| w in procs && w != p && w.lock == p.lock;
    var ss, ps := CollisionBreaksExclusion(c, Start(procs), p, q, w);
    var s := ss[|ps|];
    assert s.pcs[w].HoldWrite? && s.pcs[p].HoldFast?;
    assert !Excludes(s, ALL);
  }

  /** Processes of one lock have it contended, and processes of contended locks have rivals. */
  lemma ContendedRivals(procs: set<Proc>, p: Proc)
    requires p in procs
    ensures p.lock in Contended(procs) <==> HasRival(procs, p)
  {
    if p.lock in Contended(procs) {
      var q :| q in procs && HasRival(procs, q) && q.lock == p.lock;
      var w :| w in procs && w != q && w.lock == q.lock;
      assert if q == p then w != p else q != p;
    }
  }

  lemma ApartExcludes(c: Config, ss: seq<State>, ps: seq<Proc>, n: nat)
    requires Run(c, ss, ps) && n < |ss| && LocksApart(c, ss[0].pcs.Keys)
    requires forall p :: p in ss[0].pcs ==> c.hash(p) < c.slots
    ensures Excludes(ss[n], ALL)
  {
    var ss', ps', procs := ss[..n + 1], ps[..n], ss[0].pcs.Keys;
    var ls := Contended(procs);
    forall i | 0 <= i < |ss'| ensures ApartLocks(c, ss'[i], ls) {
      SameProcs(c, ss, ps, i);
      ApartAt(c, ss[i], procs);
    }
    forall i | 0 <= i < |ps'| ensures Taken(c, ss', ps', i) {
      assert Taken(c, ss, ps, i);
    }
    assert ss'[|ps'|] == ss[n];
    MutualExclusion(c, ss[n], ls);
    SameProcs(c, ss, ps, n);
    RivalsExclude(ss[n], procs);
  }

  lemma ApartAt(c: Config, s: State, procs: set<Proc>)
    requires s.pcs.Keys == procs && LocksApart(c, procs) && forall p :: p in procs ==> c.hash(p) < c.slots
    ensures ApartLocks(c, s, Contended(procs))
  {
    forall p | p in procs && p.lock in Contended(procs) ensures HasRival(procs, p) {
      ContendedRivals(procs, p);
    }
  }

  /** A lock of one process has nobody to exclude. */
  lemma RivalsExclude(s: State, procs: set<Proc>)
    requires s.pcs.Keys == procs && Excludes(s, Contended(procs))
    ensures Excludes(s, ALL)
  {
    forall w, q | w in s.pcs && q in s.pcs && w != q && w.lock == q.lock && s.pcs[w].HoldWrite?
      ensures !s.pcs[q].HoldFast? && !s.pcs[q].HoldSlow? && !s.pcs[q].HoldWrite?
    {
      assert HasRival(procs, w);
      ContendedRivals(procs, w);
    }
  }

  // ----- exactly when readers release the way they acquired

  ghost predicate Agrees(c: Config, s: State) {
    forall p :: p in s.pcs ==>
      (s.pcs[p].HoldFast? ==> c.hash(p) in s.slots) && (s.pcs[p].HoldSlow? ==> c.hash(p) !in s.slots)
  }

  ghost predicate AlwaysAgrees(c: Config, procs: set<Proc>) {
    forall ss: seq<State>, ps: seq<Proc>, n :: Run(c, ss, ps) && ss[0].pcs.Keys == procs && 0 <= n < |ss| ==>
      Agrees(c, ss[n])
  }

  ghost predicate AllApart(c: Config, procs: set<Proc>) {
    forall p, q :: p in procs && q in procs && p != q ==> c.hash(p) != c.hash(q)
  }

  /** In every state of every run a holder's slot is occupied exactly if it acquired through it, if and only if no two
      processes share a slot, be it for the same lock or not. */
  lemma AgreementExact(c: Config, procs: set<Proc>)
    requires forall p :: p in procs ==> c.hash(p) < c.slots
    ensures AlwaysAgrees(c, procs) <==> AllApart(c, procs)
  {
    if AllApart(c, procs) {
      forall ss: seq<State>, ps: seq<Proc>, n | Run(c, ss, ps) && ss[0].pcs.Keys == procs && 0 <= n < |ss|
        ensures Agrees(c, ss[n])
      {
        ApartAgrees(c, ss, ps, n);
      }
    } else {
      var p, q :| p in procs && q in procs && p != q && c.hash(p) == c.hash(q);
      SharingDisagrees(c, Start(procs), p, q);
    }
  }

  lemma ApartAgrees(c: Config, ss: seq<State>, ps: seq<Proc>, n: nat)
    requires Run(c, ss, ps) && n < |ss| && AllApart(c, ss[0].pcs.Keys)
    requires forall p :: p in ss[0].pcs ==> c.hash(p) < c.slots
    ensures Agrees(c, ss[n])
  {
    forall i | 0 <= i < |ss| ensures DistinctSlots(c, ss[i]) {
      SameProcs(c, ss, ps, i);
    }
    RunAgrees(c, ss, ps, n);
    forall p | p in ss[n].pcs
      ensures (ss[n].pcs[p].HoldFast? ==> c.hash(p) in ss[n].slots)
              && (ss[n].pcs[p].HoldSlow? ==> c.hash(p) !in ss[n].slots)
    {
      ReleaseAgrees(c, ss[n], p);
    }
  }

  lemma SharingDisagrees(c: Config, s: State, p: Proc, q: Proc)
    requires Init(s) && p in s.pcs && q in s.pcs && p != q && c.hash(p) == c.hash(q)
    ensures !AlwaysAgrees(c, s.pcs.Keys)
  {
    var ss, ps := FastReader(c, [s], [], p, s);
    ss, ps := SlotTaken(c, ss, ps, q, ss[|ps|]);
    ss, ps := SlowReader(c, ss, ps, q, ss[|ps|]);
    var t := ss[|ps|];
    assert t.pcs[q].HoldSlow? && c.hash(q) in t.slots;
    assert !Agrees(c, t);
    assert Run(c, ss, ps);
  }

  function Start(procs: set<Proc>): (s: State)
    ensures Init(s) && s.pcs.Keys == procs
  {
    var locks := set p | p in procs :: p.lock;
    State(map l | l in locks :: Lock(true, 0, false), map[], map p | p in procs :: Idle)
  }

  /** A whole slow read of a lock whose slot another reader holds: the slot is empty afterwards. */
  lemma SlowRead(c: Config, ss: seq<State>, ps: seq<Proc>, q: Proc, s: State) returns (ss': seq<State>, ps': seq<Proc>)
    requires Path(c, ss, ps) && s == ss[|ps|] && WellFormed(s) && s.slots.Keys == {c.hash(q)} && q in s.pcs
             && s.pcs[q].Idle?
    requires s.locks[q.lock] == Lock(true, 0, false)
    ensures Path(c, ss', ps') && ss'[0] == ss[0]
    ensures ss'[|ps'|] == SetLock(s, q.lock, Lock(true, 1, false)).(slots := map[])
  {
    ss', ps' := SlotTaken(c, ss, ps, q, s);
    ss', ps' := SlowReader(c, ss', ps', q, ss'[|ps'|]);
    ss', ps' := SlowUnlock(c, ss', ps', q, ss'[|ps'|]);
    assert s.pcs[q := Idle] == s.pcs;
  }

  /** A reader locks through its free slot. */
  lemma FastReader(c: Config, ss: seq<State>, ps: seq<Proc>, p: Proc, s: State)
      returns (ss': seq<State>, ps': seq<Proc>)
    requires Path(c, ss, ps) && s == ss[|ps|] && WellFormed(s) && s.slots == map[] && p in s.pcs && s.pcs[p].Idle?
    requires s.locks[p.lock].rbias
    ensures Path(c, ss', ps') && ss'[0] == ss[0]
    ensures ss'[|ps'|] == Go(s, p, HoldFast).(slots := map[c.hash(p) := p.lock])
  {
    var t := Go(s, p, Cas(false));
    ss', ps' := Extend(c, ss, ps, p, t);
    t := Go(t, p, Recheck(false)).(slots := map[c.hash(p) := p.lock]);
    ss', ps' := Extend(c, ss', ps', p, t);
    t := Go(t, p, HoldFast);
    ss', ps' := Extend(c, ss', ps', p, t);
  }

  /** A reader finds its slot taken. */
  lemma SlotTaken(c: Config, ss: seq<State>, ps: seq<Proc>, q: Proc, s: State) returns (ss': seq<State>, ps': seq<Proc>)
    requires Path(c, ss, ps) && s == ss[|ps|] && WellFormed(s) && c.hash(q) in s.slots && q in s.pcs && s.pcs[q].Idle?
    requires s.locks[q.lock].rbias
    ensures Path(c, ss', ps') && ss'[0] == ss[0] && ss'[|ps'|] == Go(s, q, SlowPath(false))
  {
    ss', ps' := Extend(c, ss, ps, q, Go(s, q, Cas(false)));
    ss', ps' := Extend(c, ss', ps', q, Go(Go(s, q, Cas(false)), q, SlowPath(false)));
  }

  /** ... and locks the slow way. */
  lemma SlowReader(c: Config, ss: seq<State>, ps: seq<Proc>, q: Proc, s: State)
      returns (ss': seq<State>, ps': seq<Proc>)
    requires Path(c, ss, ps) && s == ss[|ps|] && WellFormed(s) && q in s.pcs && s.pcs[q] == SlowPath(false)
    requires s.locks[q.lock] == Lock(true, 0, false)
    ensures Path(c, ss', ps') && ss'[0] == ss[0]
    ensures ss'[|ps'|] == SetLock(Go(s, q, HoldSlow), q.lock, Lock(true, 1, false))
  {
    var t := SetLock(Go(s, q, TestRebias), q.lock, Lock(true, 1, false));
    ss', ps' := Extend(c, ss, ps, q, t);
    ss', ps' := Extend(c, ss', ps', q, Go(t, q, HoldSlow));
  }

  /** On unlock it clears the slot. */
  lemma SlowUnlock(c: Config, ss: seq<State>, ps: seq<Proc>, q: Proc, s: State)
      returns (ss': seq<State>, ps': seq<Proc>)
    requires Path(c, ss, ps) && s == ss[|ps|] && WellFormed(s) && s.slots.Keys == {c.hash(q)} && q in s.pcs
             && s.pcs[q].HoldSlow?
    ensures Path(c, ss', ps') && ss'[0] == ss[0]
    ensures ss'[|ps'|] == Go(s, q, Idle).(slots := map[])
  {
    var t := Go(s, q, ClearSlot(false));
    ss', ps' := Extend(c, ss, ps, q, t);
    t := Go(t, q, Idle).(slots := t.slots - {c.hash(q)});
    ss', ps' := Extend(c, ss', ps', q, t);
  }

  /** A writer takes the underlying lock. */
  lemma WriterLocks(c: Config, ss: seq<State>, ps: seq<Proc>, w: Proc, s: State)
      returns (ss': seq<State>, ps': seq<Proc>)
    requires Path(c, ss, ps) && s == ss[|ps|] && WellFormed(s) && w in s.pcs && s.pcs[w].Idle?
    requires s.locks[w.lock] == Lock(true, 0, false)
    ensures Path(c, ss', ps') && ss'[0] == ss[0]
    ensures ss'[|ps'|] == SetLock(Go(s, w, TestBias), w.lock, Lock(true, 0, true))
  {
    var t := Go(s, w, WantWrite(false));
    ss', ps' := Extend(c, ss, ps, w, t);
    ss', ps' := Extend(c, ss', ps', w, SetLock(Go(t, w, TestBias), w.lock, Lock(true, 0, true)));
  }

  /** ... revokes the bias and scans the empty table. */
  lemma WriterEnters(c: Config, ss: seq<State>, ps: seq<Proc>, w: Proc, s: State)
      returns (ss': seq<State>, ps': seq<Proc>)
    requires Path(c, ss, ps) && s == ss[|ps|] && WellFormed(s) && s.slots == map[] && w in s.pcs && s.pcs[w].TestBias?
    requires s.locks[w.lock].rbias
    ensures Path(c, ss', ps') && ss'[0] == ss[0]
    ensures ss'[|ps'|].pcs == s.pcs[w := HoldWrite]
  {
    var t := Go(s, w, Revoke);
    ss', ps' := Extend(c, ss, ps, w, t);
    t := SetLock(Go(t, w, Scan(0)), w.lock, t.locks[w.lock].(rbias := false));
    ss', ps' := Extend(c, ss', ps', w, t);
    ss', ps' := ScanEnds(c, ss', ps', w);
  }
}
