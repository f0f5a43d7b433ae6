/** Exactly when requests may deadlock on the entry locks.  Requests that clash lose unlocks and unlock what others hold
    (EntryClash), but only on blocks between the starts of two clashing requests.  If none of the requests that meet
    there writes, nobody ever waits for good. */
module EntryDeadlock {
  import opened Options
  import opened EntryLocks
  import opened EntryClash

  /** The block lies between the starts of two clashing requests. */
  ghost predicate Exposed(reqs: set<Request>, x: nat) {
    exists a, b :: a in reqs && b in reqs && Clashes(a, b) && a.first <= x < b.first
  }

  /** A lock that the first of two clashing requests may lose keeps a third request waiting. */
  ghost predicate Blocks(reqs: set<Request>, a: Request, b: Request, r: Request, x: nat) {
    a in reqs && b in reqs && r in reqs && Clashes(a, b) && a.first <= x < b.first && Covers(r, x) && (a.wr || r.wr)
  }

  ghost predicate SomeoneBlocked(reqs: set<Request>) {
    exists a, b, r, x :: Blocks(reqs, a, b, r, x)
  }

  /** Deadlock freedom: in every state of every run in which a thread is at work some thread can get ahead, if and only
      if no two clashing requests and no third one on a block between their starts are such that the first to start or
      the third one writes. */
  lemma DeadlockExact(reqs: set<Request>)
    ensures AlwaysLive(reqs) <==> !SomeoneBlocked(reqs)
  {
    if SomeoneBlocked(reqs) {
      var a, b, r, x :| Blocks(reqs, a, b, r, x);
      var ss, ts := Deadlock(reqs, a, b, r, x);
    } else {
      forall ss: seq<State>, ts: seq<nat>, n | Run(reqs, ss, ts) && 0 <= n < |ss| ensures Live(ss[n]) {
        RunSettled(reqs, ss, ts, n);
        SettledLive(reqs, ss[n]);
      }
    }
  }

  // ----- a third request that waits for ever

  /** After a lost unlock all threads are idle; then a thread takes up `r`, comes to a block that was lost, and
      waits. */
  lemma Deadlock(reqs: set<Request>, a: Request, b: Request, r: Request, x: nat) returns (ss: seq<State>, ts: seq<nat>)
    requires Blocks(reqs, a, b, r, x)
    ensures Run(reqs, ss, ts) && !Live(ss[|ts|])
  {
    ss, ts := LostUnlock(reqs, a, b);
    var have := if r.first < a.first then a.first - r.first else 0;
    var s := Go(ss[|ts|], 0, Acquiring(r, 0));
    assert Begin(ss[|ts|], 0, r, s);
    ss, ts := Extend(reqs, ss, ts, 0, s);
    ss, ts := AcquireTo(reqs, ss, ts, 0, r, 0, have);
    WaitsForEver(ss[|ts|], r, have, a.wr);
  }

  lemma WaitsForEver(s: State, r: Request, have: nat, wr: bool)
    requires s.threads == [Acquiring(r, have), Idle, Idle] && have < r.count
    requires LockOf(s, r.first + have) == Taken(FREE, wr) && (wr || r.wr)
    ensures !Live(s)
  {
    assert !s.threads[0].Idle?;
    forall t: nat, s' ensures !Advance(s, t, s') {
      assert t < |s.threads| ==> t == 0 || s.threads[t].Idle?;
    }
  }

  // ----- what every run keeps

  ghost predicate Longer(reqs: set<Request>, x: nat) {
    exists r :: r in reqs && r.first < x < r.first + r.count
  }

  ghost predicate Starts(reqs: set<Request>, x: nat) {
    exists r :: r in reqs && r.first == x && r.count > 0
  }

  /** A thread is somewhere in its request, or has strayed into exposed blocks below it. */
  ghost predicate Near(reqs: set<Request>, ph: Phase) {
    match ph
    case Acquiring(r, have) => have <= r.count
    case Working(r, at) => at.Some? ==> Covers(r, at.value) || (at.value < r.first && Exposed(reqs, at.value))
    case Releasing(r, at, _) => at.Some? ==> Covers(r, at.value) || (at.value < r.first && Exposed(reqs, at.value))
    case _ => true
  }

  /** Links lead one block down, inside a request; where one ends, a request starts. */
  ghost predicate LinksNear(reqs: set<Request>, s: State) {
    && (forall x :: NextOf(s, x).Some? ==> NextOf(s, x).value + 1 == x && Longer(reqs, x))
    && forall t, x :: 0 <= t < |s.threads| && Follows(s.threads[t], x) && NextOf(s, x).None? ==>
         x == s.threads[t].req.first || Starts(reqs, x)
  }

  /** Only a checkpointer locks an exposed block for writing. */
  ghost predicate Shared(s: State, x: nat) {
    LockOf(s, x).writer ==> exists t :: 0 <= t < |s.threads| && s.threads[t] == Checkpointing(x)
  }

  ghost predicate Settled(reqs: set<Request>, s: State) {
    && Asked(reqs, s) && LinksNear(reqs, s) && (forall t :: 0 <= t < |s.threads| ==> Near(reqs, s.threads[t]))
    && forall x :: if Exposed(reqs, x) then Shared(s, x) else Honest(s, x)
  }

  // ----- where a link leads

  lemma ExposedBy(reqs: set<Request>, a: Request, b: Request, x: nat)
    requires a in reqs && b in reqs && Clashes(a, b) && a.first <= x < b.first
    ensures Exposed(reqs, x)
  {
  }

  /** A thread that stops short of its own blocks leaves exposed ones. */
  lemma StopsShort(reqs: set<Request>, r: Request, x: nat, b: nat)
    requires r in reqs && Covers(r, x) && Starts(reqs, x) && r.first <= b < x
    ensures Exposed(reqs, b)
  {
    var q :| q in reqs && q.first == x && q.count > 0;
    ExposedBy(reqs, r, q, b);
  }

  /** A thread that runs on below its own blocks comes to exposed ones. */
  lemma RunsOn(reqs: set<Request>, r: Request)
    requires r in reqs && r.count > 0 && Longer(reqs, r.first)
    ensures r.first > 0 && Exposed(reqs, r.first - 1)
  {
    var q :| q in reqs && q.first < r.first < q.first + q.count;
    ExposedBy(reqs, q, r, r.first - 1);
  }

  /** ... and stays among them. */
  lemma StraysOn(reqs: set<Request>, x: nat)
    requires Exposed(reqs, x) && Longer(reqs, x)
    ensures x > 0 && Exposed(reqs, x - 1)
  {
    var a, b :| a in reqs && b in reqs && Clashes(a, b) && a.first <= x < b.first;
    var q :| q in reqs && q.first < x < q.first + q.count;
    if a.first < x {
      ExposedBy(reqs, a, b, x - 1);
    } else {
      ExposedBy(reqs, q, a, x - 1);
    }
  }

  /** Following the link of `x` one stays near, and uses the same blocks as before but for exposed ones. */
  lemma FollowedNear(reqs: set<Request>, s: State, t: nat)
    requires Settled(reqs, s) && t < |s.threads| && (s.threads[t].Working? || s.threads[t].Releasing?)
    requires s.threads[t].at.Some?
    ensures var r, x, next := s.threads[t].req, s.threads[t].at.value, NextOf(s, s.threads[t].at.value);
            && (next.Some? ==> Covers(r, next.value) || (next.value < r.first && Exposed(reqs, next.value)))
            && (next.Some? && Covers(r, x) && x > r.first ==> next.value == x - 1)
            && (next.Some? && (x <= r.first) ==> next.value < r.first)
            && (next.None? && Covers(r, x) ==> forall b :: r.first <= b < x ==> Exposed(reqs, b))
  {
    var r, x := s.threads[t].req, s.threads[t].at.value;
    assert Near(reqs, s.threads[t]) && r in reqs;
    if NextOf(s, x).Some? {
      assert Longer(reqs, x);
      if !Covers(r, x) {
        StraysOn(reqs, x);
      } else if x == r.first {
        RunsOn(reqs, r);
      }
    } else if Covers(r, x) {
      assert Follows(s.threads[t], x);
      forall b | r.first <= b < x ensures Exposed(reqs, b) {
        StopsShort(reqs, r, x, b);
      }
    }
  }

  // ----- every step keeps it

  lemma AdvanceNear(reqs: set<Request>, s: State, t: nat, s': State)
    requires Settled(reqs, s) && Advance(s, t, s')
    ensures s'.threads == s.threads[t := s'.threads[t]] && Near(reqs, s'.threads[t])
    ensures AtWork(s'.threads[t]) ==> AtWork(s.threads[t]) && s'.threads[t].req == s.threads[t].req
  {
    var ph := s.threads[t];
    assert Near(reqs, ph);
    if (ph.Working? || ph.Releasing?) && ph.at.Some? {
      FollowedNear(reqs, s, t);
    }
  }

  /** What an advance does to a block that is not exposed. */
  lemma AdvanceHonest(reqs: set<Request>, s: State, t: nat, s': State, b: nat)
    requires Settled(reqs, s) && Advance(s, t, s') && !Exposed(reqs, b)
    ensures Honest(s', b)
  {
    var ph, ph' := s.threads[t], s'.threads[t];
    AdvanceNear(reqs, s, t, s');
    assert Near(reqs, ph) && Honest(s, b);
    if Touches(ph, b) {
      if ph.Acquiring? {
        Acquires(s, t, ph', s', b);
      } else {
        Releases(s, t, ph', s', b);
      }
    } else {
      SameUses(reqs, s, t, s', b);
      SameUse(s, t, ph', s', b);
    }
  }

  lemma SameUses(reqs: set<Request>, s: State, t: nat, s': State, b: nat)
    requires Settled(reqs, s) && Advance(s, t, s') && !Exposed(reqs, b) && !Touches(s.threads[t], b)
    ensures LockOf(s', b) == LockOf(s, b) && (Uses(s'.threads[t], b) <==> Uses(s.threads[t], b))
    ensures Uses(s.threads[t], b) ==> Writes(s'.threads[t]) == Writes(s.threads[t])
  {
    var ph := s.threads[t];
    assert Near(reqs, ph);
    if ph.Releasing? && ph.at.Some? && ph.unlocked {
      FollowedNear(reqs, s, t);
    }
  }

  lemma AdvanceShared(reqs: set<Request>, s: State, t: nat, s': State, b: nat)
    requires Settled(reqs, s) && Advance(s, t, s') && Exposed(reqs, b) && !SomeoneBlocked(reqs)
    ensures Shared(s', b)
  {
    var ph := s.threads[t];
    assert Near(reqs, ph) && Shared(s, b);
    AdvanceNear(reqs, s, t, s');
    if Touches(ph, b) {
      if ph.Acquiring? {
        OnlyReads(reqs, ph.req, b);
      }
    } else if LockOf(s', b).writer {
      assert LockOf(s', b) == LockOf(s, b);
      var u :| 0 <= u < |s.threads| && s.threads[u] == Checkpointing(b);
      assert s'.threads[u] == Checkpointing(b);
    }
  }

  /** Requests on exposed blocks only read. */
  lemma OnlyReads(reqs: set<Request>, r: Request, x: nat)
    requires !SomeoneBlocked(reqs) && r in reqs && Covers(r, x) && Exposed(reqs, x)
    ensures !r.wr
  {
    var a, b :| a in reqs && b in reqs && Clashes(a, b) && a.first <= x < b.first;
    assert !Blocks(reqs, a, b, r, x);
  }

  lemma AdvanceLinksNear(reqs: set<Request>, s: State, t: nat, s': State)
    requires Settled(reqs, s) && Advance(s, t, s')
    ensures LinksNear(reqs, s')
  {
    var ph := s.threads[t];
    assert Near(reqs, ph);
    AdvanceNear(reqs, s, t, s');
    if Waiting(ph) {
      PushedLinks(reqs, s, t, s');
    } else {
      StillFollowed(reqs, s, t, s', 0);
      assert forall x :: NextOf(s', x) == NextOf(s, x);
      forall u, x | 0 <= u < |s'.threads| && Follows(s'.threads[u], x) && NextOf(s', x).None?
        ensures x == s'.threads[u].req.first || Starts(reqs, x)
      {
        StillFollowed(reqs, s, t, s', x);
        assert Follows(s.threads[u], x);
      }
    }
  }

  lemma StillFollowed(reqs: set<Request>, s: State, t: nat, s': State, x: nat)
    requires Settled(reqs, s) && Advance(s, t, s') && !Waiting(s.threads[t])
    ensures s'.next == s.next && (Follows(s'.threads[t], x) ==> Follows(s.threads[t], x))
    ensures Follows(s'.threads[t], x) ==> s'.threads[t].req == s.threads[t].req
  {
    var ph := s.threads[t];
    assert Near(reqs, ph);
    if (ph.Working? || ph.Releasing?) && ph.at.Some? {
      FollowedNear(reqs, s, t);
    }
  }

  lemma PushedLinks(reqs: set<Request>, s: State, t: nat, s': State)
    requires Settled(reqs, s) && Advance(s, t, s') && Waiting(s.threads[t])
    ensures LinksNear(reqs, s')
  {
    var r, b := s.threads[t].req, Awaited(s.threads[t]);
    assert r in reqs;
    forall x | NextOf(s', x).Some? ensures NextOf(s', x).value + 1 == x && Longer(reqs, x) {
      assert x != b ==> NextOf(s', x) == NextOf(s, x);
    }
    forall u, x | 0 <= u < |s'.threads| && Follows(s'.threads[u], x) && NextOf(s', x).None?
      ensures x == s'.threads[u].req.first || Starts(reqs, x)
    {
      if x != b {
        assert Follows(s.threads[u], x) && NextOf(s, x).None?;
      }
    }
  }

  lemma AdvanceSettled(reqs: set<Request>, s: State, t: nat, s': State)
    requires Settled(reqs, s) && Advance(s, t, s') && !SomeoneBlocked(reqs)
    ensures Settled(reqs, s')
  {
    AdvanceNear(reqs, s, t, s');
    AdvanceLinksNear(reqs, s, t, s');
    forall x ensures if Exposed(reqs, x) then Shared(s', x) else Honest(s', x) {
      if Exposed(reqs, x) {
        AdvanceShared(reqs, s, t, s', x);
      } else {
        AdvanceHonest(reqs, s, t, s', x);
      }
    }
  }

  /** A thread that was idle follows no link. */
  lemma LinksSame(reqs: set<Request>, s: State, t: nat, ph: Phase, s': State)
    requires LinksNear(reqs, s) && t < |s.threads| && s'.threads == s.threads[t := ph] && s'.next == s.next
    requires ph.Checkpointing? || (ph.Acquiring? && ph.have == 0)
    ensures LinksNear(reqs, s')
  {
    assert forall x :: NextOf(s', x) == NextOf(s, x);
    forall u, x | 0 <= u < |s'.threads| && Follows(s'.threads[u], x) && NextOf(s', x).None?
      ensures x == s'.threads[u].req.first || Starts(reqs, x)
    {
      assert u != t && Follows(s.threads[u], x);
    }
  }

  lemma BeginSettled(reqs: set<Request>, s: State, t: nat, r: Request, s': State)
    requires Settled(reqs, s) && r in reqs && Begin(s, t, r, s')
    ensures Settled(reqs, s')
  {
    LinksSame(reqs, s, t, s'.threads[t], s');
    forall x ensures if Exposed(reqs, x) then Shared(s', x) else Honest(s', x) {
      if Exposed(reqs, x) {
        assert Shared(s, x);
        SharedStays(s, t, s'.threads[t], s', x);
      } else {
        assert Honest(s, x);
        SameUse(s, t, s'.threads[t], s', x);
      }
    }
  }

  lemma SharedStays(s: State, t: nat, ph: Phase, s': State, x: nat)
    requires Shared(s, x) && t < |s.threads| && s.threads[t].Idle? && s'.threads == s.threads[t := ph]
    requires LockOf(s', x) == LockOf(s, x)
    ensures Shared(s', x)
  {
    if LockOf(s, x).writer {
      var u :| 0 <= u < |s.threads| && s.threads[u] == Checkpointing(x);
      assert s'.threads[u] == Checkpointing(x);
    }
  }

  lemma TrySettled(reqs: set<Request>, s: State, t: nat, b: nat, s': State)
    requires Settled(reqs, s) && Try(s, t, b, s')
    ensures Settled(reqs, s')
  {
    LinksSame(reqs, s, t, s'.threads[t], s');
    assert s'.threads[t] == Checkpointing(b);
    forall x ensures if Exposed(reqs, x) then Shared(s', x) else Honest(s', x) {
      if x == b {
        if !Exposed(reqs, x) {
          assert Honest(s, x);
          Acquires(s, t, s'.threads[t], s', x);
        }
      } else if Exposed(reqs, x) {
        assert Shared(s, x);
        SharedStays(s, t, s'.threads[t], s', x);
      } else {
        assert Honest(s, x);
        SameUse(s, t, s'.threads[t], s', x);
      }
    }
  }

  lemma InitSettled(reqs: set<Request>, s: State)
    requires Init(s)
    ensures Settled(reqs, s)
  {
    InitInv(s);
  }

  lemma {:induction false} RunSettled(reqs: set<Request>, ss: seq<State>, ts: seq<nat>, n: nat)
    requires Run(reqs, ss, ts) && n < |ss| && !SomeoneBlocked(reqs)
    ensures Settled(reqs, ss[n])
  {
    if n == 0 {
      InitSettled(reqs, ss[0]);
    } else {
      RunSettled(reqs, ss, ts, n - 1);
      var s, t, s' := ss[n - 1], ts[n - 1], ss[n];
      assert Stepped(reqs, ss, ts, n - 1);
      if r :| r in reqs && Begin(s, t, r, s') {
        BeginSettled(reqs, s, t, r, s');
      } else if b :| Try(s, t, b, s') {
        TrySettled(reqs, s, t, b, s');
      } else {
        AdvanceSettled(reqs, s, t, s');
      }
    }
  }

  // ----- somebody can get ahead

  lemma SettledLive(reqs: set<Request>, s: State)
    requires Settled(reqs, s) && !SomeoneBlocked(reqs)
    ensures Live(s)
  {
    if u :| 0 <= u < |s.threads| && !s.threads[u].Idle? && !Waiting(s.threads[u]) {
      var t, s' := AdvanceOf(s, u);
    } else if exists u :: 0 <= u < |s.threads| && Waiting(s.threads[u]) {
      var w := HighestWaiter(s, |s.threads|);
      HighestGranted(reqs, s, w);
      var s' := GrantedStep(s, w);
    }
  }

  /** If all that are not idle wait, the one that waits for the highest block is granted it. */
  lemma HighestGranted(reqs: set<Request>, s: State, w: nat)
    requires Settled(reqs, s) && !SomeoneBlocked(reqs) && w < |s.threads| && Waiting(s.threads[w])
    requires forall u :: 0 <= u < |s.threads| ==> s.threads[u].Idle? || Waiting(s.threads[u])
    requires forall u :: 0 <= u < |s.threads| && Waiting(s.threads[u]) ==>
             Awaited(s.threads[u]) <= Awaited(s.threads[w])
    ensures Grants(LockOf(s, Awaited(s.threads[w])), s.threads[w].req.wr)
  {
    var b, r := Awaited(s.threads[w]), s.threads[w].req;
    if Exposed(reqs, b) {
      assert Shared(s, b) && r in reqs;
      OnlyReads(reqs, r, b);
    } else {
      assert Honest(s, b);
      UnusedIsFree(s, b);
    }
  }

  lemma GrantedStep(s: State, w: nat) returns (s': State)
    requires w < |s.threads| && Waiting(s.threads[w]) && Grants(LockOf(s, Awaited(s.threads[w])), s.threads[w].req.wr)
    ensures Advance(s, w, s')
  {
    var r, have, b := s.threads[w].req, s.threads[w].have, Awaited(s.threads[w]);
    s' := SetNext(SetLock(Go(s, w, Acquiring(r, have + 1)), b, Taken(LockOf(s, b), r.wr)), b, Head(r, have));
  }
}
