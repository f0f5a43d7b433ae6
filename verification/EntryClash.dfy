/** Exactly when the entry locks work.  If two requests share a block but start in different ones, the shared link
    makes one of them stop short of its own blocks or run on into those of the other.  Here are the runs, for all such
    requests, and the conditions both ways. */
module EntryClash {
  import opened EntryLocks
  import opened Options

  ghost predicate AlwaysExclusive(reqs: set<Request>) {
    forall ss: seq<State>, ts: seq<nat>, n :: Run(reqs, ss, ts) && 0 <= n < |ss| ==> Exclusive(ss[n])
  }

  ghost predicate AlwaysCompletes(reqs: set<Request>) {
    forall ss: seq<State>, ts: seq<nat>, n :: Run(reqs, ss, ts) && 0 <= n < |ss| ==> Completes(ss[n])
  }

  ghost predicate AlwaysLive(reqs: set<Request>) {
    forall ss: seq<State>, ts: seq<nat>, n :: Run(reqs, ss, ts) && 0 <= n < |ss| ==> Live(ss[n])
  }

  // ----- compatible requests never clash

  ghost predicate Asked(reqs: set<Request>, s: State) {
    forall t :: 0 <= t < |s.threads| && AtWork(s.threads[t]) ==> s.threads[t].req in reqs
  }

  lemma {:induction false} RunAsked(reqs: set<Request>, ss: seq<State>, ts: seq<nat>, n: nat)
    requires Run(reqs, ss, ts) && n < |ss|
    ensures Asked(reqs, ss[n])
  {
    if n > 0 {
      RunAsked(reqs, ss, ts, n - 1);
      assert Stepped(reqs, ss, ts, n - 1);
      AskedStep(reqs, ss[n - 1], ts[n - 1], ss[n]);
    }
  }

  lemma AskedStep(reqs: set<Request>, s: State, t: nat, s': State)
    requires Asked(reqs, s) && Step(reqs, s, t, s')
    ensures Asked(reqs, s')
  {
    if Advance(s, t, s') {
      assert AtWork(s'.threads[t]) ==> AtWork(s.threads[t]) && s'.threads[t].req == s.threads[t].req;
    }
  }

  lemma CompatibleRun(reqs: set<Request>, ss: seq<State>, ts: seq<nat>, n: nat)
    requires Run(reqs, ss, ts) && n < |ss| && AllCompatible(reqs)
    ensures Inv(ss[n]) && NoClash(ss[n])
  {
    forall i | 0 <= i <= n ensures NoClash(ss[i]) {
      RunAsked(reqs, ss, ts, i);
    }
    RunKeeps(reqs, ss, ts, n);
  }

  // ----- parts of a run, one thread at a time

  lemma Extend(reqs: set<Request>, ss: seq<State>, ts: seq<nat>, t: nat, s: State)
      returns (ss': seq<State>, ts': seq<nat>)
    requires Path(reqs, ss, ts) && Step(reqs, ss[|ts|], t, s)
    ensures Path(reqs, ss', ts') && ss'[0] == ss[0] && ss'[|ts'|] == s
  {
    ss', ts' := ss + [s], ts + [t];
    forall i | 0 <= i < |ts'| ensures Stepped(reqs, ss', ts', i) {
      assert i < |ts| ==> Stepped(reqs, ss, ts, i);
    }
  }

  /** Locks and links are the same but for blocks from `lo` up to `hi`. */
  ghost predicate SameBut(s: State, lo: int, hi: int, s': State) {
    && (forall b: nat :: !(lo <= b < hi) ==> LockAt(s'.locks, b) == LockAt(s.locks, b))
    && forall b: nat :: !(lo <= b < hi) ==> NextAt(s'.next, b) == NextAt(s.next, b)
  }

  ghost predicate AreTaken(s: State, r: Request, lo: int, hi: int) {
    forall b: nat :: lo <= b < hi ==> LockAt(s.locks, b) == Taken(FREE, r.wr)
  }

  ghost predicate AreFree(s: State, lo: int, hi: int) {
    forall b: nat :: lo <= b < hi ==> LockAt(s.locks, b) == FREE
  }

  /** They are linked as `r` links them. */
  ghost predicate AreLinked(s: State, r: Request, lo: int, hi: int) {
    forall b: nat :: lo <= b < hi ==> NextAt(s.next, b) == Below(r, b)
  }

  lemma {:induction false} AcquireTo(reqs: set<Request>, ss: seq<State>, ts: seq<nat>, t: nat, r: Request, have: nat,
      m: nat)
      returns (ss': seq<State>, ts': seq<nat>)
    requires Path(reqs, ss, ts) && t < |ss[|ts|].threads| && ss[|ts|].threads[t] == Acquiring(r, have)
             && have <= m <= r.count
    requires AreFree(ss[|ts|], r.first + have, r.first + m)
    ensures Path(reqs, ss', ts') && ss'[0] == ss[0] && ss'[|ts'|].threads == ss[|ts|].threads[t := Acquiring(r, m)]
    ensures SameBut(ss[|ts|], r.first + have, r.first + m, ss'[|ts'|])
    ensures AreTaken(ss'[|ts'|], r, r.first + have, r.first + m)
            && AreLinked(ss'[|ts'|], r, r.first + have, r.first + m)
    decreases m - have
  {
    ss', ts' := ss, ts;
    if have < m {
      var s, b := ss[|ts|], r.first + have;
      var s1 := SetNext(SetLock(Go(s, t, Acquiring(r, have + 1)), b, Taken(LockOf(s, b), r.wr)), b, Head(r, have));
      assert LockOf(s, b) == FREE;
      assert SameBut(s, b, b + 1, s1);
      assert LockAt(s1.locks, b) == Taken(FREE, r.wr) && NextAt(s1.next, b) == Below(r, b);
      ss', ts' := Extend(reqs, ss, ts, t, s1);
      ss', ts' := AcquireTo(reqs, ss', ts', t, r, have + 1, m);
    }
  }

  lemma {:induction false} WorkThrough(reqs: set<Request>, ss: seq<State>, ts: seq<nat>, t: nat, r: Request,
      at: Option<nat>)
      returns (ss': seq<State>, ts': seq<nat>)
    requires Path(reqs, ss, ts) && t < |ss[|ts|].threads| && ss[|ts|].threads[t] == Working(r, at)
    requires at.Some? ==> Covers(r, at.value) && AreLinked(ss[|ts|], r, r.first, at.value + 1)
    ensures Path(reqs, ss', ts') && ss'[0] == ss[0] && ss'[|ts'|] == Go(ss[|ts|], t, Working(r, None))
    decreases if at.None? then 0 else at.value + 1
  {
    ss', ts' := ss, ts;
    var s := ss[|ts|];
    if at.Some? {
      var s1 := Go(s, t, Working(r, NextOf(s, at.value)));
      ss', ts' := Extend(reqs, ss, ts, t, s1);
      ss', ts' := WorkThrough(reqs, ss', ts', t, r, Below(r, at.value));
      assert Go(s1, t, Working(r, None)) == Go(s, t, Working(r, None));
    } else {
      assert Go(s, t, Working(r, None)) == s;
    }
  }

  lemma {:induction false} ReleaseTo(reqs: set<Request>, ss: seq<State>, ts: seq<nat>, t: nat, r: Request, at: nat,
      x: nat)
      returns (ss': seq<State>, ts': seq<nat>)
    requires Path(reqs, ss, ts) && t < |ss[|ts|].threads| && ss[|ts|].threads[t] == Releasing(r, Some(at), false)
    requires r.first <= x <= at && Covers(r, at) && AreTaken(ss[|ts|], r, x, at + 1)
             && AreLinked(ss[|ts|], r, x, at + 1)
    ensures Path(reqs, ss', ts') && ss'[0] == ss[0]
            && ss'[|ts'|].threads == ss[|ts|].threads[t := Releasing(r, Some(x), true)]
    ensures SameBut(ss[|ts|], x, at + 1, ss'[|ts'|]) && ss'[|ts'|].next == ss[|ts|].next
            && AreFree(ss'[|ts'|], x, at + 1)
    decreases at - x
  {
    var s := ss[|ts|];
    var s1 := SetLock(Go(s, t, Releasing(r, Some(at), true)), at, Unlocked(LockOf(s, at)));
    assert LockOf(s, at) == Taken(FREE, r.wr);
    assert SameBut(s, at, at + 1, s1);
    assert LockAt(s1.locks, at) == FREE;
    ss', ts' := Extend(reqs, ss, ts, t, s1);
    if x < at {
      assert NextOf(s1, at) == Some(at - 1);
      ss', ts' := Extend(reqs, ss', ts', t, Go(s1, t, Releasing(r, Some(at - 1), false)));
      ss', ts' := ReleaseTo(reqs, ss', ts', t, r, at - 1, x);
    }
  }

  /** A thread takes up a request on free blocks, and has unlocked them down to `x`, whose link it is going to read. */
  lemma ServeTo(reqs: set<Request>, ss: seq<State>, ts: seq<nat>, t: nat, r: Request, x: nat)
      returns (ss': seq<State>, ts': seq<nat>)
    requires Path(reqs, ss, ts) && t < |ss[|ts|].threads| && ss[|ts|].threads[t].Idle? && r in reqs && Covers(r, x)
    requires AreFree(ss[|ts|], r.first, r.first + r.count)
    ensures Path(reqs, ss', ts') && ss'[0] == ss[0]
    ensures ss'[|ts'|].threads == ss[|ts|].threads[t := Releasing(r, Some(x), true)]
    ensures SameBut(ss[|ts|], r.first, r.first + r.count, ss'[|ts'|])
            && AreLinked(ss'[|ts'|], r, r.first, r.first + r.count)
    ensures AreTaken(ss'[|ts'|], r, r.first, x) && AreFree(ss'[|ts'|], x, r.first + r.count)
  {
    var s := ss[|ts|];
    assert Begin(s, t, r, Go(s, t, Acquiring(r, 0)));
    ss', ts' := Extend(reqs, ss, ts, t, Go(s, t, Acquiring(r, 0)));
    ss', ts' := AcquireTo(reqs, ss', ts', t, r, 0, r.count);
    var s1, top := ss'[|ts'|], Head(r, r.count);
    ss', ts' := Extend(reqs, ss', ts', t, Go(s1, t, Working(r, top)));
    ss', ts' := WorkThrough(reqs, ss', ts', t, r, top);
    ss', ts' := Extend(reqs, ss', ts', t, Go(ss'[|ts'|], t, Releasing(r, top, false)));
    ss', ts' := ReleaseTo(reqs, ss', ts', t, r, top.value, x);
  }

  /** It reads NULL there and is done. */
  lemma Finish(reqs: set<Request>, ss: seq<State>, ts: seq<nat>, t: nat, r: Request, x: nat)
      returns (ss': seq<State>, ts': seq<nat>)
    requires Path(reqs, ss, ts) && t < |ss[|ts|].threads| && ss[|ts|].threads[t] == Releasing(r, Some(x), true)
    requires NextOf(ss[|ts|], x) == None
    ensures Path(reqs, ss', ts') && ss'[0] == ss[0] && ss'[|ts'|] == Go(ss[|ts|], t, Idle)
  {
    var s := ss[|ts|];
    ss', ts' := Extend(reqs, ss, ts, t, Go(s, t, Releasing(r, None, false)));
    ss', ts' := Extend(reqs, ss', ts', t, Go(s, t, Idle));
  }

  // ----- clashing requests

  /** `b` starts in a block of `a` that is not the first. */
  predicate Clashes(a: Request, b: Request) {
    a.first < b.first < a.first + a.count && b.count > 0
  }

  function Threads(): State { State([Idle, Idle, Idle], map[], map[]) }

  /** A lost unlock: while `a` has unlocked the first block of `b` and has yet to read its link, `b` takes that block
      and overwrites the link.  All threads end up idle with the first blocks of `a` locked for ever. */
  lemma LostUnlock(reqs: set<Request>, a: Request, b: Request) returns (ss: seq<State>, ts: seq<nat>)
    requires a in reqs && b in reqs && Clashes(a, b)
    ensures Run(reqs, ss, ts) && ss[|ts|].threads == [Idle, Idle, Idle]
    ensures AreTaken(ss[|ts|], a, a.first, b.first) && AreFree(ss[|ts|], 0, a.first)
  {
    var x := b.first;
    ss, ts := [Threads()], [];
    ss, ts := ServeTo(reqs, ss, ts, 0, a, x);
    ss, ts := ServeTo(reqs, ss, ts, 1, b, x);
    ss, ts := Finish(reqs, ss, ts, 1, b, x);
    ss, ts := Finish(reqs, ss, ts, 0, a, x);
  }

  /** A stolen lock: while `b` has yet to read the link of its first block, `a` takes the block and links it to the
      block below.  `b` follows, unlocks that block, and a checkpointer gets it while `a` is using it. */
  lemma StolenLock(reqs: set<Request>, a: Request, b: Request) returns (ss: seq<State>, ts: seq<nat>)
    requires a in reqs && b in reqs && Clashes(a, b)
    ensures Run(reqs, ss, ts) && !Exclusive(ss[|ts|])
  {
    var x, m := b.first, b.first - a.first + 1;
    ss, ts := [Threads()], [];
    ss, ts := ServeTo(reqs, ss, ts, 1, b, x);
    assert Begin(ss[|ts|], 0, a, Go(ss[|ts|], 0, Acquiring(a, 0)));
    ss, ts := Extend(reqs, ss, ts, 0, Go(ss[|ts|], 0, Acquiring(a, 0)));
    ss, ts := AcquireTo(reqs, ss, ts, 0, a, 0, m);
    ss, ts := Steal(reqs, ss, ts, b, x);
    var s := ss[|ts|];
    assert Uses(s.threads[0], x - 1) && Uses(s.threads[2], x - 1) && Writes(s.threads[2]);
  }

  /** Thread 1 follows the link of `x`, unlocks the block below, and thread 2 gets that. */
  lemma Steal(reqs: set<Request>, ss: seq<State>, ts: seq<nat>, b: Request, x: nat)
      returns (ss': seq<State>, ts': seq<nat>)
    requires Path(reqs, ss, ts) && x > 0
    requires var s := ss[|ts|];
             && |s.threads| == 3 && s.threads[1] == Releasing(b, Some(x), true) && s.threads[2].Idle?
             && NextOf(s, x) == Some(x - 1) && Grants(Unlocked(LockOf(s, x - 1)), true)
    ensures Path(reqs, ss', ts') && ss'[0] == ss[0] && |ss'[|ts'|].threads| == 3
    ensures ss'[|ts'|].threads[0] == ss[|ts|].threads[0] && ss'[|ts'|].threads[2] == Checkpointing(x - 1)
  {
    var s := Go(ss[|ts|], 1, Releasing(b, Some(x - 1), false));
    ss', ts' := Extend(reqs, ss, ts, 1, s);
    s := SetLock(Go(s, 1, Releasing(b, Some(x - 1), true)), x - 1, Unlocked(LockOf(s, x - 1)));
    ss', ts' := Extend(reqs, ss', ts', 1, s);
    var s' := SetLock(Go(s, 2, Checkpointing(x - 1)), x - 1, Taken(LockOf(s, x - 1), true));
    assert Try(s, 2, x - 1, s');
    ss', ts' := Extend(reqs, ss', ts', 2, s');
  }

  lemma SomeClash(reqs: set<Request>) returns (a: Request, b: Request)
    requires !AllCompatible(reqs)
    ensures a in reqs && b in reqs && Clashes(a, b)
  {
    a, b :| a in reqs && b in reqs && !Compatible(a, b);
    if b.first < a.first {
      a, b := b, a;
    }
  }

  // ----- the conditions both ways

  /** Exclusion holds in every state of every run if and only if any two requests share no block or start in the same
      one; here, as in all of EntryLocks, no entry is retired and used for another block meanwhile. */
  lemma ExclusionExact(reqs: set<Request>)
    ensures AlwaysExclusive(reqs) <==> AllCompatible(reqs)
  {
    if AllCompatible(reqs) {
      forall ss: seq<State>, ts: seq<nat>, n | Run(reqs, ss, ts) && 0 <= n < |ss| ensures Exclusive(ss[n]) {
        CompatibleRun(reqs, ss, ts, n);
        InvExclusive(ss[n]);
      }
    } else {
      var a, b := SomeClash(reqs);
      var ss, ts := StolenLock(reqs, a, b);
    }
  }

  /** So does completion, again without retired entries: that from every state, if nothing new begins, everything can
      come to rest with all locks free. */
  lemma CompletionExact(reqs: set<Request>)
    ensures AlwaysCompletes(reqs) <==> AllCompatible(reqs)
  {
    if AllCompatible(reqs) {
      forall ss: seq<State>, ts: seq<nat>, n | Run(reqs, ss, ts) && 0 <= n < |ss| ensures Completes(ss[n]) {
        CompatibleRun(reqs, ss, ts, n);
        var ss', ts' := AllComplete(ss[n]);
      }
    } else {
      var a, b := SomeClash(reqs);
      var ss, ts := LostUnlock(reqs, a, b);
      assert LockOf(ss[|ts|], a.first) == Taken(FREE, a.wr);
      IdleStays(ss[|ts|], a.first);
    }
  }

  lemma IdleStays(s: State, b: nat)
    requires (forall t :: 0 <= t < |s.threads| ==> s.threads[t].Idle?) && LockOf(s, b) != FREE
    ensures !Completes(s)
  {
    forall ss: seq<State>, ts: seq<nat> | Drive(ss, ts) && ss[0] == s ensures !AtRest(ss[|ts|]) {
      assert |ts| > 0 ==> Advance(ss[0], ts[0], ss[1]);
    }
  }
}
