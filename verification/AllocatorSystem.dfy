/** The allocator as any number of threads use it: each with a provider and a collector of its own, all with
    one global list.  The lists and their operations are those that FreeList proves of the linked nodes. */
module AllocatorSystem {
  import opened Chunks

  datatype Collector = Collector(chunks: Segs<nat>, cnt: nat)

  datatype State = State(global: Segs<nat>, providers: map<nat, seq<nat>>, collectors: map<nat, Collector>,
      inUse: set<nat>)

  datatype Event = Fill(t: nat) | Alloc(t: nat, obj: nat) | Free(t: nat, obj: nat)

  /** One operation of thread `ev.t`; the part of it that touches the global list is under its mutex. */
  ghost predicate Step(unit: nat, s: State, ev: Event, s': State)
    requires unit > 0
  {
    && ev.t in s.providers && ev.t in s.collectors
    && match ev
       case Fill(t) =>
         && s.providers[t] == [] && s.global.Seg?
         && s' == s.(global := s.global.rest, providers := s.providers[t := s.global.chunk])
       case Alloc(t, obj) =>
         && s.providers[t] != [] && obj == s.providers[t][0]
         && s' == s.(providers := s.providers[t := s.providers[t][1..]], inUse := s.inUse + {obj})
       case Free(t, obj) =>
         var c := s.collectors[t];
         && obj in s.inUse && CollectCount(c.chunks, c.cnt, unit) >= 0
         && s' == Pushed(unit, Given(unit, s, t), t, obj, c)
  }

  /** The collector of `t` gives its front chunk to the global list, if it is to. */
  ghost function Given(unit: nat, s: State, t: nat): State
    requires unit > 0 && t in s.collectors
  {
    var c := s.collectors[t];
    if Gives(c.chunks, c.cnt, unit) && c.cnt >= unit
    then s.(global := Seg(c.chunks.chunk, s.global),
            collectors := s.collectors[t := Collector(c.chunks.rest, c.cnt - unit)])
    else s
  }

  ghost function Pushed(unit: nat, s: State, t: nat, obj: nat, c: Collector): State
    requires unit > 0 && CollectCount(c.chunks, c.cnt, unit) >= 0
  {
    var c' := Collector(Collect(c.chunks, c.cnt, unit, obj), CollectCount(c.chunks, c.cnt, unit));
    s.(collectors := s.collectors[t := c'], inUse := s.inUse - {obj})
  }

  // ----- where an object is

  datatype Place = Global | Provider(t: nat) | Collected(t: nat) | InUse

  ghost function ListAt(s: State, pl: Place): seq<nat> {
    match pl
    case Global => Flat(s.global)
    case Provider(t) => if t in s.providers then s.providers[t] else []
    case Collected(t) => if t in s.collectors then Flat(s.collectors[t].chunks) else []
    case InUse => []
  }

  ghost predicate Holds(s: State, pl: Place, obj: nat) {
    if pl.InUse? then obj in s.inUse else obj in ListAt(s, pl)
  }

  ghost predicate Held(s: State, obj: nat) { exists pl :: Holds(s, pl, obj) }

  /** Every object is in exactly one place, and once. */
  ghost predicate Conserved(s: State, objs: set<nat>) {
    && (forall pl :: NoDup(ListAt(s, pl)))
    && (forall pl, pl', obj :: Holds(s, pl, obj) && Holds(s, pl', obj) ==> pl == pl')
    && (forall obj :: obj in objs <==> Held(s, obj))
  }

  ghost predicate Inv(unit: nat, s: State, objs: set<nat>)
    requires unit > 0
  {
    && Conserved(s, objs) && Full(s.global, unit)
    && forall t :: t in s.collectors ==>
         Exact(s.collectors[t].chunks, s.collectors[t].cnt, unit) && Count(s.collectors[t].chunks) <= MAX_SKIP_NODES
  }

  // ----- moving objects from one place to another conserves them

  ghost predicate Moves(s: State, s': State, from: Place, to: Place, objs: seq<nat>) {
    && from != to
    && (forall obj :: obj in objs ==> Holds(s, from, obj))
    && (forall obj :: Holds(s', from, obj) <==> Holds(s, from, obj) && obj !in objs)
    && (forall obj :: Holds(s', to, obj) <==> Holds(s, to, obj) || obj in objs)
    && (forall pl, obj :: pl != from && pl != to ==> (Holds(s', pl, obj) <==> Holds(s, pl, obj)))
  }

  lemma {:induction false} MoveConserves(s: State, s': State, from: Place, to: Place, moved: seq<nat>, objs: set<nat>)
    requires Conserved(s, objs) && Moves(s, s', from, to, moved)
    requires forall pl :: NoDup(ListAt(s', pl))
    ensures Conserved(s', objs)
  {
    forall obj ensures obj in objs <==> Held(s', obj) {
      MovedHeld(s, s', from, to, moved, obj);
    }
    forall pl, pl', obj | Holds(s', pl, obj) && Holds(s', pl', obj) ensures pl == pl' {
      MovedFrom(s, s', from, to, moved, pl, obj);
      MovedFrom(s, s', from, to, moved, pl', obj);
    }
  }

  lemma MovedFrom(s: State, s': State, from: Place, to: Place, moved: seq<nat>, pl: Place, obj: nat)
    requires Moves(s, s', from, to, moved) && Holds(s', pl, obj)
    ensures Holds(s, pl, obj) || (pl == to && obj in moved && Holds(s, from, obj))
    ensures pl == from ==> obj !in moved
  {
  }

  lemma MovedHeld(s: State, s': State, from: Place, to: Place, moved: seq<nat>, obj: nat)
    requires Moves(s, s', from, to, moved)
    ensures Held(s, obj) <==> Held(s', obj)
  {
    if pl :| Holds(s, pl, obj) {
      assert Holds(s', if obj in moved then to else pl, obj);
    }
    if pl :| Holds(s', pl, obj) {
      assert Holds(s, if obj in moved then from else pl, obj);
    }
  }

  /** The front `c` of one list goes in front of another. */
  lemma SpliceConserves(s: State, s': State, from: Place, to: Place, c: seq<nat>, rest: seq<nat>, objs: set<nat>)
    requires Conserved(s, objs) && from != to && !from.InUse? && !to.InUse? && s'.inUse == s.inUse
    requires ListAt(s, from) == c + rest && ListAt(s', from) == rest && ListAt(s', to) == c + ListAt(s, to)
    requires forall pl :: pl != from && pl != to ==> ListAt(s', pl) == ListAt(s, pl)
    ensures Conserved(s', objs)
  {
    assert NoDup(c + rest);
    NoDupSplit(c, rest);
    var l := ListAt(s, to);
    forall x | x in c ensures x !in l {
      assert Holds(s, from, x);
      assert !Holds(s, to, x);
    }
    assert NoDup(l);
    NoDupConcat(c, l);
    SpliceMoves(s, s', from, to, c, rest);
    MoveConserves(s, s', from, to, c, objs);
  }

  lemma SpliceMoves(s: State, s': State, from: Place, to: Place, c: seq<nat>, rest: seq<nat>)
    requires from != to && !from.InUse? && !to.InUse? && s'.inUse == s.inUse
    requires ListAt(s, from) == c + rest && ListAt(s', from) == rest && ListAt(s', to) == c + ListAt(s, to)
    requires forall pl :: pl != from && pl != to ==> ListAt(s', pl) == ListAt(s, pl)
    requires forall x :: x in c ==> x !in rest
    ensures Moves(s, s', from, to, c)
  {
  }

  lemma FillConserves(unit: nat, s: State, t: nat, s': State, objs: set<nat>)
    requires unit > 0 && Conserved(s, objs) && Step(unit, s, Fill(t), s')
    ensures Conserved(s', objs)
  {
    assert ListAt(s', Provider(t)) == s.global.chunk + ListAt(s, Provider(t));
    SpliceConserves(s, s', Global, Provider(t), s.global.chunk, Flat(s.global.rest), objs);
  }

  /** An allocated object was in nobody's use. */
  lemma AllocConserves(unit: nat, s: State, t: nat, obj: nat, s': State, objs: set<nat>)
    requires unit > 0 && Conserved(s, objs) && Step(unit, s, Alloc(t, obj), s')
    ensures Conserved(s', objs) && obj !in s.inUse && obj in objs
  {
    var l := s.providers[t];
    assert ListAt(s, Provider(t)) == l && NoDup(l) && obj in l;
    assert Holds(s, Provider(t), obj) && Held(s, obj);
    assert !Holds(s, InUse, obj);
    assert ListAt(s', Provider(t)) == l[1..];
    forall pl ensures NoDup(ListAt(s', pl)) {
      assert pl != Provider(t) ==> ListAt(s', pl) == ListAt(s, pl);
    }
    MoveConserves(s, s', Provider(t), InUse, [obj], objs);
  }

  lemma GiveConserves(unit: nat, s: State, t: nat, objs: set<nat>)
    requires unit > 0 && t in s.collectors && Conserved(s, objs)
    ensures Conserved(Given(unit, s, t), objs)
  {
    var c, s' := s.collectors[t].chunks, Given(unit, s, t);
    if s' != s {
      SpliceConserves(s, s', Collected(t), Global, c.chunk, Flat(c.rest), objs);
    }
  }

  lemma {:induction false} PushConserves(s: State, t: nat, obj: nat, c: Collector, objs: set<nat>, s': State)
    requires Conserved(s, objs) && t in s.collectors && obj in s.inUse
    requires Flat(c.chunks) == [obj] + Flat(s.collectors[t].chunks)
    requires s' == s.(collectors := s.collectors[t := c], inUse := s.inUse - {obj})
    ensures Conserved(s', objs)
  {
    var l := Flat(s.collectors[t].chunks);
    assert ListAt(s, Collected(t)) == l && NoDup(l);
    assert Holds(s, InUse, obj);
    assert !Holds(s, Collected(t), obj);
    assert ([obj] + l)[1..] == l;
    assert ListAt(s', Collected(t)) == [obj] + l;
    forall pl ensures NoDup(ListAt(s', pl)) {
      assert pl != Collected(t) ==> ListAt(s', pl) == ListAt(s, pl);
    }
    MoveConserves(s, s', InUse, Collected(t), [obj], objs);
  }

  lemma FreeConserves(unit: nat, s: State, t: nat, obj: nat, s': State, objs: set<nat>)
    requires unit > 0 && Inv(unit, s, objs) && Step(unit, s, Free(t, obj), s')
    ensures Inv(unit, s', objs)
  {
    var c, s1 := s.collectors[t], Given(unit, s, t);
    CollectExact(c.chunks, c.cnt, unit, obj);
    GiveConserves(unit, s, t, objs);
    FlatPush(s1.collectors[t].chunks, c.cnt % unit == 0, obj);
    PushConserves(s1, t, obj, s'.collectors[t], objs, s');
  }

  // ----- runs

  /** All objects are in the global list, in whole chunks: the counts that the pools are created with are
      multiples of the unit (src/allocator.c:261, 286, 324, 362). */
  ghost predicate Init(unit: nat, s: State, objs: set<nat>) {
    && Full(s.global, unit) && NoDup(Flat(s.global)) && (forall o :: o in Flat(s.global) <==> o in objs)
       && s.inUse == {}
    && (forall t :: t in s.providers ==> s.providers[t] == [])
    && (forall t :: t in s.collectors ==> s.collectors[t] == Collector(Nil, 0))
  }

  ghost predicate Run(unit: nat, ss: seq<State>, evs: seq<Event>)
    requires unit > 0
  {
    |ss| == |evs| + 1 && forall i :: 0 <= i < |evs| ==> Step(unit, ss[i], evs[i], ss[i + 1])
  }

  lemma StepKeeps(unit: nat, s: State, ev: Event, s': State, objs: set<nat>)
    requires unit > 0 && Inv(unit, s, objs) && Step(unit, s, ev, s')
    ensures Inv(unit, s', objs)
  {
    match ev
    case Fill(t) => FillConserves(unit, s, t, s', objs);
    case Alloc(t, obj) => AllocConserves(unit, s, t, obj, s', objs);
    case Free(t, obj) => FreeConserves(unit, s, t, obj, s', objs);
  }

  lemma InitConserved(unit: nat, s: State, objs: set<nat>)
    requires Init(unit, s, objs)
    ensures Conserved(s, objs)
  {
    forall pl ensures NoDup(ListAt(s, pl)) && (pl != Global ==> ListAt(s, pl) == []) {
    }
    forall obj ensures obj in objs <==> Held(s, obj) {
      if obj in objs {
        assert Holds(s, Global, obj);
      }
    }
  }

  /** Conservation: after any run of any threads, every object is in exactly one of the global list,
      one provider, one collector or use; a fill hands over exactly one unit; and no collector holds more
      than MAX_SKIP_NODES * unit. */
  lemma {:induction false} Conservation(unit: nat, ss: seq<State>, evs: seq<Event>, objs: set<nat>, n: nat)
    requires unit > 0 && Run(unit, ss, evs) && Init(unit, ss[0], objs) && n < |ss|
    ensures Inv(unit, ss[n], objs)
    ensures n < |evs| && evs[n].Fill? ==> |ss[n + 1].providers[evs[n].t]| == unit
    ensures forall t :: t in ss[n].collectors ==> |Flat(ss[n].collectors[t].chunks)| <= MAX_SKIP_NODES * unit
  {
    if n == 0 {
      InitConserved(unit, ss[0], objs);
    } else {
      Conservation(unit, ss, evs, objs, n - 1);
      StepKeeps(unit, ss[n - 1], evs[n - 1], ss[n], objs);
    }
    forall t | t in ss[n].collectors ensures |Flat(ss[n].collectors[t].chunks)| <= MAX_SKIP_NODES * unit {
      var c := ss[n].collectors[t];
      ExactLength(c.chunks, c.cnt, unit);
      ExactBound(c.chunks, c.cnt, unit);
    }
  }

  /** No object is handed out twice: between two allocations of it, it is freed. */
  lemma NotHandedOutTwice(unit: nat, ss: seq<State>, evs: seq<Event>, objs: set<nat>, i: nat, j: nat)
    requires unit > 0 && Run(unit, ss, evs) && Init(unit, ss[0], objs)
    requires i < j < |evs| && evs[i].Alloc? && evs[j].Alloc? && evs[i].obj == evs[j].obj
    ensures exists k :: i < k < j && evs[k].Free? && evs[k].obj == evs[i].obj
  {
    Conservation(unit, ss, evs, objs, j);
    AllocConserves(unit, ss[j], evs[j].t, evs[j].obj, ss[j + 1], objs);
    assert Step(unit, ss[i], evs[i], ss[i + 1]);
    StaysInUse(unit, ss, evs, evs[i].obj, i + 1, j);
  }

  lemma {:induction false} StaysInUse(unit: nat, ss: seq<State>, evs: seq<Event>, obj: nat, i: nat, j: nat)
    requires unit > 0 && Run(unit, ss, evs) && i <= j < |ss| && obj in ss[i].inUse && obj !in ss[j].inUse
    ensures exists k :: i <= k < j && evs[k].Free? && evs[k].obj == obj
    decreases j - i
  {
    assert Step(unit, ss[i], evs[i], ss[i + 1]);
    if obj in ss[i + 1].inUse {
      StaysInUse(unit, ss, evs, obj, i + 1, j);
    }
  }
}
