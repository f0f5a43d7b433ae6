/** One thread's provider and collector and the global list, on the heap, over any sequence of allocations and frees:
    the lists stay apart and segmented, and each operation is a step of AllocatorSystem. */
module ThreadPools {
  import opened Chunks
  import opened FreeList
  import A = AllocatorSystem

  /** The three lists are three, share no node, and are as the list code needs them. */
  ghost predicate Pools(provider: FList, collector: FList, global: FList, cs: Segs<FNode>, gs: Segs<FNode>)
    reads provider, collector, global, provider.nodes, collector.nodes, collector.ends, global.nodes, global.ends
  {
    && provider != collector && collector != global && provider != global
    && provider.Valid() && Segmented(collector, cs) && Segmented(global, gs)
    && Apart(provider.nodes, collector.nodes) && Apart(provider.nodes, global.nodes)
    && Apart(collector.nodes, global.nodes)
    && Counted(collector, cs)
  }

  ghost predicate Counted(collector: FList, cs: Segs<FNode>)
    reads collector
  {
    && collector.skipUnit > 0 && Exact(cs, collector.listCnt, collector.skipUnit)
    && collector.skipCnt == Count(cs) <= MAX_SKIP_NODES
  }

  // ----- the objects

  ghost function SegObjs(cs: Segs<FNode>): Segs<nat> {
    match cs
    case Nil => Nil
    case Seg(c, rest) => Seg(Objs(c), SegObjs(rest))
  }

  lemma {:induction false} SegObjsCount(cs: Segs<FNode>)
    ensures Count(SegObjs(cs)) == Count(cs)
  {
    if cs.Seg? {
      SegObjsCount(cs.rest);
    }
  }

  /** Collecting nodes is collecting their objects. */
  lemma {:induction false} CollectObjs(cs: Segs<FNode>, cnt: nat, unit: nat, node: FNode)
    requires unit > 0
    ensures Gives(SegObjs(cs), cnt, unit) == Gives(cs, cnt, unit)
    ensures CollectCount(SegObjs(cs), cnt, unit) == CollectCount(cs, cnt, unit)
    ensures Gives(cs, cnt, unit) ==>
            cs.Seg? && SegObjs(cs).rest == SegObjs(cs.rest) && SegObjs(cs).chunk == Objs(cs.chunk)
    ensures SegObjs(Collect(cs, cnt, unit, node)) == Collect(SegObjs(cs), cnt, unit, node.obj)
  {
    SegObjsCount(cs);
    var kept := if Gives(cs, cnt, unit) then cs.rest else cs;
    if kept.Seg? {
      ObjsCons(node, kept.chunk);
    }
    ObjsCons(node, []);
    assert Objs([node]) == [node.obj];
  }

  /** What the other threads and users have is `others`; thread `t` has these lists. */
  ghost function Seen(others: A.State, t: nat, provider: seq<FNode>, cs: Segs<FNode>, cnt: nat,
      gs: Segs<FNode>): A.State {
    others.(global := SegObjs(gs), providers := others.providers[t := Objs(provider)],
            collectors := others.collectors[t := A.Collector(SegObjs(cs), cnt)])
  }

  // ----- allocation

  /** What a pop does to the nodes. */
  ghost predicate Popped(p: seq<FNode>, g: seq<FNode>, gs: Segs<FNode>, ok: bool, obj: nat, p': seq<FNode>,
      g': seq<FNode>, gs': Segs<FNode>) {
    && (ok <==> p != [] || gs.Seg?)
    && gs' == (if p == [] && gs.Seg? then gs.rest else gs)
    && g == (if p == [] && gs.Seg? then gs.chunk else []) + g'
    && if !ok then p' == []
       else var all := if p == [] then gs.chunk else p; all != [] && obj == all[0].obj && p' == all[1..]
  }

  /** The nodes whose links a pop changes are not the collector's. */
  lemma {:induction false} HeadsApart(cs: Segs<FNode>, c: seq<FNode>, ce: seq<FNode>, g: seq<FNode>, p: seq<FNode>,
      ends: seq<FNode>, skipHead: FNode?, listHead: FNode?, first: FNode?)
    requires Shape(cs, c, ce) && NoDup(c) && Apart(c, p) && Apart(c, g) && forall n :: n in ends ==> n in g
    requires (skipHead != null ==> skipHead in ends) && (listHead != null ==> listHead in g)
             && (first != null ==> first in p)
    ensures forall i :: 0 <= i < |c| ==> c[i] != skipHead && c[i] != listHead && c[i] != first
    ensures forall i :: 0 <= i < |ce| ==> ce[i] != skipHead && ce[i] != listHead && ce[i] != first
  {
    ShapeEnds(cs, c, ce);
    forall i | 0 <= i < |ce| ensures ce[i] != skipHead && ce[i] != listHead && ce[i] != first {
      assert ce[i] in ce;
      var j :| 0 <= j < |c| && c[j] == ce[i];
    }
  }

  /** POP_PROVIDER changes no links but those of three heads. */
  method PopAside(provider: FList, global: FList, ghost gs: Segs<FNode>, ghost c: seq<FNode>, ghost ce: seq<FNode>)
      returns (ok: bool, obj: nat, ghost gs': Segs<FNode>)
    requires provider.Valid() && Segmented(global, gs) && provider != global && Apart(provider.nodes, global.nodes)
    requires forall i :: 0 <= i < |c| ==>
               c[i] != global.skipHead && c[i] != global.listHead && c[i] != provider.listHead
    requires forall i :: 0 <= i < |ce| ==>
               ce[i] != global.skipHead && ce[i] != global.listHead && ce[i] != provider.listHead
    modifies provider`listHead, provider`nodes, global`listHead, global`nodes, global`skipHead, global`ends
    modifies global.skipHead, global.listHead, provider.listHead
    ensures provider.Valid() && Segmented(global, gs') && Apart(provider.nodes, global.nodes)
    ensures Popped(old(provider.nodes), old(global.nodes), gs, ok, obj, provider.nodes, global.nodes, gs')
    ensures forall i :: 0 <= i < |c| ==> c[i].list == old(c[i].list)
    ensures forall i :: 0 <= i < |ce| ==> ce[i].skip == old(ce[i].skip)
  {
    ok, obj, gs' := PopFirst(provider, global, gs);
  }

  /** POP_PROVIDER leaves the collector alone. */
  method PopBeside(provider: FList, ghost collector: FList, global: FList, ghost cs: Segs<FNode>, ghost gs: Segs<FNode>)
      returns (ok: bool, obj: nat, ghost gs': Segs<FNode>)
    requires provider.Valid() && Segmented(collector, cs) && Segmented(global, gs) && provider != global
    requires provider != collector && collector != global && Apart(provider.nodes, global.nodes)
    requires Apart(collector.nodes, provider.nodes) && Apart(collector.nodes, global.nodes)
    modifies provider`listHead, provider`nodes, global`listHead, global`nodes, global`skipHead, global`ends
    modifies global.skipHead, global.listHead, provider.listHead
    ensures provider.Valid() && Segmented(collector, cs) && Segmented(global, gs')
            && Apart(provider.nodes, global.nodes)
    ensures Popped(old(provider.nodes), old(global.nodes), gs, ok, obj, provider.nodes, global.nodes, gs')
  {
    ghost var c, ce, g, p, ends := collector.nodes, collector.ends, global.nodes, provider.nodes, global.ends;
    ShapeEnds(gs, g, ends);
    assert global.skipHead != null ==> global.skipHead in ends;
    HeadsApart(cs, c, ce, g, p, ends, global.skipHead, global.listHead, provider.listHead);
    ok, obj, gs' := PopAside(provider, global, gs, c, ce);
  }

  lemma PoppedApart(p: seq<FNode>, c: seq<FNode>, g: seq<FNode>, gs: Segs<FNode>, ok: bool, obj: nat, p': seq<FNode>,
      g': seq<FNode>, gs': Segs<FNode>)
    requires Popped(p, g, gs, ok, obj, p', g', gs') && Apart(p, c) && Apart(c, g)
    ensures Apart(p', c) && Apart(c, g')
    ensures forall n :: n in p' ==> n in p || n in g
    ensures forall n :: n in g' ==> n in g
  {
    assert forall n :: n in g' ==> n in g;
    assert forall n :: n in p' ==> n in p || n in g;
  }

  lemma ApartBack<T>(a: seq<T>, b: seq<T>)
    requires Apart(a, b)
    ensures Apart(b, a)
  {
  }

  /** POP_PROVIDER beside a collector. */
  method Take(provider: FList, ghost collector: FList, global: FList, ghost cs: Segs<FNode>, ghost gs: Segs<FNode>)
      returns (ok: bool, obj: nat, ghost gs': Segs<FNode>)
    requires Pools(provider, collector, global, cs, gs)
    modifies provider`listHead, provider`nodes, global`listHead, global`nodes, global`skipHead, global`ends
    modifies global.skipHead, global.listHead, provider.listHead
    ensures Pools(provider, collector, global, cs, gs')
    ensures Popped(old(provider.nodes), old(global.nodes), gs, ok, obj, provider.nodes, global.nodes, gs')
    ensures forall n :: n in provider.nodes ==> n in old(provider.nodes) || n in old(global.nodes)
    ensures forall n :: n in global.nodes ==> n in old(global.nodes)
  {
    ghost var p, c, g := provider.nodes, collector.nodes, global.nodes;
    ApartBack(p, c);
    ok, obj, gs' := PopBeside(provider, collector, global, cs, gs);
    PoppedApart(p, c, g, gs, ok, obj, provider.nodes, global.nodes, gs');
  }

  // ----- freeing

  /** PUSH_COLLECTOR leaves the provider alone. */
  method PushBeside(obj: nat, ghost provider: FList, collector: FList, global: FList, ghost cs: Segs<FNode>,
      ghost gs: Segs<FNode>)
      returns (ghost node: FNode)
    requires provider.Valid() && Segmented(collector, cs) && Segmented(global, gs) && Counted(collector, cs)
    requires provider != collector && provider != global && collector != global
    requires Apart(collector.nodes, global.nodes) && Apart(provider.nodes, collector.nodes)
    modifies collector, global, collector.skipHead
    ensures fresh(node) && node.obj == obj && provider.Valid()
    ensures var cnt, unit := old(collector.listCnt), collector.skipUnit;
            && Segmented(collector, Collect(cs, cnt, unit, node))
            && Segmented(global, if Gives(cs, cnt, unit) then Seg(cs.chunk, gs) else gs)
            && collector.listCnt == CollectCount(cs, cnt, unit)
            && collector.skipCnt == Count(Collect(cs, cnt, unit, node))
  {
    ShapeEnds(cs, collector.nodes, collector.ends);
    assert collector.skipHead != null ==>
      collector.skipHead == collector.ends[0] && collector.ends[0] in collector.ends;
    node := PushCollector(obj, collector, global, cs, gs);
  }

  /** What a push does to the nodes: `x` moves from the collector to the global list. */
  lemma {:induction false} PushedNodes(cs: Segs<FNode>, gs: Segs<FNode>, cnt: nat, unit: nat, node: FNode,
      c: seq<FNode>, ce: seq<FNode>,
      g: seq<FNode>, ge: seq<FNode>, c': seq<FNode>, ce': seq<FNode>, g': seq<FNode>, ge': seq<FNode>)
        returns (x: seq<FNode>, k: seq<FNode>)
    requires unit > 0 && Shape(cs, c, ce) && Shape(gs, g, ge) && Shape(Collect(cs, cnt, unit, node), c', ce')
    requires Shape(if Gives(cs, cnt, unit) then Seg(cs.chunk, gs) else gs, g', ge')
    ensures c == x + k && c' == [node] + k && g' == x + g
  {
    ShapeIsFlat(cs, c, ce);
    ShapeIsFlat(gs, g, ge);
    ShapeIsFlat(Collect(cs, cnt, unit, node), c', ce');
    ShapeIsFlat(if Gives(cs, cnt, unit) then Seg(cs.chunk, gs) else gs, g', ge');
    FlatPush(if Gives(cs, cnt, unit) then cs.rest else cs, cnt % unit == 0, node);
    if Gives(cs, cnt, unit) {
      x, k := cs.chunk, Flat(cs.rest);
    } else {
      x, k := [], c;
    }
  }

  lemma {:induction false} PushedApart(p: seq<FNode>, x: seq<FNode>, k: seq<FNode>, g: seq<FNode>, node: FNode)
    requires NoDup(x + k) && Apart(p, x + k) && Apart(p, g) && Apart(x + k, g)
    requires node !in p && node !in x + k && node !in g
    ensures Apart(p, [node] + k) && Apart(p, x + g) && Apart([node] + k, x + g)
    ensures forall n :: n in [node] + k ==> n == node || n in x + k
    ensures forall n :: n in x + g ==> n in x + k || n in g
  {
    NoDupSplit(x, k);
    forall i | 0 <= i < |k| ensures k[i] !in g && k[i] !in x {
      assert (x + k)[|x| + i] == k[i];
      assert k[i] in k;
    }
    forall i | 0 <= i < |p| ensures p[i] !in x && p[i] !in k && p[i] != node {
      assert p[i] !in x + k;
      assert p[i] in p;
    }
    assert node !in x && node !in k;
  }

  /** PUSH_COLLECTOR beside a provider. */
  method Give(obj: nat, ghost provider: FList, collector: FList, global: FList, ghost cs: Segs<FNode>,
      ghost gs: Segs<FNode>)
      returns (ghost node: FNode, ghost cs': Segs<FNode>, ghost gs': Segs<FNode>)
    requires Pools(provider, collector, global, cs, gs)
    modifies collector, global, collector.nodes
    ensures fresh(node) && node.obj == obj && Pools(provider, collector, global, cs', gs')
    ensures var cnt, unit := old(collector.listCnt), collector.skipUnit;
            && cs' == Collect(cs, cnt, unit, node) && gs' == (if Gives(cs, cnt, unit) then Seg(cs.chunk, gs) else gs)
            && collector.listCnt == CollectCount(cs, cnt, unit)
    ensures forall n :: n in collector.nodes ==> n == node || n in old(collector.nodes)
    ensures forall n :: n in global.nodes ==> n in old(collector.nodes) || n in old(global.nodes)
  {
    ghost var cnt, unit := collector.listCnt, collector.skipUnit;
    ghost var p, c, ce, g, ge := provider.nodes, collector.nodes, collector.ends, global.nodes, global.ends;
    ShapeEnds(cs, c, ce);
    assert collector.skipHead != null ==> collector.skipHead == ce[0] && ce[0] in ce;
    node := PushBeside(obj, provider, collector, global, cs, gs);
    cs', gs' := Collect(cs, cnt, unit, node), if Gives(cs, cnt, unit) then Seg(cs.chunk, gs) else gs;
    ghost var x, k :=
      PushedNodes(cs, gs, cnt, unit, node, c, ce, g, ge, collector.nodes, collector.ends, global.nodes, global.ends);
    PushedApart(p, x, k, g, node);
    CollectExact(cs, cnt, unit, node);
  }

  // ----- any sequence of both

  datatype Op = Alloc | Free(obj: nat)

  /** The objects in a thread's lists and in the global one, and those handed out so far. */
  datatype Pool = Pool(provider: seq<nat>, collector: Segs<nat>, cnt: nat, global: Segs<nat>, out: seq<nat>)

  /** What one operation makes of the objects.  An allocation that finds the provider empty takes the front chunk of the
      global list, and fails if there is none. */
  ghost function After(op: Op, unit: nat, l: Pool): Pool
    requires unit > 0
  {
    match op
    case Alloc =>
      var fills := l.provider == [] && l.global.Seg?;
      var all := if fills then l.global.chunk else l.provider;
      if all == [] then l
      else l.(provider := all[1..], global := if fills then l.global.rest else l.global, out := l.out + [all[0]])
    case Free(obj) =>
      var gives, cnt := Gives(l.collector, l.cnt, unit), CollectCount(l.collector, l.cnt, unit);
      l.(collector := Collect(l.collector, l.cnt, unit, obj), cnt := if cnt < 0 then 0 else cnt,
         global := if gives then Seg(l.collector.chunk, l.global) else l.global)
  }

  ghost function AfterAll(ops: seq<Op>, unit: nat, l: Pool): Pool
    requires unit > 0
  {
    if ops == [] then l else After(ops[|ops| - 1], unit, AfterAll(ops[..|ops| - 1], unit, l))
  }

  lemma AfterNext(ops: seq<Op>, i: nat, unit: nat, l: Pool)
    requires unit > 0 && i < |ops|
    ensures AfterAll(ops[..i + 1], unit, l) == After(ops[i], unit, AfterAll(ops[..i], unit, l))
  {
    assert ops[..i + 1][..i] == ops[..i];
  }

  ghost function PoolOf(provider: seq<FNode>, cs: Segs<FNode>, cnt: nat, gs: Segs<FNode>, out: seq<nat>): Pool {
    Pool(Objs(provider), SegObjs(cs), cnt, SegObjs(gs), out)
  }

  lemma PoppedIs(unit: nat, p: seq<FNode>, g: seq<FNode>, cs: Segs<FNode>, cnt: nat, gs: Segs<FNode>, out: seq<nat>,
      ok: bool, obj: nat, p': seq<FNode>, g': seq<FNode>, gs': Segs<FNode>)
    requires unit > 0 && Popped(p, g, gs, ok, obj, p', g', gs')
    ensures After(Alloc, unit, PoolOf(p, cs, cnt, gs, out)) ==
            PoolOf(p', cs, cnt, gs', out + if ok then [obj] else [])
  {
    if ok {
      var all := if p == [] then gs.chunk else p;
      assert Objs(all)[1..] == Objs(p');
    }
  }

  lemma GivenIs(unit: nat, p: seq<FNode>, cs: Segs<FNode>, cnt: nat, gs: Segs<FNode>, out: seq<nat>, node: FNode)
    requires unit > 0 && CollectCount(cs, cnt, unit) >= 0
    ensures After(Free(node.obj), unit, PoolOf(p, cs, cnt, gs, out)) ==
            PoolOf(p, Collect(cs, cnt, unit, node), CollectCount(cs, cnt, unit),
                   if Gives(cs, cnt, unit) then Seg(cs.chunk, gs) else gs, out)
  {
    CollectObjs(cs, cnt, unit, node);
  }

  /** All nodes of the three lists are in `repr`. */
  ghost predicate Owned(provider: FList, collector: FList, global: FList, repr: set<FNode>)
    reads provider, collector, global
  {
    && (forall n :: n in provider.nodes ==> n in repr) && (forall n :: n in collector.nodes ==> n in repr)
    && forall n :: n in global.nodes ==> n in repr
  }

  method ServeAlloc(provider: FList, ghost collector: FList, global: FList, ghost cs: Segs<FNode>,
      ghost gs: Segs<FNode>, ghost repr: set<FNode>, before: seq<nat>)
      returns (out: seq<nat>, ghost gs': Segs<FNode>)
    requires Pools(provider, collector, global, cs, gs) && Owned(provider, collector, global, repr)
    modifies provider, global, repr
    ensures Pools(provider, collector, global, cs, gs') && Owned(provider, collector, global, repr)
    ensures PoolOf(provider.nodes, cs, collector.listCnt, gs', out) ==
            After(Alloc, collector.skipUnit, PoolOf(old(provider.nodes), cs, collector.listCnt, gs, before))
  {
    ghost var p, g := provider.nodes, global.nodes;
    out := before;
    assert provider.listHead != null ==> provider.listHead in provider.nodes;
    assert global.listHead != null ==> global.listHead in global.nodes;
    SkipHeadIn(global, gs);
    var ok, obj;
    ok, obj, gs' := Take(provider, collector, global, cs, gs);
    if ok {
      out := before + [obj];
    }
    PoppedIs(collector.skipUnit, p, g, cs, collector.listCnt, gs, before, ok, obj, provider.nodes, global.nodes, gs');
  }

  lemma SkipHeadIn(l: FList, gs: Segs<FNode>)
    requires Segmented(l, gs)
    ensures l.skipHead != null ==> l.skipHead in l.nodes
  {
    ShapeEnds(gs, l.nodes, l.ends);
    assert l.skipHead != null ==> l.skipHead in l.ends;
  }

  method ServeFree(obj: nat, ghost provider: FList, collector: FList, global: FList, ghost cs: Segs<FNode>,
      ghost gs: Segs<FNode>, ghost repr: set<FNode>, ghost out: seq<nat>)
      returns (ghost node: FNode, ghost cs': Segs<FNode>, ghost gs': Segs<FNode>)
    requires Pools(provider, collector, global, cs, gs) && Owned(provider, collector, global, repr)
    modifies collector, global, repr
    ensures Pools(provider, collector, global, cs', gs') && Owned(provider, collector, global, repr + {node})
    ensures PoolOf(provider.nodes, cs', collector.listCnt, gs', out) ==
            After(Free(obj), collector.skipUnit, PoolOf(provider.nodes, cs, old(collector.listCnt), gs, out))
    ensures fresh(node)
  {
    ghost var cnt := collector.listCnt;
    node, cs', gs' := Give(obj, provider, collector, global, cs, gs);
    GivenIs(collector.skipUnit, provider.nodes, cs, cnt, gs, out, node);
  }

  method ServeOne(op: Op, provider: FList, collector: FList, global: FList, ghost cs: Segs<FNode>,
      ghost gs: Segs<FNode>, ghost repr: set<FNode>, before: seq<nat>)
      returns (out: seq<nat>, ghost repr': set<FNode>, ghost cs': Segs<FNode>, ghost gs': Segs<FNode>)
    requires Pools(provider, collector, global, cs, gs) && Owned(provider, collector, global, repr)
    modifies provider, collector, global, repr
    ensures Pools(provider, collector, global, cs', gs') && Owned(provider, collector, global, repr')
    ensures PoolOf(provider.nodes, cs', collector.listCnt, gs', out) ==
            After(op, collector.skipUnit, PoolOf(old(provider.nodes), cs, old(collector.listCnt), gs, before))
    ensures fresh(repr' - repr)
  {
    out, repr', cs', gs' := before, repr, cs, gs;
    match op {
      case Alloc => out, gs' := ServeAlloc(provider, collector, global, cs, gs, repr, before);
      case Free(obj) =>
        ghost var node;
        node, cs', gs' := ServeFree(obj, provider, collector, global, cs, gs, repr, before);
        repr' := repr + {node};
    }
  }

  /** Over any sequence of allocations and frees the lists stay apart and segmented, and hold and hand out the objects
      that the operations say, in their order. */
  method Serve(ops: seq<Op>, provider: FList, collector: FList, global: FList, ghost cs: Segs<FNode>,
      ghost gs: Segs<FNode>, ghost repr: set<FNode>)
      returns (out: seq<nat>, ghost cs': Segs<FNode>, ghost gs': Segs<FNode>)
    requires Pools(provider, collector, global, cs, gs) && Owned(provider, collector, global, repr)
    modifies provider, collector, global, repr
    ensures Pools(provider, collector, global, cs', gs')
    ensures PoolOf(provider.nodes, cs', collector.listCnt, gs', out) ==
            AfterAll(ops, collector.skipUnit, PoolOf(old(provider.nodes), cs, old(collector.listCnt), gs, []))
  {
    out, cs', gs' := [], cs, gs;
    ghost var start, repr' := PoolOf(provider.nodes, cs, collector.listCnt, gs, []), repr;
    var i := 0;
    while i < |ops|
      invariant 0 <= i <= |ops| && Pools(provider, collector, global, cs', gs')
      invariant Owned(provider, collector, global, repr') && fresh(repr' - repr)
      invariant PoolOf(provider.nodes, cs', collector.listCnt, gs', out) ==
                AfterAll(ops[..i], collector.skipUnit, start)
    {
      out, repr', cs', gs' := ServeOne(ops[i], provider, collector, global, cs', gs', repr', out);
      AfterNext(ops, i, collector.skipUnit, start);
      i := i + 1;
    }
    assert ops[..i] == ops;
  }

  // ----- the global list as it is created is the initial state of the system

  lemma {:induction false} FlatObjs(cs: Segs<FNode>, unit: nat)
    ensures Flat(SegObjs(cs)) == Objs(Flat(cs)) && (Full(cs, unit) ==> Full(SegObjs(cs), unit))
  {
    if cs.Seg? {
      FlatObjs(cs.rest, unit);
      assert Objs(cs.chunk + Flat(cs.rest)) == Objs(cs.chunk) + Objs(Flat(cs.rest));
    }
  }

  lemma {:induction false} ReversedNoDup(s: seq<nat>)
    requires NoDup(s)
    ensures NoDup(Reversed(s)) && forall o :: o in Reversed(s) <==> o in s
  {
    if s != [] {
      var init, last := s[..|s| - 1], s[|s| - 1];
      assert s == init + [last];
      NoDupSplit(init, [last]);
      ReversedNoDup(init);
      NoDupConcat([last], Reversed(init));
    }
  }

  /** What create_global_list makes of whole units of different objects is where every run of the allocator starts,
      with threads that have not allocated yet. */
  lemma {:induction false} CreatedIsInit(unit: nat, objs: seq<nat>, cs: Segs<FNode>, nodes: seq<FNode>,
      ends: seq<FNode>, threads: set<nat>)
    requires unit > 0 && Exact(cs, |objs|, unit) && |objs| % unit == 0 && NoDup(objs)
    requires Shape(cs, nodes, ends) && Objs(nodes) == Reversed(objs)
    ensures A.Init(unit, A.State(SegObjs(cs), map t | t in threads :: [],
                                 map t | t in threads :: A.Collector(Nil, 0), {}), set o | o in objs)
  {
    WholeChunks(cs, |objs|, unit);
    FlatObjs(cs, unit);
    ShapeIsFlat(cs, nodes, ends);
    ReversedNoDup(objs);
  }

  // ----- each operation is a step of the system

  /** A pop that succeeds is an allocation, after a fill if the provider was empty. */
  lemma TakeIsStep(unit: nat, others: A.State, t: nat, cs: Segs<FNode>, cnt: nat, p: seq<FNode>, g: seq<FNode>,
      gs: Segs<FNode>, obj: nat, p': seq<FNode>, g': seq<FNode>, gs': Segs<FNode>)
    requires unit > 0 && Popped(p, g, gs, true, obj, p', g', gs')
    ensures var s, s' := Seen(others, t, p, cs, cnt, gs),
            Seen(others.(inUse := others.inUse + {obj}), t, p', cs, cnt, gs');
            if p != [] then A.Step(unit, s, A.Alloc(t, obj), s')
            else gs.Seg? && var s1 := Seen(others, t, gs.chunk, cs, cnt, gs.rest);
                            A.Step(unit, s, A.Fill(t), s1) && A.Step(unit, s1, A.Alloc(t, obj), s')
  {
    var all := if p == [] then gs.chunk else p;
    assert Objs(all)[1..] == Objs(p');
  }

  /** A push is a free. */
  lemma {:induction false} GiveIsStep(unit: nat, others: A.State, t: nat, p: seq<FNode>, cs: Segs<FNode>, cnt: nat,
      gs: Segs<FNode>, node: FNode)
    requires unit > 0 && Exact(cs, cnt, unit) && Count(cs) <= MAX_SKIP_NODES && node.obj in others.inUse
    ensures CollectCount(cs, cnt, unit) >= 0
    ensures var s := Seen(others, t, p, cs, cnt, gs);
            var s' := Seen(others.(inUse := others.inUse - {node.obj}), t, p, Collect(cs, cnt, unit, node),
                           CollectCount(cs, cnt, unit), if Gives(cs, cnt, unit) then Seg(cs.chunk, gs) else gs);
            A.Step(unit, s, A.Free(t, node.obj), s')
  {
    CollectExact(cs, cnt, unit, node);
    CollectObjs(cs, cnt, unit, node);
    FreeStep(unit, others, t, Objs(p), A.Collector(SegObjs(cs), cnt), SegObjs(gs), node.obj);
  }

  lemma FreeStep(unit: nat, others: A.State, t: nat, p: seq<nat>, c: A.Collector, g: Segs<nat>, obj: nat)
    requires unit > 0 && obj in others.inUse && CollectCount(c.chunks, c.cnt, unit) >= 0
    requires Gives(c.chunks, c.cnt, unit) ==> c.chunks.Seg? && c.cnt >= unit
    ensures var c' := A.Collector(Collect(c.chunks, c.cnt, unit, obj), CollectCount(c.chunks, c.cnt, unit));
            var g' := if Gives(c.chunks, c.cnt, unit) then Seg(c.chunks.chunk, g) else g;
            A.Step(unit, others.(global := g, providers := others.providers[t := p],
                                 collectors := others.collectors[t := c]),
                   A.Free(t, obj),
                   others.(global := g', providers := others.providers[t := p],
                           collectors := others.collectors[t := c'], inUse := others.inUse - {obj}))
  {
  }
}
