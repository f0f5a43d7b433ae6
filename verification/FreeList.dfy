/** The free lists on the heap: nodes with a `list` and a `skip` link, spliced by chunks
    (src/slist.h, src/allocator.h:60-83, src/allocator.c:85-137, 236-252). */
module FreeList {
  import opened Chunks

  /** fnode_t; `obj` is its ptr, assigned once when the node is made. */
  class FNode {
    const obj: nat
    var list: FNode?
    var skip: FNode?

    constructor (obj: nat)
      ensures this.obj == obj
    {
      this.obj := obj;
    }
  }

  lemma {:induction false} CutNoDup<T>(s: seq<T>, rest: seq<T>, k: nat)
    requires NoDup(s) && NoDup(rest) && k < |s| && forall x :: x in s ==> x !in rest
    ensures NoDup(s[..k + 1] + rest) && NoDup(s[k + 1..])
    ensures forall i :: 0 <= i < |s| && i != k ==> s[i] != s[k]
    ensures forall i :: 0 <= i < |rest| ==> rest[i] != s[k]
  {
    NoDupAt(s, k);
    assert s[k] in s;
    assert forall i :: 0 <= i < |rest| ==> rest[i] in rest;
    forall n | n in s[..k + 1] ensures n !in rest { assert n in s; }
    NoDupConcat(s[..k + 1], rest);
  }

  /** `s` is what one meets following `list` from `head`. */
  ghost predicate Linked(head: FNode?, s: seq<FNode>)
    reads s`list
  {
    if s == [] then head == null
    else && head == s[0] && s[|s| - 1].list == null
         && forall i :: 0 <= i < |s| - 1 ==> s[i].list == s[i + 1]
  }

  /** `s` is what one meets following `skip` from `head`. */
  ghost predicate SkipLinked(head: FNode?, s: seq<FNode>)
    reads s`skip
  {
    if s == [] then head == null
    else && head == s[0] && s[|s| - 1].skip == null
         && forall i :: 0 <= i < |s| - 1 ==> s[i].skip == s[i + 1]
  }

  /** flist_t.  A global list or a collector is segmented into chunks; a provider is a plain list. */
  class FList {
    var listHead: FNode?
    var skipHead: FNode?
    var listCnt: nat
    var skipCnt: nat
    const skipUnit: nat
    ghost var nodes: seq<FNode>
    ghost var ends: seq<FNode>

    ghost predicate Valid()
      reads this`listHead, this`nodes, nodes`list
    {
      NoDup(nodes) && Linked(listHead, nodes)
    }

    ghost predicate SkipValid()
      reads this`skipHead, this`ends, ends`skip
    {
      SkipLinked(skipHead, ends)
    }

    constructor (unit: nat)
      ensures Segmented(this, Nil) && listCnt == 0 && skipCnt == 0 && skipUnit == unit
    {
      listHead, skipHead, listCnt, skipCnt, skipUnit := null, null, 0, 0, unit;
      nodes, ends := [], [];
    }

    // ----- slist.h

    /** slist_push on the list link (src/slist.h:31-35). */
    method Push(node: FNode)
      requires Valid() && node !in nodes
      modifies this`listHead, this`nodes, node`list
      ensures Valid() && nodes == [node] + old(nodes)
    {
      node.list := listHead;
      listHead := node;
      nodes := [node] + nodes;
    }

    /** slist_push on the skip link. */
    method PushSkip(node: FNode)
      requires SkipValid() && node !in ends
      modifies this`skipHead, this`ends, node`skip
      ensures SkipValid() && ends == [node] + old(ends)
    {
      node.skip := skipHead;
      skipHead := node;
      ends := [node] + ends;
    }

    /** slist_pop on the list link (src/slist.h:42-48). */
    method Pop() returns (node: FNode)
      requires Valid() && nodes != []
      modifies this`listHead, this`nodes, listHead`list
      ensures Valid() && [node] + nodes == old(nodes)
    {
      node := listHead;
      listHead := node.list;
      node.list := null;
      nodes := nodes[1..];
    }

    /** slist_pop on the skip link. */
    method PopSkip()
      requires SkipValid() && NoDup(ends) && ends != []
      modifies this`skipHead, this`ends, skipHead`skip
      ensures SkipValid() && ends == old(ends)[1..]
    {
      var node := skipHead;
      skipHead := node.skip;
      node.skip := null;
      ends := ends[1..];
    }

    /** slist_cut_splice (src/slist.h:54-62): the list up to `node`, its k-th, goes in front of `dst`. */
    method CutSplice(node: FNode, dst: FList, ghost k: nat)
      requires Valid() && dst.Valid() && this != dst && k < |nodes| && nodes[k] == node
      requires forall n :: n in nodes ==> n !in dst.nodes
      modifies this`listHead, this`nodes, dst`listHead, dst`nodes, node`list
      ensures Valid() && dst.Valid()
      ensures nodes == old(nodes)[k + 1..] && dst.nodes == old(nodes)[..k + 1] + old(dst.nodes)
    {
      ghost var cut, tail, rest := nodes[..k + 1], nodes[k + 1..], dst.nodes;
      CutNoDup(nodes, rest, k);
      var tmp := listHead;
      listHead := node.list;
      node.list := dst.listHead;
      dst.listHead := tmp;
      dst.nodes := cut + rest;
      nodes := tail;
    }
  }

  /** The list is the concatenation of the chunks `cs`, and the skip list names their last nodes in order. */
  ghost predicate Segmented(l: FList, cs: Segs<FNode>)
    reads l, l.nodes, l.ends
  {
    l.Valid() && l.SkipValid() && Shape(cs, l.nodes, l.ends)
  }

  lemma {:induction false} ShapeEnds<T>(cs: Segs<T>, nodes: seq<T>, ends: seq<T>)
    requires Shape(cs, nodes, ends) && NoDup(nodes)
    ensures NoDup(ends) && forall n :: n in ends ==> n in nodes
  {
    match cs
    case Nil =>
    case Seg(c, cs') =>
      NoDupAt(nodes, |c| - 1);
      ShapeEnds(cs', nodes[|c|..], ends[1..]);
      assert forall n :: n in nodes[|c|..] ==> n in nodes && n != ends[0];
  }

  /** What is left when the front chunk goes. */
  lemma {:induction false} ShapeFront<T>(cs: Segs<T>, nodes: seq<T>, ends: seq<T>)
    requires Shape(cs, nodes, ends) && ends != []
    ensures cs.Seg? && 0 < |cs.chunk| <= |nodes| && ends[0] == nodes[|cs.chunk| - 1]
    ensures nodes[..|cs.chunk|] == cs.chunk && nodes == cs.chunk + nodes[|cs.chunk|..]
    ensures Shape(cs.rest, nodes[|cs.chunk|..], ends[1..])
  {
  }

  // ----- allocator.c

  /** The pushes that put_global and put_local_collector share (src/allocator.c:87-91, 132-136). */
  method Attach(node: FNode, l: FList, starts: bool)
    requires l.Valid() && l.SkipValid() && node !in l.nodes && node !in l.ends
    modifies l, node
    ensures l.Valid() && l.SkipValid()
    ensures l.nodes == [node] + old(l.nodes) && l.ends == if starts then [node] + old(l.ends) else old(l.ends)
    ensures l.listCnt == old(l.listCnt) + 1 && l.skipCnt == old(l.skipCnt) + if starts then 1 else 0
  {
    if starts {
      l.PushSkip(node);
      l.skipCnt := l.skipCnt + 1;
    }
    l.Push(node);
    l.listCnt := l.listCnt + 1;
  }

  method Grow(node: FNode, l: FList, starts: bool, ghost cs: Segs<FNode>)
    requires Segmented(l, cs) && node !in l.nodes && (!starts ==> cs.Seg?)
    modifies l, node
    ensures Segmented(l, Push(cs, starts, node)) && l.nodes == [node] + old(l.nodes)
    ensures l.listCnt == old(l.listCnt) + 1 && l.skipCnt == old(l.skipCnt) + if starts then 1 else 0
  {
    ShapeEnds(cs, l.nodes, l.ends);
    ShapePush(cs, l.nodes, l.ends, starts, node);
    Attach(node, l, starts);
  }

  /** put_global (src/allocator.c:85-92).  A node that does not start a chunk needs a chunk to join. */
  method PutGlobal(node: FNode, global: FList, ghost cs: Segs<FNode>)
    requires Segmented(global, cs) && node !in global.nodes && global.skipUnit > 0
    requires global.listCnt % global.skipUnit != 0 ==> cs.Seg?
    modifies global, node
    ensures Segmented(global, Push(cs, old(global.listCnt) % global.skipUnit == 0, node))
    ensures global.nodes == [node] + old(global.nodes)
    ensures global.listCnt == old(global.listCnt) + 1
    ensures global.skipCnt == old(global.skipCnt) + if old(global.listCnt) % global.skipUnit == 0 then 1 else 0
  {
    Grow(node, global, global.listCnt % global.skipUnit == 0, cs);
  }

  /** Cuts `src` after its first skip node and puts what precedes in front of `dst`. */
  method CutFront(src: FList, dst: FList, ghost k: nat) returns (node: FNode)
    requires src.Valid() && src.SkipValid() && NoDup(src.ends) && dst.Valid() && src != dst
    requires k < |src.nodes| && src.ends != [] && src.ends[0] == src.nodes[k]
    requires forall n :: n in src.nodes ==> n !in dst.nodes
    modifies src`listHead, src`nodes, src`skipHead, src`ends, dst`listHead, dst`nodes, src.skipHead
    ensures src.Valid() && src.SkipValid() && dst.Valid() && node == old(src.ends)[0]
    ensures src.nodes == old(src.nodes)[k + 1..] && src.ends == old(src.ends)[1..]
    ensures dst.nodes == old(src.nodes)[..k + 1] + old(dst.nodes)
  {
    node := src.skipHead;
    src.CutSplice(node, dst, k);
    src.PopSkip();
  }

  ghost function Members<T>(s: seq<T>): set<T> {
    set x | x in s
  }

  ghost predicate Apart<T>(a: seq<T>, b: seq<T>) {
    forall i :: 0 <= i < |a| ==> a[i] !in b
  }

  lemma {:induction false} CutApart<T>(s: seq<T>, other: seq<T>, k: nat)
    requires NoDup(s) && k <= |s| && forall x :: x in s ==> x !in other
    ensures forall x :: x in s[..k] + other ==> x !in s[k..]
  {
    assert s == s[..k] + s[k..];
    NoDupSplit(s[..k], s[k..]);
    assert forall x :: x in s[k..] ==> x in s;
  }

  /** fill_local_provider (src/allocator.c:94-108): the front chunk of the global list, which is never empty,
      moves to the provider.  An empty skip list is the error exit. */
  method FillLocalProvider(provider: FList, global: FList, ghost cs: Segs<FNode>) returns (ok: bool)
    requires provider.Valid() && Segmented(global, cs) && provider != global
    requires forall n :: n in global.nodes ==> n !in provider.nodes
    modifies provider`listHead, provider`nodes, global`listHead, global`nodes, global`skipHead, global`ends,
             global.skipHead
    ensures provider.Valid() && ok == cs.Seg?
    ensures ok ==> cs.chunk != [] && provider.nodes == cs.chunk + old(provider.nodes) && Segmented(global, cs.rest)
    ensures ok ==> old(global.nodes) == cs.chunk + global.nodes && Apart(provider.nodes, global.nodes)
    ensures !ok ==> provider.nodes == old(provider.nodes) && global.nodes == old(global.nodes) && Segmented(global, cs)
  {
    if global.skipHead == null {
      return false;
    }
    ShapeEnds(cs, global.nodes, global.ends);
    ShapeFront(cs, global.nodes, global.ends);
    NoDupAt(global.nodes, |cs.chunk| - 1);
    CutApart(global.nodes, provider.nodes, |cs.chunk|);
    var _ := CutFront(global, provider, |cs.chunk| - 1);
    return true;
  }

  /** Moves what precedes the first skip node of `src`, and the skip node itself, to `dst` (src/allocator.c:118-122). */
  method MoveFront(src: FList, dst: FList, ghost k: nat)
    requires src.Valid() && src.SkipValid() && NoDup(src.ends) && dst.Valid() && dst.SkipValid()
    requires src != dst && k < |src.nodes| && src.ends != [] && src.ends[0] == src.nodes[k]
    requires forall n :: n in src.nodes ==> n !in dst.nodes
    requires src.ends[0] !in dst.ends
    modifies src`listHead, src`nodes, src`skipHead, src`ends, dst`listHead, dst`nodes, dst`skipHead, dst`ends,
             src.skipHead
    ensures src.Valid() && src.SkipValid() && dst.Valid() && dst.SkipValid()
    ensures src.nodes == old(src.nodes)[k + 1..] && src.ends == old(src.ends)[1..]
    ensures dst.nodes == old(src.nodes)[..k + 1] + old(dst.nodes) && dst.ends == [old(src.ends)[0]] + old(dst.ends)
  {
    var skipNode := CutFront(src, dst, k);
    dst.PushSkip(skipNode);
  }

  /** The part of put_local_collector under the global mutex (src/allocator.c:116-130). */
  method GiveChunk(collector: FList, global: FList, ghost k: nat)
    requires collector.Valid() && collector.SkipValid() && NoDup(collector.ends) && global.Valid() && global.SkipValid()
    requires collector != global && k < |collector.nodes| && collector.ends != []
             && collector.ends[0] == collector.nodes[k]
    requires forall n :: n in collector.nodes ==> n !in global.nodes
    requires collector.ends[0] !in global.ends
    requires collector.skipCnt > 0 && collector.listCnt >= collector.skipUnit
    modifies collector, global, collector.skipHead
    ensures collector.Valid() && collector.SkipValid() && global.Valid() && global.SkipValid()
    ensures collector.nodes == old(collector.nodes)[k + 1..] && collector.ends == old(collector.ends)[1..]
    ensures global.nodes == old(collector.nodes)[..k + 1] + old(global.nodes)
            && global.ends == [old(collector.ends)[0]] + old(global.ends)
    ensures collector.listCnt == old(collector.listCnt) - collector.skipUnit
            && collector.skipCnt == old(collector.skipCnt) - 1
    ensures global.listCnt == old(global.listCnt) + collector.skipUnit && global.skipCnt == old(global.skipCnt) + 1
  {
    MoveFront(collector, global, k);
    MoveCounts(collector, global, collector.skipUnit);
  }

  /** src/allocator.c:124-128 */
  method MoveCounts(src: FList, dst: FList, count: nat)
    requires src != dst && src.listCnt >= count && src.skipCnt > 0
    modifies src`listCnt, src`skipCnt, dst`listCnt, dst`skipCnt
    ensures src.listCnt == old(src.listCnt) - count && src.skipCnt == old(src.skipCnt) - 1
    ensures dst.listCnt == old(dst.listCnt) + count && dst.skipCnt == old(dst.skipCnt) + 1
  {
    src.listCnt := src.listCnt - count;
    dst.listCnt := dst.listCnt + count;
    src.skipCnt := src.skipCnt - 1;
    dst.skipCnt := dst.skipCnt + 1;
  }

  method GiveSegment(collector: FList, global: FList, ghost cs: Segs<FNode>, ghost gs: Segs<FNode>, ghost node: FNode)
    requires node !in collector.nodes && node !in global.nodes
    requires Segmented(collector, cs) && Segmented(global, gs) && collector != global && cs.Seg?
    requires forall n :: n in collector.nodes ==> n !in global.nodes
    requires collector.skipCnt > 0 && collector.listCnt >= collector.skipUnit
    modifies collector, global, collector.skipHead
    ensures Segmented(collector, cs.rest) && Segmented(global, Seg(cs.chunk, gs))
    ensures node !in collector.nodes && node !in global.nodes
    ensures collector.listCnt == old(collector.listCnt) - collector.skipUnit
            && collector.skipCnt == old(collector.skipCnt) - 1
    ensures global.listCnt == old(global.listCnt) + collector.skipUnit && global.skipCnt == old(global.skipCnt) + 1
  {
    ShapeEnds(cs, collector.nodes, collector.ends);
    ShapeEnds(gs, global.nodes, global.ends);
    ShapeGive(cs.chunk, gs, global.nodes, global.ends);
    assert collector.ends[0] in collector.ends;
    GiveChunk(collector, global, |cs.chunk| - 1);
  }

  /** put_local_collector (src/allocator.c:110-137): the node joins the collector, which first gives a full
      chunk to the global list if it has MAX_SKIP_NODES of them. */
  method PutLocalCollector(node: FNode, collector: FList, global: FList, ghost cs: Segs<FNode>, ghost gs: Segs<FNode>)
    requires Segmented(collector, cs) && Segmented(global, gs) && collector != global && collector.skipUnit > 0
    requires node !in collector.nodes && node !in global.nodes
    requires forall n :: n in collector.nodes ==> n !in global.nodes
    requires Exact(cs, collector.listCnt, collector.skipUnit)
    requires collector.skipCnt == Count(cs) <= MAX_SKIP_NODES
    modifies collector, global, node, collector.skipHead
    ensures var cnt, unit := old(collector.listCnt), collector.skipUnit;
            && Segmented(collector, Collect(cs, cnt, unit, node))
            && Segmented(global, if Gives(cs, cnt, unit) then Seg(cs.chunk, gs) else gs)
            && collector.listCnt == CollectCount(cs, cnt, unit)
            && collector.skipCnt == Count(Collect(cs, cnt, unit, node))
  {
    var unit := collector.skipUnit;
    CollectExact(cs, collector.listCnt, unit, node);
    CollectCounts(cs, collector.listCnt, unit, node);
    var starts := collector.listCnt % unit == 0;
    GiveAndGrow(node, collector, global, starts, starts && collector.skipCnt >= MAX_SKIP_NODES, cs, gs);
  }

  /** Whether the node starts a chunk, and whether one is given away, being known. */
  method GiveAndGrow(node: FNode, collector: FList, global: FList, starts: bool, gives: bool, ghost cs: Segs<FNode>,
      ghost gs: Segs<FNode>)
    requires Segmented(collector, cs) && Segmented(global, gs) && collector != global
    requires node !in collector.nodes && node !in global.nodes
    requires forall n :: n in collector.nodes ==> n !in global.nodes
    requires !starts ==> cs.Seg? && !gives
    requires gives ==> cs.Seg? && collector.skipCnt > 0 && collector.listCnt >= collector.skipUnit
    modifies collector, global, node, collector.skipHead
    ensures Segmented(collector, Push(if gives then cs.rest else cs, starts, node))
    ensures Segmented(global, if gives then Seg(cs.chunk, gs) else gs)
    ensures collector.listCnt == old(collector.listCnt) + 1 - if gives then collector.skipUnit else 0
    ensures collector.skipCnt == old(collector.skipCnt) + (if starts then 1 else 0) - if gives then 1 else 0
  {
    if gives {
      GiveSegment(collector, global, cs, gs, node);
      GrowBeside(node, collector, global, starts, cs.rest, Seg(cs.chunk, gs));
    } else {
      GrowBeside(node, collector, global, starts, cs, gs);
    }
  }

  lemma {:induction false} CollectCounts<T>(cs: Segs<T>, cnt: nat, unit: nat, x: T)
    requires unit > 0 && Exact(cs, cnt, unit)
    ensures cnt % unit != 0 ==> cs.Seg?
    ensures Gives(cs, cnt, unit) ==> cs.Seg? && cnt >= unit
    ensures Count(Collect(cs, cnt, unit, x)) ==
            Count(cs) + (if cnt % unit == 0 then 1 else 0) - if Gives(cs, cnt, unit) then 1 else 0
  {
    FrontFull(cs, cnt, unit);
    if Gives(cs, cnt, unit) {
      RestExact(cs, cnt, unit);
    }
  }

  /** Growing a collector leaves the global list alone. */
  method GrowBeside(node: FNode, l: FList, ghost other: FList, starts: bool, ghost cs: Segs<FNode>,
      ghost gs: Segs<FNode>)
    requires Segmented(l, cs) && Segmented(other, gs) && l != other && (!starts ==> cs.Seg?)
    requires node !in l.nodes && node !in other.nodes
    modifies l, node
    ensures Segmented(l, Push(cs, starts, node)) && Segmented(other, gs)
    ensures l.listCnt == old(l.listCnt) + 1 && l.skipCnt == old(l.skipCnt) + if starts then 1 else 0
  {
    ShapeEnds(gs, other.nodes, other.ends);
    Grow(node, l, starts, cs);
  }

  function Objs(s: seq<FNode>): seq<nat> {
    seq(|s|, i requires 0 <= i < |s| => s[i].obj)
  }

  lemma ObjsCons(x: FNode, s: seq<FNode>)
    ensures Objs([x] + s) == [x.obj] + Objs(s)
  {
  }

  function Reversed(s: seq<nat>): seq<nat> {
    if s == [] then [] else [s[|s| - 1]] + Reversed(s[..|s| - 1])
  }

  /** create_global_list (src/allocator.c:236-252): all objects, the last one in front, in chunks of `unit`. */
  method CreateGlobalList(objs: seq<nat>, unit: nat) returns (global: FList, ghost cs: Segs<FNode>)
    requires unit > 0
    ensures fresh(global) && Segmented(global, cs) && Exact(cs, |objs|, unit)
    ensures Objs(global.nodes) == Reversed(objs)
    ensures global.skipUnit == unit && global.listCnt == |objs| && global.skipCnt == Count(cs)
  {
    global := new FList(unit);
    cs := Nil;
    var i := 0;
    while i < |objs|
      invariant 0 <= i <= |objs| && fresh(global) && fresh(global.nodes)
      invariant Segmented(global, cs) && Exact(cs, i, unit) && Objs(global.nodes) == Reversed(objs[..i])
      invariant global.skipUnit == unit && global.listCnt == i && global.skipCnt == Count(cs)
    {
      cs := PushGlobal(objs[i], global, cs);
      assert objs[..i + 1][..i] == objs[..i];
      i := i + 1;
    }
    assert objs[..i] == objs;
  }

  /** PUSH_GLOBAL (src/allocator.h:52-58) on a list that has only been pushed to. */
  method PushGlobal(obj: nat, global: FList, ghost cs: Segs<FNode>) returns (ghost cs': Segs<FNode>)
    requires Segmented(global, cs) && global.skipUnit > 0 && Exact(cs, global.listCnt, global.skipUnit)
             && global.skipCnt == Count(cs)
    modifies global
    ensures Segmented(global, cs') && Exact(cs', global.listCnt, global.skipUnit) && global.skipCnt == Count(cs')
    ensures global.listCnt == old(global.listCnt) + 1 && Objs(global.nodes) == [obj] + old(Objs(global.nodes))
    ensures fresh(set n | n in global.nodes && n !in old(global.nodes))
  {
    var node := new FNode(obj);
    FrontFull(cs, global.listCnt, global.skipUnit);
    PushExact(cs, global.listCnt, global.skipUnit, node);
    cs' := Push(cs, global.listCnt % global.skipUnit == 0, node);
    ObjsCons(node, global.nodes);
    PutGlobal(node, global, cs);
  }

  /** POP_PROVIDER (src/allocator.h:60-72): the first object of the provider, which is refilled when empty. */
  method PopProvider(provider: FList, global: FList, ghost cs: Segs<FNode>)
      returns (ok: bool, obj: nat, ghost cs': Segs<FNode>)
    requires provider.Valid() && Segmented(global, cs) && provider != global && Apart(provider.nodes, global.nodes)
    modifies provider`listHead, provider`nodes, global`listHead, global`nodes, global`skipHead, global`ends
    modifies Members(provider.nodes), Members(global.nodes)
    ensures provider.Valid() && Segmented(global, cs') && Apart(provider.nodes, global.nodes)
    ensures ok <==> old(provider.nodes) != [] || cs.Seg?
    ensures cs' == if old(provider.nodes) == [] && cs.Seg? then cs.rest else cs
    ensures old(global.nodes) == (if old(provider.nodes) == [] && cs.Seg? then cs.chunk else []) + global.nodes
    ensures ok ==> var all := if old(provider.nodes) == [] then cs.chunk else old(provider.nodes);
                   all != [] && obj == all[0].obj && provider.nodes == all[1..]
    ensures !ok ==> provider.nodes == []
    ensures Members(provider.nodes) + Members(global.nodes) <= old(Members(provider.nodes) + Members(global.nodes))
  {
    ghost var p, g := provider.nodes, global.nodes;
    ShapeEnds(cs, g, global.ends);
    assert global.skipHead != null ==> global.skipHead in global.ends;
    ok, obj, cs' := PopFirst(provider, global, cs);
    PoppedMembers(p, g, provider.nodes, global.nodes, cs);
  }

  /** The same, naming the nodes whose links change. */
  method PopFirst(provider: FList, global: FList, ghost cs: Segs<FNode>)
      returns (ok: bool, obj: nat, ghost cs': Segs<FNode>)
    requires provider.Valid() && Segmented(global, cs) && provider != global && Apart(provider.nodes, global.nodes)
    modifies provider`listHead, provider`nodes, global`listHead, global`nodes, global`skipHead, global`ends
    modifies global.skipHead, global.listHead, provider.listHead
    ensures provider.Valid() && Segmented(global, cs') && Apart(provider.nodes, global.nodes)
    ensures ok <==> old(provider.nodes) != [] || cs.Seg?
    ensures cs' == if old(provider.nodes) == [] && cs.Seg? then cs.rest else cs
    ensures old(global.nodes) == (if old(provider.nodes) == [] && cs.Seg? then cs.chunk else []) + global.nodes
    ensures ok ==> var all := if old(provider.nodes) == [] then cs.chunk else old(provider.nodes);
                   all != [] && obj == all[0].obj && provider.nodes == all[1..]
    ensures !ok ==> provider.nodes == []
  {
    obj := 0;
    ok, cs' := Refill(provider, global, cs);
    if ok {
      obj := PopNode(provider, global, cs');
    }
  }

  /** The provider is filled if it is empty. */
  method Refill(provider: FList, global: FList, ghost cs: Segs<FNode>) returns (ok: bool, ghost cs': Segs<FNode>)
    requires provider.Valid() && Segmented(global, cs) && provider != global && Apart(provider.nodes, global.nodes)
    modifies provider`listHead, provider`nodes, global`listHead, global`nodes, global`skipHead, global`ends
    modifies global.skipHead
    ensures provider.Valid() && Segmented(global, cs') && Apart(provider.nodes, global.nodes)
    ensures ok <==> old(provider.nodes) != [] || cs.Seg?
    ensures cs' == if old(provider.nodes) == [] && cs.Seg? then cs.rest else cs
    ensures old(global.nodes) == (if old(provider.nodes) == [] && cs.Seg? then cs.chunk else []) + global.nodes
    ensures provider.nodes == if old(provider.nodes) == [] && cs.Seg? then cs.chunk else old(provider.nodes)
    ensures ok ==> provider.nodes != []
  {
    ok, cs' := true, cs;
    if provider.listHead == null {
      ok := FillLocalProvider(provider, global, cs);
      if ok {
        cs' := cs.rest;
      }
    }
  }

  lemma PoppedMembers(p: seq<FNode>, g: seq<FNode>, p': seq<FNode>, g': seq<FNode>, cs: Segs<FNode>)
    requires g == (if p == [] && cs.Seg? then cs.chunk else []) + g'
    requires p' == [] || (p == [] && cs.Seg? && cs.chunk != [] && p' == cs.chunk[1..]) || (p != [] && p' == p[1..])
    ensures Members(p') + Members(g') <= Members(p) + Members(g)
  {
  }

  method PopNode(provider: FList, ghost global: FList, ghost cs: Segs<FNode>) returns (obj: nat)
    requires provider.Valid() && provider.nodes != [] && Segmented(global, cs) && provider != global
    requires Apart(provider.nodes, global.nodes)
    modifies provider`listHead, provider`nodes, provider.listHead
    ensures provider.Valid() && Segmented(global, cs) && Apart(provider.nodes, global.nodes)
    ensures obj == old(provider.nodes)[0].obj && provider.nodes == old(provider.nodes)[1..]
  {
    ShapeEnds(cs, global.nodes, global.ends);
    var node := provider.Pop();
    obj := node.obj;
  }

  /** PUSH_COLLECTOR (src/allocator.h:74-83). */
  method PushCollector(obj: nat, collector: FList, global: FList, ghost cs: Segs<FNode>, ghost gs: Segs<FNode>)
      returns (ghost node: FNode)
    requires Segmented(collector, cs) && Segmented(global, gs) && collector != global && collector.skipUnit > 0
    requires forall n :: n in collector.nodes ==> n !in global.nodes
    requires Exact(cs, collector.listCnt, collector.skipUnit)
    requires collector.skipCnt == Count(cs) <= MAX_SKIP_NODES
    modifies collector, global, collector.skipHead
    ensures fresh(node) && node.obj == obj
    ensures var cnt, unit := old(collector.listCnt), collector.skipUnit;
            && Segmented(collector, Collect(cs, cnt, unit, node))
            && Segmented(global, if Gives(cs, cnt, unit) then Seg(cs.chunk, gs) else gs)
            && collector.listCnt == CollectCount(cs, cnt, unit)
            && collector.skipCnt == Count(Collect(cs, cnt, unit, node))
  {
    var n := new FNode(obj);
    node := n;
    PutLocalCollector(n, collector, global, cs, gs);
  }
}
