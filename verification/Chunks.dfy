/** Free lists as values: a list is a sequence of chunks, the front chunk being the one that grows.
    What the list code does to these values is stated once, over any element type, and used both
    for linked nodes (FreeList) and for the objects of a multi-threaded run (AllocatorSystem). */
module Chunks {
  import opened Arithmetic

  /** config.h:17 */
  const MAX_SKIP_NODES: nat := 2

  /** The chunks of a list, front first. */
  datatype Segs<T> = Nil | Seg(chunk: seq<T>, rest: Segs<T>)

  function Flat<T>(cs: Segs<T>): seq<T> {
    match cs
    case Nil => []
    case Seg(c, rest) => c + Flat(rest)
  }

  function Count<T>(cs: Segs<T>): nat {
    match cs
    case Nil => 0
    case Seg(_, rest) => 1 + Count(rest)
  }

  /** `nodes` is the concatenation of the chunks, none of them empty, and `ends` are their last elements. */
  ghost predicate Shape<T>(cs: Segs<T>, nodes: seq<T>, ends: seq<T>) {
    match cs
    case Nil => nodes == [] && ends == []
    case Seg(c, rest) =>
      && 0 < |c| <= |nodes| && nodes[..|c|] == c
      && ends != [] && ends[0] == nodes[|c| - 1]
      && Shape(rest, nodes[|c|..], ends[1..])
  }

  ghost predicate Full<T>(cs: Segs<T>, unit: nat) {
    cs.Seg? ==> |cs.chunk| == unit && Full(cs.rest, unit)
  }

  /** The list has `cnt` elements, and all chunks have `unit` of them except that the front one may
      still be growing. */
  ghost predicate Exact<T>(cs: Segs<T>, cnt: nat, unit: nat)
    requires unit > 0
  {
    if cs.Nil? then cnt == 0
    else && Full(cs.rest, unit) && 0 < |cs.chunk| <= unit
         && cnt == |cs.chunk| + Count(cs.rest) * unit
  }

  /** Pushes `x`, which starts a chunk of its own if `starts` (src/allocator.c:85-92). */
  function Push<T>(cs: Segs<T>, starts: bool, x: T): Segs<T> {
    if starts || cs.Nil? then Seg([x], cs) else Seg([x] + cs.chunk, cs.rest)
  }

  /** Whether a collector with these chunks gives its front chunk away before a push (src/allocator.c:111-112). */
  predicate Gives<T>(cs: Segs<T>, cnt: nat, unit: nat)
    requires unit > 0
  {
    cnt % unit == 0 && Count(cs) >= MAX_SKIP_NODES
  }

  /** A collector's chunks after a push (src/allocator.c:110-137). */
  function Collect<T>(cs: Segs<T>, cnt: nat, unit: nat, x: T): Segs<T>
    requires unit > 0
  {
    Push(if Gives(cs, cnt, unit) then cs.rest else cs, cnt % unit == 0, x)
  }

  function CollectCount<T>(cs: Segs<T>, cnt: nat, unit: nat): int
    requires unit > 0
  {
    cnt + 1 - if Gives(cs, cnt, unit) then unit else 0
  }

  // ----- properties

  lemma {:induction false} ShapeIsFlat<T>(cs: Segs<T>, nodes: seq<T>, ends: seq<T>)
    requires Shape(cs, nodes, ends)
    ensures nodes == Flat(cs) && |ends| == Count(cs)
  {
    match cs
    case Nil =>
    case Seg(c, rest) =>
      ShapeIsFlat(rest, nodes[|c|..], ends[1..]);
      assert nodes == nodes[..|c|] + nodes[|c|..];
  }

  lemma {:induction false} ShapeGive<T>(c: seq<T>, cs: Segs<T>, nodes: seq<T>, ends: seq<T>)
    requires Shape(cs, nodes, ends) && c != []
    ensures Shape(Seg(c, cs), c + nodes, [c[|c| - 1]] + ends)
  {
    assert (c + nodes)[|c|..] == nodes && ([c[|c| - 1]] + ends)[1..] == ends;
  }

  lemma {:induction false} ShapePush<T>(cs: Segs<T>, nodes: seq<T>, ends: seq<T>, starts: bool, x: T)
    requires Shape(cs, nodes, ends) && (!starts ==> cs.Seg?)
    ensures Shape(Push(cs, starts, x), [x] + nodes, if starts then [x] + ends else ends)
  {
    if starts {
      ShapeGive([x], cs, nodes, ends);
    } else {
      var c := [x] + cs.chunk;
      assert ([x] + nodes)[|c|..] == nodes[|cs.chunk|..];
    }
  }

  lemma {:induction false} FlatPush<T>(cs: Segs<T>, starts: bool, x: T)
    ensures Flat(Push(cs, starts, x)) == [x] + Flat(cs)
  {
    if !starts && cs.Seg? {
      assert [x] + cs.chunk + Flat(cs.rest) == [x] + (cs.chunk + Flat(cs.rest));
    }
  }

  /** An exact list starts a chunk exactly when its front one is full. */
  lemma FrontFull<T>(cs: Segs<T>, cnt: nat, unit: nat)
    requires unit > 0 && Exact(cs, cnt, unit)
    ensures cnt % unit == 0 <==> cs.Nil? || |cs.chunk| == unit
  {
    if cs.Nil? {
      MulMod(0, unit, 0);
    } else if |cs.chunk| == unit {
      assert cnt == (Count(cs.rest) + 1) * unit + 0;
      MulMod(Count(cs.rest) + 1, unit, 0);
    } else {
      MulMod(Count(cs.rest), unit, |cs.chunk|);
    }
  }

  /** A pool of a whole number of units is all full chunks. */
  lemma {:induction false} WholeChunks<T>(cs: Segs<T>, cnt: nat, unit: nat)
    requires unit > 0 && Exact(cs, cnt, unit) && cnt % unit == 0
    ensures Full(cs, unit)
  {
    FrontFull(cs, cnt, unit);
  }

  /** A collector gives a chunk away exactly if it has MAX_SKIP_NODES full ones. */
  lemma GivesExact<T>(cs: Segs<T>, cnt: nat, unit: nat)
    requires unit > 0 && Exact(cs, cnt, unit) && Count(cs) <= MAX_SKIP_NODES
    ensures Gives(cs, cnt, unit) <==> Count(cs) == MAX_SKIP_NODES && Full(cs, unit)
  {
    FrontFull(cs, cnt, unit);
  }

  /** A push keeps what was there, but for the chunk given away. */
  lemma {:induction false} CollectFlat<T>(cs: Segs<T>, cnt: nat, unit: nat, x: T)
    requires unit > 0 && Exact(cs, cnt, unit) && Count(cs) <= MAX_SKIP_NODES
    ensures Flat(Collect(cs, cnt, unit, x)) ==
            [x] + if Count(cs) == MAX_SKIP_NODES && Full(cs, unit) then Flat(cs)[unit..] else Flat(cs)
  {
    GivesExact(cs, cnt, unit);
    FlatPush(if Gives(cs, cnt, unit) then cs.rest else cs, cnt % unit == 0, x);
    if Gives(cs, cnt, unit) {
      assert Flat(cs) == cs.chunk + Flat(cs.rest);
    }
  }

  /** A growing list stays exact. */
  lemma PushExact<T>(cs: Segs<T>, cnt: nat, unit: nat, x: T)
    requires unit > 0 && Exact(cs, cnt, unit)
    ensures Exact(Push(cs, cnt % unit == 0, x), cnt + 1, unit)
  {
    FrontFull(cs, cnt, unit);
    if cs.Seg? && |cs.chunk| == unit {
      assert (Count(cs.rest) + 1) * unit == Count(cs.rest) * unit + unit;
    }
  }

  /** Collector bound and exact chunks: every chunk given away has exactly `unit` elements, the rest stays
      exact, and the collector never has more than MAX_SKIP_NODES chunks, hence never more than
      MAX_SKIP_NODES * unit elements. */
  lemma {:induction false} CollectExact<T>(cs: Segs<T>, cnt: nat, unit: nat, x: T)
    requires unit > 0 && Exact(cs, cnt, unit) && Count(cs) <= MAX_SKIP_NODES
    ensures Gives(cs, cnt, unit) ==> |cs.chunk| == unit <= cnt
    ensures CollectCount(cs, cnt, unit) >= 0
    ensures Exact(Collect(cs, cnt, unit, x), CollectCount(cs, cnt, unit), unit)
    ensures Count(Collect(cs, cnt, unit, x)) <= MAX_SKIP_NODES
    ensures CollectCount(cs, cnt, unit) <= MAX_SKIP_NODES * unit
  {
    FrontFull(cs, cnt, unit);
    if Gives(cs, cnt, unit) {
      RestExact(cs, cnt, unit);
      FrontFull(cs.rest, cnt - unit, unit);
      PushExact(cs.rest, cnt - unit, unit, x);
    } else {
      PushExact(cs, cnt, unit, x);
    }
    ExactBound(Collect(cs, cnt, unit, x), CollectCount(cs, cnt, unit), unit);
  }

  lemma RestExact<T>(cs: Segs<T>, cnt: nat, unit: nat)
    requires unit > 0 && Exact(cs, cnt, unit) && cs.Seg? && |cs.chunk| == unit
    ensures cnt >= unit && Exact(cs.rest, cnt - unit, unit)
    ensures cs.rest.Seg? ==> |cs.rest.chunk| == unit
  {
    if cs.rest.Seg? {
      assert Count(cs.rest) * unit == unit + Count(cs.rest.rest) * unit;
    }
  }

  lemma {:induction false} ExactBound<T>(cs: Segs<T>, cnt: nat, unit: nat)
    requires unit > 0 && Exact(cs, cnt, unit) && Count(cs) <= MAX_SKIP_NODES
    ensures cnt <= MAX_SKIP_NODES * unit
  {
    if cs.Seg? {
      assert Count(cs.rest) * unit <= (MAX_SKIP_NODES - 1) * unit;
    }
  }

  /** Exact lists are as long as they count. */
  lemma {:induction false} ExactLength<T>(cs: Segs<T>, cnt: nat, unit: nat)
    requires unit > 0 && Exact(cs, cnt, unit)
    ensures |Flat(cs)| == cnt
  {
    if cs.Seg? {
      FullLength(cs.rest, unit);
    }
  }

  lemma {:induction false} FullLength<T>(cs: Segs<T>, unit: nat)
    requires Full(cs, unit)
    ensures |Flat(cs)| == Count(cs) * unit
  {
    if cs.Seg? {
      FullLength(cs.rest, unit);
    }
  }

  // ----- sequences without repetition

  ghost predicate NoDup<T>(s: seq<T>) {
    s == [] || (s[0] !in s[1..] && NoDup(s[1..]))
  }

  lemma {:induction false} NoDupAt<T>(s: seq<T>, k: nat)
    requires NoDup(s) && k < |s|
    ensures forall i :: 0 <= i < |s| && i != k ==> s[i] != s[k]
    ensures NoDup(s[k + 1..]) && NoDup(s[..k + 1])
  {
    forall i | 0 <= i < |s| && i != k ensures s[i] != s[k] {
      NoDupDiffers(s, if i < k then i else k, if i < k then k else i);
    }
    assert s == s[..k + 1] + s[k + 1..];
    NoDupSplit(s[..k + 1], s[k + 1..]);
  }

  lemma {:induction false} NoDupDiffers<T>(s: seq<T>, i: nat, j: nat)
    requires NoDup(s) && i < j < |s|
    ensures s[i] != s[j]
  {
    assert s[1..][j - 1] == s[j];
    if i > 0 {
      NoDupDiffers(s[1..], i - 1, j - 1);
    }
  }

  lemma {:induction false} NoDupConcat<T>(a: seq<T>, b: seq<T>)
    requires NoDup(a) && NoDup(b) && forall x :: x in a ==> x !in b
    ensures NoDup(a + b)
  {
    if a == [] {
      assert a + b == b;
    } else {
      NoDupConcat(a[1..], b);
      assert (a + b)[1..] == a[1..] + b;
    }
  }

  lemma {:induction false} NoDupSplit<T>(a: seq<T>, b: seq<T>)
    requires NoDup(a + b)
    ensures NoDup(a) && NoDup(b) && forall x :: x in a ==> x !in b
  {
    if a == [] {
      assert a + b == b;
    } else {
      assert (a + b)[1..] == a[1..] + b;
      NoDupSplit(a[1..], b);
      assert forall x :: x in a ==> x == a[0] || x in a[1..];
    }
  }
}
