/** The radix index of log tables (src/radixlog.c:20-265): four levels of 512 slots, a shortcut `skip` to the level
    that a file of the opening size needs, and a one-entry cache.  Tables are numbered; `place` records where a table
    hangs: the table of level n at place x covers the 2 MB regions q with q / Span(n) == x. */
module RadixLog {
  import Geometry
  import Arithmetic
  import opened Options

  /** TABLE = 1, LMD, LUD, LGD (src/radixlog.h:25). */
  type Level = n: int | 1 <= n <= 4 witness 1

  datatype Table = Table(level: Level, kids: map<nat, nat>)

  /** How many regions a table of the level covers. */
  function Span(n: Level): (s: nat)
    ensures s > 0
  {
    if n == 1 then 1 else if n == 2 then 512 else if n == 3 then 0x4_0000 else 0x800_0000
  }

  /** The region of an offset; 27 bits of it count (TABLE_MASK). */
  function Region(off: nat): nat {
    (off / Geometry.REGION) % 0x800_0000
  }

  /** LMD_INDEX, LUD_INDEX, LGD_INDEX (src/radixlog.h:60-62). */
  function Index(n: Level, q: nat): nat
    requires n > 1
  {
    (q / Span(n - 1)) % 512
  }

  /** Follows the slots for region `q` down to its leaf table. */
  function Walk(heap: map<nat, Table>, id: nat, n: Level, q: nat): Option<nat>
    decreases n
  {
    if n == 1 then Some(id)
    else if id in heap && Index(n, q) in heap[id].kids then Walk(heap, heap[id].kids[Index(n, q)], n - 1, q)
    else None
  }

  /** Every table hangs one level below its parent, at the place its slot says. */
  ghost predicate Tree(heap: map<nat, Table>, place: map<nat, nat>) {
    && heap.Keys == place.Keys
    && forall id, j :: id in heap && j in heap[id].kids ==> Hangs(heap, place, id, j)
  }

  ghost predicate Hangs(heap: map<nat, Table>, place: map<nat, nat>, id: nat, j: nat)
    requires heap.Keys == place.Keys && id in heap && j in heap[id].kids
  {
    && heap[id].level > 1 && j < 512 && heap[id].kids[j] in heap
    && heap[heap[id].kids[j]].level == heap[id].level - 1
    && place[heap[id].kids[j]] == place[id] * 512 + j
  }

  lemma SpanIndex(n: Level, q: nat)
    requires n > 1
    ensures q / Span(n - 1) == (q / Span(n)) * 512 + Index(n, q)
  {
  }

  /** A walk ends at the leaf whose place is the region. */
  lemma {:induction false} WalkEnds(heap: map<nat, Table>, place: map<nat, nat>, id: nat, n: Level, q: nat)
    requires Tree(heap, place) && id in heap && heap[id].level == n && q / Span(n) == place[id]
    ensures Walk(heap, id, n, q).Some? ==>
              var t := Walk(heap, id, n, q).value; t in heap && heap[t].level == 1 && place[t] == q
    decreases n
  {
    if n > 1 && Index(n, q) in heap[id].kids {
      SpanIndex(n, q);
      WalkEnds(heap, place, heap[id].kids[Index(n, q)], n - 1, q);
    }
  }

  /** Which slots a walk looks at depends on the low digits of the region only. */
  lemma {:induction false} WalkLow(heap: map<nat, Table>, id: nat, n: Level, m: Level, q: nat)
    requires n <= m
    ensures Walk(heap, id, n, q) == Walk(heap, id, n, q % Span(m))
    decreases n
  {
    if n > 1 {
      LowDigit(n, m, q);
      if id in heap && Index(n, q) in heap[id].kids {
        WalkLow(heap, heap[id].kids[Index(n, q)], n - 1, m, q);
      }
    }
  }

  lemma LowDigit(n: Level, m: Level, q: nat)
    requires 1 < n <= m
    ensures Index(n, q) == Index(n, q % Span(m))
  {
    if m == n {
      Digit(q, Span(n - 1), 1);
    } else if m == n + 1 {
      Digit(q, Span(n - 1), 512);
    } else {
      Digit(q, Span(n - 1), 0x4_0000);
    }
  }

  lemma DigitSplit(q: nat, a: nat, c: nat, k: nat, x: nat, y: nat)
    requires q == (512 * a * c) * k + (a * x + y)
    ensures q == a * (512 * (c * k) + x) + y
  {
    assert (512 * a * c) * k == a * (512 * (c * k));
    assert a * (512 * (c * k) + x) == a * (512 * (c * k)) + a * x;
  }

  lemma DigitFor(q: nat, a: nat, c: nat, k: nat, x: nat, y: nat)
    requires q == (512 * a * c) * k + (a * x + y) && y < a
    ensures (q / a) % 512 == x % 512
  {
    DigitSplit(q, a, c, k, x, y);
    var w := c * k;
    Arithmetic.DivUnique(q, a, 512 * w + x, y);
    Arithmetic.DivUnique(512 * w + x, 512, w + x / 512, x % 512);
  }

  /** Taking a remainder by a multiple of 512 * a leaves the digit at a alone. */
  lemma Digit(q: nat, a: nat, c: nat)
    requires a > 0 && c > 0
    ensures (q / a) % 512 == ((q % (512 * a * c)) / a) % 512
  {
    var r := q % (512 * a * c);
    DigitFor(q, a, c, q / (512 * a * c), r / a, r % a);
  }

  // ----- hanging a new table

  function Hang(heap: map<nat, Table>, id: nat, j: nat, kid: nat): map<nat, Table>
    requires id in heap && heap[id].level > 1
  {
    heap[kid := Table(heap[id].level - 1, map[])][id := heap[id].(kids := heap[id].kids[j := kid])]
  }

  function HangPlace(place: map<nat, nat>, id: nat, j: nat, kid: nat): map<nat, nat>
    requires id in place
  {
    place[kid := place[id] * 512 + j]
  }

  lemma HangTree(heap: map<nat, Table>, place: map<nat, nat>, id: nat, j: nat, kid: nat)
    requires Tree(heap, place) && id in heap && heap[id].level > 1 && j < 512 && j !in heap[id].kids && kid !in heap
    ensures Tree(Hang(heap, id, j, kid), HangPlace(place, id, j, kid))
  {
  }

  /** No other region's walk changes. */
  lemma {:induction false} HangElsewhere(heap: map<nat, Table>, place: map<nat, nat>, id: nat, j: nat, kid: nat,
      s: nat, n: Level, q: nat)
    requires Tree(heap, place) && id in heap && heap[id].level > 1 && j < 512 && j !in heap[id].kids && kid !in heap
    requires s in heap && heap[s].level == n && q / Span(n) == place[s]
    requires heap[id].level == 2 ==> q != place[id] * 512 + j
    ensures Walk(Hang(heap, id, j, kid), s, n, q) == Walk(heap, s, n, q)
    decreases n
  {
    var heap' := Hang(heap, id, j, kid);
    if n > 1 {
      SpanIndex(n, q);
      if Index(n, q) in heap[s].kids {
        HangElsewhere(heap, place, id, j, kid, heap[s].kids[Index(n, q)], n - 1, q);
      } else if s == id && Index(n, q) == j {
        assert n > 2;
        assert heap'[kid].kids == map[];
      }
    }
  }

  /** What a walk has found it still finds. */
  lemma {:induction false} HangKeeps(heap: map<nat, Table>, id: nat, j: nat, kid: nat, s: nat, n: Level, q: nat)
    requires id in heap && heap[id].level > 1 && j !in heap[id].kids && kid !in heap && Walk(heap, s, n, q).Some?
    ensures Walk(Hang(heap, id, j, kid), s, n, q) == Walk(heap, s, n, q)
    decreases n
  {
    if n > 1 {
      HangKeeps(heap, id, j, kid, heap[s].kids[Index(n, q)], n - 1, q);
    }
  }

  // ----- parts of a walk

  /** The table of level `m` on the walk for region `q`. */
  function Down(heap: map<nat, Table>, id: nat, n: Level, m: Level, q: nat): Option<nat>
    requires m <= n
    decreases n
  {
    if n == m then Some(id)
    else if id in heap && Index(n, q) in heap[id].kids then Down(heap, heap[id].kids[Index(n, q)], n - 1, m, q)
    else None
  }

  lemma {:induction false} DownWalk(heap: map<nat, Table>, id: nat, n: Level, m: Level, q: nat)
    requires m <= n && Down(heap, id, n, m, q).Some?
    ensures Walk(heap, id, n, q) == Walk(heap, Down(heap, id, n, m, q).value, m, q)
    decreases n
  {
    if n > m {
      DownWalk(heap, heap[id].kids[Index(n, q)], n - 1, m, q);
    }
  }

  /** The walk for a region below Span(m) goes down to level `m` like that for region 0. */
  lemma {:induction false} DownSame(heap: map<nat, Table>, id: nat, n: Level, m: Level, q: nat)
    requires m <= n && q < Span(m)
    ensures Down(heap, id, n, m, q) == Down(heap, id, n, m, 0)
    decreases n
  {
    if n > m {
      assert Index(n, q) == 0 == Index(n, 0);
      if id in heap && 0 in heap[id].kids {
        DownSame(heap, heap[id].kids[0], n - 1, m, q);
      }
    }
  }

  lemma {:induction false} DownHang(heap: map<nat, Table>, id: nat, j: nat, kid: nat, s: nat, n: Level, m: Level,
      q: nat)
    requires id in heap && heap[id].level > 1 && j !in heap[id].kids && kid !in heap && m <= n
    requires Down(heap, s, n, m, q).Some?
    ensures Down(Hang(heap, id, j, kid), s, n, m, q) == Down(heap, s, n, m, q)
    decreases n
  {
    if n > m {
      DownHang(heap, id, j, kid, heap[s].kids[Index(n, q)], n - 1, m, q);
    }
  }

  /** One level further down. */
  lemma {:induction false} DownNext(heap: map<nat, Table>, s: nat, n: Level, m: Level, q: nat)
    requires 1 < m <= n && Down(heap, s, n, m, q).Some?
    requires var id := Down(heap, s, n, m, q).value; id in heap && Index(m, q) in heap[id].kids
    ensures Down(heap, s, n, m - 1, q) == Some(heap[Down(heap, s, n, m, q).value].kids[Index(m, q)])
    decreases n
  {
    if n > m {
      DownNext(heap, heap[s].kids[Index(n, q)], n - 1, m, q);
    }
  }

  /** The walk for region `q` from table `s`, which is of level `top` and at place 0, has come to `cur`. */
  ghost predicate Reached(heap: map<nat, Table>, place: map<nat, nat>, s: nat, top: Level, n: Level, q: nat, cur: nat) {
    && n <= top && heap.Keys == place.Keys && cur in heap && heap[cur].level == n
    && place[cur] == (q % Span(top)) / Span(n) && Down(heap, s, top, n, q) == Some(cur)
  }

  lemma ReachedFirst(heap: map<nat, Table>, place: map<nat, nat>, s: nat, top: Level, q: nat)
    requires heap.Keys == place.Keys && s in heap && heap[s].level == top && place[s] == 0
    ensures Reached(heap, place, s, top, top, q, s)
  {
    Remainder(top, q);
    Arithmetic.DivUnique(q % Span(top), Span(top), 0, q % Span(top));
  }

  /** It goes on to the table in its slot. */
  lemma Descend(heap: map<nat, Table>, place: map<nat, nat>, s: nat, top: Level, n: Level, q: nat, cur: nat)
    requires Tree(heap, place) && n > 1 && Reached(heap, place, s, top, n, q, cur) && Index(n, q) in heap[cur].kids
    ensures Reached(heap, place, s, top, n - 1, q, heap[cur].kids[Index(n, q)])
  {
    SpanIndex(n, q % Span(top));
    LowDigit(n, top, q);
    DownNext(heap, s, top, n, q);
  }

  /** init_radixlog hangs a table of level `n` under the last one, in slot 0. */
  lemma {:induction false} HangFirst(h: map<nat, Table>, p: map<nat, nat>, parent: nat, n: Level)
    requires Tree(h, p) && 0 in h && h[0].level == 4 && p[0] == 0 && 1 <= n <= 3
             && (forall id :: id in h ==> id <= parent)
    requires parent in h && h[parent].level == n + 1 && h[parent].kids == map[] && p[parent] == 0
             && Down(h, 0, 4, n + 1, 0) == Some(parent)
    ensures var h', p' := Hang(h, parent, 0, parent + 1), HangPlace(p, parent, 0, parent + 1);
            && Tree(h', p') && 0 in h' && h'[0].level == 4 && p'[0] == 0 && (forall id :: id in h' ==> id <= parent + 1)
            && parent + 1 in h' && h'[parent + 1].level == n && h'[parent + 1].kids == map[] && p'[parent + 1] == 0
            && Down(h', 0, 4, n, 0) == Some(parent + 1)
  {
    HangTree(h, p, parent, 0, parent + 1);
    DownHang(h, parent, 0, parent + 1, 0, 4, n + 1, 0);
    IndexZero(0, n + 1, n);
    DownNext(Hang(h, parent, 0, parent + 1), 0, 4, n + 1, 0);
  }

  lemma {:induction false} SkipWalkFor(heap: map<nat, Table>, place: map<nat, nat>, lgd: nat, skip: nat, n: Level,
      q: nat, r: nat)
    requires Tree(heap, place) && lgd in heap && heap[lgd].level == 4 && place[lgd] == 0 && q < Span(4) && r < Span(n)
    requires Down(heap, lgd, 4, n, 0) == Some(skip) && Walk(heap, skip, n, q) == Walk(heap, skip, n, r)
    ensures var short := Walk(heap, skip, n, q);
            && short == Walk(heap, lgd, 4, r)
            && (short.Some? ==>
                  && short.value in heap && place[short.value] == r
                  && (short == Walk(heap, lgd, 4, q) <==> q == r))
  {
    DownSame(heap, lgd, 4, n, r);
    DownWalk(heap, lgd, 4, n, r);
    InTop(n, r);
    WalkEnds(heap, place, lgd, 4, r);
    WalkEnds(heap, place, lgd, 4, q);
  }

  lemma InTop(n: Level, r: nat)
    requires r < Span(n)
    ensures r / Span(4) == 0
  {
  }

  lemma Remainder(n: Level, q: nat)
    ensures q % Span(n) < Span(n) && (q % Span(n) == q <==> q < Span(n))
  {
  }

  /** Of the regions below `bound`, all but that of `q` have the walks they had. */
  ghost predicate OthersKept(h: map<nat, Table>, h': map<nat, Table>, lgd: nat, bound: nat, q: nat)
    requires bound > 0
  {
    forall q' :: 0 <= q' < bound && q' != q % bound ==> Walk(h', lgd, 4, q') == Walk(h, lgd, 4, q')
  }

  lemma OthersKeptTrans(h: map<nat, Table>, h': map<nat, Table>, h'': map<nat, Table>, lgd: nat, bound: nat, q: nat)
    requires bound > 0 && OthersKept(h, h', lgd, bound, q) && OthersKept(h', h'', lgd, bound, q)
    ensures OthersKept(h, h'', lgd, bound, q)
  {
  }

  /** Hanging the next table of region `q` below the shortcut changes no other region's walk. */
  lemma HangOthers(heap: map<nat, Table>, place: map<nat, nat>, lgd: nat, cur: nat, kid: nat, top: Level, q: nat)
    requires Tree(heap, place) && lgd in heap && heap[lgd].level == 4 && place[lgd] == 0 && kid !in heap
    requires cur in heap && 1 < heap[cur].level <= top && Index(heap[cur].level, q) !in heap[cur].kids
    requires place[cur] == (q % Span(top)) / Span(heap[cur].level)
    ensures OthersKept(heap, Hang(heap, cur, Index(heap[cur].level, q), kid), lgd, Span(top), q)
  {
    var n := heap[cur].level;
    SpanIndex(n, q % Span(top));
    LowDigit(n, top, q);
    forall q' | 0 <= q' < Span(top) && q' != q % Span(top)
      ensures Walk(Hang(heap, cur, Index(n, q), kid), lgd, 4, q') == Walk(heap, lgd, 4, q')
    {
      HangElsewhere(heap, place, cur, Index(n, q), kid, lgd, 4, q');
    }
  }

  lemma {:induction false} HangBelow(heap: map<nat, Table>, place: map<nat, nat>, lgd: nat, skip: nat, cur: nat,
      kid: nat, top: Level, q: nat)
    requires Tree(heap, place) && lgd in heap && heap[lgd].level == 4 && place[lgd] == 0 && kid !in heap
    requires cur in heap && 1 < heap[cur].level <= top && Index(heap[cur].level, q) !in heap[cur].kids
    requires place[cur] == (q % Span(top)) / Span(heap[cur].level)
    requires Down(heap, lgd, 4, top, 0) == Some(skip) && Down(heap, skip, top, heap[cur].level, q) == Some(cur)
    ensures var h := Hang(heap, cur, Index(heap[cur].level, q), kid);
            && Tree(h, HangPlace(place, cur, Index(heap[cur].level, q), kid))
            && Down(h, lgd, 4, top, 0) == Some(skip) && Down(h, skip, top, heap[cur].level, q) == Some(cur)
            && OthersKept(heap, h, lgd, Span(top), q)
  {
    var n := heap[cur].level;
    HangTree(heap, place, cur, Index(n, q), kid);
    DownHang(heap, cur, Index(n, q), kid, lgd, 4, top, 0);
    DownHang(heap, cur, Index(n, q), kid, skip, top, n, q);
    HangOthers(heap, place, lgd, cur, kid, top, q);
  }

  /** The tables of a root: the shortcut is on the way down for region 0. */
  ghost predicate Rooted(heap: map<nat, Table>, place: map<nat, nat>, next: nat, lgd: nat, skip: nat) {
    && Tree(heap, place) && (forall id :: id in heap ==> id < next)
    && lgd in heap && heap[lgd].level == 4 && place[lgd] == 0
    && skip in heap && place[skip] == 0 && Down(heap, lgd, 4, heap[skip].level, 0) == Some(skip)
  }

  /** Hanging the next table of region `q` under the last one that its walk has come to. */
  lemma HangRooted(heap: map<nat, Table>, place: map<nat, nat>, next: nat, lgd: nat, skip: nat, n: Level, q: nat,
      cur: nat)
    requires Rooted(heap, place, next, lgd, skip) && n > 1
             && Reached(heap, place, skip, heap[skip].level, n, q, cur) && Index(n, q) !in heap[cur].kids
    ensures var h, p := Hang(heap, cur, Index(n, q), next), HangPlace(place, cur, Index(n, q), next);
            && Rooted(h, p, next + 1, lgd, skip) && h[skip].level == heap[skip].level
            && Reached(h, p, skip, heap[skip].level, n, q, cur) && Index(n, q) in h[cur].kids
            && OthersKept(heap, h, lgd, Span(heap[skip].level), q)
  {
    HangBelow(heap, place, lgd, skip, cur, next, heap[skip].level, q);
    HangLevels(heap, place, cur, Index(n, q), next);
  }

  /** The tables that are there stay where they are. */
  lemma HangLevels(heap: map<nat, Table>, place: map<nat, nat>, cur: nat, j: nat, next: nat)
    requires cur in heap && heap[cur].level > 1 && heap.Keys == place.Keys && forall id :: id in heap ==> id < next
    ensures var h, p := Hang(heap, cur, j, next), HangPlace(place, cur, j, next);
            && (forall id :: id in h ==> id < next + 1) && j in h[cur].kids
            && forall id :: id in heap ==> id in h && h[id].level == heap[id].level && id in p && p[id] == place[id]
  {
  }

  /** get_deepest_table_type (src/radixlog.c:37-55). */
  function DeepestTableType(maxoff: nat): (n: Level)
    ensures maxoff < 0x1_0000_0000_0000 ==> maxoff / Geometry.REGION < Span(n)
    ensures n > 1 ==> maxoff / Geometry.REGION >= Span(n - 1)
  {
    if maxoff / 0x20_0000 > 0 then
      if maxoff / 0x4000_0000 > 0 then
        if maxoff / 0x80_0000_0000 > 0 then 4 else 3
      else 2
    else 1
  }

  lemma IndexZero(q: nat, n: Level, m: Level)
    requires m < n && q < Span(m)
    ensures Index(n, q) == 0
  {
  }

  // ----- the root

  class Root {
    var heap: map<nat, Table>
    var next: nat // tables from here on are unused
    var lgd: nat
    var skip: nat
    var prevTable: nat
    var prevIndex: int // -1 for ULONG_MAX
    ghost var place: map<nat, nat>

    /** The shortcut is on the way down for region 0, and the cache agrees with the walk from it. */
    ghost predicate Valid()
      reads this
    {
      && Rooted(heap, place, next, lgd, skip)
      && Cached(heap, skip, prevTable, prevIndex)
    }

    /** The regions that the shortcut covers are those below this number. */
    ghost function Coverage(): nat
      requires skip in heap
      reads this
    {
      Span(heap[skip].level)
    }

    /** The table that a full walk from the top finds, and the one that the walk from the shortcut finds. */
    ghost function Full(q: nat): Option<nat>
      reads this
    {
      Walk(heap, lgd, 4, q)
    }

    ghost function Short(q: nat): Option<nat>
      requires skip in heap
      reads this
    {
      Walk(heap, skip, heap[skip].level, q)
    }

    /** The shortcut finds the table of the region taken modulo the coverage; so it finds what a full walk
        finds exactly if the region is covered. */
    lemma {:induction false} SkipWalk(q: nat)
      requires Valid() && q < 0x800_0000
      ensures Short(q) == Full(q % Coverage())
      ensures Short(q).Some? ==> Short(q).value in heap && place[Short(q).value] == q % Coverage()
      ensures Short(q).Some? ==> (Short(q) == Full(q) <==> q < Coverage())
    {
      var n := heap[skip].level;
      Remainder(n, q);
      WalkLow(heap, skip, n, n, q);
      SkipWalkFor(heap, place, lgd, skip, n, q, q % Span(n));
    }

    /** find_log_table (src/radixlog.c:96-176): for the regions covered it finds what a full walk finds. */
    method FindLogTable(off: nat) returns (t: Option<nat>)
      requires Valid()
      ensures t == Full(Region(off) % Coverage())
    {
      var q, cur, n := Region(off), skip, heap[skip].level;
      SkipWalk(q);
      while n > 1
        invariant 1 <= n <= 4 && cur in heap && heap[cur].level == n
        invariant Walk(heap, cur, n, q) == Short(q)
      {
        var index := Index(n, q);
        if index !in heap[cur].kids {
          return None;
        }
        cur := heap[cur].kids[index];
        n := n - 1;
      }
      return Some(cur);
    }

    /** init_radixlog (src/radixlog.c:57-94): one table of each level, down to the one that covers the file. */
    constructor (filesize: nat)
      requires 0 < filesize <= 0x1_0000_0000_0000
      ensures Valid() && heap[skip].level == DeepestTableType(filesize - 1)
      ensures (filesize - 1) / Geometry.REGION < Coverage()
    {
      var maxoff := filesize - 1;
      var deepest := DeepestTableType(maxoff);
      var h: map<nat, Table> := map[0 := Table(4, map[])];
      ghost var p: map<nat, nat> := map[0 := 0];
      var n: int, parent := 3, 0;
      while n >= deepest
        invariant deepest - 1 <= n <= 3 && parent == 3 - n && (forall id :: id in h ==> id <= parent)
        invariant Tree(h, p) && 0 in h && h[0].level == 4 && p[0] == 0
        invariant parent in h && h[parent].level == n + 1 && h[parent].kids == map[] && p[parent] == 0
        invariant Down(h, 0, 4, n + 1, 0) == Some(parent)
      {
        var index := Index(n + 1, Region(maxoff));
        IndexZero(Region(maxoff), n + 1, deepest);
        HangFirst(h, p, parent, n);
        p := HangPlace(p, parent, index, parent + 1);
        h := Hang(h, parent, index, parent + 1);
        parent := parent + 1;
        n := n - 1;
      }
      heap, next, lgd, skip, prevTable, prevIndex, place := h, parent + 1, 0, parent, 0, -1, p;
    }

    /** get_log_table (src/radixlog.c:178-265): cached or not, it returns what the walk from the shortcut finds,
        hanging tables where there are none, and leaves the tables of all other regions alone.  That is the table of
        the full walk exactly if the region is covered. */
    method GetLogTable(off: nat) returns (t: nat)
      requires Valid()
      modifies this
      ensures Valid() && skip == old(skip) && lgd == old(lgd) && Coverage() == old(Coverage())
      ensures Short(Region(off)) == Some(t) && t in heap && place[t] == Region(off) % Coverage()
      ensures Full(Region(off)) == Some(t) <==> Region(off) < Coverage()
      ensures old(Short(Region(off))).Some? ==> old(Short(Region(off))) == Some(t)
      ensures forall q :: 0 <= q < Coverage() && q != Region(off) % Coverage() ==> Full(q) == old(Full(q))
    {
      var q := Region(off);
      SkipWalk(q);
      if prevIndex == q {
        return prevTable;
      }
      t := WalkAndHang(q);
      prevTable := t;
      prevIndex := q;
      SkipWalk(q);
    }

    /** The uncached part, one level after the other. */
    method WalkAndHang(q: nat) returns (t: nat)
      requires Valid() && q < 0x800_0000
      modifies this`heap, this`place, this`next
      ensures Valid() && Coverage() == old(Coverage())
      ensures Short(q) == Some(t)
      ensures old(Short(q)).Some? ==> old(Short(q)) == Some(t)
      ensures OthersKept(old(heap), heap, lgd, Coverage(), q)
    {
      ghost var h, found := heap, Short(q);
      var cur, n := skip, heap[skip].level;
      var top := n;
      ReachedFirst(heap, place, skip, top, q);
      while n > 1
        invariant 1 <= n <= top && Valid() && heap[skip].level == top && Reached(heap, place, skip, top, n, q, cur)
        invariant heap == h || found == None
        invariant OthersKept(h, heap, lgd, Span(top), q)
      {
        ghost var before := heap;
        cur := NextTable(cur, n, q);
        OthersKeptTrans(h, before, heap, lgd, Span(top), q);
        n := n - 1;
      }
      DownWalk(heap, skip, top, 1, q);
      t := cur;
    }

    /** One level down, to a new table if there is none. */
    method NextTable(cur: nat, n: Level, q: nat) returns (t: nat)
      requires Valid() && n > 1 && Reached(heap, place, skip, heap[skip].level, n, q, cur)
      modifies this`heap, this`place, this`next
      ensures Valid() && heap[skip].level == old(heap[skip].level)
      ensures Reached(heap, place, skip, heap[skip].level, n - 1, q, t)
      ensures heap == old(heap) || old(Short(q)) == None
      ensures OthersKept(old(heap), heap, lgd, Span(heap[skip].level), q)
    {
      if Index(n, q) !in heap[cur].kids {
        NotFound(heap, skip, heap[skip].level, n, q, cur);
        HangAt(cur, n, q);
      }
      Descend(heap, place, skip, heap[skip].level, n, q, cur);
      t := heap[cur].kids[Index(n, q)];
    }

    /** ALLOC_TABLE (src/radixlog.c:11-18), with no other thread at work. */
    method HangAt(cur: nat, n: Level, q: nat)
      requires Valid() && n > 1 && Reached(heap, place, skip, heap[skip].level, n, q, cur)
      requires Index(n, q) !in heap[cur].kids
      modifies this`heap, this`place, this`next
      ensures Valid() && heap[skip].level == old(heap[skip].level)
      ensures Reached(heap, place, skip, heap[skip].level, n, q, cur) && Index(n, q) in heap[cur].kids
      ensures OthersKept(old(heap), heap, lgd, Coverage(), q)
    {
      var h, m;
      ghost var p;
      h, m, p := HangTable(heap, place, next, lgd, skip, n, q, cur, prevTable, prevIndex);
      heap := h;
      next := m;
      place := p;
      assert heap == h && place == p && next == m;
      assert Rooted(h, p, m, lgd, skip);
    }
  }

  /** The cache agrees with the walk from the shortcut. */
  ghost predicate Cached(heap: map<nat, Table>, skip: nat, prevTable: nat, prevIndex: int)
    requires skip in heap
  {
    || prevIndex == -1
    || (0 <= prevIndex < 0x800_0000 && Walk(heap, skip, heap[skip].level, prevIndex) == Some(prevTable))
  }

  /** The table `next` comes into the slot for region `q` of the table that its walk has come to. */
  method HangTable(heap: map<nat, Table>, ghost place: map<nat, nat>, next: nat, ghost lgd: nat, ghost skip: nat,
      n: Level, q: nat, cur: nat, ghost prevTable: nat, ghost prevIndex: int)
      returns (h: map<nat, Table>, next': nat, ghost p: map<nat, nat>)
    requires Rooted(heap, place, next, lgd, skip) && Cached(heap, skip, prevTable, prevIndex)
    requires n > 1 && Reached(heap, place, skip, heap[skip].level, n, q, cur) && Index(n, q) !in heap[cur].kids
    ensures Rooted(h, p, next', lgd, skip) && h[skip].level == heap[skip].level
    ensures Cached(h, skip, prevTable, prevIndex)
    ensures Reached(h, p, skip, heap[skip].level, n, q, cur) && Index(n, q) in h[cur].kids
    ensures OthersKept(heap, h, lgd, Span(heap[skip].level), q)
  {
    HangRooted(heap, place, next, lgd, skip, n, q, cur);
    if prevIndex != -1 {
      HangKeeps(heap, cur, Index(n, q), next, skip, heap[skip].level, prevIndex);
    }
    h, next', p := Hang(heap, cur, Index(n, q), next), next + 1, HangPlace(place, cur, Index(n, q), next);
  }

  /** A walk stops at a table without the slot it needs. */
  lemma {:induction false} NotFound(heap: map<nat, Table>, s: nat, top: Level, n: Level, q: nat, cur: nat)
    requires 1 < n <= top && Down(heap, s, top, n, q) == Some(cur) && cur in heap && Index(n, q) !in heap[cur].kids
    ensures Walk(heap, s, top, q) == None
  {
    DownWalk(heap, s, top, n, q);
  }
}
