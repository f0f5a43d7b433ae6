/** Shifts, sizes and indices of the log (src/radixlog.h:10-23, 60-64).  All sizes are powers of two, so
    masks and shifts are written as remainders and quotients. */
module Geometry {
  import opened Arithmetic

  /** log_size_t, LOG_4K to LOG_2M (config.h:26-38). */
  type LogSize = s: int | 0 <= s < 10

  /** What one leaf table covers: 1 << LMD_SHIFT. */
  const REGION: nat := 0x20_0000
  const PAGE: nat := 0x1000

  /** LOG_SIZE */
  function Bytes(s: LogSize): (n: nat)
    ensures n > 0
  {
    [0x1000, 0x2000, 0x4000, 0x8000, 0x1_0000, 0x2_0000, 0x4_0000, 0x8_0000, 0x10_0000, 0x20_0000][s]
  }

  /** NR_ENTRIES */
  function Slots(s: LogSize): (n: nat)
    ensures n > 0
  {
    [512, 256, 128, 64, 32, 16, 8, 4, 2, 1][s]
  }

  /** TABLE_INDEX */
  function TableIndex(s: LogSize, off: nat): nat {
    (off / Bytes(s)) % Slots(s)
  }

  /** Sizes are powers of two: each is twice the one below, from a page up to a whole region (src/radixlog.h:17-21). */
  lemma SizesOf(s: LogSize)
    ensures PAGE <= Bytes(s) <= REGION && Slots(s) * Bytes(s) == REGION
    ensures s == 0 ==> Bytes(s) == PAGE
    ensures s < 9 ==> Bytes(s + 1) == 2 * Bytes(s)
  {
  }

  /** A table's logs fill its region exactly, whatever their size. */
  lemma TableFillsRegion(s: LogSize)
    ensures Slots(s) * Bytes(s) == REGION
  {
    SizesOf(s);
  }

  // ----- addresses

  /** The offset named by a region, a table index and an offset in the log. */
  function Address(s: LogSize, region: nat, index: nat, inLog: nat): nat {
    region * REGION + index * Bytes(s) + inLog
  }

  lemma JoinBelow(index: nat, inLog: nat, b: nat, n: nat)
    requires inLog < b && index < n
    ensures index * b + inLog < n * b
  {
    assert (index + 1) * b <= n * b;
    assert (index + 1) * b == index * b + b;
  }

  lemma JoinIs(region: nat, index: nat, inLog: nat, b: nat, n: nat)
    ensures region * (n * b) + index * b + inLog == b * (region * n + index) + inLog
    ensures region * (n * b) + index * b + inLog == (n * b) * region + (index * b + inLog)
  {
    assert region * (n * b) == b * (region * n);
    assert b * (region * n + index) == b * (region * n) + b * index;
  }

  lemma Join(region: nat, index: nat, inLog: nat, b: nat, n: nat)
    requires inLog < b && index < n
    ensures var x := region * (n * b) + index * b + inLog;
            x / b == region * n + index && x % b == inLog && (region * n + index) % n == index && x / (n * b) == region
  {
    var x, m := region * (n * b) + index * b + inLog, region * n + index;
    JoinIs(region, index, inLog, b, n);
    DivUnique(x, b, m, inLog);
    DivUnique(m, n, region, index);
    JoinBelow(index, inLog, b, n);
    DivUnique(x, n * b, region, index * b + inLog);
  }

  lemma SplitIs(x: nat, b: nat, n: nat, q: nat, region: nat, index: nat, inLog: nat)
    requires x == b * q + inLog && q == n * region + index && inLog < b && index < n
    ensures x == region * (n * b) + index * b + inLog && x / (n * b) == region
  {
    assert q == region * n + index;
    JoinIs(region, index, inLog, b, n);
    Join(region, index, inLog, b, n);
  }

  lemma Split(x: nat, b: nat, n: nat)
    requires b > 0 && n > 0
    ensures x == ((x / b) / n) * (n * b) + ((x / b) % n) * b + x % b
    ensures x / (n * b) == (x / b) / n
  {
    SplitIs(x, b, n, x / b, (x / b) / n, (x / b) % n, x % b);
  }

  /** Every offset has its place, and the place names the offset. */
  lemma AddressOfPlace(s: LogSize, off: nat)
    ensures off % Bytes(s) < Bytes(s) && TableIndex(s, off) < Slots(s)
    ensures Address(s, off / REGION, TableIndex(s, off), off % Bytes(s)) == off
    ensures off < 0x1_0000_0000_0000 ==> off / REGION < 0x800_0000
  {
    TableFillsRegion(s);
    Split(off, Bytes(s), Slots(s));
  }

  /** No two places name the same offset. */
  lemma PlaceOfAddress(s: LogSize, region: nat, index: nat, inLog: nat)
    requires index < Slots(s) && inLog < Bytes(s)
    ensures var off := Address(s, region, index, inLog);
            off / REGION == region && TableIndex(s, off) == index && off % Bytes(s) == inLog
  {
    TableFillsRegion(s);
    Join(region, index, inLog, Bytes(s), Slots(s));
  }

  /** A block starts at its aligned base and lies within its region. */
  lemma BlockOf(s: LogSize, region: nat, index: nat)
    requires index < Slots(s)
    ensures region * REGION <= Address(s, region, index, 0)
            && Address(s, region, index, 0) + Bytes(s) <= (region + 1) * REGION
    ensures Address(s, region, index, 0) % Bytes(s) == 0
  {
    TableFillsRegion(s);
    PlaceOfAddress(s, region, index, 0);
    var b, n := Bytes(s), Slots(s);
    JoinBelow(index, b - 1, b, n);
  }

  // ----- set_log_size (src/radixlog.c:267-279)

  /** The least size from `s` on that holds `need` bytes, or the largest. */
  function SizeFrom(need: nat, s: LogSize): (r: LogSize)
    ensures s <= r && (r < 9 ==> need <= Bytes(r))
    ensures forall t: LogSize :: s <= t < r ==> Bytes(t) < need
    decreases 9 - s
  {
    if s == 9 || need <= Bytes(s) then s else SizeFrom(need, s + 1)
  }

  /** The log size that a request chooses for a table: the least that holds it from the start of its first page, or the
      largest. */
  function LeastSize(offset: nat, len: nat): (s: LogSize)
    ensures s < 9 ==> len + offset % PAGE <= Bytes(s)
    ensures forall t: LogSize :: t < s ==> Bytes(t) < len + offset % PAGE
  {
    SizeFrom(len + offset % PAGE, 0)
  }

  /** There is one such size. */
  lemma OneLeast(offset: nat, len: nat, s: LogSize)
    requires s < 9 ==> len + offset % PAGE <= Bytes(s)
    requires forall t: LogSize :: t < s ==> Bytes(t) < len + offset % PAGE
    ensures s == LeastSize(offset, len)
  {
  }

  /** The shifts of set_log_size find it. */
  method SetLogSize(offset: nat, len: nat) returns (s: LogSize)
    requires len > 0
    ensures s == LeastSize(offset, len)
    ensures s < 9 ==> len + offset % PAGE <= Bytes(s)
    ensures forall t: LogSize :: t < s ==> Bytes(t) < len + offset % PAGE
  {
    ghost var need := len + offset % PAGE;
    s := 0;
    var n := len + offset % PAGE;
    n := (n - 1) / PAGE;
    while n > 0 && s < 9
      invariant 0 <= s <= 9 && n == Blocks(need, s)
      invariant forall t: LogSize :: t < s ==> Bytes(t) < need
      decreases 9 - s
    {
      SizeStep(need, s);
      n := n / 2;
      s := s + 1;
    }
    if n == 0 {
      SizeEnd(need, s);
    }
    OneLeast(offset, len, s);
  }

  /** How many whole blocks of size `s` lie before the last of `need` bytes. */
  ghost function Blocks(need: nat, s: LogSize): int
    requires need > 0
  {
    (need - 1) / Bytes(s)
  }

  lemma SizeStep(need: nat, s: LogSize)
    requires need > 0 && s < 9 && Blocks(need, s) > 0
    ensures Bytes(s) < need && Blocks(need, s + 1) == Blocks(need, s) / 2
  {
    if need - 1 < Bytes(s) {
      DivUnique(need - 1, Bytes(s), 0, need - 1);
    }
    HalfDiv(need - 1, Bytes(s));
    assert Bytes(s + 1) == 2 * Bytes(s);
  }

  lemma SizeEnd(need: nat, s: LogSize)
    requires need > 0 && Blocks(need, s) == 0
    ensures need <= Bytes(s)
  {
    var b := Bytes(s);
    assert need - 1 == b * ((need - 1) / b) + (need - 1) % b;
  }
}
