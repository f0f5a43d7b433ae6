/** Persistent memory as the log code uses it: NTSTORE, FLUSH and FENCE (src/mmio.h:29-31).

    A cell has the value a running thread reads (`vol`) and the set of values that
    a crash may leave behind (`may`).  A store makes its value possible without
    excluding the older ones, so any subset of the bytes of an unfenced store may
    survive; a fence leaves only the current value. */
module Pmem {

  newtype byte = x: int | 0 <= x < 256

  datatype Cell<T(==)> = Cell(vol: T, may: set<T>)

  function Put<T(==)>(c: Cell<T>, v: T): Cell<T> {
    Cell(v, c.may + {v})
  }

  function Drain<T(==)>(c: Cell<T>): Cell<T> {
    Cell(c.vol, {c.vol})
  }

  type Region = seq<Cell<byte>>

  /** NTSTORE: stores `data` at index `at`, not yet durable. */
  function Store(r: Region, at: nat, data: seq<byte>): Region
    requires at + |data| <= |r|
  {
    seq(|r|, i requires 0 <= i < |r| => if at <= i < at + |data| then Put(r[i], data[i - at]) else r[i])
  }

  /** FENCE: what was stored is durable. */
  function Fence(r: Region): Region {
    seq(|r|, i requires 0 <= i < |r| => Drain(r[i]))
  }

  /** The bytes a running thread reads. */
  function Vols(r: Region): seq<byte> {
    seq(|r|, i requires 0 <= i < |r| => r[i].vol)
  }

  /** `img` is a content that a crash may leave in `r`. */
  ghost predicate CouldBe(r: Region, img: seq<byte>) {
    |img| == |r| && forall i :: 0 <= i < |r| ==> img[i] in r[i].may
  }

  /** Durable and readable content agree, and are `img`. */
  ghost predicate Settled(r: Region, img: seq<byte>) {
    |img| == |r| && forall i :: 0 <= i < |r| ==> r[i].vol == img[i] && r[i].may == {img[i]}
  }
}
