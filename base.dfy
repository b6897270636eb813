/** Types shared by the whole model of the xenpm power-management tool:
    C's optional values, unsigned 64-bit counters with their wrap-around,
    the errno constants the tool compares against, and the C structs that
    the Xen control library fills in (xc_cx_stat, xc_px_stat). */
module Base {

  datatype Option<+T> = None | Some(value: T)

  /** 2^64: the modulus of C's `uint64_t` / `unsigned long` arithmetic. */
  const U64: int := 0x1_0000_0000_0000_0000

  type u64 = x: int | 0 <= x < U64

  /** Reduction of an exact integer to the value a uint64_t holds. */
  function Wrap(x: int): (r: u64)
    ensures r == x % U64
    ensures 0 <= x < U64 ==> r == x
  {
    x % U64
  }

  function Add64(a: u64, b: u64): (r: u64)
    ensures a + b < U64 ==> r == a + b
    ensures a + b >= U64 ==> r == a + b - U64
  {
    Wrap(a + b)
  }

  function Sub64(a: u64, b: u64): (r: u64)
    ensures b <= a ==> r == a - b
    ensures a < b ==> r == a - b + U64
  {
    Wrap(a - b)
  }

  // errno values of Linux that the tool uses
  const ENOMEM: int := 12
  const ENODEV: int := 19
  const EINVAL: int := 22

  /** An errno value: Linux reports failures with positive codes. */
  type Errno = e: int | 0 < e witness 1

  /** The outcome of a control-library call: its result, or failure with
      the value errno holds afterwards. */
  datatype Lib<T> = Ok(value: T) | Fail(errno: Errno)

  /** A heap pointer: NULL or the identity of one malloc'ed block. */
  datatype Ptr = Null | Block(id: nat)

  /** What the library writes into struct xc_cx_stat: the number of idle
      states and, per state, its transition count and residency. */
  datatype CxCounters = CxCounters(nr: nat, triggers: seq<u64>, residencies: seq<u64>)

  /** One entry of xc_px_stat.pt: frequency, transition count, residency. */
  datatype PxVal = PxVal(freq: u64, count: u64, residency: u64)

  /** What the library writes into struct xc_px_stat: the number of
      frequency states and their pt entries. */
  datatype PxCounters = PxCounters(total: nat, pt: seq<PxVal>)

  /** A statistics struct (xc_cx_stat or xc_px_stat): the two buffers the
      caller allocates for the library (triggers and residencies, or
      trans_pt and pt) and the counters the library fills in. */
  datatype Snapshot<C> = Snapshot(first: Ptr, second: Ptr, counters: C)

  type CxStat = Snapshot<CxCounters>
  type PxStat = Snapshot<PxCounters>

  /** A struct as memset(0) leaves it. */
  const ZeroCx: CxStat := Snapshot(Null, Null, CxCounters(0, [], []))
  const ZeroPx: PxStat := Snapshot(Null, Null, PxCounters(0, []))

  /** A command-line word together with what sscanf("%d") makes of it. */
  datatype Arg = Arg(text: string, asInt: Option<int>)

  /** The CPU ids 0, 1, ..., n - 1 in increasing order. */
  function Range(n: nat): (r: seq<int>)
    ensures |r| == n
    ensures forall i :: 0 <= i < n ==> r[i] == i
  {
    if n == 0 then [] else Range(n - 1) + [n - 1]
  }
}
