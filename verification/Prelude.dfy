// Shared vocabulary: bytes, optional values and the big-endian integers of the wire format.

module Prelude {
  /** A byte.  A Rust `String` is modelled as the bytes of its UTF-8 encoding. */
  type byte = x: int | 0 <= x < 256
  type bytes = seq<byte>

  datatype Option<+T> = None | Some(value: T)

  function Min(a: int, b: int): int {
    if a < b then a else b
  }
}

/** What it means to pick some elements of a sequence, in their order. */
module Picking {
  /** `picked` are the elements of `all` that `keep` holds of, and `at` is where they are. */
  predicate Picks<T(==)>(all: seq<T>, keep: T -> bool, at: seq<nat>, picked: seq<T>) {
    && |picked| == |at|
    && (forall k :: 0 <= k < |at| ==> at[k] < |all| && picked[k] == all[at[k]])
    && (forall k, l :: 0 <= k < l < |at| ==> at[k] < at[l])
    && (forall i :: 0 <= i < |all| ==> (i in at <==> keep(all[i])))
  }

  lemma PicksNothing<T>(keep: T -> bool)
    ensures Picks([], keep, [], [])
  {
  }

  lemma PicksOneMore<T>(all: seq<T>, keep: T -> bool, x: T, at: seq<nat>, picked: seq<T>)
    requires Picks(all, keep, at, picked)
    ensures if keep(x) then Picks(all + [x], keep, at + [|all|], picked + [x]) else Picks(all + [x], keep, at, picked)
  {
    var more := all + [x];
    assert forall i :: 0 <= i < |all| ==> more[i] == all[i];
    assert more[|all|] == x;
    assert |all| !in at;
    if keep(x) {
      var longer := at + [|all|];
      forall i | 0 <= i < |more|
        ensures i in longer <==> keep(more[i])
      {
        assert i in longer <==> i in at || i == |all|;
      }
    }
  }
}

module BigEndian {
  import opened Prelude

  const TWO_31: int := 0x8000_0000
  const TWO_32: int := 0x1_0000_0000

  /** `n as i32`: keep the low 32 bits and read them as two's complement. */
  function ToI32(n: int): int {
    var u := n % TWO_32;
    if u < TWO_31 then u else u - TWO_32
  }

  /** `(n as i32).to_be_bytes()` */
  function Be32(n: int): (b: bytes)
    ensures |b| == 4
  {
    var u := n % TWO_32;
    var q1 := u / 256;
    var q2 := q1 / 256;
    [q2 / 256, q2 % 256, q1 % 256, u % 256]
  }

  /** `i32::from_be_bytes(b)` */
  function FromBe32(b: bytes): (n: int)
    requires |b| == 4
    ensures -TWO_31 <= n < TWO_31
  {
    ToI32(Horner(b[0], b[1], b[2], b[3]))
  }

  function Horner(b0: int, b1: int, b2: int, b3: int): int {
    ((b0 * 256 + b1) * 256 + b2) * 256 + b3
  }

  /** Printing keeps exactly the value that the truncating cast keeps. */
  lemma Be32RoundTrip(n: int)
    ensures FromBe32(Be32(n)) == ToI32(n)
    ensures -TWO_31 <= n < TWO_31 ==> FromBe32(Be32(n)) == n
  {
    var u := n % TWO_32;
    var q1 := u / 256;
    var q2 := q1 / 256;
    assert Horner(q2 / 256, q2 % 256, q1 % 256, u % 256) == u;
  }

  lemma FromBe32RoundTrip(b: bytes)
    requires |b| == 4
    ensures Be32(FromBe32(b)) == b
  {
    var v2: int := b[0] as int * 256 + b[1];
    var v1: int := v2 * 256 + b[2];
    var v: int := v1 * 256 + b[3];
    assert v / 256 == v1 && v % 256 == b[3];
    assert v1 / 256 == v2 && v1 % 256 == b[2];
    assert v2 / 256 == b[0] && v2 % 256 == b[1];
    assert FromBe32(b) % TWO_32 == v;
  }

  /** `u16::from_be_bytes` */
  function FromBe16(b0: byte, b1: byte): (n: nat)
    ensures n < 65536
  {
    b0 as int * 256 + b1
  }

  function Be16(n: nat): (b: bytes)
    requires n < 65536
    ensures |b| == 2 && FromBe16(b[0], b[1]) == n
  {
    [n / 256, n % 256]
  }
}
