/**
 The typed codec on top of the byte buffer, as functions on flat byte
 sequences: fixed-width integers in either byte order, base-128 varints,
 zigzag, and length-prefixed strings.
*/
module Codec {
  import opened ByteArrays
  import opened Wrappers

  datatype Endian = Little | Big

  // ----- powers of two ------------------------------------------------------

  function Pow2(n: nat): (p: nat)
    ensures 0 < p
  {
    if n == 0 then 1 else 2 * Pow2(n - 1)
  }

  lemma {:induction false} Pow2Add(a: nat, b: nat)
    ensures Pow2(a + b) == Pow2(a) * Pow2(b)
  {
    if a > 0 {
      Pow2Add(a - 1, b);
      assert Pow2(a + b) == 2 * Pow2(a - 1 + b);
      assert 2 * (Pow2(a - 1) * Pow2(b)) == (2 * Pow2(a - 1)) * Pow2(b);
    }
  }

  lemma {:induction false} Pow2Monotone(a: nat, b: nat)
    requires a <= b
    ensures Pow2(a) <= Pow2(b)
    decreases b - a
  {
    if a < b {
      Pow2Monotone(a + 1, b);
    }
  }

  lemma Pow2Values()
    ensures Pow2(7) == 128 && Pow2(8) == 256 && Pow2(16) == 0x1_0000
    ensures Pow2(31) == 0x8000_0000 && Pow2(32) == 0x1_0000_0000
    ensures Pow2(63) == 0x8000_0000_0000_0000 && Pow2(64) == 0x1_0000_0000_0000_0000
  {
    assert Pow2(8) == 256;
    Pow2Add(8, 8);
    Pow2Add(16, 15);
    assert Pow2(15) == 0x8000 by { Pow2Add(8, 7); }
    Pow2Add(16, 16);
    Pow2Add(32, 31);
    Pow2Add(32, 32);
  }

  // ----- fixed width ----------------------------------------------------------

  /** The `w` low-order bytes of `v`, least significant first. */
  function LowBytes(w: nat, v: nat): (b: seq<Byte>)
    ensures |b| == w
  {
    if w == 0 then [] else [v % 256] + LowBytes(w - 1, v / 256)
  }

  function Number(b: seq<Byte>): nat
  {
    if b == [] then 0 else b[0] + 256 * Number(b[1..])
  }

  function Reverse(b: seq<Byte>): (r: seq<Byte>)
    ensures |r| == |b|
  {
    if b == [] then [] else Reverse(b[1..]) + [b[0]]
  }

  /** bswap_16, bswap_32 and bswap_64: the number whose bytes are reversed. */
  function ByteSwap(w: nat, v: nat): nat
  {
    Number(Reverse(LowBytes(w, v)))
  }

  /** A `w`-byte number as it lies in memory on a host of the given byte order. */
  function InMemory(host: Endian, w: nat, v: nat): seq<Byte>
  {
    if host == Little then LowBytes(w, v) else Reverse(LowBytes(w, v))
  }

  function FromMemory(host: Endian, b: seq<Byte>): nat
  {
    if host == Little then Number(b) else Number(Reverse(b))
  }

  /** What writeFuintN puts in the buffer: swapped unless the array's byte order is the host's. */
  function PutFixed(host: Endian, endian: Endian, w: nat, v: nat): (b: seq<Byte>)
  {
    InMemory(host, w, if endian != host then ByteSwap(w, v) else v)
  }

  function GetFixed(host: Endian, endian: Endian, b: seq<Byte>): (v: nat)
  {
    var v := FromMemory(host, b);
    if endian == host then v else ByteSwap(|b|, v)
  }

  lemma {:induction false} NumberOfLowBytes(w: nat, v: nat)
    requires v < Pow2(8 * w)
    ensures Number(LowBytes(w, v)) == v
  {
    if w > 0 {
      Pow2Add(8, 8 * (w - 1));
      Pow2Values();
      NumberOfLowBytes(w - 1, v / 256);
      assert LowBytes(w, v)[1..] == LowBytes(w - 1, v / 256);
    }
  }

  lemma NumberSplit(b: seq<Byte>)
    requires b != []
    ensures Number(b) % 256 == b[0] && Number(b) / 256 == Number(b[1..])
  {
  }

  lemma {:induction false} NumberBound(b: seq<Byte>)
    ensures Number(b) < Pow2(8 * |b|)
  {
    if b != [] {
      NumberBound(b[1..]);
      Pow2Add(8, 8 * (|b| - 1));
      assert Pow2(8) == 256 by { Pow2Values(); }
    }
  }

  lemma {:induction false} LowBytesOfNumber(b: seq<Byte>)
    ensures LowBytes(|b|, Number(b)) == b
    ensures Number(b) < Pow2(8 * |b|)
  {
    hide Number, Pow2;
    NumberBound(b);
    if b != [] {
      LowBytesOfNumber(b[1..]);
      NumberSplit(b);
    }
  }

  lemma {:induction false} ReverseSnoc(b: seq<Byte>, x: Byte)
    ensures Reverse(b + [x]) == [x] + Reverse(b)
  {
    if b != [] {
      ReverseSnoc(b[1..], x);
      assert (b + [x])[1..] == b[1..] + [x];
    }
  }

  lemma {:induction false} ReverseTwice(b: seq<Byte>)
    ensures Reverse(Reverse(b)) == b
  {
    if b != [] {
      ReverseTwice(b[1..]);
      ReverseSnoc(Reverse(b[1..]), b[0]);
    }
  }

  /** The bytes written depend on the array's byte order alone: on every host
      they are the number's bytes, least or most significant first. */
  lemma PutFixedIsHostIndependent(host: Endian, endian: Endian, w: nat, v: nat)
    ensures PutFixed(host, endian, w, v) == if endian == Little then LowBytes(w, v) else Reverse(LowBytes(w, v))
  {
    if endian != host {
      var swapped := Reverse(LowBytes(w, v));
      LowBytesOfNumber(swapped);
      ReverseTwice(LowBytes(w, v));
    }
  }

  /** Dividing twice is dividing by the product. */
  lemma DivDiv(v: nat, a: nat, b: nat)
    requires 0 < a && 0 < b
    ensures 0 < a * b && v / a / b == v / (a * b)
  {
    var q, r := v / a, v % a;
    TwoDigits(v, a, b, q, r, q / b, q % b);
  }

  lemma TwoDigits(v: nat, a: nat, b: nat, q: nat, r: nat, p: nat, s: nat)
    requires 0 < a && 0 < b && r < a && s < b && v == a * q + r && q == b * p + s
    ensures 0 < a * b && v / (a * b) == p
  {
    assert a * (b * p + s) == a * (b * p) + a * s;
    assert a * (b * p) == p * (a * b);
    Bounded(a, s, b);
    DivModUnique(v, a * b, p, a * s + r);
  }

  lemma {:induction false} Bounded(a: nat, s: nat, b: nat)
    requires s < b
    ensures a * s + a <= a * b
    decreases b
  {
    assert a * (b - 1) == a * b - a;
    if s + 1 < b {
      Bounded(a, s, b - 1);
    }
  }

  lemma {:induction false} LowByteAt(w: nat, v: nat, i: nat)
    requires i < w
    ensures LowBytes(w, v)[i] == v / Pow2(8 * i) % 256
  {
    if i > 0 {
      LowByteAt(w - 1, v / 256, i - 1);
      Pow2Add(8, 8 * (i - 1));
      Pow2Values();
      DivDiv(v, 256, Pow2(8 * (i - 1)));
    }
  }

  lemma {:induction false} ReverseAt(b: seq<Byte>, i: nat)
    requires i < |b|
    ensures Reverse(b)[i] == b[|b| - 1 - i]
  {
    if i < |b| - 1 {
      ReverseAt(b[1..], i);
    }
  }

  /** Byte by byte, what a fixed-width write puts down: the number's base-256 digits, least
      significant first in a little-endian array and last in a big-endian one. */
  lemma FixedByteAt(host: Endian, endian: Endian, w: nat, v: nat, i: nat)
    requires i < w
    ensures |PutFixed(host, endian, w, v)| == w
    ensures PutFixed(host, endian, w, v)[i] == v / Pow2(8 * (if endian == Little then i else w - 1 - i)) % 256
  {
    hide Pow2;
    PutFixedIsHostIndependent(host, endian, w, v);
    LowByteAt(w, v, if endian == Little then i else w - 1 - i);
    if endian == Big {
      ReverseAt(LowBytes(w, v), i);
    }
  }

  lemma FixedRoundTrip(host: Endian, reader: Endian, endian: Endian, w: nat, v: nat)
    requires v < Pow2(8 * w)
    ensures |PutFixed(host, endian, w, v)| == w
    ensures GetFixed(reader, endian, PutFixed(host, endian, w, v)) == v
  {
    PutFixedIsHostIndependent(host, endian, w, v);
    NumberOfLowBytes(w, v);
    ReverseTwice(LowBytes(w, v));
    if reader != endian {
      var b := PutFixed(host, endian, w, v);
      LowBytesOfNumber(b);
      LowBytesOfNumber(Reverse(b));
    }
  }

  // ----- two's complement -------------------------------------------------------

  /** The `bits`-bit pattern of a signed number, read as unsigned. */
  function Pattern(bits: nat, v: int): (u: nat)
    ensures u < Pow2(bits)
  {
    v % Pow2(bits)
  }

  function Signed(bits: nat, u: nat): int
    requires 0 < bits
  {
    if u < Pow2(bits - 1) then u else u - Pow2(bits)
  }

  predicate InSigned(bits: nat, v: int)
    requires 0 < bits
  {
    -(Pow2(bits - 1) as int) <= v < Pow2(bits - 1)
  }

  lemma SignedOfPattern(bits: nat, v: int)
    requires 0 < bits && InSigned(bits, v)
    ensures Signed(bits, Pattern(bits, v)) == v
  {
    var m := Pow2(bits);
    assert m == 2 * Pow2(bits - 1);
    if v < 0 {
      ModOf(v + m, v, m);
    } else {
      ModOf(v, v, m);
    }
  }

  lemma ModOf(r: int, v: int, m: int)
    requires 0 <= r < m && (v == r || v + m == r)
    ensures v % m == r
  {
    if v != r {
      assert v == -1 * m + r;
    }
  }

  // ----- varint --------------------------------------------------------------

  /** Base-128 groups, least significant first, high bit set on all but the last. */
  function PutVarint(v: nat): (b: seq<Byte>)
    ensures b != []
  {
    if v < 128 then [v] else [v % 128 + 128] + PutVarint(v / 128)
  }

  /** What the reading loop makes of `b` from shift `i` on: the value and the
      number of bytes taken, or nothing when the bytes run out. Shifts stop at
      the word size and high bits that do not fit are dropped. */
  function GetVarint(bits: nat, i: nat, b: seq<Byte>): (r: Option<(nat, nat)>)
    ensures r.Some? ==> r.value.1 <= |b|
    decreases |b|
  {
    if bits <= i then Some((0, 0))
    else if b == [] then None
    else if b[0] < 128 then Some((b[0] * Pow2(i) % Pow2(bits), 1))
    else
      var rest :- GetVarint(bits, i + 7, b[1..]);
      Some((b[0] % 128 * Pow2(i) % Pow2(bits) + rest.0, rest.1 + 1))
  }

  lemma {:induction false} VarintRoundTrip(bits: nat, i: nat, v: nat, rest: seq<Byte>)
    requires i < bits && v * Pow2(i) < Pow2(bits)
    ensures GetVarint(bits, i, PutVarint(v) + rest) == Some((v * Pow2(i), |PutVarint(v)|))
    decreases v
  {
    var b := PutVarint(v) + rest;
    if v < 128 {
      SmallMod(v * Pow2(i), Pow2(bits));
    } else {
      var low, high := v % 128, v / 128;
      GroupSplit(bits, i, v);
      VarintRoundTrip(bits, i + 7, high, rest);
      assert b[0] == low + 128 && b[1..] == PutVarint(high) + rest;
      assert b[0] % 128 == low;
      SmallMod(low * Pow2(i), Pow2(bits));
    }
  }

  lemma VarintFromStart(bits: nat, v: nat, rest: seq<Byte>)
    requires 0 < bits && v < Pow2(bits)
    ensures GetVarint(bits, 0, PutVarint(v) + rest) == Some((v, |PutVarint(v)|))
  {
    VarintRoundTrip(bits, 0, v, rest);
  }

  /** The low group and the rest of a varint, at their shifts. */
  lemma GroupSplit(bits: nat, i: nat, v: nat)
    requires 128 <= v && v * Pow2(i) < Pow2(bits)
    ensures i + 7 < bits
    ensures v * Pow2(i) == v % 128 * Pow2(i) + v / 128 * Pow2(i + 7)
  {
    var low, high := v % 128, v / 128;
    assert v == low + 128 * high && 0 < high;
    assert Pow2(i + 7) == 128 * Pow2(i) by {
      Pow2Add(7, i);
      Pow2Values();
    }
    hide Pow2;
    var p := Pow2(i);
    Distribute(low, high, p);
    AtLeast(high, 128 * p);
    Pow2Order(i + 7, bits);
  }

  lemma Pow2Order(a: nat, b: nat)
    requires Pow2(a) < Pow2(b)
    ensures a < b
  {
    if b <= a {
      Pow2Monotone(b, a);
    }
  }

  lemma Distribute(low: nat, high: nat, p: nat)
    ensures (low + 128 * high) * p == low * p + high * (128 * p)
  {
  }

  lemma AtLeast(k: nat, p: nat)
    requires 0 < k
    ensures p <= k * p
  {
  }

  lemma SmallMod(x: nat, m: nat)
    requires x < m
    ensures x % m == x
  {
  }

  /** A varint cut short before its last group is not read. */
  lemma {:induction false} CutVarint(bits: nat, i: nat, b: seq<Byte>)
    requires i + 7 * |b| < bits && forall j :: 0 <= j < |b| ==> b[j] >= 128
    ensures GetVarint(bits, i, b) == None
    decreases |b|
  {
    if b != [] {
      CutVarint(bits, i + 7, b[1..]);
    }
  }

  /** Byte by byte, a varint is the number's base-128 digits, least significant first; all but
      the last announce another one, and the last is not an idle zero. */
  lemma {:induction false} VarintByteAt(v: nat, i: nat)
    requires i < |PutVarint(v)|
    ensures PutVarint(v)[i] % 128 == v / Pow2(7 * i) % 128
    ensures PutVarint(v)[i] >= 128 <==> i < |PutVarint(v)| - 1
    ensures i > 0 && i == |PutVarint(v)| - 1 ==> PutVarint(v)[i] != 0
  {
    if v >= 128 && i > 0 {
      VarintByteAt(v / 128, i - 1);
      Pow2Add(7, 7 * (i - 1));
      Pow2Values();
      DivDiv(v, 128, Pow2(7 * (i - 1)));
    }
  }

  /** A varint of a `bits`-bit number fits the writer's local buffer of `n` bytes. */
  lemma {:induction false} VarintLength(n: nat, v: nat)
    requires 0 < n && v < Pow2(7 * n)
    ensures |PutVarint(v)| <= n
    decreases n
  {
    if v >= 128 {
      Pow2Values();
      assert n > 1;
      Pow2Add(7, 7 * (n - 1));
      assert v / 128 < Pow2(7 * (n - 1));
      VarintLength(n - 1, v / 128);
    }
  }

  // ----- zigzag ----------------------------------------------------------------

  function ZigzagWide(bits: nat, v: int): nat
  {
    if v < 0 then (Pattern(bits, -v) * 2 - 1) % Pow2(bits) else v * 2 % Pow2(bits)
  }

  lemma ZigzagWideValue(bits: nat, v: int)
    requires 0 < bits && InSigned(bits, v)
    ensures ZigzagWide(bits, v) == if v < 0 then -2 * v - 1 else 2 * v
  {
    var m := Pow2(bits);
    assert m == 2 * Pow2(bits - 1);
    if v < 0 {
      SmallMod(-v, m);
      assert Pattern(bits, -v) == -v;
      SmallMod(-v * 2 - 1, m);
    } else {
      SmallMod(v * 2, m);
    }
  }

  /** EncodeZigzagN: N-bit arithmetic on the magnitude, then the result type's
      width; the 64-bit one returns a 32-bit type as shipped. */
  function PutZigzag(build: Build, bits: nat, v: int): (u: nat)
  {
    var wide := ZigzagWide(bits, v);
    if bits == 64 && build == AsWritten then wide % Pow2(32) else wide
  }

  /** DecodeZigzagN: `u >> 1`, complemented when the low bit is set. */
  function GetZigzag(u: nat): int
  {
    if u % 2 == 0 then u / 2 else -(u / 2) - 1
  }

  /** The inputs on which the zigzag pair is exact. */
  predicate ZigzagExact(build: Build, bits: nat, v: int)
  {
    bits != 64 || build == AsMeant || InSigned(32, v)
  }

  lemma ZigzagRange(build: Build, bits: nat, v: int)
    requires 0 < bits && InSigned(bits, v)
    ensures PutZigzag(build, bits, v) < Pow2(bits)
    ensures PutZigzag(AsMeant, bits, v) == if v < 0 then -2 * v - 1 else 2 * v
  {
    ZigzagWideValue(bits, v);
    assert Pow2(bits) == 2 * Pow2(bits - 1);
    Pow2Values();
  }

  /** Decoding undoes encoding exactly on those inputs. */
  lemma ZigzagRoundTrip(build: Build, bits: nat, v: int)
    requires (bits == 32 || bits == 64) && InSigned(bits, v)
    ensures GetZigzag(PutZigzag(build, bits, v)) == v <==> ZigzagExact(build, bits, v)
  {
    hide Pow2;
    ZigzagRange(build, bits, v);
    Pow2Values();
    var wide := PutZigzag(AsMeant, bits, v);
    if bits == 64 && build == AsWritten {
      if InSigned(32, v) {
        SmallMod(wide, Pow2(32));
      } else {
        assert wide % Pow2(32) != wide;
      }
    }
  }

  /** The smallest value the shipped 64-bit pair loses: 2^31 reads back as 0. */
  lemma ZigzagLoses()
    ensures InSigned(64, 0x8000_0000)
    ensures GetZigzag(PutZigzag(AsWritten, 64, 0x8000_0000)) == 0
  {
    hide Pow2;
    Pow2Values();
    ZigzagWideValue(64, 0x8000_0000);
  }

  // ----- typed values -----------------------------------------------------------

  /** The wire forms: fixed-width integers, varints, zigzag varints, and strings
      behind a fixed-width length of `w` bytes. (The string form named after
      varints writes its length as a fixed 64-bit number.) */
  datatype Kind =
    | Fixed(w: nat, signed: bool)
    | Varint(bits: nat)
    | Zigzag(bits: nat)
    | Text(w: nat)

  datatype Value =
    | Int(kind: Kind, n: int)
    | Str(w: nat, s: seq<Byte>)

  datatype Order = Order(host: Endian, endian: Endian)

  function KindOf(v: Value): Kind
  {
    match v
    case Int(kind, _) => kind
    case Str(w, _) => Text(w)
  }

  /** The value is one its C++ parameter type can hold. */
  predicate Typed(v: Value)
  {
    match v
    case Int(Fixed(w, signed), n) =>
      w in {1, 2, 4, 8} && if signed then InSigned(8 * w, n) else 0 <= n < Pow2(8 * w)
    case Int(Varint(bits), n) => bits in {32, 64} && 0 <= n < Pow2(bits)
    case Int(Zigzag(bits), n) => bits in {32, 64} && InSigned(bits, n)
    case Int(Text(_), _) => false
    case Str(w, _) => w in {2, 4, 8}
  }

  /** The values that survive: zigzag where it is exact, strings whose length fits its field. */
  predicate Survives(build: Build, v: Value)
  {
    match v
    case Int(Zigzag(bits), n) => ZigzagExact(build, bits, n)
    case Str(w, s) => |s| < Pow2(8 * w)
    case _ => true
  }

  /** The calls to `write` that a typed write makes, in order. */
  function Chunks(build: Build, order: Order, v: Value): seq<seq<Byte>>
    requires Typed(v)
  {
    match v
    case Int(Fixed(w, _), n) => [PutFixed(order.host, order.endian, w, Pattern(8 * w, n))]
    case Int(Varint(_), n) => [PutVarint(n)]
    case Int(Zigzag(bits), n) => [PutVarint(PutZigzag(build, bits, n))]
    case Str(w, s) => [PutFixed(order.host, order.endian, w, Pattern(8 * w, |s|)), s]
  }

  function Encode(build: Build, order: Order, v: Value): seq<Byte>
    requires Typed(v)
  {
    Joined(Chunks(build, order, v))
  }

  function Joined(chunks: seq<seq<Byte>>): seq<Byte>
  {
    if chunks == [] then [] else chunks[0] + Joined(chunks[1..])
  }

  /** Reads one value of the given kind: the value and the number of bytes taken. */
  function Decode(order: Order, kind: Kind, b: seq<Byte>): (r: Option<(Value, nat)>)
    requires kind.Fixed? ==> 0 < kind.w
    ensures r.Some? ==> r.value.1 <= |b|
  {
    match kind
    case Fixed(w, signed) =>
      if |b| < w then None else
      var u := GetFixed(order.host, order.endian, b[..w]);
      Some((Int(kind, if signed then Signed(8 * w, u) else u), w))
    case Varint(bits) =>
      var r :- GetVarint(bits, 0, b);
      Some((Int(kind, r.0), r.1))
    case Zigzag(bits) =>
      var r :- GetVarint(bits, 0, b);
      Some((Int(kind, GetZigzag(r.0)), r.1))
    case Text(w) =>
      if |b| < w then None else
      var len := GetFixed(order.host, order.endian, b[..w]);
      if |b| < w + len then None else Some((Str(w, b[w..w + len]), w + len))
  }

  lemma EncodeOne(build: Build, order: Order, v: Value)
    requires Typed(v) && v.Int?
    ensures |Chunks(build, order, v)| == 1 && Encode(build, order, v) == Chunks(build, order, v)[0]
  {
    hide PutFixed, PutVarint, PutZigzag, Pattern;
    var c := Chunks(build, order, v)[0];
    assert Joined([c]) == c;
  }

  lemma EncodeString(build: Build, order: Order, w: nat, s: seq<Byte>)
    requires Typed(Str(w, s))
    ensures Encode(build, order, Str(w, s)) == PutFixed(order.host, order.endian, w, Pattern(8 * w, |s|)) + s
  {
    var c := Chunks(build, order, Str(w, s));
    assert c[1..] == [s];
    assert Joined([s]) == s;
  }

  /** Whatever follows it, a written value reads back as itself, and takes exactly
      its own bytes, if and only if it is one that survives. */
  lemma RoundTrip(build: Build, order: Order, v: Value, rest: seq<Byte>)
    requires Typed(v)
    ensures Survives(build, v)
       <==> Decode(order, KindOf(v), Encode(build, order, v) + rest) == Some((v, |Encode(build, order, v)|))
  {
    match v
    case Int(Fixed(w, signed), n) => RoundTripFixed(build, order, w, signed, n, rest);
    case Int(Varint(bits), n) => RoundTripVarint(build, order, bits, n, rest);
    case Int(Zigzag(bits), n) => RoundTripZigzag(build, order, bits, n, rest);
    case Str(w, s) => RoundTripString(build, order, w, s, rest);
  }

  lemma RoundTripFixed(build: Build, order: Order, w: nat, signed: bool, n: int, rest: seq<Byte>)
    requires Typed(Int(Fixed(w, signed), n))
    ensures Decode(order, Fixed(w, signed), Encode(build, order, Int(Fixed(w, signed), n)) + rest) == Some((Int(Fixed(w, signed), n), w))
    ensures |Encode(build, order, Int(Fixed(w, signed), n))| == w
  {
    var v := Int(Fixed(w, signed), n);
    EncodeOne(build, order, v);
    var u := Pattern(8 * w, n);
    FixedRoundTrip(order.host, order.host, order.endian, w, u);
    assert (Encode(build, order, v) + rest)[..w] == Encode(build, order, v);
    if signed {
      SignedOfPattern(8 * w, n);
    } else {
      SmallMod(n, Pow2(8 * w));
    }
  }

  lemma RoundTripVarint(build: Build, order: Order, bits: nat, n: int, rest: seq<Byte>)
    requires Typed(Int(Varint(bits), n))
    ensures Decode(order, Varint(bits), Encode(build, order, Int(Varint(bits), n)) + rest)
         == Some((Int(Varint(bits), n), |Encode(build, order, Int(Varint(bits), n))|))
  {
    hide PutVarint, GetVarint, Pow2, Encode;
    EncodeOne(build, order, Int(Varint(bits), n));
    VarintFromStart(bits, n, rest);
  }

  lemma RoundTripZigzag(build: Build, order: Order, bits: nat, n: int, rest: seq<Byte>)
    requires Typed(Int(Zigzag(bits), n))
    ensures ZigzagExact(build, bits, n)
       <==> Decode(order, Zigzag(bits), Encode(build, order, Int(Zigzag(bits), n)) + rest)
              == Some((Int(Zigzag(bits), n), |Encode(build, order, Int(Zigzag(bits), n))|))
  {
    hide PutZigzag, GetZigzag, PutVarint, GetVarint, Pow2, Encode;
    EncodeOne(build, order, Int(Zigzag(bits), n));
    ZigzagRange(build, bits, n);
    ZigzagRoundTrip(build, bits, n);
    VarintFromStart(bits, PutZigzag(build, bits, n), rest);
  }

  lemma RoundTripString(build: Build, order: Order, w: nat, s: seq<Byte>, rest: seq<Byte>)
    requires Typed(Str(w, s))
    ensures |s| < Pow2(8 * w)
       <==> Decode(order, Text(w), Encode(build, order, Str(w, s)) + rest) == Some((Str(w, s), |Encode(build, order, Str(w, s))|))
  {
    hide PutFixed, GetFixed, Pow2, Encode;
    EncodeString(build, order, w, s);
    var len := Pattern(8 * w, |s|);
    var head := PutFixed(order.host, order.endian, w, len);
    FixedRoundTrip(order.host, order.host, order.endian, w, len);
    var b := Encode(build, order, Str(w, s)) + rest;
    assert b[..w] == head && b[w..] == s + rest;
    if |s| < Pow2(8 * w) {
      SmallMod(|s|, Pow2(8 * w));
      assert b[w..w + len] == s;
    }
  }

  // ----- lists of values ----------------------------------------------------------

  predicate AllSurvive(build: Build, vs: seq<Value>)
  {
    forall i :: 0 <= i < |vs| ==> Typed(vs[i]) && Survives(build, vs[i])
  }

  function EncodeAll(build: Build, order: Order, vs: seq<Value>): seq<Byte>
    requires forall i :: 0 <= i < |vs| ==> Typed(vs[i])
  {
    if vs == [] then [] else Encode(build, order, vs[0]) + EncodeAll(build, order, vs[1..])
  }

  function DecodeAll(order: Order, kinds: seq<Kind>, b: seq<Byte>): (r: Option<(seq<Value>, nat)>)
    requires forall i :: 0 <= i < |kinds| && kinds[i].Fixed? ==> 0 < kinds[i].w
    ensures r.Some? ==> r.value.1 <= |b|
  {
    if kinds == [] then Some(([], 0))
    else
      var first :- Decode(order, kinds[0], b);
      var others :- DecodeAll(order, kinds[1..], b[first.1..]);
      Some(([first.0] + others.0, first.1 + others.1))
  }

  function KindsOf(vs: seq<Value>): (kinds: seq<Kind>)
    ensures |kinds| == |vs|
    ensures forall i :: 0 <= i < |vs| ==> kinds[i] == KindOf(vs[i])
  {
    if vs == [] then [] else [KindOf(vs[0])] + KindsOf(vs[1..])
  }

  /** Any list of typed values that survive, written in order, is read back whole
      by the same kinds and byte order, and nothing of what follows is touched. */
  lemma {:induction false} RoundTripAll(build: Build, order: Order, vs: seq<Value>, rest: seq<Byte>)
    requires AllSurvive(build, vs)
    ensures DecodeAll(order, KindsOf(vs), EncodeAll(build, order, vs) + rest) == Some((vs, |EncodeAll(build, order, vs)|))
  {
    hide Encode, Decode, Typed, Survives, Pow2;
    if vs != [] {
      var first := Encode(build, order, vs[0]);
      var others := EncodeAll(build, order, vs[1..]);
      RoundTrip(build, order, vs[0], others + rest);
      assert EncodeAll(build, order, vs) + rest == first + (others + rest);
      assert (first + (others + rest))[|first|..] == others + rest;
      RoundTripAll(build, order, vs[1..], rest);
      assert KindsOf(vs)[1..] == KindsOf(vs[1..]);
      assert [vs[0]] + vs[1..] == vs;
    }
  }
}
