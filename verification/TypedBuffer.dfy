/**
 The typed reads and writes of the byte buffer, and the round trip through it.
*/
module TypedBuffers {
  import opened ByteArrays
  import opened Wrappers
  import opened Codec
  import opened BlockFits

  // ----- the varint loops -----------------------------------------------------

  /** The writer's loop: groups go into a local buffer of `n` bytes, which they never overrun. */
  method FillVarint(value: nat, n: nat) returns (tmp: array<Byte>, i: nat)
    requires 0 < n && value < Pow2(7 * n)
    ensures fresh(tmp) && i <= tmp.Length == n && tmp[..i] == PutVarint(value)
  {
    hide PutVarint, Pow2, Continued, Higher;
    VarintLength(n, value);
    tmp := new Byte[n];
    i := 0;
    var v := value;
    ghost var done: seq<Byte> := [];
    while v >= 128
      invariant i == |done| && i + |PutVarint(v)| <= n
      invariant forall k :: 0 <= k < i ==> tmp[k] == done[k]
      invariant done + PutVarint(v) == PutVarint(value)
      decreases v
    {
      VarintStep(v);
      Regroup(done, Continued(v), PutVarint(Higher(v)));
      done := done + [Continued(v)];
      tmp[i] := Continued(v);
      i := i + 1;
      v := Higher(v);
    }
    VarintStep(v);
    tmp[i] := v;
    i := i + 1;
    assert tmp[..i] == done + [v];
  }

  lemma Regroup(a: seq<Byte>, x: Byte, b: seq<Byte>)
    ensures a + ([x] + b) == (a + [x]) + b
  {
  }

  /** The low group with the bit that announces more. */
  function Continued(v: nat): Byte { v % 128 + 128 }

  /** The groups above it. */
  function Higher(v: nat): nat { v / 128 }

  /** One group of a varint and the rest. */
  lemma VarintStep(v: nat)
    ensures PutVarint(v) == if v < 128 then [v] else [Continued(v)] + PutVarint(Higher(v))
    ensures v >= 128 ==> Higher(v) < v
  {
  }

  /** The reader's loop: one byte per shift until a byte without the high bit, at
      most until the word is full. */
  method ReadVarint(b: ByteArray, bits: nat) returns (r: Outcome, value: nat)
    requires b.Valid()
    modifies b`position, b`current, b`cursor
    ensures b.Valid()
    ensures var d := GetVarint(bits, 0, old(b.Contents())[old(b.position)..]);
            match d
            case Some(got) => r == Done && value == got.0 && b.position == old(b.position) + got.1
            case None => r == OutOfRange
  {
    hide Pow2, Flatten, Start, GetVarint, Worth, Continues, ReadOutcome;
    value := 0;
    var i := 0;
    ghost var text := b.Contents();
    ghost var start := b.position;
    ghost var whole := GetVarint(bits, 0, text[start..]);
    NothingRead(whole);
    while i < bits
      invariant b.Valid() && b.Contents() == text && start <= b.position <= |text|
      invariant Continues(whole, GetVarint(bits, i, text[b.position..]), value, b.position - start)
      decreases bits - i
    {
      OneByteRead(b);
      ghost var rest := text[b.position..];
      GroupContinues(whole, bits, i, rest, value, b.position - start);
      var chunk;
      r, chunk := b.Read(1);
      if r != Done {
        assert rest == [];
        return OutOfRange, value;
      }
      assert rest[0] == chunk[0] && rest[1..] == text[b.position..];
      value := value + Worth(bits, i, chunk[0]);
      if chunk[0] < 128 {
        return Done, value;
      }
      i := i + 7;
    }
    GroupContinues(whole, bits, i, text[b.position..], value, b.position - start);
    r := Done;
  }

  lemma NothingRead(whole: Option<(nat, nat)>)
    ensures Continues(whole, whole, 0, 0)
  {
  }

  /** What the next byte makes of the loop so far. */
  lemma GroupContinues(whole: Option<(nat, nat)>, bits: nat, i: nat, rest: seq<Byte>, value: nat, n: nat)
    requires Continues(whole, GetVarint(bits, i, rest), value, n)
    ensures bits <= i ==> whole == Some((value, n))
    ensures i < bits && rest == [] ==> whole == None
    ensures i < bits && rest != [] && rest[0] < 128 ==> whole == Some((value + Worth(bits, i, rest[0]), n + 1))
    ensures i < bits && rest != [] && rest[0] >= 128 ==>
              Continues(whole, GetVarint(bits, i + 7, rest[1..]), value + Worth(bits, i, rest[0]), n + 1)
  {
    hide GetVarint, Worth;
    GroupRead(bits, i, rest);
  }

  /** What a byte's group adds at shift `i`, in a word of `bits` bits. */
  function Worth(bits: nat, i: nat, c: Byte): nat { c % 128 * Pow2(i) % Pow2(bits) }

  /** One group of what is to be read, and the rest. */
  lemma GroupRead(bits: nat, i: nat, b: seq<Byte>)
    ensures bits <= i ==> GetVarint(bits, i, b) == Some((0, 0))
    ensures i < bits && b == [] ==> GetVarint(bits, i, b) == None
    ensures i < bits && b != [] && b[0] < 128 ==> GetVarint(bits, i, b) == Some((Worth(bits, i, b[0]), 1))
    ensures i < bits && b != [] && b[0] >= 128 ==>
      var rest := GetVarint(bits, i + 7, b[1..]);
      GetVarint(bits, i, b) == if rest.None? then None else Some((Worth(bits, i, b[0]) + rest.value.0, rest.value.1 + 1))
  {
    hide Pow2;
  }

  /** The loop so far has taken `n` bytes worth `value` and `rest` is still to come. */
  ghost predicate Continues(whole: Option<(nat, nat)>, rest: Option<(nat, nat)>, value: nat, n: nat)
  {
    match rest
    case None => whole.None?
    case Some(got) => whole == Some((value + got.0, n + got.1))
  }

  /** A one-byte read never leaves its block. */
  lemma OneByteRead(b: ByteArray)
    requires b.Valid()
    ensures ReadOutcome(b.build, b.baseSize, b.position, b.size, b.capacity, 1) == if b.position < b.size then Done else OutOfRange
  {
    assert b.position % b.baseSize < b.baseSize;
  }

  // ----- one typed value --------------------------------------------------------

  ghost predicate Ordered(b: ByteArray, order: Order)
    reads b
  {
    b.littleEndian == (order.endian == Little)
  }

  /** Writes the chunks one after the other. */
  method WriteChunks(b: ByteArray, chunks: seq<seq<Byte>>) returns (r: Outcome)
    requires b.Valid()
    modifies b.view.repr
    ensures r == if old(WritesClear(b.build, b.baseSize, b.Room(), chunks)) then Done else Undefined
    ensures r.Done? ==> b.Valid() && b.Extends(old(b.view)) && b.littleEndian == old(b.littleEndian)
    ensures r.Done? ==> b.position == old(b.position) + |Joined(chunks)|
    ensures r.Done? ==> b.Room() == RoomAfterAll(b.build, b.baseSize, old(b.Room()), chunks)
    ensures r.Done? ==> b.Contents() == Overlay(old(b.Contents()), old(b.position), Joined(chunks))
    decreases |chunks|
  {
    hide Overlay, GrowsEnough, Growth, Flatten, Start;
    if chunks == [] {
      OverlayNothing(b.Contents(), b.position);
      return Done;
    }
    r := b.Write(chunks[0]);
    if r != Done {
      return;
    }
    ghost var middle := b.Contents();
    r := WriteChunks(b, chunks[1..]);
    if r == Done {
      OverlayTwice(old(b.Contents()), old(b.position), chunks[0], Joined(chunks[1..]));
    }
  }

  lemma OverlayNothing(flat: seq<Byte>, at: nat)
    requires at <= |flat|
    ensures Overlay(flat, at, []) == flat
  {
  }

  lemma OverlayTwice(flat: seq<Byte>, at: nat, a: seq<Byte>, b: seq<Byte>)
    requires at <= |flat|
    ensures Overlay(Overlay(flat, at, a), at + |a|, b) == Overlay(flat, at, a + b)
  {
  }

  /** The typed writes. */
  method WriteValue(b: ByteArray, order: Order, v: Value) returns (r: Outcome)
    requires b.Valid() && Ordered(b, order) && Typed(v)
    modifies b.view.repr
    ensures r == if old(WritesClear(b.build, b.baseSize, b.Room(), Chunks(b.build, order, v))) then Done else Undefined
    ensures r.Done? ==> b.Valid() && b.Extends(old(b.view)) && Ordered(b, order)
    ensures r.Done? ==> b.position == old(b.position) + |Encode(b.build, order, v)|
    ensures r.Done? ==> b.Room() == RoomAfterAll(b.build, b.baseSize, old(b.Room()), Chunks(b.build, order, v))
    ensures r.Done? ==> b.Contents() == Overlay(old(b.Contents()), old(b.position), Encode(b.build, order, v))
  {
    hide Chunks;
    var chunks := Prepare(b.build, order, v);
    r := WriteChunks(b, chunks);
  }

  /** The buffers handed to `write`; varints are filled by the loop. */
  method Prepare(build: Build, order: Order, v: Value) returns (chunks: seq<seq<Byte>>)
    requires Typed(v)
    ensures chunks == Chunks(build, order, v)
  {
    hide PutFixed, PutVarint, PutZigzag, Pattern, ZigzagExact;
    match v
    case Int(Varint(bits), n) =>
      VarintBound(bits, n);
      var tmp, i := FillVarint(n, if bits == 32 then 5 else 10);
      chunks := [tmp[..i]];
    case Int(Zigzag(bits), n) =>
      var u := PutZigzag(build, bits, n);
      ZigzagRange(build, bits, n);
      VarintBound(bits, u);
      var tmp, i := FillVarint(u, if bits == 32 then 5 else 10);
      chunks := [tmp[..i]];
    case _ =>
      chunks := Chunks(build, order, v);
  }

  /** 5 and 10 groups of 7 bits hold every 32-bit and 64-bit number. */
  lemma VarintBound(bits: nat, n: nat)
    requires bits in {32, 64} && n < Pow2(bits)
    ensures n < Pow2(7 * if bits == 32 then 5 else 10)
  {
    Pow2Monotone(bits, 7 * if bits == 32 then 5 else 10);
  }

  /** The typed reads. */
  method ReadValue(b: ByteArray, order: Order, kind: Kind) returns (r: Outcome, v: Value)
    requires b.Valid() && Ordered(b, order) && (kind.Fixed? ==> 0 < kind.w)
    modifies b`position, b`current, b`cursor
    ensures r == ReadValueOutcome(b.build, order, b.baseSize, b.capacity, b.Contents(), old(b.position), kind)
    ensures r.Done? ==> b.Valid() && old(b.position) <= b.position
    ensures r.Done? ==> Decode(order, kind, b.Contents()[old(b.position)..]) == Some((v, b.position - old(b.position)))
  {
    match kind
    case Fixed(w, signed) =>
      r, v := ReadFixed(b, order, w, signed);
    case Text(w) =>
      r, v := ReadText(b, order, w);
    case Varint(bits) =>
      var u;
      r, u := ReadVarint(b, bits);
      v := Int(kind, u);
    case Zigzag(bits) =>
      var u;
      r, u := ReadVarint(b, bits);
      v := Int(kind, GetZigzag(u));
  }

  method ReadFixed(b: ByteArray, order: Order, w: nat, signed: bool) returns (r: Outcome, v: Value)
    requires b.Valid() && 0 < w
    modifies b`position, b`current, b`cursor
    ensures r == ReadOutcome(b.build, b.baseSize, old(b.position), b.size, b.capacity, w)
    ensures r.Done? ==> b.Valid() && b.position == old(b.position) + w
    ensures r.Done? ==> Decode(order, Fixed(w, signed), b.Contents()[old(b.position)..]) == Some((v, w))
  {
    hide GetFixed, Signed;
    var buf;
    r, buf := b.Read(w);
    var u := GetFixed(order.host, order.endian, buf);
    v := Int(Fixed(w, signed), if signed then Signed(8 * w, u) else u);
    assert r == Done ==> b.Contents()[old(b.position)..][..w] == buf;
  }

  method ReadText(b: ByteArray, order: Order, w: nat) returns (r: Outcome, v: Value)
    requires b.Valid()
    modifies b`position, b`current, b`cursor
    ensures r == ReadValueOutcome(b.build, order, b.baseSize, b.capacity, b.Contents(), old(b.position), Text(w))
    ensures r.Done? ==> b.Valid() && old(b.position) <= b.position
    ensures r.Done? ==> Decode(order, Text(w), b.Contents()[old(b.position)..]) == Some((v, b.position - old(b.position)))
  {
    hide GetFixed, Flatten, Start, Pow2, Decode, ReadOutcome;
    v := Str(w, []);
    ghost var text, p := b.Contents(), b.position;
    var buf;
    r, buf := b.Read(w);
    if r != Done {
      return;
    }
    var len := GetFixed(order.host, order.endian, buf);
    var chars;
    r, chars := b.Read(len);
    v := Str(w, chars);
    if r == Done {
      DecodedText(order, w, text, p, len);
    }
  }

  lemma DecodedText(order: Order, w: nat, text: seq<Byte>, p: nat, len: nat)
    requires p + w + len <= |text| && len == GetFixed(order.host, order.endian, text[p..p + w])
    ensures Decode(order, Text(w), text[p..]) == Some((Str(w, text[p + w..p + w + len]), w + len))
  {
    hide GetFixed;
    assert text[p..][..w] == text[p..p + w] && text[p..][w..w + len] == text[p + w..p + w + len];
  }

  // ----- the round trip through the buffer -----------------------------------------

  method WriteAll(b: ByteArray, order: Order, vs: seq<Value>) returns (r: Outcome)
    requires b.Valid() && Ordered(b, order) && b.position == b.size
    requires forall i :: 0 <= i < |vs| ==> Typed(vs[i])
    modifies b.view.repr
    ensures r == if old(ListWritesClear(b.build, order, b.baseSize, b.Room(), vs)) then Done else Undefined
    ensures r.Done? ==> b.Valid() && b.Extends(old(b.view)) && Ordered(b, order) && b.position == b.size
    ensures r.Done? ==> b.Contents() == old(b.Contents()) + EncodeAll(b.build, order, vs)
    ensures r.Done? ==> b.Room() == RoomAfterList(b.build, order, b.baseSize, old(b.Room()), vs)
    decreases |vs|
  {
    hide Encode, Chunks;
    if vs == [] {
      return Done;
    }
    r := WriteValue(b, order, vs[0]);
    if r != Done {
      return;
    }
    assert b.Contents() == old(b.Contents()) + Encode(b.build, order, vs[0]);
    r := WriteAll(b, order, vs[1..]);
  }

  lemma KindReadable(v: Value)
    requires Typed(v)
    ensures KindOf(v).Fixed? ==> 0 < KindOf(v).w
  {
  }

  method ReadAll(b: ByteArray, order: Order, ghost vs: seq<Value>, kinds: seq<Kind>) returns (r: Outcome, back: seq<Value>)
    requires b.Valid() && Ordered(b, order) && AllSurvive(b.build, vs) && kinds == KindsOf(vs)
    requires b.Contents()[b.position..] == EncodeAll(b.build, order, vs)
    modifies b`position, b`current, b`cursor
    ensures r.Done? <==> ListReadsClear(b.build, order, b.baseSize, b.capacity, b.Contents(), old(b.position), vs)
    ensures r.Done? ==> b.Valid() && back == vs && b.position == b.size
    decreases |kinds|
  {
    hide Encode, Decode, Typed, Survives, Pow2, Start, Flatten, ReadValueOutcome;
    if kinds == [] {
      return Done, [];
    }
    ghost var first, others := Encode(b.build, order, vs[0]), EncodeAll(b.build, order, vs[1..]);
    RoundTrip(b.build, order, vs[0], others);
    KindReadable(vs[0]);
    ghost var text, p := b.Contents(), b.position;
    var v;
    r, v := ReadValue(b, order, kinds[0]);
    if r != Done {
      return r, [];
    }
    assert text[b.position..] == text[p..][|first|..] == others;
    r, back := ReadAll(b, order, vs[1..], kinds[1..]);
    back := [v] + back;
  }

  /** Writing a list of values into a new buffer, rewinding and reading them back
      returns the same list and leaves nothing to read. As meant this never
      fails, for any block size; as shipped it succeeds if and only if the values fit
      the blocks where they stand. */
  method WriteRewindRead(build: Build, base: nat, order: Order, vs: seq<Value>) returns (r: Outcome, back: seq<Value>, left: nat)
    requires 0 < base && AllSurvive(build, vs)
    ensures r == Done ==> back == vs && left == 0
    ensures r == Done <==> build == AsMeant || Fits(order, base, vs)
  {
    hide EncodeAll, ListWritesClear, ListReadsClear, RoomAfterList, Typed, Survives, Pow2, Start, Flatten, WritesFit, ReadsFit;
    back, left := [], 0;
    if build == AsMeant {
      MeantRoundTripClear(order, base, vs);
    } else {
      FitsExactly(order, base, vs);
    }
    var b := NewBuffer(build, base, order);
    r := WriteAll(b, order, vs);
    if r != Done {
      return;
    }
    assert b.Contents() == EncodeAll(build, order, vs);
    ghost var capacity := b.capacity;
    r, back, left := RewindRead(b, order, vs);
    ReadsDecided(build, order, base, capacity, vs);
  }

  method NewBuffer(build: Build, base: nat, order: Order) returns (b: ByteArray)
    requires 0 < base
    ensures fresh(b) && b.Valid() && fresh(b.view.repr) && Ordered(b, order) && b.build == build && b.baseSize == base
    ensures b.position == b.size == 0 && b.Room() == base && b.Contents() == []
  {
    b := new ByteArray(build, base);
    b.littleEndian := order.endian == Little;
  }

  /** Rewinding a buffer that holds the list and reading it: as shipped, if and only if every
      value can be read where it stands. */
  method RewindRead(b: ByteArray, order: Order, vs: seq<Value>) returns (r: Outcome, back: seq<Value>, left: nat)
    requires b.Valid() && Ordered(b, order) && AllSurvive(b.build, vs)
    requires b.Contents() == EncodeAll(b.build, order, vs)
    modifies b`position, b`size, b`current, b`cursor
    ensures r == Done ==> back == vs && left == 0
    ensures r == Done <==> b.build == AsMeant || ReadsFit(b.build, order, b.baseSize, b.capacity, 0, vs)
  {
    hide ListReadsClear, ReadsFit;
    left := 0;
    b.ShapeUniform();
    StartMonotone(b.baseSize, 1, |b.view.nodes|);
    ReadsDecided(b.build, order, b.baseSize, b.capacity, vs);
    r := b.SetPosition(0);
    assert b.Contents()[0..] == EncodeAll(b.build, order, vs);
    r, back := ReadAll(b, order, vs, KindsOf(vs));
    if r == Done {
      left := b.ReadSize();
    }
  }

  lemma ReadsDecided(build: Build, order: Order, base: nat, capacity: nat, vs: seq<Value>)
    requires 0 < base && AllSurvive(build, vs) && |EncodeAll(build, order, vs)| <= capacity
    ensures ListReadsClear(build, order, base, capacity, EncodeAll(build, order, vs), 0, vs)
            <==> build == AsMeant || ReadsFit(build, order, base, capacity, 0, vs)
  {
    var text := EncodeAll(build, order, vs);
    assert text[0..] == text;
    if build == AsMeant {
      MeantReadsClear(order, base, capacity, text, 0, vs);
    } else {
      ListReads(order, base, capacity, text, 0, vs);
    }
  }

  /** A shipped buffer of the default block size loses a two-byte write when one
      byte of room is left: the count adds no block and the copy runs off the list. */
  lemma ShippedGrowthFails()
    ensures !GrowsEnough(AsWritten, 4096, 1, 2) && BlocksAdded(AsWritten, 4096, 1, 1) == 0
  {
  }
}
