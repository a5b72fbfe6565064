/**
 When the typed writes and reads of a list succeed: call by call, and for the
 shipped buffer by the offsets and lengths of the values alone.
*/
module BlockFits {
  import opened ByteArrays
  import opened Codec

  // ----- call by call ---------------------------------------------------------------------

  /** Whether each of the writes finds the list long enough, and the room left after them. */
  ghost predicate WritesClear(build: Build, base: nat, room: nat, chunks: seq<seq<Byte>>)
    requires 0 < base
    decreases |chunks|
  {
    chunks == [] ||
    (GrowsEnough(build, base, room, |chunks[0]|)
     && WritesClear(build, base, RoomAfter(build, base, room, |chunks[0]|), chunks[1..]))
  }

  ghost function RoomAfter(build: Build, base: nat, room: nat, n: nat): nat
    requires 0 < base
  {
    var grown := room + Growth(build, base, room, n);
    if n <= grown then grown - n else 0
  }

  ghost function RoomAfterAll(build: Build, base: nat, room: nat, chunks: seq<seq<Byte>>): nat
    requires 0 < base
    decreases |chunks|
  {
    if chunks == [] then room
    else RoomAfterAll(build, base, RoomAfter(build, base, room, |chunks[0]|), chunks[1..])
  }

  /** How a typed read ends. */
  ghost function ReadValueOutcome(build: Build, order: Order, base: nat, capacity: nat, text: seq<Byte>, position: nat, kind: Kind): Outcome
    requires 0 < base && position <= |text| && (kind.Fixed? ==> 0 < kind.w)
  {
    match kind
    case Fixed(w, _) => ReadOutcome(build, base, position, |text|, capacity, w)
    case Text(w) =>
      var first := ReadOutcome(build, base, position, |text|, capacity, w);
      if first != Done then first
      else ReadOutcome(build, base, position + w, |text|, capacity, GetFixed(order.host, order.endian, text[position..position + w]))
    case _ => if Decode(order, kind, text[position..]).Some? then Done else OutOfRange
  }

  /** No write of the list runs off the buffer. */
  ghost predicate ListWritesClear(build: Build, order: Order, base: nat, room: nat, vs: seq<Value>)
    requires 0 < base && forall i :: 0 <= i < |vs| ==> Typed(vs[i])
    decreases |vs|
  {
    vs == [] ||
    (var chunks := Chunks(build, order, vs[0]);
     && WritesClear(build, base, room, chunks)
     && ListWritesClear(build, order, base, RoomAfterAll(build, base, room, chunks), vs[1..]))
  }

  ghost function RoomAfterList(build: Build, order: Order, base: nat, room: nat, vs: seq<Value>): nat
    requires 0 < base && forall i :: 0 <= i < |vs| ==> Typed(vs[i])
    decreases |vs|
  {
    if vs == [] then room
    else RoomAfterList(build, order, base, RoomAfterAll(build, base, room, Chunks(build, order, vs[0])), vs[1..])
  }

  /** No read of the list, from `position` of `text`, leaves its block. */
  ghost predicate ListReadsClear(build: Build, order: Order, base: nat, capacity: nat, text: seq<Byte>, position: nat, vs: seq<Value>)
    requires 0 < base && forall i :: 0 <= i < |vs| ==> Typed(vs[i])
    decreases |vs|
  {
    vs == [] ||
    (assert Typed(vs[0]);
     && position <= |text|
     && ReadValueOutcome(build, order, base, capacity, text, position, KindOf(vs[0])) == Done
     && ListReadsClear(build, order, base, capacity, text, position + |Encode(build, order, vs[0])|, vs[1..]))
  }

  /** As meant, no write and no read of a list that survives can fail. */
  lemma {:induction false} MeantWritesClear(order: Order, base: nat, room: nat, vs: seq<Value>)
    requires 0 < base && forall i :: 0 <= i < |vs| ==> Typed(vs[i])
    ensures ListWritesClear(AsMeant, order, base, room, vs)
    decreases |vs|
  {
    hide Chunks;
    if vs != [] {
      var chunks := Chunks(AsMeant, order, vs[0]);
      MeantChunksClear(base, room, chunks);
      MeantWritesClear(order, base, RoomAfterAll(AsMeant, base, room, chunks), vs[1..]);
    }
  }

  lemma {:induction false} MeantChunksClear(base: nat, room: nat, chunks: seq<seq<Byte>>)
    requires 0 < base
    ensures WritesClear(AsMeant, base, room, chunks)
    decreases |chunks|
  {
    if chunks != [] {
      MeantChunksClear(base, RoomAfter(AsMeant, base, room, |chunks[0]|), chunks[1..]);
    }
  }

  lemma {:induction false} MeantReadsClear(order: Order, base: nat, capacity: nat, text: seq<Byte>, position: nat, vs: seq<Value>)
    requires 0 < base && AllSurvive(AsMeant, vs)
    requires position <= |text| && text[position..] == EncodeAll(AsMeant, order, vs)
    ensures ListReadsClear(AsMeant, order, base, capacity, text, position, vs)
    decreases |vs|
  {
    hide Encode, Decode;
    if vs != [] {
      var first, others := Encode(AsMeant, order, vs[0]), EncodeAll(AsMeant, order, vs[1..]);
      RoundTrip(AsMeant, order, vs[0], others);
      MeantReadOutcome(order, base, capacity, text, position, KindOf(vs[0]));
      assert text[position + |first|..] == text[position..][|first|..] == others;
      MeantReadsClear(order, base, capacity, text, position + |first|, vs[1..]);
    }
  }

  lemma MeantReadOutcome(order: Order, base: nat, capacity: nat, text: seq<Byte>, position: nat, kind: Kind)
    requires 0 < base && position <= |text| && (kind.Fixed? ==> 0 < kind.w)
    requires Decode(order, kind, text[position..]).Some?
    ensures ReadValueOutcome(AsMeant, order, base, capacity, text, position, kind) == Done
  {
    hide GetFixed, GetVarint;
    if kind.Text? {
      assert text[position..][..kind.w] == text[position..position + kind.w];
    }
  }

  /** What the shipped buffer needs for the round trip of a list. */
  ghost predicate RoundTripClear(build: Build, order: Order, base: nat, vs: seq<Value>)
    requires 0 < base && forall i :: 0 <= i < |vs| ==> Typed(vs[i])
  {
    var text := EncodeAll(build, order, vs);
    && ListWritesClear(build, order, base, base, vs)
    && ListReadsClear(build, order, base, |text| + RoomAfterList(build, order, base, base, vs), text, 0, vs)
  }

  lemma MeantRoundTripClear(order: Order, base: nat, vs: seq<Value>)
    requires 0 < base && AllSurvive(AsMeant, vs)
    ensures RoundTripClear(AsMeant, order, base, vs)
  {
    var text := EncodeAll(AsMeant, order, vs);
    MeantWritesClear(order, base, base, vs);
    assert text[0..] == text;
    MeantReadsClear(order, base, |text| + RoomAfterList(AsMeant, order, base, base, vs), text, 0, vs);
  }

  // ----- by offsets ------------------------------------------------------------------------

  /** The room a shipped buffer has after `o` bytes, as long as every write fitted. */
  function RoomAt(base: nat, o: nat): nat
    requires 0 < base
  {
    if o == 0 then base else if o % base == 0 then 0 else base - o % base
  }

  /** The capacity then. */
  function CapacityAt(base: nat, o: nat): nat
    requires 0 < base
  {
    o + RoomAt(base, o)
  }

  lemma WholeBlocks(base: nat, o: nat) returns (k: nat)
    requires 0 < base
    ensures CapacityAt(base, o) == k * base
  {
    var q, d := o / base, o % base;
    assert q * base + d == o;
    if o == 0 {
      k := 1;
    } else if d == 0 {
      k := q;
    } else {
      k := q + 1;
      assert k * base == q * base + base;
    }
  }

  lemma RoomIsSmall(base: nat, o: nat)
    requires 0 < base
    ensures RoomAt(base, o) <= base && (o > 0 ==> RoomAt(base, o) < base)
  {
  }

  /** The room at `o` is the distance to the next whole number of blocks. */
  lemma RoomIs(base: nat, o: nat, k: nat, r: nat)
    requires 0 < base && 0 < o && o + r == k * base && r < base
    ensures RoomAt(base, o) == r
  {
    var l := WholeBlocks(base, o);
    RoomIsSmall(base, o);
    assert (l - k) * base == RoomAt(base, o) - r;
    SmallMultipleIsZero(l - k, base);
  }

  /** A write that fits leaves the room of its end offset. */
  lemma RoomStep(base: nat, o: nat, n: nat)
    requires 0 < base && GrowsEnough(AsWritten, base, RoomAt(base, o), n)
    ensures RoomAfter(AsWritten, base, RoomAt(base, o), n) == RoomAt(base, o + n)
  {
    hide RoomAt, GrowsEnough, BlocksAdded, Start;
    var room := RoomAt(base, o);
    assert Start(base, 0) == 0 by { StartIsProduct(base, 0); }
    if room < n {
      BlocksAddedExact(AsWritten, base, room, n);
      StartIsProduct(base, Ceiling(n - room, base));
      GrownRoom(base, o, n, Ceiling(n - room, base));
    } else if n > 0 {
      RoomIsSmall(base, o);
      var k := WholeBlocks(base, o);
      RoomIs(base, o + n, k, room - n);
    }
  }

  /** The room after `m` blocks more. */
  lemma GrownRoom(base: nat, o: nat, n: nat, m: nat)
    requires 0 < base && RoomAt(base, o) < n && 0 < m
    requires (m - 1) * base < n - RoomAt(base, o) <= m * base
    ensures RoomAt(base, o + n) == m * base - (n - RoomAt(base, o))
  {
    hide RoomAt;
    var k := WholeBlocks(base, o);
    assert (k + m) * base == k * base + m * base && (m - 1) * base == m * base - base;
    RoomIs(base, o + n, k + m, m * base - (n - RoomAt(base, o)));
  }

  /** The part of a block's room that a read within the block needs is there for the write. */
  lemma InBlockFits(base: nat, o: nat, n: nat)
    requires 0 < base && o % base + n <= base
    ensures GrowsEnough(AsWritten, base, RoomAt(base, o), n)
  {
  }

  /** What reading a value back at offset `o` needs: a fixed-width field within one block, and a
      string's bytes within one, which for no bytes is any block at all. */
  predicate ReadFits(base: nat, capacity: nat, o: nat, v: Value)
    requires 0 < base
  {
    match v
    case Int(Fixed(w, _), _) => o % base + w <= base
    case Int(_, _) => true
    case Str(w, s) => o % base + w <= base && if s == [] then o + w < capacity else (o + w) % base + |s| <= base
  }

  /** What writing it there needs besides: varints are written whole but read bytewise. */
  predicate WriteFits(build: Build, order: Order, base: nat, o: nat, v: Value)
    requires 0 < base && Typed(v)
  {
    v.Int? && !v.kind.Fixed? ==> GrowsEnough(AsWritten, base, RoomAt(base, o), |Encode(build, order, v)|)
  }

  /** Where value `i` of the list starts. */
  function Offset(build: Build, order: Order, vs: seq<Value>, i: nat): nat
    requires i <= |vs| && forall j :: 0 <= j < |vs| ==> Typed(vs[j])
  {
    if i == 0 then 0 else |Encode(build, order, vs[0])| + Offset(build, order, vs[1..], i - 1)
  }

  predicate AllTyped(vs: seq<Value>)
  {
    forall j :: 0 <= j < |vs| ==> Typed(vs[j])
  }

  /** Every value, at its offset from `o` on, can be read back. */
  predicate ReadsFit(build: Build, order: Order, base: nat, capacity: nat, o: nat, vs: seq<Value>)
    requires 0 < base && AllTyped(vs)
  {
    forall i :: 0 <= i < |vs| ==> ReadFits(base, capacity, o + Offset(build, order, vs, i), vs[i])
  }

  predicate WritesFit(build: Build, order: Order, base: nat, o: nat, vs: seq<Value>)
    requires 0 < base && AllTyped(vs)
  {
    forall i :: 0 <= i < |vs| ==> WriteFits(build, order, base, o + Offset(build, order, vs, i), vs[i])
  }

  /** What the shipped buffer needs for the round trip of a list, by offsets and lengths. */
  predicate Fits(order: Order, base: nat, vs: seq<Value>)
    requires 0 < base && AllTyped(vs)
  {
    && WritesFit(AsWritten, order, base, 0, vs)
    && ReadsFit(AsWritten, order, base, CapacityAt(base, |EncodeAll(AsWritten, order, vs)|), 0, vs)
  }

  lemma Offsets(build: Build, order: Order, vs: seq<Value>)
    requires AllTyped(vs) && vs != []
    ensures Offset(build, order, vs, 0) == 0
    ensures forall i :: 0 < i <= |vs| ==>
      Offset(build, order, vs, i) == |Encode(build, order, vs[0])| + Offset(build, order, vs[1..], i - 1)
  {
    hide Encode, Typed;
  }

  lemma ReadsFitCons(build: Build, order: Order, base: nat, capacity: nat, o: nat, vs: seq<Value>)
    requires 0 < base && AllTyped(vs) && vs != []
    ensures ReadsFit(build, order, base, capacity, o, vs) <==>
            ReadFits(base, capacity, o, vs[0])
            && ReadsFit(build, order, base, capacity, o + |Encode(build, order, vs[0])|, vs[1..])
  {
    hide Encode, ReadFits, Offset, Typed;
    Offsets(build, order, vs);
    var p := o + |Encode(build, order, vs[0])|;
    if ReadsFit(build, order, base, capacity, o, vs) {
      forall i | 0 <= i < |vs[1..]|
        ensures ReadFits(base, capacity, p + Offset(build, order, vs[1..], i), vs[1..][i])
      {
        assert ReadFits(base, capacity, o + Offset(build, order, vs, i + 1), vs[i + 1]);
      }
      assert ReadFits(base, capacity, o + Offset(build, order, vs, 0), vs[0]);
    }
    if ReadFits(base, capacity, o, vs[0]) && ReadsFit(build, order, base, capacity, p, vs[1..]) {
      forall i | 0 <= i < |vs|
        ensures ReadFits(base, capacity, o + Offset(build, order, vs, i), vs[i])
      {
        if i > 0 {
          assert ReadFits(base, capacity, p + Offset(build, order, vs[1..], i - 1), vs[1..][i - 1]);
        }
      }
    }
  }

  lemma WritesFitCons(build: Build, order: Order, base: nat, o: nat, vs: seq<Value>)
    requires 0 < base && AllTyped(vs) && vs != []
    ensures WritesFit(build, order, base, o, vs) <==>
            WriteFits(build, order, base, o, vs[0])
            && WritesFit(build, order, base, o + |Encode(build, order, vs[0])|, vs[1..])
  {
    hide Encode, WriteFits, Offset, Typed;
    Offsets(build, order, vs);
    var p := o + |Encode(build, order, vs[0])|;
    if WritesFit(build, order, base, o, vs) {
      forall i | 0 <= i < |vs[1..]|
        ensures WriteFits(build, order, base, p + Offset(build, order, vs[1..], i), vs[1..][i])
      {
        assert WriteFits(build, order, base, o + Offset(build, order, vs, i + 1), vs[i + 1]);
      }
      assert WriteFits(build, order, base, o + Offset(build, order, vs, 0), vs[0]);
    }
    if WriteFits(build, order, base, o, vs[0]) && WritesFit(build, order, base, p, vs[1..]) {
      forall i | 0 <= i < |vs|
        ensures WriteFits(build, order, base, o + Offset(build, order, vs, i), vs[i])
      {
        if i > 0 {
          assert WriteFits(build, order, base, p + Offset(build, order, vs[1..], i - 1), vs[1..][i - 1]);
        }
      }
    }
  }

  // ----- the two agree -----------------------------------------------------------------------

  lemma FixedLength(order: Order, w: nat, n: int)
    ensures |PutFixed(order.host, order.endian, w, Pattern(8 * w, n))| == w
  {
    FixedRoundTrip(order.host, order.host, order.endian, w, Pattern(8 * w, n));
  }

  /** The chunks of a value and their lengths. */
  lemma ChunkLengths(order: Order, v: Value)
    requires Typed(v)
    ensures var cs := Chunks(AsWritten, order, v);
            match v
            case Int(Fixed(w, _), _) => |cs| == 1 && |cs[0]| == w && |Encode(AsWritten, order, v)| == w
            case Int(_, _) => |cs| == 1 && cs[0] == Encode(AsWritten, order, v)
            case Str(w, s) => |cs| == 2 && |cs[0]| == w && cs[1] == s && |Encode(AsWritten, order, v)| == w + |s|
  {
    hide PutFixed, PutVarint, PutZigzag, Pattern, Pow2;
    var cs := Chunks(AsWritten, order, v);
    match v
    case Int(Fixed(w, _), n) =>
      FixedLength(order, w, n);
      EncodeOne(AsWritten, order, v);
    case Int(_, _) => EncodeOne(AsWritten, order, v);
    case Str(w, s) =>
      FixedLength(order, w, |s|);
      assert Joined([s]) == s;
      assert cs[1..] == [s];
  }

  /** What each write of a value needs. */
  predicate ChunksFit(order: Order, base: nat, o: nat, v: Value)
    requires 0 < base && Typed(v)
  {
    match v
    case Int(Fixed(w, _), _) => GrowsEnough(AsWritten, base, RoomAt(base, o), w)
    case Int(_, _) => GrowsEnough(AsWritten, base, RoomAt(base, o), |Encode(AsWritten, order, v)|)
    case Str(w, s) =>
      GrowsEnough(AsWritten, base, RoomAt(base, o), w) && GrowsEnough(AsWritten, base, RoomAt(base, o + w), |s|)
  }

  lemma ValueWrites(order: Order, base: nat, o: nat, v: Value)
    requires 0 < base && Typed(v)
    ensures var cs, room := Chunks(AsWritten, order, v), RoomAt(base, o);
            && (WritesClear(AsWritten, base, room, cs) <==> ChunksFit(order, base, o, v))
            && (ChunksFit(order, base, o, v) ==>
                  RoomAfterAll(AsWritten, base, room, cs) == RoomAt(base, o + |Encode(AsWritten, order, v)|))
  {
    hide RoomAt, Chunks, Encode, GrowsEnough, RoomAfter, Typed;
    var cs, room := Chunks(AsWritten, order, v), RoomAt(base, o);
    ChunkLengths(order, v);
    if GrowsEnough(AsWritten, base, room, |cs[0]|) {
      RoomStep(base, o, |cs[0]|);
      if v.Str? && GrowsEnough(AsWritten, base, RoomAt(base, o + v.w), |v.s|) {
        RoomStep(base, o + v.w, |v.s|);
      }
    }
    ClearChunks(base, room, cs);
  }

  /** One or two writes in turn. */
  lemma ClearChunks(base: nat, room: nat, cs: seq<seq<Byte>>)
    requires 0 < base && 1 <= |cs| <= 2
    ensures WritesClear(AsWritten, base, room, cs) <==>
            GrowsEnough(AsWritten, base, room, |cs[0]|)
            && (|cs| == 2 ==> GrowsEnough(AsWritten, base, RoomAfter(AsWritten, base, room, |cs[0]|), |cs[1]|))
    ensures RoomAfterAll(AsWritten, base, room, cs) ==
            if |cs| == 1 then RoomAfter(AsWritten, base, room, |cs[0]|)
            else RoomAfter(AsWritten, base, RoomAfter(AsWritten, base, room, |cs[0]|), |cs[1]|)
  {
    hide GrowsEnough, RoomAfter;
    var left := RoomAfter(AsWritten, base, room, |cs[0]|);
    if |cs| == 2 {
      var more := cs[1..];
      assert more[0] == cs[1] && more[1..] == [];
      assert WritesClear(AsWritten, base, left, more) <==> GrowsEnough(AsWritten, base, left, |cs[1]|);
      assert RoomAfterAll(AsWritten, base, left, more) == RoomAfter(AsWritten, base, left, |cs[1]|);
    } else {
      assert cs[1..] == [];
    }
  }

  predicate ListFits(order: Order, base: nat, o: nat, vs: seq<Value>)
    requires 0 < base && AllTyped(vs)
    decreases |vs|
  {
    vs == [] || (ChunksFit(order, base, o, vs[0]) && ListFits(order, base, o + |Encode(AsWritten, order, vs[0])|, vs[1..]))
  }

  lemma {:induction false} ListWrites(order: Order, base: nat, o: nat, vs: seq<Value>)
    requires 0 < base && AllTyped(vs)
    ensures ListWritesClear(AsWritten, order, base, RoomAt(base, o), vs) <==> ListFits(order, base, o, vs)
    ensures ListFits(order, base, o, vs) ==>
              RoomAfterList(AsWritten, order, base, RoomAt(base, o), vs) == RoomAt(base, o + |EncodeAll(AsWritten, order, vs)|)
    decreases |vs|
  {
    hide RoomAt, Chunks, Encode, ChunksFit, WritesClear, RoomAfterAll, Typed;
    if vs != [] {
      ValueWrites(order, base, o, vs[0]);
      ListWrites(order, base, o + |Encode(AsWritten, order, vs[0])|, vs[1..]);
    }
  }

  /** What each read of a value needs, when the text is all there. */
  lemma ValueReads(order: Order, base: nat, capacity: nat, text: seq<Byte>, o: nat, v: Value, rest: seq<Byte>)
    requires 0 < base && Typed(v) && Survives(AsWritten, v)
    requires o <= |text| <= capacity && text[o..] == Encode(AsWritten, order, v) + rest
    ensures ReadValueOutcome(AsWritten, order, base, capacity, text, o, KindOf(v)) == Done <==> ReadFits(base, capacity, o, v)
  {
    hide Encode, Decode, GetFixed, Pow2, Survives, Chunks;
    RoundTrip(AsWritten, order, v, rest);
    ChunkLengths(order, v);
    if v.Str? {
      TextLength(order, text, o, v, rest);
    }
  }

  /** The length field of a string reads as its length. */
  lemma TextLength(order: Order, text: seq<Byte>, o: nat, v: Value, rest: seq<Byte>)
    requires Typed(v) && v.Str? && Survives(AsWritten, v)
    requires o <= |text| && text[o..] == Encode(AsWritten, order, v) + rest
    ensures o + v.w + |v.s| <= |text| && GetFixed(order.host, order.endian, text[o..o + v.w]) == |v.s|
  {
    hide Encode, GetFixed, Pow2, Chunks;
    RoundTrip(AsWritten, order, v, rest);
    ChunkLengths(order, v);
    assert text[o..][..v.w] == text[o..o + v.w];
  }

  lemma {:induction false} ListReads(order: Order, base: nat, capacity: nat, text: seq<Byte>, o: nat, vs: seq<Value>)
    requires 0 < base && AllSurvive(AsWritten, vs) && AllTyped(vs)
    requires o <= |text| <= capacity && text[o..] == EncodeAll(AsWritten, order, vs)
    ensures ListReadsClear(AsWritten, order, base, capacity, text, o, vs) <==> ReadsFit(AsWritten, order, base, capacity, o, vs)
    decreases |vs|
  {
    hide Encode, Typed, Survives, ReadFits, ReadsFit, ReadValueOutcome;
    if vs == [] {
      assert ReadsFit(AsWritten, order, base, capacity, o, vs) by { NothingToRead(order, base, capacity, o); }
    } else {
      var first, others := Encode(AsWritten, order, vs[0]), EncodeAll(AsWritten, order, vs[1..]);
      ValueReads(order, base, capacity, text, o, vs[0], others);
      assert text[o + |first|..] == text[o..][|first|..] == others;
      ReadsFitCons(AsWritten, order, base, capacity, o, vs);
      ListReads(order, base, capacity, text, o + |first|, vs[1..]);
    }
  }

  lemma NothingToRead(order: Order, base: nat, capacity: nat, o: nat)
    requires 0 < base
    ensures ReadsFit(AsWritten, order, base, capacity, o, []) && WritesFit(AsWritten, order, base, o, [])
  {
  }

  /** A value that can be read back where it stands could be written there. */
  lemma ReadableIsWritable(order: Order, base: nat, capacity: nat, o: nat, v: Value)
    requires 0 < base && Typed(v) && ReadFits(base, capacity, o, v)
    ensures ChunksFit(order, base, o, v) <==> WriteFits(AsWritten, order, base, o, v)
  {
    hide Encode, GrowsEnough, RoomAt;
    match v
    case Int(Fixed(w, _), _) => InBlockFits(base, o, w);
    case Int(_, _) =>
    case Str(w, s) =>
      InBlockFits(base, o, w);
      assert (o + w) % base + |s| <= base by {
        if s == [] {
          assert (o + w) % base < base;
        }
      }
      InBlockFits(base, o + w, |s|);
  }

  lemma {:induction false} ReadableIsWritableAll(order: Order, base: nat, capacity: nat, o: nat, vs: seq<Value>)
    requires 0 < base && AllTyped(vs) && ReadsFit(AsWritten, order, base, capacity, o, vs)
    ensures ListFits(order, base, o, vs) <==> WritesFit(AsWritten, order, base, o, vs)
    decreases |vs|
  {
    hide Encode, Typed, ReadFits, WriteFits, ReadsFit, WritesFit, ChunksFit;
    if vs == [] {
      NothingToRead(order, base, capacity, o);
    } else {
      ReadsFitCons(AsWritten, order, base, capacity, o, vs);
      WritesFitCons(AsWritten, order, base, o, vs);
      ReadableIsWritable(order, base, capacity, o, vs[0]);
      ReadableIsWritableAll(order, base, capacity, o + |Encode(AsWritten, order, vs[0])|, vs[1..]);
    }
  }

  /** The shipped round trip succeeds if and only if the values fit where they stand. */
  lemma FitsExactly(order: Order, base: nat, vs: seq<Value>)
    requires 0 < base && AllSurvive(AsWritten, vs) && AllTyped(vs)
    ensures RoundTripClear(AsWritten, order, base, vs) <==> Fits(order, base, vs)
  {
    hide EncodeAll, ListWritesClear, ListReadsClear, RoomAfterList, Typed, Survives, ReadsFit, WritesFit, ListFits;
    var text := EncodeAll(AsWritten, order, vs);
    var capacity := CapacityAt(base, |text|);
    ListWrites(order, base, 0, vs);
    assert text[0..] == text;
    ListReads(order, base, capacity, text, 0, vs);
    if ReadsFit(AsWritten, order, base, capacity, 0, vs) {
      ReadableIsWritableAll(order, base, capacity, 0, vs);
    }
  }

  /** In blocks of one byte, exactly the lists of one-byte integers and varints come back. */
  lemma OneByteBlocks(order: Order, vs: seq<Value>)
    requires AllTyped(vs)
    ensures Fits(order, 1, vs) <==> forall i :: 0 <= i < |vs| ==> vs[i].Int? && (vs[i].kind.Fixed? ==> vs[i].kind.w == 1)
  {
    hide EncodeAll, Encode;
    var capacity := CapacityAt(1, |EncodeAll(AsWritten, order, vs)|);
    forall i | 0 <= i < |vs|
      ensures WriteFits(AsWritten, order, 1, 0 + Offset(AsWritten, order, vs, i), vs[i])
      ensures ReadFits(1, capacity, 0 + Offset(AsWritten, order, vs, i), vs[i]) <==>
              vs[i].Int? && (vs[i].kind.Fixed? ==> vs[i].kind.w == 1)
    {
      OneByteBlock(order, capacity, Offset(AsWritten, order, vs, i), vs[i]);
    }
  }

  lemma OneByteBlock(order: Order, capacity: nat, o: nat, v: Value)
    requires Typed(v)
    ensures WriteFits(AsWritten, order, 1, o, v)
    ensures ReadFits(1, capacity, o, v) <==> v.Int? && (v.kind.Fixed? ==> v.kind.w == 1)
  {
    hide Encode, Pow2;
  }
}
