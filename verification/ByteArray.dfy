/**
 The growable byte buffer: equal-size blocks on a singly linked list, a cursor
 (`position`, `current`), a high-water mark (`size`) and a capacity.

 Every method is specified on a flat byte sequence (`bytes`) with a cursor, so
 the linked representation is a refinement of that flat buffer.
*/
module ByteArrays {

  type Byte = b: int | 0 <= b < 256

  /** The four places where the buffer's code departs from what it is for are
      kept (`AsWritten`) or read as they are meant (`AsMeant`). */
  datatype Build = AsWritten | AsMeant

  /** How a call ends: normally, with the range exception, or by dereferencing
      null or reading past a block (undefined behaviour). */
  datatype Outcome = Done | OutOfRange | Undefined

  // ----- arithmetic of equal-size blocks ---------------------------------

  /** The flat offset of block `i`; the sum form keeps the reasoning linear. */
  ghost function Start(base: nat, i: nat): nat
  {
    if i == 0 then 0 else Start(base, i - 1) + base
  }

  lemma {:induction false} StartMonotone(base: nat, i: nat, j: nat)
    requires i <= j
    ensures Start(base, i) <= Start(base, j)
    ensures i < j ==> Start(base, i) + base <= Start(base, j)
    decreases j - i
  {
    if i < j {
      StartMonotone(base, i + 1, j);
    }
  }

  lemma {:induction false} StartIsProduct(base: nat, i: nat)
    ensures Start(base, i) == i * base
  {
    if i > 0 {
      StartIsProduct(base, i - 1);
      assert (i - 1) * base + base == i * base;
    }
  }

  /** The offset the code computes with `%` is the distance from the block start. */
  lemma Locate(base: nat, i: nat, p: nat)
    requires Start(base, i) <= p < Start(base, i) + base
    ensures p / base == i && p % base == p - Start(base, i)
  {
    StartIsProduct(base, i);
    var d := p - i * base;
    assert p == i * base + d && 0 <= d < base;
    DivModUnique(p, base, i, d);
  }

  lemma DivModUnique(p: nat, base: nat, q: nat, d: nat)
    requires 0 <= d < base && p == q * base + d
    ensures p / base == q && p % base == d
  {
    var q', d' := p / base, p % base;
    assert q' * base + d' == p;
    assert (q - q') * base == d' - d;
    SmallMultipleIsZero(q - q', base);
  }

  lemma SmallMultipleIsZero(k: int, base: int)
    requires -base < k * base < base
    ensures k == 0
  {
  }

  // ----- how many blocks addCapacity appends ------------------------------

  /** The least number of blocks of size `base` that hold `deficit` bytes. */
  function Ceiling(deficit: nat, base: nat): (n: nat)
    requires 0 < base
    ensures deficit <= n * base
    ensures n > 0 ==> (n - 1) * base < deficit
  {
    assert deficit / base * base + deficit % base == deficit;
    if deficit % base == 0 then deficit / base
    else
      assert (deficit / base + 1) * base == deficit / base * base + base;
      deficit / base + 1
  }

  /** The number of blocks appended when `deficit` bytes are missing and `room`
      bytes are left; the code compares the remainder with `room`, not with 0. */
  function BlocksAdded(build: Build, base: nat, room: nat, deficit: nat): (n: nat)
    requires 0 < base
  {
    match build
    case AsWritten => deficit / base + (if deficit % base > room then 1 else 0)
    case AsMeant => Ceiling(deficit, base)
  }

  /** The condition a caller can check under which the shipped count is enough. */
  predicate GrowsEnough(build: Build, base: nat, room: nat, n: nat)
    requires 0 < base
  {
    build == AsMeant || n <= room || room == 0
    || (n - room) % base == 0 || (n - room) % base > room
  }

  /** The shipped count reaches the ceiling exactly under that condition, and
      otherwise it is one block short. */
  lemma BlocksAddedExact(build: Build, base: nat, room: nat, n: nat)
    requires 0 < base && room < n
    ensures GrowsEnough(build, base, room, n) <==> n <= room + BlocksAdded(build, base, room, n - room) * base
    ensures GrowsEnough(build, base, room, n) ==> BlocksAdded(build, base, room, n - room) == Ceiling(n - room, base)
    ensures !GrowsEnough(build, base, room, n) ==> BlocksAdded(build, base, room, n - room) + 1 == Ceiling(n - room, base)
  {
    var deficit := n - room;
    assert deficit / base * base + deficit % base == deficit;
    assert (deficit / base + 1) * base == deficit / base * base + base;
  }

  /** By how much the capacity grows to fit `n` bytes when `room` are left. */
  ghost function Growth(build: Build, base: nat, room: nat, n: nat): nat
    requires 0 < base
  {
    Start(base, if n <= room then 0 else BlocksAdded(build, base, room, n - room))
  }

  // ----- flat buffer ------------------------------------------------------

  /** The flat buffer after `chunk` is laid over `flat` at `at`; it may run past the end. */
  function Overlay(flat: seq<Byte>, at: nat, chunk: seq<Byte>): (r: seq<Byte>)
    requires at <= |flat|
    ensures |r| == if at + |chunk| <= |flat| then |flat| else at + |chunk|
  {
    flat[..at] + chunk + (if at + |chunk| <= |flat| then flat[at + |chunk|..] else [])
  }

  /** `now` is `was` with `n` bytes of `buf`, from `from`, laid at `at`. */
  ghost predicate Laid(now: seq<Byte>, was: seq<Byte>, at: nat, buf: seq<Byte>, from: nat, n: nat)
  {
    && |now| == |was| && at + n <= |was| && from + n <= |buf|
    && forall x :: 0 <= x < |now| ==> now[x] == if at <= x < at + n then buf[from + (x - at)] else was[x]
  }

  lemma LaidNothing(a: seq<Byte>, at: nat, buf: seq<Byte>)
    requires at <= |a|
    ensures Laid(a, a, at, buf, 0, 0)
  {
  }

  lemma LaidStep(a: seq<Byte>, b: seq<Byte>, c: seq<Byte>, at: nat, buf: seq<Byte>, n: nat, m: nat)
    requires Laid(b, a, at, buf, 0, n) && Laid(c, b, at + n, buf, n, m)
    ensures Laid(c, a, at, buf, 0, n + m)
  {
  }

  /** Growing a flat buffer and then laying bytes in it, seen as a whole and up
      to the high-water mark. */
  lemma FlatWrite(was: seq<Byte>, grown: seq<Byte>, now: seq<Byte>, at: nat, buf: seq<Byte>, mark: nat)
    requires was <= grown && Laid(now, grown, at, buf, 0, |buf|) && at <= mark <= |was|
    ensures |was| <= |now| && now == Overlay(was + now[|was|..], at, buf)
    ensures now[..if at + |buf| > mark then at + |buf| else mark] == Overlay(was[..mark], at, buf)
  {
  }

  lemma Join(flat: seq<Byte>, a: nat, b: nat, c: nat)
    requires a <= b <= c <= |flat|
    ensures flat[a..b] + flat[b..c] == flat[a..c]
  {
  }

  ghost predicate Uniform(base: nat, blocks: seq<seq<Byte>>)
  {
    forall i :: 0 <= i < |blocks| ==> |blocks[i]| == base
  }

  /** The blocks joined in list order. */
  ghost function Flatten(blocks: seq<seq<Byte>>): seq<Byte>
  {
    if blocks == [] then [] else Flatten(blocks[..|blocks| - 1]) + blocks[|blocks| - 1]
  }

  lemma {:induction false} FlattenLength(base: nat, blocks: seq<seq<Byte>>)
    requires Uniform(base, blocks)
    ensures |Flatten(blocks)| == Start(base, |blocks|)
  {
    if blocks != [] {
      FlattenLength(base, blocks[..|blocks| - 1]);
    }
  }

  lemma FlattenAppend(blocks: seq<seq<Byte>>, block: seq<Byte>)
    ensures Flatten(blocks + [block]) == Flatten(blocks) + block
  {
    assert (blocks + [block])[..|blocks|] == blocks;
  }

  /** Block `k` is the stretch of the flat buffer that starts at `Start(base, k)`. */
  lemma {:induction false} FlattenAt(base: nat, blocks: seq<seq<Byte>>, k: nat)
    requires Uniform(base, blocks) && k < |blocks|
    ensures Start(base, k) + base <= |Flatten(blocks)|
    ensures forall x :: 0 <= x < base ==> blocks[k][x] == Flatten(blocks)[Start(base, k) + x]
  {
    var n := |blocks| - 1;
    FlattenLength(base, blocks[..n]);
    if k < n {
      FlattenAt(base, blocks[..n], k);
    }
  }

  lemma FlattenFirst(base: nat, blocks: seq<seq<Byte>>)
    requires Uniform(base, blocks) && 0 < |blocks|
    ensures base <= |Flatten(blocks)| && Flatten(blocks[..1]) == Flatten(blocks)[..base]
  {
    FlattenAt(base, blocks, 0);
    FlattenAppend([], blocks[0]);
    assert blocks[..1] == [] + [blocks[0]];
  }

  /** A copy into one block is a copy into the flat buffer. */
  lemma {:induction false} FlattenUpdate(base: nat, blocks: seq<seq<Byte>>, k: nat, block: seq<Byte>,
                                         npos: nat, buf: seq<Byte>, from: nat, n: nat)
    requires Uniform(base, blocks) && k < |blocks| && Laid(block, blocks[k], npos, buf, from, n)
    ensures Laid(Flatten(blocks[k := block]), Flatten(blocks), Start(base, k) + npos, buf, from, n)
  {
    var m := |blocks| - 1;
    FlattenLength(base, blocks[..m]);
    if k < m {
      FlattenUpdate(base, blocks[..m], k, block, npos, buf, from, n);
      assert blocks[k := block][..m] == blocks[..m][k := block];
    } else {
      assert blocks[k := block][..m] == blocks[..m];
    }
  }

  /** memcpy of `n` bytes of `buf`, from `from`, into an array. */
  method MemCpy(dst: array<Byte>, at: nat, buf: seq<Byte>, from: nat, n: nat)
    requires at + n <= dst.Length && from + n <= |buf|
    modifies dst
    ensures forall i :: 0 <= i < dst.Length ==>
              dst[i] == if at <= i < at + n then buf[from + (i - at)] else old(dst[i])
  {
    forall i | 0 <= i < n {
      dst[at + i] := buf[from + i];
    }
  }

  class Node {
    const data: array<Byte>
    var next: Node?

    constructor (size: nat)
      ensures next == null && fresh(data) && data.Length == size
    {
      data := new Byte[size];
      next := null;
    }
  }

  /** The list behind the pointers: the nodes from `root`, what they hold, and
      the place in the list of each node and each data array. */
  datatype View = View(nodes: seq<Node>, blocks: seq<seq<Byte>>, home: map<object, nat>, repr: set<object>)

  /** A scatter segment: `len` bytes of a block's array, from `off`. */
  datatype Iovec = Iovec(data: array<Byte>, off: nat, len: nat)

  /** The segment lies in one block of the list and starts at flat offset `p`. */
  ghost predicate SegmentAt(base: nat, nodes: seq<Node>, home: map<object, nat>, s: Iovec, p: nat)
  {
    && s.data in home
    && var k := home[s.data];
    && k < |nodes| && nodes[k].data == s.data
    && s.off + s.len <= base && p == Start(base, k) + s.off
  }

  /** The segments are non-empty and tile exactly the flat range [p, q), in order. */
  ghost predicate Covers(base: nat, nodes: seq<Node>, home: map<object, nat>, segs: seq<Iovec>, p: nat, q: nat)
    decreases |segs|
  {
    if segs == [] then p == q
    else
      && 0 < segs[0].len && SegmentAt(base, nodes, home, segs[0], p)
      && Covers(base, nodes, home, segs[1..], p + segs[0].len, q)
  }

  lemma {:induction false} CoversSnoc(base: nat, nodes: seq<Node>, home: map<object, nat>,
                                      segs: seq<Iovec>, s: Iovec, p: nat, q: nat)
    requires Covers(base, nodes, home, segs, p, q) && 0 < s.len && SegmentAt(base, nodes, home, s, q)
    ensures Covers(base, nodes, home, segs + [s], p, q + s.len)
    decreases |segs|
  {
    if segs == [] {
      assert (segs + [s])[1..] == [];
    } else {
      CoversSnoc(base, nodes, home, segs[1..], s, p + segs[0].len, q);
      assert (segs + [s])[1..] == segs[1..] + [s];
    }
  }

  /** The list's node `k`, null past its end. */
  ghost function NodeAt(nodes: seq<Node>, k: nat): Node?
  {
    if k < |nodes| then nodes[k] else null
  }

  class ByteArray {
    const build: Build
    const baseSize: nat
    var position: nat
    var capacity: nat
    var size: nat
    var littleEndian: bool
    var root: Node
    var current: Node?
    ghost var view: View
    ghost var cursor: nat        // the index of current in the list, its length for null

    /** Node `k` of the list: where it is, what it holds and what comes next. */
    ghost predicate NodeOk(k: nat)
      reads this`view, view.repr - {this}
    {
      && k < |view.nodes| == |view.blocks|
      && var node, block := view.nodes[k], view.blocks[k];
      && node in view.repr && node.data in view.repr
      && node in view.home && view.home[node] == k && node.data in view.home && view.home[node.data] == k
      && node.next == NodeAt(view.nodes, k + 1)
      && node.data.Length == baseSize == |block|
      && forall x :: 0 <= x < baseSize ==> node.data[x] == block[x]
    }

    /** The list from node `k` on. */
    ghost predicate Chained(k: nat)
      reads this`view, view.repr - {this}
      decreases |view.nodes| - k
    {
      k < |view.nodes| ==> NodeOk(k) && Chained(k + 1)
    }

    /** The list from `root` is `view.nodes`, its blocks are `view.blocks`. */
    ghost predicate Shape()
      reads this`view, this`root, this`capacity, view.repr - {this}
    {
      && this in view.repr && 0 < baseSize
      && 0 < |view.nodes| == |view.blocks| && view.nodes[0] == root
      && capacity == |Bytes()|
      && Chained(0)
    }

    lemma {:induction false} ChainedAt(i: nat, k: nat)
      requires Chained(i) && i <= k < |view.nodes|
      ensures NodeOk(k)
      decreases k - i
    {
      if i < k {
        ChainedAt(i + 1, k);
      }
    }

    lemma Unchain()
      requires Chained(0)
      ensures forall k :: 0 <= k < |view.nodes| ==> NodeOk(k)
    {
      forall k | 0 <= k < |view.nodes| ensures NodeOk(k) {
        ChainedAt(0, k);
      }
    }

    lemma {:induction false} Chain(i: nat)
      requires forall k :: i <= k < |view.nodes| ==> NodeOk(k)
      ensures Chained(i)
      decreases |view.nodes| - i
    {
      if i < |view.nodes| {
        Chain(i + 1);
      }
    }

    lemma ShapeUniform()
      requires Shape()
      ensures Uniform(baseSize, view.blocks) && capacity == Start(baseSize, |view.nodes|)
      ensures forall i :: 0 <= i < |view.nodes| ==> view.nodes[i] in view.repr && view.nodes[i].data in view.repr
    {
      Unchain();
      forall i | 0 <= i < |view.nodes|
        ensures |view.blocks[i]| == baseSize && view.nodes[i] in view.repr && view.nodes[i].data in view.repr
      {
        assert NodeOk(i);
      }
      FlattenLength(baseSize, view.blocks);
    }

    /** The flat buffer, as long as the capacity. */
    ghost function Bytes(): seq<Byte>
      reads this`view
    {
      Flatten(view.blocks)
    }

    /** The node pointer is the block that holds position `p`, null at capacity. */
    ghost predicate Points(node: Node?, k: nat, p: nat)
      reads this`view
    {
      && k <= |view.nodes|
      && Start(baseSize, k) <= p
      && node == NodeAt(view.nodes, k)
      && (if k < |view.nodes| then p < Start(baseSize, k) + baseSize else p == Start(baseSize, k))
    }

    ghost predicate Valid()
      reads this, view.repr
    {
      && Shape()
      && Points(current, cursor, position)
      && position <= size <= capacity
    }

    /** What a reader can see: the bytes up to the high-water mark. */
    ghost function Contents(): (s: seq<Byte>)
      requires size <= |Bytes()|
      reads this
    {
      Bytes()[..size]
    }

    constructor (build: Build, baseSize: nat)
      requires 0 < baseSize
      ensures Valid() && fresh(view.repr)
      ensures position == 0 && size == 0 && capacity == baseSize && !littleEndian
      ensures this.build == build && this.baseSize == baseSize
    {
      this.build, this.baseSize := build, baseSize;
      position, capacity, size, littleEndian := 0, baseSize, 0, false;
      var node := new Node(baseSize);
      root, current := node, node;
      cursor := 0;
      view := View([node], [node.data[..]], map[node := 0, node.data := 0], {this, node, node.data});
      new;
      assert Start(baseSize, 1) == baseSize;
      FlattenAppend([], node.data[..]);
      assert [] + [node.data[..]] == [node.data[..]];
    }

    function ReadSize(): nat
      requires position <= size
      reads this
    {
      size - position
    }

    function Room(): nat
      requires position <= capacity
      reads this
    {
      capacity - position
    }

    // ----- blocks ---------------------------------------------------------

    /** The cursor is past the last node exactly at capacity. */
    lemma AtCapacity()
      requires Shape() && Points(current, cursor, position)
      ensures capacity == Start(baseSize, |view.nodes|)
      ensures position <= capacity
      ensures position == capacity <==> cursor == |view.nodes|
    {
      ShapeUniform();
      StartMonotone(baseSize, cursor, |view.nodes|);
    }

    /** memcpy into one block. */
    method CopyIn(ghost k: nat, data: array<Byte>, npos: nat, buf: seq<Byte>, from: nat, n: nat)
      requires Shape() && k < |view.nodes| && data == view.nodes[k].data
      requires npos + n <= baseSize && from + n <= |buf|
      modifies this`view, data
      ensures Shape() && view == old(view).(blocks := view.blocks)
      ensures Laid(Bytes(), old(Bytes()), Start(baseSize, k) + npos, buf, from, n)
    {
      Unchain();
      assert NodeOk(k);
      var was := view.blocks[k];
      ghost var block := seq(baseSize, x requires 0 <= x < baseSize => if npos <= x < npos + n then buf[from + (x - npos)] else was[x]);
      assert Laid(Flatten(view.blocks[k := block]), Bytes(), Start(baseSize, k) + npos, buf, from, n) by {
        ShapeUniform();
        FlattenUpdate(baseSize, view.blocks, k, block, npos, buf, from, n);
      }
      MemCpy(data, npos, buf, from, n);
      view := view.(blocks := view.blocks[k := block]);
      forall i | 0 <= i < |view.nodes| ensures NodeOk(i) {
        assert old(NodeOk(i)) && old(NodeOk(k));
      }
      Chain(0);
    }

    /** Appends one block, whatever its bytes, after `tail`, the last node. */
    method AppendBlock(tail: Node) returns (node: Node)
      requires Shape() && tail == view.nodes[|view.nodes| - 1]
      modifies this`capacity, this`view, tail`next
      ensures Shape() && fresh(view.repr - old(view).repr) && old(view).repr <= view.repr
      ensures view.nodes == old(view).nodes + [node] && fresh(node)
      ensures capacity == old(capacity) + baseSize && Bytes()[..old(capacity)] == old(Bytes())
    {
      Unchain();
      node := new Node(baseSize);
      tail.next := node;
      capacity := capacity + baseSize;
      var View(nodes, blocks, home, repr) := view;
      view := View(nodes + [node], blocks + [node.data[..]],
        home[node := |nodes|][node.data := |nodes|], repr + {node, node.data});
      FlattenAppend(blocks, node.data[..]);
      forall i | 0 <= i < |view.nodes| ensures NodeOk(i) {
        if i < |nodes| {
          assert old(NodeOk(i)) && old(NodeOk(|view.nodes| - 1));
          assert nodes[i] == view.nodes[i] && blocks[i] == view.blocks[i];
        }
      }
      Chain(0);
    }

    /** Grows the list so that `n` bytes fit after the cursor, where the block
        count of this build suffices; nothing already stored moves. */
    method AddCapacity(n: nat)
      requires Valid()
      modifies view.repr
      ensures Valid() && Extends(old(view))
      ensures position == old(position) && size == old(size) && littleEndian == old(littleEndian)
      ensures cursor == old(cursor)
      ensures capacity == old(capacity) + Growth(build, baseSize, old(Room()), n)
      ensures old(capacity) <= capacity && Bytes()[..old(capacity)] == old(Bytes())
    {
      if n == 0 {
        return;
      }
      var room := Room();
      if room >= n {
        return;
      }
      var count := BlocksAdded(build, baseSize, room, n - room);
      AtCapacity();
      ShapeUniform();
      var first := Grow(count);
      if room == 0 {
        assert count > 0 by {
          BlocksAddedExact(build, baseSize, room, n);
        }
        current := first;
      }
    }

    /** Appends `count` blocks and returns the first of them. */
    method Grow(count: nat) returns (first: Node?)
      requires Shape()
      modifies this`capacity, this`view, view.nodes`next
      ensures Shape() && Extends(old(view))
      ensures |view.nodes| == |old(view).nodes| + count
      ensures first == NodeAt(view.nodes, |old(view).nodes|)
      ensures capacity == old(capacity) + Start(baseSize, count)
      ensures Bytes()[..old(capacity)] == old(Bytes())
    {
      var tmp := LastNode();
      first := null;
      for i := 0 to count
        invariant Shape() && Extends(old(view)) && tmp == view.nodes[|view.nodes| - 1]
        invariant |view.nodes| == |old(view).nodes| + i
        invariant first == NodeAt(view.nodes, |old(view).nodes|)
        invariant tmp in old(view).nodes || fresh(tmp)
        invariant capacity == old(capacity) + Start(baseSize, i)
        invariant Bytes()[..old(capacity)] == old(Bytes())
      {
        ghost var before := Bytes();
        tmp := AppendBlock(tmp);
        assert Bytes()[..old(capacity)] == before[..old(capacity)];
        if first == null {
          first := tmp;
        }
      }
    }

    /** Later objects keep the earlier nodes in place and add only fresh ones. */
    twostate predicate Extends(before: View)
      reads this
    {
      && before.nodes <= view.nodes
      && before.repr <= view.repr && fresh(view.repr - before.repr)
    }

    method LastNode() returns (tail: Node)
      requires Shape()
      ensures tail == view.nodes[|view.nodes| - 1]
    {
      tail := root;
      ghost var k := 0;
      ChainedAt(0, k);
      while tail.next != null
        invariant k < |view.nodes| && tail == view.nodes[k]
        invariant tail.next == NodeAt(view.nodes, k + 1)
        decreases |view.nodes| - k
      {
        tail := tail.next;
        k := k + 1;
        ChainedAt(0, k);
      }
    }

    // ----- write, read, position -------------------------------------------

    /** Lays `buf` at the cursor, block by block, and moves the cursor past it. */
    method Write(buf: seq<Byte>) returns (r: Outcome)
      requires Valid()
      modifies view.repr
      ensures r == if GrowsEnough(build, baseSize, old(Room()), |buf|) then Done else Undefined
      ensures build == AsMeant || |buf| <= old(Room()) ==> r.Done?
      ensures r.Done? ==> Valid() && Extends(old(view))
      ensures r.Done? ==> position == old(position) + |buf| && littleEndian == old(littleEndian)
      ensures r.Done? ==> capacity == old(capacity) + Growth(build, baseSize, old(Room()), |buf|)
      ensures r.Done? ==> Bytes() == Overlay(old(Bytes()) + Bytes()[old(capacity)..], old(position), buf)
      ensures r.Done? ==> Contents() == Overlay(old(Contents()), old(position), buf)
    {
      hide Flatten, Overlay, Laid, Chained;
      if |buf| == 0 {
        LaidNothing(Bytes(), position, buf);
        FlatWrite(Bytes(), Bytes(), Bytes(), position, buf, size);
        return Done;
      }
      AddCapacity(|buf|);
      Enough(old(Room()), |buf|, old(capacity));
      AtCapacity();
      ShapeUniform();
      ghost var grown := Bytes();
      r := CopyOut(buf);
      if r == Undefined {
        return;
      }
      FlatWrite(old(Bytes()), grown, Bytes(), old(position), buf, old(size));
      if position > size {
        size := position;
      }
    }

    /** The cursor's offset in its block. */
    method Offset() returns (npos: nat)
      requires 0 < baseSize && Points(current, cursor, position) && current != null
      ensures npos == position - Start(baseSize, cursor)
    {
      Locate(baseSize, cursor, position);
      npos := position % baseSize;
    }

    /** The copying loop of `Write`: it runs off the list when room is short. */
    method CopyOut(buf: seq<Byte>) returns (r: Outcome)
      requires Shape() && Points(current, cursor, position) && position < capacity && 0 < |buf|
      modifies this`view, this`position, this`current, this`cursor, set i | 0 <= i < |view.nodes| :: view.nodes[i].data
      ensures r == if old(position) + |buf| <= capacity then Done else Undefined
      ensures r.Done? ==> Shape() && Points(current, cursor, position) && view == old(view).(blocks := view.blocks)
      ensures r.Done? ==> position == old(position) + |buf|
      ensures r.Done? ==> Laid(Bytes(), old(Bytes()), old(position), buf, 0, |buf|)
    {
      hide Flatten, Start, Laid;
      AtCapacity();
      ChainedAt(0, cursor);
      var npos := Offset();
      var ncap := current.data.Length - npos;
      LaidNothing(Bytes(), position, buf);
      var bpos, left := 0, |buf|;
      while left > 0
        invariant Shape() && view == old(view).(blocks := view.blocks)
        invariant 0 <= left && bpos + left == |buf| && position == old(position) + bpos <= capacity
        invariant Points(current, cursor, position)
        invariant left > 0 ==> current != null && npos == position - Start(baseSize, cursor) && ncap == baseSize - npos
        invariant Laid(Bytes(), old(Bytes()), old(position), buf, 0, bpos)
      {
        ghost var before := Bytes();
        ghost var step := if ncap >= left then left else ncap;
        if ncap >= left {
          Deposit(npos, buf, bpos, left);
          LaidStep(old(Bytes()), before, Bytes(), old(position), buf, bpos, step);
          bpos := bpos + left;
          left := 0;
        } else {
          Deposit(npos, buf, bpos, ncap);
          LaidStep(old(Bytes()), before, Bytes(), old(position), buf, bpos, step);
          bpos := bpos + ncap;
          left := left - ncap;
          if current == null {
            return Undefined;
          }
          ChainedAt(0, cursor);
          ncap := current.data.Length;
          npos := 0;
        }
      }
      r := Done;
    }

    /** One memcpy into the current block; a full block hands over to the next. */
    method Deposit(npos: nat, buf: seq<Byte>, from: nat, n: nat)
      requires Shape() && Points(current, cursor, position) && current != null
      requires npos == position - Start(baseSize, cursor) && 0 < n && npos + n <= baseSize && from + n <= |buf|
      modifies this`view, this`position, this`current, this`cursor, current.data
      ensures Shape() && view == old(view).(blocks := view.blocks)
      ensures position == old(position) + n <= capacity && Points(current, cursor, position)
      ensures npos + n == baseSize ==> position == Start(baseSize, cursor)
      ensures Laid(Bytes(), old(Bytes()), old(position), buf, from, n)
    {
      AdvanceCursor(cursor, position, n);
      ChainedAt(0, cursor);
      CopyIn(cursor, current.data, npos, buf, from, n);
      position := position + n;
      if current.data.Length == npos + n {
        current := current.next;
        cursor := cursor + 1;
      }
    }

    /** Whether the list, once grown, has room for `n` bytes after the cursor. */
    lemma Enough(room: nat, n: nat, was: nat)
      requires 0 < baseSize && position + room == was && position <= capacity
      requires capacity == was + Growth(build, baseSize, room, n)
      ensures GrowsEnough(build, baseSize, room, n) <==> position + n <= capacity
      ensures 0 < n ==> position < capacity
    {
      if room < n {
        BlocksAddedExact(build, baseSize, room, n);
        StartIsProduct(baseSize, BlocksAdded(build, baseSize, room, n - room));
      }
    }

    /** Where the cursor is after `d` more bytes of its block. */
    lemma AdvanceCursor(k: nat, p: nat, d: nat)
      requires Shape() && k < |view.nodes|
      requires Start(baseSize, k) <= p && p + d <= Start(baseSize, k) + baseSize
      ensures Start(baseSize, k + 1) == Start(baseSize, k) + baseSize
      ensures p + d <= capacity
      ensures p + d == capacity && p + d == Start(baseSize, k + 1) ==> k + 1 == |view.nodes|
      ensures k + 1 == |view.nodes| ==> capacity == Start(baseSize, k + 1)
    {
      ShapeUniform();
      StartMonotone(baseSize, k + 1, |view.nodes|);
    }

    /** Copies `n` bytes from the cursor out of the blocks and moves past them. */
    method Read(n: nat) returns (r: Outcome, buf: seq<Byte>)
      requires Valid()
      modifies this`position, this`current, this`cursor
      ensures r == ReadOutcome(build, baseSize, old(position), old(size), capacity, n)
      ensures r.OutOfRange? <==> old(position) + n > old(size)
      ensures r.Done? <==>
        old(position) + n <= old(size)
        && (build == AsMeant || (old(position) < capacity && old(position) % baseSize + n <= baseSize))
      ensures r.Done? ==> buf == old(Contents())[old(position)..old(position) + n]
      ensures r.Done? ==> position == old(position) + n && Valid()
      ensures r.OutOfRange? ==> buf == [] && position == old(position) && current == old(current) && Valid()
    {
      buf := [];
      if n > ReadSize() {
        return OutOfRange, [];
      }
      if build == AsMeant && n == 0 {
        return Done, [];
      }
      AtCapacity();
      if current == null {
        return Undefined, [];
      }
      r, buf := CopyBack(n);
      if r.Done? {
        assert Bytes()[old(position)..position] == Contents()[old(position)..position];
      }
    }

    /** The copying loop of `Read`; as shipped, a copy that crosses a block asks
        that block for every byte still wanted. */
    method CopyBack(n: nat) returns (r: Outcome, buf: seq<Byte>)
      requires Shape() && Points(current, cursor, position) && current != null && position + n <= capacity
      modifies this`position, this`current, this`cursor
      ensures r == if build == AsMeant || old(position) % baseSize + n <= baseSize then Done else Undefined
      ensures r.Done? ==> position == old(position) + n && Points(current, cursor, position)
      ensures r.Done? ==> buf == Bytes()[old(position)..position]
    {
      buf := [];
      ChainedAt(0, cursor);
      Locate(baseSize, cursor, position);
      var npos := position % baseSize;
      var ncap := current.data.Length - npos;
      var left := n;
      while left > 0
        invariant 0 <= left <= n && position == old(position) + (n - left) <= capacity
        invariant Points(current, cursor, position)
        invariant left > 0 ==> current != null && npos == position - Start(baseSize, cursor) && ncap == baseSize - npos
        invariant build == AsWritten ==> if left == 0 then old(position) % baseSize + n <= baseSize else left == n && npos == old(position) % baseSize
        invariant buf == Bytes()[old(position)..position]
      {
        ghost var p := position;
        if ncap >= left {
          var chunk := Withdraw(npos, left);
          Join(Bytes(), old(position), p, position);
          buf := buf + chunk;
          left := 0;
        } else {
          if build == AsWritten {
            return Undefined, buf;
          }
          var chunk := Withdraw(npos, ncap);
          Join(Bytes(), old(position), p, position);
          buf := buf + chunk;
          left := left - ncap;
          AtCapacity();
          ChainedAt(0, cursor);
          ncap := current.data.Length;
          npos := 0;
        }
      }
      r := Done;
    }

    /** One memcpy out of the current block; a finished block hands over to the next. */
    method Withdraw(npos: nat, n: nat) returns (chunk: seq<Byte>)
      requires Shape() && Points(current, cursor, position) && current != null
      requires npos == position - Start(baseSize, cursor) && 0 < n && npos + n <= baseSize
      modifies this`position, this`current, this`cursor
      ensures position == old(position) + n <= capacity && Points(current, cursor, position)
      ensures npos + n == baseSize ==> position == Start(baseSize, cursor)
      ensures chunk == Bytes()[old(position)..position]
    {
      AdvanceCursor(cursor, position, n);
      ChainedAt(0, cursor);
      BlockStretch(cursor);
      chunk := current.data[npos..npos + n];
      if current.data.Length == npos + n {
        current := current.next;
        cursor := cursor + 1;
      }
      position := position + n;
    }

    /** A block is its stretch of the flat buffer. */
    lemma BlockStretch(k: nat)
      requires Shape() && k < |view.nodes|
      ensures NodeOk(k) && Start(baseSize, k) + baseSize <= |Bytes()|
      ensures forall x :: 0 <= x < baseSize ==> view.nodes[k].data[x] == Bytes()[Start(baseSize, k) + x]
    {
      ChainedAt(0, k);
      ShapeUniform();
      FlattenAt(baseSize, view.blocks, k);
    }

    /** Moves the cursor by walking the list from `root`. */
    method SetPosition(val: nat) returns (r: Outcome)
      requires Valid()
      modifies this`position, this`size, this`current, this`cursor
      ensures r == SeekOutcome(build, capacity, val)
      ensures r.OutOfRange? <==> val > capacity
      ensures r.Done? <==> val < capacity || (val == capacity && build == AsMeant)
      ensures r.Done? ==> Valid() && position == val && size == (if val > old(size) then val else old(size))
      ensures r.OutOfRange? ==> Valid() && position == old(position) && size == old(size) && current == old(current)
    {
      if val > capacity {
        return OutOfRange;
      }
      position := val;
      if position > size {
        size := position;
      }
      Walk(val);
      if current == null && build == AsWritten {
        return Undefined;
      }
      r := Done;
    }

    /** Walks from `root` to the block that holds `val`; past the last block at capacity. */
    method Walk(val: nat)
      requires Shape() && val <= capacity
      modifies this`current, this`cursor
      ensures Points(current, cursor, val)
      ensures current == null <==> val == capacity
    {
      current := root;
      cursor := 0;
      ChainedAt(0, 0);
      var rest := val;
      while current != null && rest >= current.data.Length
        invariant cursor <= |view.nodes| && current == NodeAt(view.nodes, cursor)
        invariant 0 <= rest && rest + Start(baseSize, cursor) == val
        invariant current != null ==> NodeOk(cursor)
        decreases |view.nodes| - cursor
      {
        rest := rest - current.data.Length;
        current := current.next;
        cursor := cursor + 1;
        if current != null {
          ChainedAt(0, cursor);
        }
      }
      ShapeUniform();
      StartMonotone(baseSize, cursor, |view.nodes|);
    }

    /** Drops every block but the first. */
    method Clear()
      requires Valid()
      modifies this, root
      ensures Valid() && view.repr == old(view.repr)
      ensures position == 0 && size == 0 && capacity == baseSize && littleEndian == old(littleEndian)
      ensures Contents() == [] && baseSize <= |old(Bytes())| && Bytes() == old(Bytes())[..baseSize]
    {
      ChainedAt(0, 0);
      ShapeUniform();
      FlattenFirst(baseSize, view.blocks);
      root.next := null;
      current := root;
      position, size, capacity, cursor := 0, 0, baseSize, 0;
      view := view.(nodes := [root], blocks := view.blocks[..1]);
      assert NodeOk(0);
      Chain(0);
    }

    // ----- scatter buffers --------------------------------------------------

    /** Makes room for `len` bytes and returns the segments they would fill;
        the cursor and every stored byte stay. */
    method GetWriteBuffers(len: nat) returns (r: Outcome, segs: seq<Iovec>)
      requires Valid()
      modifies view.repr
      ensures r == if GrowsEnough(build, baseSize, old(Room()), len) then Done else Undefined
      ensures r.Done? ==> Valid() && Extends(old(view))
      ensures r.Done? ==> position == old(position) && size == old(size) && littleEndian == old(littleEndian)
      ensures r.Done? ==> old(capacity) <= capacity && Bytes()[..old(capacity)] == old(Bytes())
      ensures r.Done? ==> Covers(baseSize, view.nodes, view.home, segs, position, position + len) && position + len <= capacity
    {
      if len == 0 {
        return Done, [];
      }
      AddCapacity(len);
      Enough(old(Room()), len, old(capacity));
      AtCapacity();
      r, segs := Segments(len);
    }

    /** The segment loop: one segment per block, until `len` bytes are covered. */
    method Segments(len: nat) returns (r: Outcome, segs: seq<Iovec>)
      requires Shape() && Points(current, cursor, position) && current != null
      ensures r == if position + len <= capacity then Done else Undefined
      ensures r.Done? ==> Covers(baseSize, view.nodes, view.home, segs, position, position + len)
    {
      segs := [];
      AtCapacity();
      ChainedAt(0, cursor);
      var npos := Offset();
      var ncap := current.data.Length - npos;
      var cur, left := current, len;
      ghost var k: nat := cursor;
      ghost var at: nat := position;
      while left > 0
        invariant 0 <= left && at + left == position + len
        invariant Covers(baseSize, view.nodes, view.home, segs, position, at)
        invariant at <= capacity
        invariant left > 0 ==> k < |view.nodes| && cur == view.nodes[k] && NodeOk(k)
        invariant left > 0 ==> 0 < ncap == baseSize - npos && at == Start(baseSize, k) + npos
      {
        var step := if ncap >= left then left else ncap;
        AdvanceCursor(k, at, step);
        var iov := Iovec(cur.data, npos, step);
        CoversSnoc(baseSize, view.nodes, view.home, segs, iov, position, at);
        segs := segs + [iov];
        left := left - step;
        at := at + step;
        if left > 0 {
          k := k + 1;
          if cur.next == null {
            return Undefined, segs;
          }
          cur := cur.next;
          ChainedAt(0, k);
          ncap := cur.data.Length;
          npos := 0;
        }
      }
      r := Done;
    }

    /** What a scattered receive does: fills the segments with `data`, in order. */
    method Scatter(segs: seq<Iovec>, data: seq<Byte>, ghost p: nat, ghost q: nat)
      requires Shape() && Covers(baseSize, view.nodes, view.home, segs, p, q) && q <= capacity && p + |data| <= q
      modifies this`view, set i | 0 <= i < |view.nodes| :: view.nodes[i].data
      ensures Shape() && view == old(view).(blocks := view.blocks)
      ensures Laid(Bytes(), old(Bytes()), p, data, 0, |data|)
    {
      var done, i := 0, 0;
      while done < |data|
        invariant 0 <= done <= |data| && 0 <= i <= |segs|
        invariant Shape() && view == old(view).(blocks := view.blocks)
        invariant done < |data| ==> Covers(baseSize, view.nodes, view.home, segs[i..], p + done, q)
        invariant Laid(Bytes(), old(Bytes()), p, data, 0, done)
        decreases |segs| - i
      {
        assert segs[i..] != [];
        assert segs[i..][0] == segs[i] && segs[i..][1..] == segs[i + 1..];
        var s := segs[i];
        var n := if s.len <= |data| - done then s.len else |data| - done;
        ghost var before := Bytes();
        CopyIn(view.home[s.data], s.data, s.off, data, done, n);
        LaidStep(old(Bytes()), before, Bytes(), p, data, done, n);
        done := done + n;
        i := i + 1;
      }
    }

    /** Receiving into write buffers and seeking past the bytes is one `Write` of them. */
    method Receive(len: nat, data: seq<Byte>) returns (r: Outcome)
      requires Valid() && |data| <= len
      modifies view.repr
      ensures r == if GrowsEnough(build, baseSize, old(Room()), len) then SeekOutcome(build, capacity, old(position) + |data|) else Undefined
      ensures r.Done? <==>
        GrowsEnough(build, baseSize, old(Room()), len)
        && (old(position) + |data| < capacity || build == AsMeant)
      ensures build == AsMeant ==> r.Done?
      ensures r.Done? ==> Valid() && Extends(old(view))
      ensures r.Done? ==> position == old(position) + |data| && littleEndian == old(littleEndian)
      ensures r.Done? ==> old(capacity) <= capacity
      ensures r.Done? ==> Bytes() == Overlay(old(Bytes()) + Bytes()[old(capacity)..], old(position), data)
      ensures r.Done? ==> Contents() == Overlay(old(Contents()), old(position), data)
    {
      var segs;
      r, segs := GetWriteBuffers(len);
      if r == Undefined {
        return;
      }
      ghost var grown := Bytes();
      ShapeUniform();
      Scatter(segs, data, position, position + len);
      FlatWrite(old(Bytes()), grown, Bytes(), position, data, size);
      r := SetPosition(position + |data|);
    }
  }

  /** How a read of `n` bytes ends; as shipped it may not leave its block, and
      even an empty read needs a block under the cursor. */
  function ReadOutcome(build: Build, base: nat, position: nat, size: nat, capacity: nat, n: nat): Outcome
    requires 0 < base
  {
    if position + n > size then OutOfRange
    else if build == AsWritten && (position == capacity || position % base + n > base) then Undefined
    else Done
  }

  /** How a seek ends; as shipped, seeking to the capacity walks off the list. */
  function SeekOutcome(build: Build, capacity: nat, val: nat): Outcome
  {
    if val > capacity then OutOfRange
    else if build == AsWritten && val == capacity then Undefined
    else Done
  }
}
