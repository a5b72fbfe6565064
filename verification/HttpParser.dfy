/**
 The request parser: the machine's actions on its marks, the callbacks they make
 on the request being filled in, and the execution of a buffer in place.
*/
module HttpParser {
  import opened HttpMachine
  import opened HttpText

  /** The parser's stored fields and the request the callbacks write into. Marks are
      offsets into the buffer of the current call. */
  datatype Regs = Regs(
    cs: nat, mark: nat, fieldStart: nat, fieldLen: nat, queryStart: nat,
    req: Request, error: nat)

  /** The machine, and whatever the states that are not spelled out do to the registers. */
  datatype Env = Env(m: Machine, touch: (Regs, string, nat) -> Regs)

  const INITIAL := Regs(START, 0, 0, 0, 0, BLANK, 0)

  /** The bytes from `a` to `b`; a mark left over from an earlier buffer can lie after
      `b`, and then nothing sensible is there to be read. */
  function Slice(buf: string, a: nat, b: nat): string
  {
    if a <= b <= |buf| then buf[a..b] else ""
  }

  // ----- callbacks --------------------------------------------------------------------

  /** The name is looked for at the mark, not in the matched bytes only. */
  function OnMethod(r: Regs, buf: string): Regs
  {
    var k := FindMethod(Slice(buf, r.mark, |buf|), 0);
    if k == INVALID_METHOD then r.(error := 1000) else r.(req := r.req.(method_ := k))
  }

  function OnPath(r: Regs, buf: string, p: nat): Regs { r.(req := r.req.(path := Slice(buf, r.mark, p))) }

  function OnFragment(r: Regs, buf: string, p: nat): Regs { r.(req := r.req.(fragment := Slice(buf, r.mark, p))) }

  function OnQuery(r: Regs, buf: string, p: nat): Regs { r.(req := r.req.(query := Slice(buf, r.queryStart, p))) }

  function OnVersion(r: Regs, buf: string, p: nat): Regs
  {
    var text := Slice(buf, r.mark, p);
    if text == "HTTP/1.1" then r.(req := r.req.(version := 0x11))
    else if text == "HTTP/1.0" then r.(req := r.req.(version := 0x10))
    else r.(error := 1001)
  }

  function OnField(r: Regs, buf: string, p: nat): Regs
  {
    if r.fieldLen == 0 then r.(error := 1002)
    else
      var name := Slice(buf, r.fieldStart, r.fieldStart + r.fieldLen);
      r.(req := r.req.(headers := SetHeader(r.req.headers, name, Slice(buf, r.mark, p))))
  }

  predicate Ends(c: char) { c == '\n' || c == '\r' }

  /** The actions of the transition taken on byte `p`, before the state changes. */
  function Act(e: Env, r: Regs, buf: string, p: nat): Regs
    requires p < |buf|
  {
    var s, c := r.cs, buf[p];
    if s == 1 then r.(mark := p)
    else if InMethod(s) then (if c == ' ' then OnMethod(r, buf) else r)
    else if s == 3 then
      if c == ' ' || c == '#' || c == '?' then OnPath(r.(mark := p), buf, p) else r.(mark := p)
    else if s == 4 then r.(mark := p)
    else if s == 12 then OnVersion(r, buf, p)
    else if s == 13 then r.(fieldStart := p)
    else if s == 14 || s == 18 || s == DONE then
      if c == ':' then r.(fieldLen := if r.fieldStart <= p then p - r.fieldStart else 0) else r
    else if s == 15 then (if Ends(c) then OnField(r.(mark := p), buf, p) else r.(mark := p))
    else if s == 16 then (if Ends(c) then OnField(r, buf, p) else r)
    else if s == 19 || s == 26 || s == 33 then
      if c == ' ' || c == '#' || c == '?' then OnPath(r, buf, p) else r
    else if s == 20 then (if c == ' ' then OnFragment(r.(mark := p), buf, p) else r.(mark := p))
    else if s == 21 then (if c == ' ' then OnFragment(r, buf, p) else r)
    else if s == 29 then
      if c == ' ' || c == '#' then OnQuery(r.(queryStart := p), buf, p) else r.(queryStart := p)
    else if s == 30 then (if c == ' ' || c == '#' then OnQuery(r, buf, p) else r)
    else if Spelled(s) then r
    else e.touch(r, buf, p)
  }

  /** A line that ends in a newline alone hands over the same version, value or field as one
      that ends in a return. */
  lemma NewlineActs(e: Env, r: Regs, a: string, b: string, p: nat)
    requires r.cs in {12, 15, 16} && r.fieldStart + r.fieldLen <= p
    requires p < |a| && p < |b| && a[..p] == b[..p] && a[p] == '\n' && b[p] == '\r'
    ensures Act(e, r, a, p) == Act(e, r, b, p)
  {
    hide SetHeader;
    SameSlice(a, b, p, r.mark, p);
    SameSlice(a, b, p, r.fieldStart, r.fieldStart + r.fieldLen);
    SameSlice(a, b, p, p, p);
  }

  lemma SameSlice(a: string, b: string, p: nat, i: nat, j: nat)
    requires p <= |a| && p <= |b| && a[..p] == b[..p] && j <= p
    ensures Slice(a, i, j) == Slice(b, i, j)
  {
    if i <= j {
      assert a[i..j] == a[..p][i..j] && b[i..j] == b[..p][i..j];
    }
  }

  // ----- executing a buffer --------------------------------------------------------------

  /** The machine from byte `p` on: the final registers and the bytes consumed. */
  function Run(e: Env, buf: string, p: nat, r: Regs): (out: (Regs, nat))
    requires p <= |buf|
    ensures p <= out.1 <= |buf|
    decreases |buf| - p
  {
    if p == |buf| then (r, p)
    else
      var n := Next(e.m, r.cs, buf[p]);
      if n == ERROR then (r.(cs := ERROR), p)
      else
        var t := Act(e, r, buf, p).(cs := n);
        if n >= DONE then (t, p + 1) else Run(e, buf, p + 1, t)
  }

  /** http_parser_execute: the marks start afresh in every non-empty buffer. */
  function Executed(e: Env, r: Regs, buf: string): (out: (Regs, nat))
    ensures out.1 <= |buf|
  {
    if buf == "" then (r, 0)
    else
      var t := r.(mark := 0, fieldLen := 0, fieldStart := 0);
      if r.cs == ERROR then (t, 0) else Run(e, buf, 0, t)
  }

  /** The actions never change which states are visited: the parser is the machine
      of HttpMachine, and so inherits its independence of segmentation. */
  lemma {:induction false} RunFollowsMachine(e: Env, buf: string, p: nat, r: Regs)
    requires p <= |buf|
    ensures var (t, k) := Scan(e.m, r.cs, buf[p..]);
            Run(e, buf, p, r).0.cs == t && Run(e, buf, p, r).1 == p + k
    decreases |buf| - p
  {
    hide Next, Act;
    if p < |buf| {
      assert buf[p..][0] == buf[p] && buf[p..][1..] == buf[p + 1..];
      var n := Next(e.m, r.cs, buf[p]);
      if n != ERROR && n < DONE {
        RunFollowsMachine(e, buf, p + 1, Act(e, r, buf, p).(cs := n));
      }
    }
  }

  lemma ExecutedFollowsMachine(e: Env, r: Regs, buf: string)
    ensures (Executed(e, r, buf).0.cs, Executed(e, r, buf).1) == Execute(e.m, r.cs, buf)
  {
    hide Next, Scan, Run;
    ScanNothing(e.m, r.cs);
    assert buf[0..] == buf;
    RunFollowsMachine(e, buf, 0, r.(mark := 0, fieldLen := 0, fieldStart := 0));
  }

  /** No mark of an earlier buffer is used in a later one, save where a query started. */
  lemma MarksAreForgotten(e: Env, r: Regs, buf: string, mark: nat, start: nat, len: nat)
    requires buf != ""
    ensures Executed(e, r.(mark := mark, fieldStart := start, fieldLen := len), buf) == Executed(e, r, buf)
  {
    hide Run;
    assert r.(mark := mark, fieldStart := start, fieldLen := len).(mark := 0, fieldLen := 0, fieldStart := 0)
        == r.(mark := 0, fieldLen := 0, fieldStart := 0);
  }

  /** Feeding buffers one after the other until the parser finishes or fails. */
  function FeedAll(e: Env, r: Regs, bufs: seq<string>): (Regs, nat)
    decreases |bufs|
  {
    if bufs == [] || Stopped(r.cs) then (r, 0)
    else
      var (t, k) := Executed(e, r, bufs[0]);
      var (u, n) := FeedAll(e, t, bufs[1..]);
      (u, k + n)
  }

  lemma {:induction false} FeedAllFollowsMachine(e: Env, r: Regs, bufs: seq<string>)
    ensures (FeedAll(e, r, bufs).0.cs, FeedAll(e, r, bufs).1) == Feed(e.m, r.cs, bufs)
    decreases |bufs|
  {
    hide Executed, Execute;
    if bufs != [] && !Stopped(r.cs) {
      ExecutedFollowsMachine(e, r, bufs[0]);
      FeedAllFollowsMachine(e, Executed(e, r, bufs[0]).0, bufs[1..]);
    }
  }

  /** However the input is cut into buffers, the parser ends in the state, and after the
      number of bytes, of one call on the whole input. */
  lemma SegmentsDoNotMatter(e: Env, r: Regs, bufs: seq<string>)
    requires !Stopped(r.cs)
    ensures (FeedAll(e, r, bufs).0.cs, FeedAll(e, r, bufs).1) ==
            (Executed(e, r, Joined(bufs)).0.cs, Executed(e, r, Joined(bufs)).1)
  {
    hide Executed, Execute, FeedAll, Feed;
    FeedAllFollowsMachine(e, r, bufs);
    SegmentationIndependent(e.m, r.cs, bufs);
    ExecutedFollowsMachine(e, r, Joined(bufs));
  }

  /** Giving the parser every buffer, whether or not it has finished or failed. */
  function ExecuteAll(e: Env, r: Regs, bufs: seq<string>): (Regs, nat)
    decreases |bufs|
  {
    if bufs == [] then (r, 0)
    else
      var (t, k) := Executed(e, r, bufs[0]);
      var (u, n) := ExecuteAll(e, t, bufs[1..]);
      (u, k + n)
  }

  lemma {:induction false} FailedStays(e: Env, r: Regs, bufs: seq<string>)
    requires r.cs == ERROR
    ensures var (u, n) := ExecuteAll(e, r, bufs);
            u.cs == ERROR && u.req == r.req && u.error == r.error && n == 0
    decreases |bufs|
  {
    if bufs != [] {
      FailedStays(e, Executed(e, r, bufs[0]).0, bufs[1..]);
    }
  }

  /** If any prefix of what a parser is given makes it fail, everything after that leaves it
      failed, its request and error code as they were, and consumes nothing. */
  lemma {:induction false} ErrorIsFinal(e: Env, r: Regs, bufs: seq<string>, more: seq<string>)
    requires ExecuteAll(e, r, bufs).0.cs == ERROR
    ensures var (t, n) := ExecuteAll(e, r, bufs);
            var (u, k) := ExecuteAll(e, r, bufs + more);
            u.cs == ERROR && u.req == t.req && u.error == t.error && k == n
    decreases |bufs|
  {
    hide Executed;
    if bufs == [] {
      assert bufs + more == more;
      FailedStays(e, r, more);
    } else {
      assert (bufs + more)[1..] == bufs[1..] + more;
      ErrorIsFinal(e, Executed(e, r, bufs[0]).0, bufs[1..], more);
    }
  }

  class RequestParser {
    var regs: Regs

    constructor ()
      ensures regs == INITIAL
    {
      regs := INITIAL;
    }

    /** http_parser_execute on the first `len` bytes. */
    method Parse(e: Env, data: array<char>, len: nat) returns (p: nat)
      requires len <= data.Length
      modifies this
      ensures (regs, p) == Executed(e, old(regs), data[..len])
    {
      hide Next, Act;
      p := 0;
      if len == 0 { return; }
      regs := regs.(mark := 0, fieldLen := 0, fieldStart := 0);
      if regs.cs == ERROR { return; }
      ghost var buf := data[..len];
      ghost var start := regs;
      while p < len
        invariant 0 <= p <= len
        invariant Run(e, buf, 0, start) == Run(e, buf, p, regs)
      {
        var n := Next(e.m, regs.cs, data[p]);
        if n == ERROR {
          regs := regs.(cs := ERROR);
          return;
        }
        regs := Act(e, regs, data[..len], p).(cs := n);
        if n >= DONE {
          p := p + 1;
          return;
        }
        p := p + 1;
      }
    }

    /** HttpRequestParser::execute: parses, then moves the unread bytes to the front. */
    method Execute(e: Env, data: array<char>, len: nat) returns (rt: nat)
      requires len <= data.Length
      modifies this, data
      ensures (regs, rt) == Executed(e, old(regs), old(data[..len]))
      ensures data[..len - rt] == old(data[rt..len])
      ensures data[len - rt..] == old(data[len - rt..])
    {
      hide Executed;
      rt := Parse(e, data, len);
      var i := 0;
      while i < len - rt
        modifies data
        invariant 0 <= i <= len - rt
        invariant forall k :: 0 <= k < i ==> data[k] == old(data[rt + k])
        invariant forall k :: i <= k < data.Length ==> data[k] == old(data[k])
      {
        data[i] := data[rt + i];
        i := i + 1;
      }
      assert forall k :: 0 <= k < len - rt ==> data[..len - rt][k] == old(data[rt..len])[k];
    }
  }
}
