/**
 The request machine: the control states an absolute-path request goes through,
 with the numbers of the generated code, their actions on the parser's marks,
 and the execution of a buffer. The other states (authority, IPv6 literals,
 schemes, XML and JSON messages) are one arbitrary transition function.
*/
module HttpMachine {

  const ERROR := 0
  const START := 1
  const DONE := 348

  /** What the environment fixes: the uri_relaxed flag, which nothing initialises,
      and the transitions of the states that are not spelled out. */
  datatype Machine = Machine(relaxed: bool, other: (nat, char) -> nat)

  // ----- character classes of the transition table -----------------------------------

  predicate In(lo: int, c: char, hi: int) { lo <= c as int <= hi }

  predicate Upper(c: char) { In(65, c, 90) }

  predicate Alpha(c: char) { In(65, c, 90) || In(97, c, 122) }

  predicate Digit(c: char) { In(48, c, 57) }

  predicate XDigit(c: char) { Digit(c) || In(65, c, 70) || In(97, c, 102) }

  /** Bytes above 127 are negative as signed characters. */
  predicate High(c: char) { c as int >= 128 }

  predicate Relaxed(m: Machine, c: char) { m.relaxed && (c == '^' || c == '{' || c == '}') }

  /** States 26 and 33, without "%" and, in 33, without "/". */
  predicate PathChar(m: Machine, c: char)
  {
    || c == '!' || In(36, c, 59) || c == '=' || In(64, c, 90) || c == '_' || In(97, c, 122) || c == '~'
    || High(c) || Relaxed(m, c)
  }

  /** States 20, 21, 29 and 30, without "%". */
  predicate QueryChar(m: Machine, c: char)
  {
    || c == '!' || In(36, c, 59) || c == '=' || In(63, c, 90) || c == '_' || In(97, c, 122) || c == '~'
    || High(c) || Relaxed(m, c)
  }

  /** State 19: a path without a leading "/" and without bytes above 127. */
  predicate RootlessChar(m: Machine, c: char)
  {
    c == '!' || (In(36, c, 57) && c != '/') || c == ';' || c == '=' || In(64, c, 90) || c == '_' || In(97, c, 122) || c == '~' || Relaxed(m, c)
  }

  /** States 14, 18 and 348. */
  predicate NameChar(c: char)
  {
    || c == '!' || c == '|' || c == '~' || In(1, c, 8) || In(10, c, 31) || In(35, c, 39) || In(42, c, 43)
    || In(45, c, 46) || Digit(c) || Upper(c) || In(94, c, 122)
  }

  predicate NameFirst(c: char) { NameChar(c) && c != '\n' && c != '\r' }

  // ----- the transition table -----------------------------------------------------------

  /** The states reached inside the method, 1 to 20 characters long. */
  predicate InMethod(s: nat) { s == 2 || 175 <= s <= 193 }

  function MethodState(n: nat): nat
    requires 1 <= n <= 20
  {
    if n == 1 then 2 else 173 + n
  }

  predicate Spelled(s: nat) { 1 <= s <= 33 || 175 <= s <= 193 || s == DONE }

  function Version(s: nat): char
    requires 4 <= s <= 10
  {
    "HTTP/1."[s - 4]
  }

  function Next(m: Machine, s: nat, c: char): nat
  {
    if s == 1 then
      if c == '<' then 194 else if c == '@' then 198
      else if Digit(c) || Upper(c) then 2 else ERROR
    else if InMethod(s) then
      if c == ' ' then 3
      else if (Digit(c) || Upper(c)) && s != 193 then (if s == 2 then 175 else s + 1)
      else ERROR
    else if s == 3 then
      if c == ' ' then 4 else if c == '#' then 20 else if c == '%' then 24 else if c == '/' then 33
      else if c == '?' then 29 else if Alpha(c) then 173
      else if c == '!' || In(36, c, 57) || c == ';' || c == '=' || c == '@' || c == '_' || c == '~' || Relaxed(m, c) then 19
      else ERROR
    else if 4 <= s <= 10 then (if c == Version(s) then s + 1 else ERROR)
    else if s == 11 then (if c == '0' || c == '1' then 12 else ERROR)
    else if s == 12 then (if c == '\n' then 13 else if c == '\r' then 17 else ERROR)
    else if s == 13 then
      if c == '\n' then DONE else if c == '\r' then 18 else if NameFirst(c) then 14 else ERROR
    else if s == 14 || s == DONE then
      if c == ':' then 15 else if NameChar(c) then 14 else ERROR
    else if s == 15 then
      if c == '\0' || c as int == 127 then ERROR
      else if c == '\t' || c == ' ' then 15 else if c == '\n' then 13 else if c == '\r' then 17 else 16
    else if s == 16 then
      if c == '\0' || c as int == 127 then ERROR
      else if c == '\n' then 13 else if c == '\r' then 17 else 16
    else if s == 17 then (if c == '\n' then 13 else ERROR)
    else if s == 18 then
      if c == '\n' then DONE else if c == ':' then 15 else if NameChar(c) then 14 else ERROR
    else if s == 19 then
      if c == ' ' then 4 else if c == '#' then 20 else if c == '%' then 24 else if c == '/' then 26
      else if c == '?' then 29 else if RootlessChar(m, c) then 19 else ERROR
    else if s == 20 || s == 21 then
      if c == ' ' then 4 else if c == '%' then 22 else if QueryChar(m, c) then 21 else ERROR
    else if s == 22 || s == 24 || s == 27 || s == 31 then (if XDigit(c) then s + 1 else ERROR)
    else if s == 23 then (if XDigit(c) then 21 else ERROR)
    else if s == 25 then (if XDigit(c) then 19 else ERROR)
    else if s == 28 then (if XDigit(c) then 26 else ERROR)
    else if s == 32 then (if XDigit(c) then 30 else ERROR)
    else if s == 26 || s == 33 then
      if c == ' ' then 4 else if c == '#' then 20 else if c == '%' then 27 else if c == '?' then 29
      else if s == 33 && c == '/' then 34 else if PathChar(m, c) then 26 else ERROR
    else if s == 29 || s == 30 then
      if c == ' ' then 4 else if c == '#' then 20 else if c == '%' then 31 else if QueryChar(m, c) then 30 else ERROR
    else m.other(s, c)
  }

  // ----- executing buffers, control only --------------------------------------------------

  /** The inner loop from state `s`: the state it stops in and the bytes it consumed.
      An error leaves the offending byte; a final state is left at once. */
  function Scan(m: Machine, s: nat, buf: string): (r: (nat, nat))
    ensures r.1 <= |buf|
    decreases |buf|
  {
    if buf == "" then (s, 0)
    else
      var n := Next(m, s, buf[0]);
      if n == ERROR then (ERROR, 0)
      else if n >= DONE then (n, 1)
      else var (t, k) := Scan(m, n, buf[1..]); (t, k + 1)
  }

  /** http_parser_execute on the stored state: an error stays and consumes nothing. */
  function Execute(m: Machine, s: nat, buf: string): (r: (nat, nat))
    ensures r.1 <= |buf|
  {
    if s == ERROR then (ERROR, 0) else Scan(m, s, buf)
  }

  predicate Stopped(s: nat) { s == ERROR || s >= DONE }

  /** Feeding the buffers one after the other until the parser finishes or fails. */
  function Feed(m: Machine, s: nat, bufs: seq<string>): (nat, nat)
    decreases |bufs|
  {
    if bufs == [] || Stopped(s) then (s, 0)
    else
      var (t, k) := Execute(m, s, bufs[0]);
      var (u, n) := Feed(m, t, bufs[1..]);
      (u, k + n)
  }

  function Joined(bufs: seq<string>): string
  {
    if bufs == [] then "" else bufs[0] + Joined(bufs[1..])
  }

  /** A scan of two pieces is a scan of the first and, if it did not stop, of the second. */
  lemma {:induction false} ScanJoined(m: Machine, s: nat, a: string, b: string)
    requires !Stopped(s)
    ensures var (t, k) := Scan(m, s, a);
            Scan(m, s, a + b) == if Stopped(t) then (t, k) else (Scan(m, t, b).0, k + Scan(m, t, b).1)
    ensures !Stopped(Scan(m, s, a).0) ==> Scan(m, s, a).1 == |a|
    decreases |a|
  {
    hide Next;
    if a == "" {
      assert a + b == b;
    } else {
      assert (a + b)[1..] == a[1..] + b;
      var n := Next(m, s, a[0]);
      if !Stopped(n) {
        ScanJoined(m, n, a[1..], b);
      }
    }
  }

  /** For every split of the input, the final state and the number of consumed bytes
      are those of the one-buffer run, over the whole machine. */
  lemma {:induction false} SegmentationIndependent(m: Machine, s: nat, bufs: seq<string>)
    requires !Stopped(s)
    ensures Feed(m, s, bufs) == Execute(m, s, Joined(bufs))
    decreases |bufs|
  {
    hide Next, Scan;
    if bufs == [] {
      assert Scan(m, s, "") == (s, 0) by { ScanNothing(m, s); }
    } else {
      ScanJoined(m, s, bufs[0], Joined(bufs[1..]));
      var (t, k) := Execute(m, s, bufs[0]);
      if !Stopped(t) {
        SegmentationIndependent(m, t, bufs[1..]);
      }
    }
  }

  lemma ScanNothing(m: Machine, s: nat)
    ensures Scan(m, s, "") == (s, 0)
  {
  }

  // ----- the table against the grammar --------------------------------------------------------

  /** Section 2.3 of RFC 3986. */
  predicate Unreserved(c: char) { Alpha(c) || Digit(c) || c in {'-', '.', '_', '~'} }

  /** Section 2.2 of RFC 3986. */
  predicate SubDelim(c: char) { c in {'!', '$', '&', '\'', '(', ')', '*', '+', ',', ';', '='} }

  /** The grammar's pchar without its percent-encoded triplets: section 3.3 of RFC 3986,
      plus bytes above 127 and the three relaxed delimiters. */
  predicate PChar(m: Machine, c: char)
  {
    Unreserved(c) || SubDelim(c) || c == ':' || c == '@' || High(c) || Relaxed(m, c)
  }

  /** What the looping states refuse, by the grammar's classes, and what the digit states do. */
  lemma RefusesExactly(m: Machine, s: nat, c: char)
    ensures s == 26 ==> (Next(m, s, c) == ERROR <==> !(PChar(m, c) || c in {'/', '%', ' ', '?', '#'}))
    ensures s == 33 ==> (Next(m, s, c) == ERROR ==> !(PChar(m, c) || c in {'%', ' ', '?', '#'}))
    ensures s == 30 ==> (Next(m, s, c) == ERROR <==> !(PChar(m, c) || c in {'/', '?', '%', ' ', '#'}))
    ensures s == 21 ==> (Next(m, s, c) == ERROR <==> !(PChar(m, c) || c in {'/', '?', '%', ' '}))
    ensures s == 19 ==>
      (Next(m, s, c) == ERROR <==> !(Unreserved(c) || SubDelim(c) || Relaxed(m, c) || c in {'@', '/', '%', ' ', '?', '#'}))
    ensures s in {22, 23, 24, 25, 27, 28, 31, 32} ==> (Next(m, s, c) == ERROR <==> c !in "0123456789abcdefABCDEF")
    ensures s == 14 ==> (Next(m, s, c) == ERROR <==> c != ':' && !(0 < c as int < 127 && !Separator(c)))
    ensures s == 15 || s == 16 ==> (Next(m, s, c) == ERROR <==> c == '\0' || c as int == 127)
  {
    TableIsGrammar(m, c);
  }

  /** A line may end in a newline alone wherever it may end in a return and a newline. */
  lemma NewlineAlone(m: Machine, s: nat)
    requires s in {12, 13, 15, 16}
    ensures Next(m, s, '\r') == (if s == 13 then 18 else 17)
    ensures Next(m, s, '\n') == Next(m, Next(m, s, '\r'), '\n')
    ensures Next(m, s, '\n') == (if s == 13 then DONE else 13)
  {
  }

  /** The separators of section 2.2 of RFC 2616. */
  predicate Separator(c: char)
  {
    c in {'(', ')', '<', '>', '@', ',', ';', ':', '\\', '"', '/', '[', ']', '?', '=', '{', '}', ' ', '\t'}
  }

  /** The ranges of the generated table are the grammar's classes: paths and queries, a first
      segment without a leading "/", and header names, whose only excluded control characters
      are 0 and 127. */
  lemma TableIsGrammar(m: Machine, c: char)
    ensures PathChar(m, c) <==> PChar(m, c) || c == '/' || c == '%'
    ensures QueryChar(m, c) <==> PChar(m, c) || c == '/' || c == '?' || c == '%'
    ensures RootlessChar(m, c) <==> Unreserved(c) || SubDelim(c) || c == '@' || Relaxed(m, c) || c == '%'
    ensures NameChar(c) <==> 0 < c as int < 127 && !Separator(c)
    ensures XDigit(c) <==> c in "0123456789abcdefABCDEF"
    ensures Upper(c) <==> 'A' <= c <= 'Z'
    ensures Digit(c) <==> '0' <= c <= '9'
  {
    hide XDigit;
    HexDigits(c);
  }

  lemma HexDigits(c: char)
    ensures XDigit(c) <==> c in "0123456789abcdefABCDEF"
  {
    var digits := "0123456789abcdefABCDEF";
    if Digit(c) {
      assert digits[c as int - 48] == c;
    } else if In(97, c, 102) {
      assert digits[c as int - 87] == c;
    } else if In(65, c, 70) {
      assert digits[c as int - 49] == c;
    }
  }
}
