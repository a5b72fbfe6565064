/**
 Printing and parsing a request undo each other: the parser, run on the text of
 any printable request followed by any bytes, gives back the request and stops
 at the first byte of the body.
*/
module HttpRoundTrip {
  import opened HttpMachine
  import opened Wrappers
  import opened HttpText
  import opened HttpParser

  // ----- what can be printed and read back ------------------------------------------------

  /** URI text: characters of the class and percent-encoded octets. */
  predicate UriText(m: Machine, text: string, query: bool)
  {
    text == "" ||
    if text[0] == '%' then |text| >= 3 && XDigit(text[1]) && XDigit(text[2]) && UriText(m, text[3..], query)
    else (if query then QueryChar(m, text[0]) else PathChar(m, text[0])) && UriText(m, text[1..], query)
  }

  /** A path with a single leading "/". */
  predicate PathOk(m: Machine, path: string)
  {
    |path| > 0 && path[0] == '/' && (|path| > 1 ==> path[1] != '/') && UriText(m, path[1..], false)
  }

  predicate NameOk(name: string)
  {
    name != "" && NameFirst(name[0]) && forall i :: 0 <= i < |name| ==> NameChar(name[i])
  }

  predicate ValueChar(c: char) { c != '\0' && c != '\n' && c != '\r' && c as int != 127 }

  predicate ValueOk(value: string)
  {
    forall i :: 0 <= i < |value| ==> ValueChar(value[i])
  }

  predicate FieldsOk(fs: seq<Field>)
  {
    forall i :: 0 <= i < |fs| ==> NameOk(fs[i].name) && ValueOk(fs[i].value)
  }

  predicate Printable(m: Machine, q: Request)
  {
    && q.method_ < METHODS && q.method_ != MSEARCH
    && (q.version == 0x10 || q.version == 0x11)
    && PathOk(m, q.path) && UriText(m, q.query, true) && UriText(m, q.fragment, true)
    && Sorted(q.headers) && FieldsOk(q.headers)
  }

  predicate Blank(c: char) { c == ' ' || c == '\t' }

  /** What the parser keeps of a value: it skips leading blanks. */
  function Trimmed(value: string): string
  {
    if value != "" && Blank(value[0]) then Trimmed(value[1..]) else value
  }

  // ----- text in a buffer -------------------------------------------------------------------

  predicate At(buf: string, p: nat, text: string)
  {
    p + |text| <= |buf| && buf[p..p + |text|] == text
  }

  lemma AtSplit(buf: string, p: nat, a: string, b: string)
    requires At(buf, p, a + b)
    ensures At(buf, p, a) && At(buf, p + |a|, b)
  {
    assert buf[p..p + |a + b|][..|a|] == buf[p..p + |a|];
    assert buf[p..p + |a + b|][|a|..] == buf[p + |a|..p + |a| + |b|];
  }

  lemma AtChar(buf: string, p: nat, text: string, k: nat)
    requires At(buf, p, text) && k < |text|
    ensures p + k < |buf| && buf[p + k] == text[k]
  {
    assert buf[p..p + |text|][k] == buf[p + k];
  }

  lemma AtTail(buf: string, p: nat, text: string, k: nat)
    requires At(buf, p, text) && k <= |text|
    ensures At(buf, p, text[..k]) && At(buf, p + k, text[k..])
  {
    assert text[..k] + text[k..] == text;
    AtSplit(buf, p, text[..k], text[k..]);
  }

  // ----- steps ---------------------------------------------------------------------------------

  lemma Step(e: Env, buf: string, p: nat, r: Regs, n: nat)
    requires p < |buf| && n == Next(e.m, r.cs, buf[p]) && !Stopped(n)
    ensures Run(e, buf, p, r) == Run(e, buf, p + 1, Act(e, r, buf, p).(cs := n))
  {
    hide Next, Act;
  }

  /** Bytes on which the state and the registers stay as they are. */
  lemma {:induction false} Loop(e: Env, buf: string, p: nat, q: nat, r: Regs)
    requires p <= q <= |buf| && !Stopped(r.cs)
    requires forall k :: p <= k < q ==> Next(e.m, r.cs, buf[k]) == r.cs && Act(e, r, buf, k) == r
    ensures Run(e, buf, p, r) == Run(e, buf, q, r)
    decreases q - p
  {
    hide Next, Act;
    if p < q {
      Step(e, buf, p, r, r.cs);
      assert Act(e, r, buf, p).(cs := r.cs) == r;
      Loop(e, buf, p + 1, q, r);
    }
  }

  // ----- the method -------------------------------------------------------------------------------

  predicate AllUpper(text: string)
  {
    forall k :: 0 <= k < |text| ==> Upper(text[k])
  }

  lemma MethodLetters(i: nat)
    requires i < METHODS && i != MSEARCH
    ensures AllUpper(MethodName(i)) && 3 <= |MethodName(i)| <= 20
  {
    hide MethodName, AllUpper;
    if i < 17 {
      EarlyLetters(i);
    } else {
      LateLetters(i);
    }
  }

  lemma LateLetters(i: nat)
    requires 17 <= i < METHODS && i != MSEARCH
    ensures AllUpper(MethodName(i)) && 3 <= |MethodName(i)| <= 20
  {
  }

  lemma EarlyLetters(i: nat)
    requires i < 17
    ensures AllUpper(MethodName(i)) && 3 <= |MethodName(i)| <= 20
  {
  }

  lemma InMethodStep(e: Env, buf: string, p: nat, k: nat, r: Regs)
    requires p < |buf| && 1 <= k <= 20 && r.cs == MethodState(k)
    ensures k < 20 && (Upper(buf[p]) || Digit(buf[p])) ==> Next(e.m, r.cs, buf[p]) == MethodState(k + 1) && Act(e, r, buf, p) == r
    ensures buf[p] == ' ' ==> Next(e.m, r.cs, buf[p]) == 3 && Act(e, r, buf, p) == OnMethod(r, buf)
  {
    hide OnMethod;
  }

  lemma {:induction false} LettersRun(e: Env, buf: string, k: nat, n: nat, r: Regs)
    requires 1 <= k <= n <= 20 && n <= |buf| && r.cs == MethodState(k)
    requires forall j :: k <= j < n ==> Upper(buf[j]) || Digit(buf[j])
    ensures Run(e, buf, k, r) == Run(e, buf, n, r.(cs := MethodState(n)))
    decreases n - k
  {
    hide Next, Act, Run;
    if k < n {
      InMethodStep(e, buf, k, k, r);
      Step(e, buf, k, r, MethodState(k + 1));
      LettersRun(e, buf, k + 1, n, r.(cs := MethodState(k + 1)));
    } else {
      assert r.(cs := MethodState(k)) == r;
    }
  }

  lemma MethodRun(e: Env, buf: string, i: nat, r: Regs)
    requires i < METHODS && i != MSEARCH && r.cs == START && At(buf, 0, MethodName(i) + " ")
    ensures |MethodName(i)| < |buf|
    ensures Run(e, buf, 0, r) ==
            Run(e, buf, |MethodName(i)| + 1, r.(cs := 3, mark := 0, req := r.req.(method_ := i)))
  {
    hide MethodName, FindMethod, Next, Act, Run, At;
    var name := MethodName(i);
    MethodLetters(i);
    AtSplit(buf, 0, name, " ");
    forall k | 0 <= k < |name|
      ensures k < |buf| && buf[k] == name[k]
    {
      AtChar(buf, 0, name, k);
    }
    AtChar(buf, |name|, " ", 0);
    FirstLetter(e, buf, r);
    Step(e, buf, 0, r, 2);
    var t := r.(cs := 2, mark := 0);
    LettersRun(e, buf, 1, |name|, t);
    var u := t.(cs := MethodState(|name|));
    InMethodStep(e, buf, |name|, |name|, u);
    Step(e, buf, |name|, u, 3);
    assert Starts(buf[0..], name);
    MethodFound(i, 0, buf[0..]);
    assert Slice(buf, u.mark, |buf|) == buf[0..];
    assert OnMethod(u, buf) == u.(req := u.req.(method_ := i));
  }

  lemma FirstLetter(e: Env, buf: string, r: Regs)
    requires buf != "" && r.cs == START && (Upper(buf[0]) || Digit(buf[0]))
    ensures Next(e.m, START, buf[0]) == 2 && Act(e, r, buf, 0) == r.(mark := 0)
  {
  }

  lemma {:induction false} NotFound(text: string, i: nat)
    requires i <= METHODS && forall j :: i <= j < METHODS ==> !Starts(text, MethodName(j))
    ensures FindMethod(text, i) == INVALID_METHOD
    decreases METHODS - i
  {
    hide MethodName, Starts;
    if i < METHODS {
      NotFound(text, i + 1);
    }
  }

  /** A method that starts with no listed name is read to its end, leaves the request as it
      was and sets the error code 1000. */
  lemma UnlistedMethod(e: Env, buf: string, n: nat, r: Regs)
    requires r.cs == START && 1 <= n <= 20 && n < |buf| && buf[n] == ' '
    requires forall j :: 0 <= j < n ==> Upper(buf[j]) || Digit(buf[j])
    requires forall i :: 0 <= i < METHODS ==> !Starts(buf, MethodName(i))
    ensures Run(e, buf, 0, r) == Run(e, buf, n + 1, r.(cs := 3, mark := 0, error := 1000))
  {
    hide MethodName, FindMethod, Next, Act, Run;
    FirstLetter(e, buf, r);
    Step(e, buf, 0, r, 2);
    var t := r.(cs := 2, mark := 0);
    LettersRun(e, buf, 1, n, t);
    var u := t.(cs := MethodState(n));
    InMethodStep(e, buf, n, n, u);
    Step(e, buf, n, u, 3);
    assert Slice(buf, u.mark, |buf|) == buf;
    NotFound(buf, 0);
    assert OnMethod(u, buf) == u.(error := 1000);
  }

  /** An error code, once set, is not cleared by anything that follows in the buffer. */
  lemma {:induction false} ErrorCodeStays(e: Env, buf: string, p: nat, r: Regs)
    requires p <= |buf| && r.error != 0
    requires forall x: Regs, b: string, k: nat :: x.error != 0 ==> e.touch(x, b, k).error != 0
    ensures Run(e, buf, p, r).0.error != 0
    decreases |buf| - p
  {
    hide Next, Act;
    if p < |buf| {
      var n := Next(e.m, r.cs, buf[p]);
      ActKeepsError(e, r, buf, p);
      if n != ERROR && n < DONE {
        ErrorCodeStays(e, buf, p + 1, Act(e, r, buf, p).(cs := n));
      }
    }
  }

  lemma ActKeepsError(e: Env, r: Regs, buf: string, p: nat)
    requires p < |buf| && r.error != 0
    requires forall x: Regs, b: string, k: nat :: x.error != 0 ==> e.touch(x, b, k).error != 0
    ensures Act(e, r, buf, p).error != 0
  {
    hide FindMethod, Slice, SetHeader;
  }

  // ----- the target --------------------------------------------------------------------------------

  lemma InsideStep(e: Env, buf: string, p: nat, r: Regs)
    requires p < |buf| && (r.cs == 21 || r.cs == 26 || r.cs == 30)
    ensures buf[p] != '%' && (if r.cs == 26 then PathChar(e.m, buf[p]) else QueryChar(e.m, buf[p])) ==>
            Next(e.m, r.cs, buf[p]) == r.cs && Act(e, r, buf, p) == r
    ensures buf[p] == '%' ==> Next(e.m, r.cs, buf[p]) == r.cs + 1 && Act(e, r, buf, p) == r
  {
  }

  lemma HexStep(e: Env, buf: string, p: nat, r: Regs)
    requires p < |buf| && r.cs in {22, 23, 27, 28, 31, 32} && XDigit(buf[p])
    ensures Act(e, r, buf, p) == r
    ensures Next(e.m, r.cs, buf[p]) == if r.cs in {22, 27, 31} then r.cs + 1 else r.cs - 2
  {
  }

  /** The two digits of a percent-encoded octet, from the state after "%". */
  lemma OctetRun(e: Env, buf: string, p: nat, r: Regs)
    requires p + 1 < |buf| && r.cs in {22, 27, 31} && XDigit(buf[p]) && XDigit(buf[p + 1])
    ensures Run(e, buf, p, r) == Run(e, buf, p + 2, r.(cs := r.cs - 1))
  {
    hide Next, Act, Run;
    HexStep(e, buf, p, r);
    Step(e, buf, p, r, r.cs + 1);
    var t := r.(cs := r.cs + 1);
    HexStep(e, buf, p + 1, t);
    Step(e, buf, p + 1, t, r.cs - 1);
  }

  /** Inside a path, a query or a fragment, text of the right class leaves the state and
      the registers alone. */
  lemma {:induction false} UriRun(e: Env, buf: string, p: nat, text: string, r: Regs)
    requires (r.cs == 21 || r.cs == 26 || r.cs == 30) && At(buf, p, text) && UriText(e.m, text, r.cs != 26)
    ensures Run(e, buf, p, r) == Run(e, buf, p + |text|, r)
    decreases |text|
  {
    hide Next, Act, Run, At, PathChar, QueryChar;
    if text == "" {
    } else if text[0] == '%' {
      AtChar(buf, p, text, 0);
      AtChar(buf, p, text, 1);
      AtChar(buf, p, text, 2);
      AtTail(buf, p, text, 3);
      InsideStep(e, buf, p, r);
      Step(e, buf, p, r, r.cs + 1);
      OctetRun(e, buf, p + 1, r.(cs := r.cs + 1));
      assert r.(cs := r.cs) == r;
      UriRun(e, buf, p + 3, text[3..], r);
    } else {
      AtChar(buf, p, text, 0);
      AtTail(buf, p, text, 1);
      InsideStep(e, buf, p, r);
      Step(e, buf, p, r, r.cs);
      assert r.(cs := r.cs) == r;
      UriRun(e, buf, p + 1, text[1..], r);
    }
  }

  /** The state inside the part that states 33, 29 and 20 open. */
  function Inside(s: nat): nat
  {
    if s == 33 then 26 else s + 1
  }

  /** Opening a part notes where it starts. */
  function Opened(r: Regs, p: nat): Regs
  {
    (if r.cs == 20 then r.(mark := p) else if r.cs == 29 then r.(queryStart := p) else r).(cs := Inside(r.cs))
  }

  lemma OpenStep(e: Env, buf: string, p: nat, r: Regs)
    requires p < |buf| && (r.cs == 20 || r.cs == 29 || r.cs == 33)
    ensures buf[p] == '%' ==>
              && Next(e.m, r.cs, buf[p]) == Inside(r.cs) + 1
              && Act(e, r, buf, p).(cs := Inside(r.cs) + 1) == Opened(r, p).(cs := Inside(r.cs) + 1)
    ensures buf[p] != '%' && (if r.cs == 33 then PathChar(e.m, buf[p]) && buf[p] != '/' else QueryChar(e.m, buf[p])) ==>
              Next(e.m, r.cs, buf[p]) == Inside(r.cs) && Act(e, r, buf, p).(cs := Inside(r.cs)) == Opened(r, p)
  {
  }

  /** A non-empty part, from the state that opens it. */
  lemma PartRun(e: Env, buf: string, p: nat, text: string, r: Regs)
    requires (r.cs == 20 || r.cs == 29 || r.cs == 33) && text != ""
    requires At(buf, p, text) && UriText(e.m, text, r.cs != 33) && (r.cs == 33 ==> text[0] != '/')
    ensures Run(e, buf, p, r) == Run(e, buf, p + |text|, Opened(r, p))
  {
    hide Next, Act, Run, At, PathChar, QueryChar;
    var t := Opened(r, p);
    AtChar(buf, p, text, 0);
    OpenStep(e, buf, p, r);
    if text[0] == '%' {
      AtChar(buf, p, text, 1);
      AtChar(buf, p, text, 2);
      AtTail(buf, p, text, 3);
      Step(e, buf, p, r, t.cs + 1);
      OctetRun(e, buf, p + 1, t.(cs := t.cs + 1));
      assert t.(cs := t.cs) == t;
      UriRun(e, buf, p + 3, text[3..], t);
    } else {
      AtTail(buf, p, text, 1);
      Step(e, buf, p, r, t.cs);
      UriRun(e, buf, p + 1, text[1..], t);
    }
  }

  /** The state a delimiter of the target leads to. */
  function AfterMark(c: char): nat
  {
    if c == ' ' then 4 else if c == '?' then 29 else 20
  }

  lemma SlashStep(e: Env, buf: string, p: nat, r: Regs)
    requires p < |buf| && r.cs == 3 && buf[p] == '/'
    ensures Next(e.m, r.cs, buf[p]) == 33 && Act(e, r, buf, p) == r.(mark := p)
  {
  }

  /** The delimiter after a part hands the part to its callback. */
  lemma CloseStep(e: Env, buf: string, q: nat, r: Regs)
    requires q < |buf| && buf[q] in {' ', '?', '#'}
    ensures r.cs == 33 || r.cs == 26 ==> Next(e.m, r.cs, buf[q]) == AfterMark(buf[q]) && Act(e, r, buf, q) == OnPath(r, buf, q)
    ensures r.cs == 30 && buf[q] != '?' ==> Next(e.m, r.cs, buf[q]) == AfterMark(buf[q]) && Act(e, r, buf, q) == OnQuery(r, buf, q)
    ensures r.cs == 21 && buf[q] == ' ' ==> Next(e.m, r.cs, buf[q]) == 4 && Act(e, r, buf, q) == OnFragment(r, buf, q)
  {
    hide OnPath, OnQuery, OnFragment;
  }

  lemma PathRun(e: Env, buf: string, p: nat, path: string, r: Regs) returns (t: Regs)
    requires r.cs == 3 && At(buf, p, path) && PathOk(e.m, path)
    requires p + |path| < |buf| && buf[p + |path|] in {' ', '?', '#'}
    ensures t.cs == AfterMark(buf[p + |path|]) && t.req == r.req.(path := path) && t.error == r.error
    ensures Run(e, buf, p, r) == Run(e, buf, p + |path| + 1, t)
  {
    hide UriText, Next, Act, Run;
    AtChar(buf, p, path, 0);
    AtTail(buf, p, path, 1);
    SlashStep(e, buf, p, r);
    Step(e, buf, p, r, 33);
    var a := r.(cs := 33, mark := p);
    var b := a;
    if |path| > 1 {
      PartRun(e, buf, p + 1, path[1..], a);
      b := a.(cs := 26);
    }
    var q := p + |path|;
    CloseStep(e, buf, q, b);
    Step(e, buf, q, b, AfterMark(buf[q]));
    t := OnPath(b, buf, q).(cs := AfterMark(buf[q]));
  }

  lemma QueryRun(e: Env, buf: string, p: nat, query: string, r: Regs) returns (t: Regs)
    requires r.cs == 29 && query != "" && At(buf, p, query) && UriText(e.m, query, true)
    requires p + |query| < |buf| && buf[p + |query|] in {' ', '#'}
    ensures t.cs == AfterMark(buf[p + |query|]) && t.req == r.req.(query := query) && t.error == r.error
    ensures Run(e, buf, p, r) == Run(e, buf, p + |query| + 1, t)
  {
    hide UriText, Next, Act, Run;
    PartRun(e, buf, p, query, r);
    var b, q := Opened(r, p), p + |query|;
    CloseStep(e, buf, q, b);
    Step(e, buf, q, b, AfterMark(buf[q]));
    t := OnQuery(b, buf, q).(cs := AfterMark(buf[q]));
  }

  lemma FragmentRun(e: Env, buf: string, p: nat, fragment: string, r: Regs) returns (t: Regs)
    requires r.cs == 20 && fragment != "" && At(buf, p, fragment) && UriText(e.m, fragment, true)
    requires p + |fragment| < |buf| && buf[p + |fragment|] == ' '
    ensures t.cs == 4 && t.req == r.req.(fragment := fragment) && t.error == r.error
    ensures Run(e, buf, p, r) == Run(e, buf, p + |fragment| + 1, t)
  {
    hide UriText, Next, Act, Run;
    PartRun(e, buf, p, fragment, r);
    var b, q := Opened(r, p), p + |fragment|;
    CloseStep(e, buf, q, b);
    Step(e, buf, q, b, 4);
    t := OnFragment(b, buf, q).(cs := 4);
  }

  /** The fragment, if there is one, and the space after the target. `p` is just after
      the delimiter before it. */
  lemma TailRun(e: Env, buf: string, p: nat, fragment: string, r: Regs) returns (t: Regs)
    requires At(buf, p, Optional("#", fragment) + " ") && UriText(e.m, fragment, true)
    requires p + 1 <= |buf| && r.cs == AfterMark(buf[p]) && r.req.fragment == ""
    ensures t.cs == 4 && t.req == r.req.(fragment := fragment) && t.error == r.error
    ensures Run(e, buf, p + 1, r) == Run(e, buf, p + |Optional("#", fragment) + " "|, t)
  {
    hide UriText, Next, Act, Run, At;
    AtChar(buf, p, Optional("#", fragment) + " ", 0);
    if fragment == "" {
      t := r;
    } else {
      AtSplit(buf, p, Optional("#", fragment), " ");
      AtSplit(buf, p, "#", fragment);
      AtChar(buf, p + |Optional("#", fragment)|, " ", 0);
      t := FragmentRun(e, buf, p + 1, fragment, r);
    }
  }

  function QueryTail(q: Request): string
  {
    Optional("?", q.query) + (Optional("#", q.fragment) + " ")
  }

  /** The request target and the space after it. */
  function Target(q: Request): string
  {
    q.path + QueryTail(q)
  }

  /** The query, if there is one, and what follows it. */
  lemma QueryTailRun(e: Env, buf: string, k: nat, q: Request, r: Regs) returns (t: Regs)
    requires At(buf, k, QueryTail(q))
    requires UriText(e.m, q.query, true) && UriText(e.m, q.fragment, true)
    requires k + 1 <= |buf| && r.cs == AfterMark(buf[k]) && r.req.query == "" && r.req.fragment == ""
    ensures t.cs == 4 && t.error == r.error
    ensures t.req == r.req.(query := q.query, fragment := q.fragment)
    ensures Run(e, buf, k + 1, r) ==
            Run(e, buf, k + |QueryTail(q)|, t)
  {
    hide UriText, Next, Act, Run, At;
    var tail := Optional("#", q.fragment) + " ";
    AtSplit(buf, k, Optional("?", q.query), tail);
    if q.query == "" {
      t := TailRun(e, buf, k, q.fragment, r);
    } else {
      var l := k + |Optional("?", q.query)|;
      AtChar(buf, k, Optional("?", q.query), 0);
      AtChar(buf, l, tail, 0);
      AtSplit(buf, k, "?", q.query);
      var b := QueryRun(e, buf, k + 1, q.query, r);
      t := TailRun(e, buf, l, q.fragment, b);
    }
  }

  /** What can follow a path. */
  lemma TailHead(q: Request)
    ensures QueryTail(q) != "" && QueryTail(q)[0] in {' ', '?', '#'}
  {
  }

  /** The whole target, from the state after the method. */
  lemma TargetRun(e: Env, buf: string, p: nat, q: Request, r: Regs) returns (t: Regs)
    requires At(buf, p, Target(q))
    requires PathOk(e.m, q.path) && UriText(e.m, q.query, true) && UriText(e.m, q.fragment, true)
    requires r.cs == 3 && r.req.query == "" && r.req.fragment == ""
    ensures t.cs == 4 && t.error == r.error
    ensures t.req == r.req.(path := q.path, query := q.query, fragment := q.fragment)
    ensures Run(e, buf, p, r) == Run(e, buf, p + |Target(q)|, t)
  {
    hide UriText, Next, Act, Run, At, PathOk, QueryTail;
    AtSplit(buf, p, q.path, QueryTail(q));
    TailHead(q);
    AtChar(buf, p + |q.path|, QueryTail(q), 0);
    var a := PathRun(e, buf, p, q.path, r);
    t := QueryTailRun(e, buf, p + |q.path|, q, a);
  }

  // ----- the version -----------------------------------------------------------------------------

  lemma VersionStep(e: Env, buf: string, p: nat, r: Regs)
    requires p < |buf| && 4 <= r.cs <= 12
    requires if r.cs <= 10 then buf[p] == Version(r.cs)
             else if r.cs == 11 then buf[p] in {'0', '1'} else buf[p] == '\r'
    ensures Next(e.m, r.cs, buf[p]) == if r.cs == 12 then 17 else r.cs + 1
    ensures Act(e, r, buf, p) ==
            if r.cs == 4 then r.(mark := p) else if r.cs == 12 then OnVersion(r, buf, p) else r
  {
    hide OnVersion;
  }

  /** Bytes `j` to 8 of a version, from the state they are read in. */
  lemma {:induction false} VersionLetters(e: Env, buf: string, p: nat, j: nat, text: string, r: Regs)
    requires 1 <= j <= 8 && r.cs == 4 + j && At(buf, p, text) && (text == "HTTP/1.1" || text == "HTTP/1.0")
    ensures Run(e, buf, p + j, r) == Run(e, buf, p + 8, r.(cs := 12))
    decreases 8 - j
  {
    hide Next, Act, Run, At;
    if j < 8 {
      AtChar(buf, p, text, j);
      VersionStep(e, buf, p + j, r);
      Step(e, buf, p + j, r, r.cs + 1);
      VersionLetters(e, buf, p, j + 1, text, r.(cs := r.cs + 1));
    } else {
      assert r.(cs := 12) == r;
    }
  }

  lemma NewlineStep(e: Env, buf: string, p: nat, r: Regs)
    requires p < |buf| && r.cs == 17 && buf[p] == '\n'
    ensures Run(e, buf, p, r) == Run(e, buf, p + 1, r.(cs := 13))
  {
  }

  lemma VersionRun(e: Env, buf: string, p: nat, text: string, r: Regs) returns (t: Regs)
    requires At(buf, p, text + "\r\n") && (text == "HTTP/1.1" || text == "HTTP/1.0") && r.cs == 4
    ensures t.cs == 13 && t.error == r.error
    ensures t.req == r.req.(version := if text == "HTTP/1.1" then 0x11 else 0x10)
    ensures Run(e, buf, p, r) == Run(e, buf, p + 10, t)
  {
    hide Next, Act, Run;
    AtSplit(buf, p, text, "\r\n");
    AtChar(buf, p, text, 0);
    AtChar(buf, p + 8, "\r\n", 0);
    AtChar(buf, p + 8, "\r\n", 1);
    VersionStep(e, buf, p, r);
    Step(e, buf, p, r, 5);
    var a := r.(cs := 5, mark := p);
    VersionLetters(e, buf, p, 1, text, a);
    var b := a.(cs := 12);
    VersionStep(e, buf, p + 8, b);
    Step(e, buf, p + 8, b, 17);
    var c := OnVersion(b, buf, p + 8).(cs := 17);
    NewlineStep(e, buf, p + 9, c);
    t := c.(cs := 13);
  }

  lemma VersionTexts()
    ensures VersionText(0x11) == "HTTP/1.1" && VersionText(0x10) == "HTTP/1.0"
  {
  }

  // ----- header lines --------------------------------------------------------------------------------

  lemma NameStep(e: Env, buf: string, p: nat, r: Regs)
    requires p < |buf|
    ensures r.cs == 13 && NameFirst(buf[p]) ==> Next(e.m, r.cs, buf[p]) == 14 && Act(e, r, buf, p) == r.(fieldStart := p)
    ensures r.cs == 14 && NameChar(buf[p]) ==> Next(e.m, r.cs, buf[p]) == 14 && Act(e, r, buf, p) == r
    ensures r.cs == 14 && buf[p] == ':' && r.fieldStart <= p ==>
              Next(e.m, r.cs, buf[p]) == 15 && Act(e, r, buf, p) == r.(fieldLen := p - r.fieldStart)
  {
  }

  lemma ValueStep(e: Env, buf: string, p: nat, r: Regs)
    requires p < |buf|
    ensures r.cs == 15 && Blank(buf[p]) ==> Next(e.m, r.cs, buf[p]) == 15 && Act(e, r, buf, p) == r.(mark := p)
    ensures r.cs == 15 && ValueChar(buf[p]) && !Blank(buf[p]) ==>
              Next(e.m, r.cs, buf[p]) == 16 && Act(e, r, buf, p) == r.(mark := p)
    ensures r.cs == 16 && ValueChar(buf[p]) ==> Next(e.m, r.cs, buf[p]) == 16 && Act(e, r, buf, p) == r
    ensures r.cs == 15 && buf[p] == '\r' ==>
              Next(e.m, r.cs, buf[p]) == 17 && Act(e, r, buf, p) == OnField(r.(mark := p), buf, p)
    ensures r.cs == 16 && buf[p] == '\r' ==>
              Next(e.m, r.cs, buf[p]) == 17 && Act(e, r, buf, p) == OnField(r, buf, p)
  {
    hide OnField;
  }

  lemma NameRun(e: Env, buf: string, p: nat, name: string, r: Regs)
    requires r.cs == 13 && At(buf, p, name + ":") && NameOk(name)
    ensures Run(e, buf, p, r) ==
            Run(e, buf, p + |name| + 1, r.(cs := 15, fieldStart := p, fieldLen := |name|))
  {
    hide Next, Act, Run, At, NameFirst, NameChar;
    AtSplit(buf, p, name, ":");
    AtChar(buf, p, name, 0);
    AtChar(buf, p + |name|, ":", 0);
    NameStep(e, buf, p, r);
    Step(e, buf, p, r, 14);
    var a := r.(cs := 14, fieldStart := p);
    forall k | p + 1 <= k < p + |name|
      ensures Next(e.m, a.cs, buf[k]) == a.cs && Act(e, a, buf, k) == a
    {
      AtChar(buf, p, name, k - p);
      NameStep(e, buf, k, a);
    }
    Loop(e, buf, p + 1, p + |name|, a);
    NameStep(e, buf, p + |name|, a);
    Step(e, buf, p + |name|, a, 15);
  }

  /** A value and the end of its line, from the state after the colon. */
  lemma {:induction false} ValueRun(e: Env, buf: string, p: nat, value: string, r: Regs) returns (t: Regs)
    requires r.cs == 15 && At(buf, p, value + "\r\n") && ValueOk(value)
    requires r.fieldLen > 0 && r.fieldStart + r.fieldLen <= p
    ensures t.cs == 13 && t.error == r.error
    ensures t.req == r.req.(headers :=
              SetHeader(r.req.headers, buf[r.fieldStart..r.fieldStart + r.fieldLen], Trimmed(value)))
    ensures Run(e, buf, p, r) == Run(e, buf, p + |value| + 2, t)
    decreases |value|
  {
    hide Next, Act, Run, At, SetHeader, ValueChar;
    AtSplit(buf, p, value, "\r\n");
    AtChar(buf, p + |value|, "\r\n", 0);
    AtChar(buf, p + |value|, "\r\n", 1);
    ValueStep(e, buf, p, r);
    if value == "" {
      Step(e, buf, p, r, 17);
      var c := OnField(r.(mark := p), buf, p).(cs := 17);
      NewlineStep(e, buf, p + 1, c);
      t := c.(cs := 13);
    } else if Blank(value[0]) {
      AtChar(buf, p, value, 0);
      Step(e, buf, p, r, 15);
      assert (value + "\r\n")[1..] == value[1..] + "\r\n";
      AtTail(buf, p, value + "\r\n", 1);
      t := ValueRun(e, buf, p + 1, value[1..], r.(mark := p));
    } else {
      AtChar(buf, p, value, 0);
      Step(e, buf, p, r, 16);
      var a := r.(cs := 16, mark := p);
      t := WordRun(e, buf, p, value, a);
    }
  }

  /** The rest of a value that starts at the mark. */
  lemma WordRun(e: Env, buf: string, p: nat, value: string, r: Regs) returns (t: Regs)
    requires r.cs == 16 && r.mark == p && value != "" && At(buf, p, value + "\r\n") && ValueOk(value)
    requires r.fieldLen > 0 && r.fieldStart + r.fieldLen <= p
    ensures t.cs == 13 && t.error == r.error
    ensures t.req == r.req.(headers :=
              SetHeader(r.req.headers, buf[r.fieldStart..r.fieldStart + r.fieldLen], value))
    ensures Run(e, buf, p + 1, r) == Run(e, buf, p + |value| + 2, t)
  {
    hide Next, Act, Run, SetHeader, ValueChar;
    AtSplit(buf, p, value, "\r\n");
    AtChar(buf, p + |value|, "\r\n", 0);
    AtChar(buf, p + |value|, "\r\n", 1);
    forall k | p + 1 <= k < p + |value|
      ensures Next(e.m, r.cs, buf[k]) == r.cs && Act(e, r, buf, k) == r
    {
      AtChar(buf, p, value, k - p);
      ValueStep(e, buf, k, r);
    }
    var q := p + |value|;
    Loop(e, buf, p + 1, q, r);
    ValueStep(e, buf, q, r);
    Step(e, buf, q, r, 17);
    var c := OnField(r, buf, q).(cs := 17);
    NewlineStep(e, buf, q + 1, c);
    t := c.(cs := 13);
  }

  lemma LineRun(e: Env, buf: string, p: nat, f: Field, r: Regs) returns (t: Regs)
    requires r.cs == 13 && At(buf, p, Line(f)) && NameOk(f.name) && ValueOk(f.value)
    ensures t.cs == 13 && t.error == r.error
    ensures t.req == r.req.(headers := SetHeader(r.req.headers, f.name, Trimmed(f.value)))
    ensures Run(e, buf, p, r) == Run(e, buf, p + |Line(f)|, t)
  {
    hide Next, Act, Run, SetHeader, NameOk, ValueOk;
    var rest := " " + f.value;
    assert Line(f) == (f.name + ":") + (rest + "\r\n");
    AtSplit(buf, p, f.name + ":", rest + "\r\n");
    AtSplit(buf, p, f.name, ":");
    NameRun(e, buf, p, f.name, r);
    var a := r.(cs := 15, fieldStart := p, fieldLen := |f.name|);
    assert ValueOk(rest) by { BlankOk(f.value); }
    assert Trimmed(rest) == Trimmed(f.value) by { assert rest[1..] == f.value; }
    assert |f.name| > 0 by { NameNonempty(f.name); }
    t := ValueRun(e, buf, p + |f.name| + 1, rest, a);
  }

  lemma BlankOk(value: string)
    requires ValueOk(value)
    ensures ValueOk(" " + value)
  {
  }

  lemma NameNonempty(name: string)
    requires NameOk(name)
    ensures |name| > 0
  {
  }

  /** The headers after setting every field of a list, as the parser reads it. */
  function Applied(h: seq<Field>, fs: seq<Field>): seq<Field>
    decreases |fs|
  {
    if fs == [] then h else Applied(SetHeader(h, fs[0].name, Trimmed(fs[0].value)), fs[1..])
  }

  lemma {:induction false} LinesRun(e: Env, buf: string, p: nat, fs: seq<Field>, r: Regs) returns (t: Regs)
    requires r.cs == 13 && At(buf, p, Lines(fs)) && FieldsOk(fs)
    ensures t.cs == 13 && t.error == r.error
    ensures t.req == r.req.(headers := Applied(r.req.headers, fs))
    ensures Run(e, buf, p, r) == Run(e, buf, p + |Lines(fs)|, t)
    decreases |fs|
  {
    hide Next, Act, Run, At, SetHeader, NameOk, ValueOk, Line, Trimmed;
    if fs == [] {
      t := r;
    } else {
      AtSplit(buf, p, Line(fs[0]), Lines(fs[1..]));
      var a := LineRun(e, buf, p, fs[0], r);
      t := LinesRun(e, buf, p + |Line(fs[0])|, fs[1..], a);
    }
  }

  // ----- the headers that come back ---------------------------------------------------------------------

  /** The entry of `x` after parsing the printed request: the connection line, then the
      body's length, then the request's own header without leading blanks. */
  function Expected(q: Request, x: string): Option<Field>
  {
    if IsConnection(x) then Some(Connection(q))
    else
      var own := Entry(q.headers, x);
      if q.body != "" && Key(x) == "content-length" then
        Some(Field(if own.Some? then own.value.name else "content-length", Decimal(|q.body|)))
      else if own.Some? then Some(Field(own.value.name, Trimmed(own.value.value)))
      else None
  }

  lemma {:induction false} AppliedJoin(h: seq<Field>, f: seq<Field>, g: seq<Field>)
    ensures Applied(h, f + g) == Applied(Applied(h, f), g)
    decreases |f|
  {
    hide SetHeader, Trimmed;
    if f == [] {
      assert f + g == g;
    } else {
      assert (f + g)[1..] == f[1..] + g;
      AppliedJoin(SetHeader(h, f[0].name, Trimmed(f[0].value)), f[1..], g);
    }
  }

  /** Setting the other headers of a sorted map, one by one. */
  lemma {:induction false} AppliedOthers(g: seq<Field>, h: seq<Field>, x: string)
    requires Sorted(g) && Sorted(h)
    ensures Sorted(Applied(g, Others(h)))
    ensures Entry(Applied(g, Others(h)), x) ==
            if IsConnection(x) || Entry(h, x).None? then Entry(g, x)
            else Some(Field(if Entry(g, x).Some? then Entry(g, x).value.name else Entry(h, x).value.name,
                            Trimmed(Entry(h, x).value.value)))
    decreases |h|
  {
    hide SetHeader, Trimmed, Key, Less;
    if h != [] {
      var f, rest := h[0], Others(h[1..]);
      if IsConnection(f.name) {
        assert Others(h) == rest;
        AppliedOthers(g, h[1..], x);
        SameKeyEntry(h, f.name, x);
      } else {
        assert Others(h)[0] == f && Others(h)[1..] == rest;
        var g' := SetHeader(g, f.name, Trimmed(f.value));
        SetHeaderEffect(g, f.name, Trimmed(f.value), x);
        AppliedOthers(g', h[1..], x);
        SameKeyEntry(h, f.name, x);
        EntryByKey(g, f.name, x);
      }
    }
  }

  /** The first entry's name is not found in the rest of a sorted map. */
  lemma SameKeyEntry(h: seq<Field>, name: string, x: string)
    requires Sorted(h) && h != [] && name == h[0].name
    ensures Key(x) == Key(name) ==> Entry(h[1..], x) == None
  {
    if Key(x) == Key(name) {
      AboveSameKey(name, x, h[1..]);
    }
  }

  lemma {:induction false} EntryByKey(h: seq<Field>, name: string, x: string)
    ensures Key(x) == Key(name) ==> Entry(h, x) == Entry(h, name)
  {
    hide Key;
    if h != [] {
      EntryByKey(h[1..], name, x);
    }
  }

  lemma PlainKeys()
    ensures Key("connection") == "connection" && Key("content-length") == "content-length"
  {
    hide Key;
    LowerKey("connection");
    LowerKey("content-length");
  }

  lemma {:induction false} LowerKey(name: string)
    requires forall i :: 0 <= i < |name| ==> name[i] > 'Z' || name[i] == '-'
    ensures Key(name) == name
  {
    if name != "" {
      LowerKey(name[1..]);
      assert [name[0]] + name[1..] == name;
    }
  }

  lemma {:induction false} TrimmedExact(value: string)
    ensures Trimmed(value) == value <==> value == "" || !Blank(value[0])
    ensures |Trimmed(value)| <= |value|
  {
    if value != "" && Blank(value[0]) {
      TrimmedExact(value[1..]);
    }
  }

  lemma DigitsAreClean(text: string, i: nat)
    requires Digits(text) && i < |text|
    ensures '0' <= text[i] <= '9'
  {
    if i < |text| - 1 {
      DigitsAreClean(text[..|text| - 1], i);
    }
  }

  lemma DecimalOk(n: nat)
    ensures ValueOk(Decimal(n)) && Trimmed(Decimal(n)) == Decimal(n)
  {
    hide Decimal, DecimalValue, Digits;
    DecimalRoundTrip(n);
    forall i | 0 <= i < |Decimal(n)|
      ensures '0' <= Decimal(n)[i] <= '9'
    {
      DigitsAreClean(Decimal(n), i);
    }
  }

  lemma FixedLinesOk(q: Request)
    ensures NameOk("connection") && ValueOk(Connection(q).value) && Trimmed(Connection(q).value) == Connection(q).value
    ensures NameOk("content-length")
  {
  }

  lemma {:induction false} OthersOk(h: seq<Field>)
    requires FieldsOk(h)
    ensures FieldsOk(Others(h))
  {
    hide IsConnection, NameOk, ValueOk;
    if h != [] {
      OthersOk(h[1..]);
    }
  }

  lemma PrintedOk(q: Request)
    requires FieldsOk(q.headers)
    ensures FieldsOk(Printed(q))
  {
    hide NameOk, ValueOk, Others, Decimal, Trimmed;
    FixedLinesOk(q);
    OthersOk(q.headers);
    DecimalOk(|q.body|);
  }

  lemma OneHeader(f: Field)
    ensures Applied([], [f]) == [Field(f.name, Trimmed(f.value))]
  {
    hide Trimmed;
    assert [f][1..] == [];
    assert Applied([Field(f.name, Trimmed(f.value))], []) == [Field(f.name, Trimmed(f.value))];
  }

  lemma LastHeader(h: seq<Field>, f: Field)
    ensures Applied(h, [f]) == SetHeader(h, f.name, Trimmed(f.value))
  {
    hide Trimmed, SetHeader;
    assert [f][1..] == [];
    assert Applied(SetHeader(h, f.name, Trimmed(f.value)), []) == SetHeader(h, f.name, Trimmed(f.value));
  }

  /** Reading all printed header lines gives exactly the expected entries. */
  lemma HeadersReadBack(q: Request, x: string)
    requires Sorted(q.headers)
    ensures Sorted(Applied([], Printed(q)))
    ensures Entry(Applied([], Printed(q)), x) == Expected(q, x)
  {
    hide SetHeader, Trimmed, Key, Less, Decimal, Applied, Others;
    var c := Connection(q);
    PlainKeys();
    FixedLinesOk(q);
    OneHeader(c);
    var g := [c];
    AppliedJoin([], [c] + Others(q.headers), ContentLength(q));
    AppliedJoin([], [c], Others(q.headers));
    AppliedOthers(g, q.headers, x);
    AppliedOthers(g, q.headers, "content-length");
    var h := Applied(g, Others(q.headers));
    if q.body == "" {
      assert [c] + Others(q.headers) + [] == [c] + Others(q.headers);
    } else {
      DecimalOk(|q.body|);
      LastHeader(h, ContentLength(q)[0]);
      SetHeaderEffect(h, "content-length", Decimal(|q.body|), x);
      EntryByKey(q.headers, "content-length", x);
    }
  }

  // ----- the round trip ---------------------------------------------------------------------------------------

  lemma EndRun(e: Env, buf: string, p: nat, r: Regs)
    requires r.cs == 13 && At(buf, p, "\r\n")
    ensures Run(e, buf, p, r) == (r.(cs := DONE, fieldStart := p), p + 2)
  {
    hide Next, Act, Run;
    AtChar(buf, p, "\r\n", 0);
    AtChar(buf, p, "\r\n", 1);
    ReturnStep(e, buf, p, r);
    Step(e, buf, p, r, 18);
    LastStep(e, buf, p + 1, r.(cs := 18, fieldStart := p));
  }

  lemma ReturnStep(e: Env, buf: string, p: nat, r: Regs)
    requires p < |buf| && r.cs == 13 && buf[p] == '\r'
    ensures Next(e.m, r.cs, buf[p]) == 18 && Act(e, r, buf, p) == r.(fieldStart := p)
  {
  }

  lemma LastStep(e: Env, buf: string, p: nat, r: Regs)
    requires p < |buf| && r.cs == 18 && buf[p] == '\n'
    ensures Run(e, buf, p, r) == (r.(cs := DONE), p + 1)
  {
  }

  /** The request line is the method, the target and the version. */
  lemma RequestLineText(q: Request)
    ensures RequestLine(q) == (MethodName(q.method_) + " ") + (Target(q) + (VersionText(q.version) + "\r\n"))
  {
    hide MethodName, VersionText, Optional;
  }

  /** The three parts, one after the other. */
  lemma LinePartsRun(e: Env, buf: string, q: Request, name: string, version: string, r: Regs) returns (t: Regs)
    requires Printable(e.m, q) && name == MethodName(q.method_) && version == VersionText(q.version)
    requires At(buf, 0, (name + " ") + (Target(q) + (version + "\r\n"))) && r.cs == START
    requires r.req.query == "" && r.req.fragment == ""
    ensures t.cs == 13 && t.error == r.error
    ensures t.req == r.req.(method_ := q.method_, version := q.version,
                            path := q.path, query := q.query, fragment := q.fragment)
    ensures Run(e, buf, 0, r) == Run(e, buf, |name| + 1 + |Target(q)| + 10, t)
  {
    hide Next, Act, Run, At, MethodName, VersionText, PathOk, UriText, FieldsOk, Sorted, Target;
    VersionIs(q.version);
    AtSplit(buf, 0, name + " ", Target(q) + (version + "\r\n"));
    AtSplit(buf, |name| + 1, Target(q), version + "\r\n");
    MethodRun(e, buf, q.method_, r);
    var a := r.(cs := 3, mark := 0, req := r.req.(method_ := q.method_));
    var b := TargetRun(e, buf, |name| + 1, q, a);
    t := VersionRun(e, buf, |name| + 1 + |Target(q)|, version, b);
  }

  lemma VersionIs(v: nat)
    requires v == 0x10 || v == 0x11
    ensures |VersionText(v)| == 8 && (VersionText(v) == "HTTP/1.1" || VersionText(v) == "HTTP/1.0")
    ensures VersionText(v) == "HTTP/1.1" <==> v == 0x11
  {
    VersionTexts();
    assert "HTTP/1.0"[7] != "HTTP/1.1"[7];
  }

  lemma RequestLineRun(e: Env, buf: string, q: Request, r: Regs) returns (t: Regs)
    requires Printable(e.m, q) && At(buf, 0, RequestLine(q)) && r.cs == START
    requires r.req.query == "" && r.req.fragment == ""
    ensures t.cs == 13 && t.error == r.error
    ensures t.req == r.req.(method_ := q.method_, version := q.version,
                            path := q.path, query := q.query, fragment := q.fragment)
    ensures Run(e, buf, 0, r) == Run(e, buf, |RequestLine(q)|, t)
  {
    hide Run, At, Printable, MethodName, VersionText, Target, RequestLine;
    RequestLineText(q);
    assert |VersionText(q.version)| == 8 by { PrintedVersion(e.m, q); }
    t := LinePartsRun(e, buf, q, MethodName(q.method_), VersionText(q.version), r);
  }

  lemma PrintedVersion(m: Machine, q: Request)
    requires Printable(m, q)
    ensures |VersionText(q.version)| == 8
  {
    hide VersionText;
    VersionIs(q.version);
  }

  /** The parser, run on the text of any printable request followed by any bytes, finishes
      without error exactly at the end of the head, with the request's method, version, path,
      query, fragment and headers. */
  lemma RoundTrip(e: Env, q: Request, rest: string)
    requires Printable(e.m, q)
    ensures var (t, k) := Executed(e, INITIAL, HeadText(q) + rest);
            && t.cs == DONE && t.error == 0 && k == |HeadText(q)|
            && t.req == q.(close := BLANK.close, body := BLANK.body, headers := t.req.headers)
            && Sorted(t.req.headers) && forall x :: Entry(t.req.headers, x) == Expected(q, x)
  {
    hide Next, Act, Run, At, RequestLine, Lines, Printed, Expected, Entry, Sorted, Applied, PathOk, UriText, FieldsOk;
    var buf := HeadText(q) + rest;
    assert At(buf, 0, HeadText(q)) by { AtStart(HeadText(q), rest); }
    AtSplit(buf, 0, RequestLine(q) + Lines(Printed(q)), "\r\n");
    AtSplit(buf, 0, RequestLine(q), Lines(Printed(q)));
    var a := RequestLineRun(e, buf, q, INITIAL);
    PrintedOk(q);
    var b := LinesRun(e, buf, |RequestLine(q)|, Printed(q), a);
    EndRun(e, buf, |RequestLine(q)| + |Lines(Printed(q))|, b);
    forall x
      ensures Entry(b.req.headers, x) == Expected(q, x) && Sorted(b.req.headers)
    {
      HeadersReadBack(q, x);
    }
    HeadersReadBack(q, "");
  }

  lemma AtStart(text: string, rest: string)
    ensures At(text + rest, 0, text)
  {
  }

  /** The connection header that comes back says "close" if and only if the request closes. */
  lemma ConnectionComesBack(e: Env, q: Request, rest: string)
    requires Printable(e.m, q)
    ensures var h := Executed(e, INITIAL, HeadText(q) + rest).0.req.headers;
      Entry(h, "connection").Some?
      && (Entry(h, "connection").value.value == "close" <==> q.close)
      && (Entry(h, "connection").value.value == "keep-alive" <==> !q.close)
  {
    hide Executed, HeadText, Printable, Entry, Sorted, Key;
    RoundTrip(e, q, rest);
    PlainKeys();
    assert Expected(q, "connection") == Some(Connection(q));
    assert "close"[0] != "keep-alive"[0];
  }

  /** Printable requests with the same text agree on everything but leading blanks of
      header values and the headers the printer replaces. */
  lemma PrintIsInjective(m: Machine, q: Request, o: Request)
    requires Printable(m, q) && Printable(m, o) && HeadText(q) + q.body == HeadText(o) + o.body
    ensures q.method_ == o.method_ && q.version == o.version && q.path == o.path
    ensures q.query == o.query && q.fragment == o.fragment
    ensures q.close == o.close && q.body == o.body
    ensures forall x :: Expected(q, x) == Expected(o, x)
  {
    hide Executed, HeadText, Printable, Entry, Sorted, Key, Decimal;
    var e := Env(m, (r, buf, p) => r);
    RoundTrip(e, q, q.body);
    RoundTrip(e, o, o.body);
    var text := HeadText(q) + q.body;
    var (t, k) := Executed(e, INITIAL, text);
    assert text[k..] == q.body && text[k..] == o.body;
    forall x
      ensures Expected(q, x) == Expected(o, x)
    {
      assert Entry(t.req.headers, x) == Expected(q, x);
    }
    PlainKeys();
    assert Expected(q, "connection") == Expected(o, "connection");
    assert "close"[0] != "keep-alive"[0];
  }

  /** A printed MSEARCH request is always refused: its printed name holds spaces. */
  lemma MsearchIsRefused(e: Env, q: Request, rest: string)
    requires q.method_ == MSEARCH
    ensures Executed(e, INITIAL, HeadText(q) + rest).0.cs == ERROR
    ensures Executed(e, INITIAL, HeadText(q) + rest).1 == 4
  {
    hide Scan, Run, Lines, VersionText, Optional;
    var buf := HeadText(q) + rest;
    assert buf[0] == 'M' && buf[1] == ' ' && buf[2] == '-' && buf[3] == ' ' && buf[4] == 'S';
    ExecutedFollowsMachine(e, INITIAL, buf);
    ScanStep(e.m, START, buf);
    ScanStep(e.m, 2, buf[1..]);
    ScanStep(e.m, 3, buf[2..]);
    ScanStep(e.m, 19, buf[3..]);
    ScanStep(e.m, 4, buf[4..]);
  }

  lemma ScanStep(m: Machine, s: nat, buf: string)
    requires buf != ""
    ensures var n := Next(m, s, buf[0]);
            Scan(m, s, buf) == if n == ERROR then (ERROR, 0) else if n >= DONE then (n, 1)
              else (Scan(m, n, buf[1..]).0, Scan(m, n, buf[1..]).1 + 1)
  {
    hide Next;
  }
}
