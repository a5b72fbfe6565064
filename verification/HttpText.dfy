/**
 The text side of an HTTP request: method names, headers ordered without regard
 to case, and the request printer.
*/
module HttpText {
  import opened Wrappers

  // ----- methods -------------------------------------------------------------------

  const METHODS: nat := 34
  const INVALID_METHOD: nat := METHODS
  const GET: nat := 1
  const MSEARCH: nat := 24

  /** HTTP_METHOD_MAP, in the order of the enumeration; the name of entry 24 is what
      the preprocessor makes of its hyphen. */
  function MethodName(i: nat): string
  {
    if i == 0 then "DELETE" else if i == 1 then "GET"
    else if i == 2 then "HEAD" else if i == 3 then "POST"
    else if i == 4 then "PUT" else if i == 5 then "CONNECT"
    else if i == 6 then "OPTIONS" else if i == 7 then "TRACE"
    else if i == 8 then "COPY" else if i == 9 then "LOCK"
    else if i == 10 then "MKCOL" else if i == 11 then "MOVE"
    else if i == 12 then "PROPFIND" else if i == 13 then "PROPPATCH"
    else if i == 14 then "SEARCH" else if i == 15 then "UNLOCK"
    else if i == 16 then "BIND" else if i == 17 then "REBIND"
    else if i == 18 then "UNBIND" else if i == 19 then "ACL"
    else if i == 20 then "REPORT" else if i == 21 then "MKACTIVITY"
    else if i == 22 then "CHECKOUT" else if i == 23 then "MERGE"
    else if i == 24 then "M - SEARCH" else if i == 25 then "NOTIFY"
    else if i == 26 then "SUBSCRIBE" else if i == 27 then "UNSUBSCRIBE"
    else if i == 28 then "PATCH" else if i == 29 then "PURGE"
    else if i == 30 then "MKCALENDAR" else if i == 31 then "LINK"
    else if i == 32 then "UNLINK" else if i == 33 then "SOURCE"
    else "<unknown>"
  }

  predicate Starts(text: string, name: string)
  {
    |name| <= |text| && text[..|name|] == name
  }

  /** CharsToHttpMethod: the first name, from entry `i` on, that the text starts with. */
  function FindMethod(text: string, i: nat): (k: nat)
    requires i <= METHODS
    ensures i <= k <= INVALID_METHOD
    decreases METHODS - i
  {
    if i == METHODS || Starts(text, MethodName(i)) then i else FindMethod(text, i + 1)
  }

  /** The first three letters of a name, as one number. */
  function Head(i: nat): nat
  {
    if i == 0 then 1123020 else if i == 1 then 1172180 else if i == 2 then 1188545 else if i == 3 then 1320915
    else if i == 4 then 1321684 else if i == 5 then 1107918 else if i == 6 then 1304660 else if i == 7 then 1386817
    else if i == 8 then 1107920 else if i == 9 then 1255363 else if i == 10 then 1271235 else if i == 11 then 1271766
    else if i == 12 then 1321295 else if i == 13 then 1321295 else if i == 14 then 1368769 else if i == 15 then 1402700
    else if i == 16 then 1090766 else if i == 17 then 1352386 else if i == 18 then 1402690 else if i == 19 then 1073612
    else if i == 20 then 1352400 else if i == 21 then 1271233 else if i == 22 then 1107013 else if i == 23 then 1270482
    else if i == 24 then 1265709 else if i == 25 then 1288148 else if i == 26 then 1370818 else if i == 27 then 1402707
    else if i == 28 then 1319124 else if i == 29 then 1321682 else if i == 30 then 1271235 else if i == 31 then 1254606
    else if i == 32 then 1402700 else if i == 33 then 1370069
    else 0
  }

  function HeadOf(text: string): nat
    requires |text| >= 3
  {
    (text[0] as int * 128 + text[1] as int) * 128 + text[2] as int
  }

  lemma HeadOfName(i: nat)
    requires i < METHODS
    ensures |MethodName(i)| >= 3 && HeadOf(MethodName(i)) == Head(i)
  {
  }

  lemma HeadsDiffer(i: nat, j: nat)
    requires i < j < METHODS
    ensures Head(i) != Head(j) || (i, j) in {(10, 30), (12, 13), (15, 32)}
  {
  }

  lemma SameHead(text: string, name: string, other: string)
    requires Starts(text, name) && Starts(text, other) && |name| >= 3 && |other| >= 3
    ensures HeadOf(name) == HeadOf(other)
    ensures |name| >= 4 && |other| >= 4 ==> name[3] == other[3]
    ensures |name| >= 5 && |other| >= 5 ==> name[4] == other[4]
  {
    assert forall k :: 0 <= k < |name| ==> text[..|name|][k] == name[k] == text[k];
    assert forall k :: 0 <= k < |other| ==> text[..|other|][k] == other[k] == text[k];
  }

  /** No name starts with another one, so a printed method is found again. */
  lemma NamesApart(i: nat, j: nat, text: string)
    requires i < METHODS && j < METHODS && i != j && Starts(text, MethodName(i))
    ensures !Starts(text, MethodName(j))
  {
    if Starts(text, MethodName(j)) {
      HeadOfName(i);
      HeadOfName(j);
      HeadsDiffer(if i < j then i else j, if i < j then j else i);
      SameHead(text, MethodName(i), MethodName(j));
    }
  }

  lemma {:induction false} MethodFound(i: nat, from: nat, text: string)
    requires from <= i < METHODS && Starts(text, MethodName(i))
    ensures FindMethod(text, from) == i
    decreases i - from
  {
    hide MethodName, Starts;
    if from < i {
      NamesApart(i, from, text);
      MethodFound(i, from + 1, text);
    }
  }

  // ----- headers, ordered without regard to case ---------------------------------------

  datatype Field = Field(name: string, value: string)

  function Lower(c: char): char
  {
    if 'A' <= c <= 'Z' then c + ' ' else c
  }

  /** What strcasecmp sees of a name: lower-case, up to a NUL. */
  function Key(name: string): string
  {
    if name == "" || name[0] == '\0' then "" else [Lower(name[0])] + Key(name[1..])
  }

  predicate Less(a: string, b: string)
  {
    b != "" && (a == "" || a[0] < b[0] || (a[0] == b[0] && Less(a[1..], b[1..])))
  }

  /** The same letter, or an ASCII letter in the other case. */
  predicate SameLetter(a: char, b: char)
  {
    a == b || ('A' <= a <= 'Z' && b as int == a as int + 32) || ('A' <= b <= 'Z' && a as int == b as int + 32)
  }

  /** Names without NUL are equivalent exactly when they agree letter by letter but for case. */
  lemma {:induction false} KeyIsCaseless(a: string, b: string)
    requires (forall i :: 0 <= i < |a| ==> a[i] != '\0') && (forall i :: 0 <= i < |b| ==> b[i] != '\0')
    ensures Key(a) == Key(b) <==> |a| == |b| && forall i :: 0 <= i < |a| ==> SameLetter(a[i], b[i])
  {
    if a != "" && b != "" {
      KeyIsCaseless(a[1..], b[1..]);
      assert Key(a)[0] == Lower(a[0]) && Key(a)[1..] == Key(a[1..]);
      assert Key(b)[0] == Lower(b[0]) && Key(b)[1..] == Key(b[1..]);
      assert |a| == |b| ==> forall i :: 1 <= i < |a| ==> a[i] == a[1..][i - 1] && b[i] == b[1..][i - 1];
      assert |a| == |b| ==> forall i :: 0 <= i < |a[1..]| ==> a[1..][i] == a[i + 1] && b[1..][i] == b[i + 1];
    }
  }

  /** CaseInsensitiveLess is a strict total order on the keys of names. */
  lemma {:induction false} LessIsTotal(a: string, b: string)
    ensures !(Less(a, b) && Less(b, a))
    ensures Less(a, b) || Less(b, a) || a == b
    ensures !Less(a, a)
  {
    if a != "" && b != "" {
      LessIsTotal(a[1..], b[1..]);
      assert a == [a[0]] + a[1..] && b == [b[0]] + b[1..];
    }
    if a != "" {
      LessIsTotal(a[1..], a[1..]);
    }
  }

  lemma {:induction false} LessIsTransitive(a: string, b: string, c: string)
    requires Less(a, b) && Less(b, c)
    ensures Less(a, c)
  {
    if a != "" && a[0] == b[0] == c[0] {
      LessIsTransitive(a[1..], b[1..], c[1..]);
    }
  }

  /** Every name in the list comes after `key`. */
  predicate Above(key: string, h: seq<Field>)
  {
    h == [] || (Less(key, Key(h[0].name)) && Above(key, h[1..]))
  }

  predicate Sorted(h: seq<Field>)
  {
    h == [] || (Above(Key(h[0].name), h[1..]) && Sorted(h[1..]))
  }

  /** std::map::find, by the map's own notion of equal keys. */
  function Entry(h: seq<Field>, name: string): Option<Field>
  {
    if h == [] then None
    else if Key(h[0].name) == Key(name) then Some(h[0]) else Entry(h[1..], name)
  }

  /** m_headers[name] = value: an equivalent key keeps its spelling. */
  function SetHeader(h: seq<Field>, name: string, value: string): seq<Field>
  {
    if h == [] || Less(Key(name), Key(h[0].name)) then [Field(name, value)] + h
    else if Key(name) == Key(h[0].name) then [h[0].(value := value)] + h[1..]
    else [h[0]] + SetHeader(h[1..], name, value)
  }

  lemma {:induction false} AboveHasNoEntry(name: string, h: seq<Field>)
    requires Above(Key(name), h)
    ensures Entry(h, name) == None
  {
    if h != [] {
      LessIsTotal(Key(name), Key(h[0].name));
      AboveHasNoEntry(name, h[1..]);
    }
  }

  lemma {:induction false} AboveLower(a: string, b: string, h: seq<Field>)
    requires Less(a, b) && Above(b, h)
    ensures Above(a, h)
  {
    if h != [] {
      LessIsTransitive(a, b, Key(h[0].name));
      AboveLower(a, b, h[1..]);
    }
  }

  lemma {:induction false} SetHeaderAbove(key: string, h: seq<Field>, name: string, value: string)
    requires Above(key, h) && Less(key, Key(name))
    ensures Above(key, SetHeader(h, name, value))
  {
    hide Key, Less;
    if h != [] && !Less(Key(name), Key(h[0].name)) && Key(name) != Key(h[0].name) {
      SetHeaderAbove(key, h[1..], name, value);
    }
  }

  /** Setting a header keeps the map sorted, changes the entry of that name alone,
      and keeps the spelling of a name already there. */
  lemma {:induction false} SetHeaderEffect(h: seq<Field>, name: string, value: string, x: string)
    requires Sorted(h)
    ensures Sorted(SetHeader(h, name, value))
    ensures Entry(SetHeader(h, name, value), x) ==
            if Key(x) == Key(name) then
              Some(Field(if Entry(h, name).Some? then Entry(h, name).value.name else name, value))
            else Entry(h, x)
  {
    hide Key, Less;
    if h == [] {
    } else if Less(Key(name), Key(h[0].name)) {
      AboveLower(Key(name), Key(h[0].name), h[1..]);
      AboveHasNoEntry(name, h);
    } else if Key(name) != Key(h[0].name) {
      LessIsTotal(Key(name), Key(h[0].name));
      SetHeaderAbove(Key(h[0].name), h[1..], name, value);
      SetHeaderEffect(h[1..], name, value, x);
    }
  }

  /** Two sorted maps with the same entries are the same map. */
  lemma {:induction false} SameEntriesSameMap(g: seq<Field>, h: seq<Field>)
    requires Sorted(g) && Sorted(h) && forall x :: Entry(g, x) == Entry(h, x)
    ensures g == h
  {
    hide Key, Less;
    var x := if g == [] then if h == [] then "" else h[0].name else g[0].name;
    assert Entry(g, x) == Entry(h, x);
    if g != [] {
      assert Entry(g, g[0].name) == Entry(h, g[0].name);
      assert Entry(g, h[0].name) == Entry(h, h[0].name);
      EntryIsAbove(g, h[0].name);
      EntryIsAbove(h, g[0].name);
      LessIsTotal(Key(g[0].name), Key(h[0].name));
      forall x
        ensures Entry(g[1..], x) == Entry(h[1..], x)
      {
        assert Entry(g, x) == Entry(h, x);
        if Key(x) == Key(g[0].name) {
          AboveSameKey(g[0].name, x, g[1..]);
          AboveSameKey(h[0].name, x, h[1..]);
        }
      }
      SameEntriesSameMap(g[1..], h[1..]);
    }
  }

  lemma AboveSameKey(name: string, x: string, h: seq<Field>)
    requires Above(Key(name), h) && Key(x) == Key(name)
    ensures Entry(h, x) == None
  {
    AboveHasNoEntry(x, h);
  }

  lemma {:induction false} EntryIsAbove(h: seq<Field>, name: string)
    requires h != [] && Sorted(h) && Entry(h, name).Some?
    ensures Key(h[0].name) == Key(name) || Less(Key(h[0].name), Key(name))
    ensures Key(Entry(h, name).value.name) == Key(name)
  {
    hide Key, Less;
    if Key(h[0].name) != Key(name) {
      EntryIsAbove(h[1..], name);
      if Key(h[1].name) != Key(name) {
        LessIsTransitive(Key(h[0].name), Key(h[1].name), Key(name));
      }
    }
  }

  // ----- the request and its printed form -------------------------------------------------

  datatype Request = Request(
    method_: nat, version: nat, close: bool,
    path: string, query: string, fragment: string,
    headers: seq<Field>, body: string)

  /** The default constructor. */
  const BLANK := Request(GET, 0x11, true, "/", "", "", [], "")

  function Decimal(n: nat): (text: string)
    ensures |text| > 0
  {
    if n < 10 then [n as char + '0'] else Decimal(n / 10) + [(n % 10) as char + '0']
  }

  /** Reading a decimal numeral. */
  function DecimalValue(text: string): int
  {
    if text == "" then 0
    else DecimalValue(text[..|text| - 1]) * 10 + (text[|text| - 1] as int - '0' as int)
  }

  predicate Digits(text: string)
  {
    text == "" || ('0' <= text[|text| - 1] <= '9' && Digits(text[..|text| - 1]))
  }

  lemma {:induction false} DecimalRoundTrip(n: nat)
    ensures DecimalValue(Decimal(n)) == n && Digits(Decimal(n))
  {
    var text := Decimal(n);
    if n < 10 {
      assert text[..0] == "";
    } else {
      DecimalRoundTrip(n / 10);
      assert text[..|text| - 1] == Decimal(n / 10);
    }
  }

  /** `mark` and `text` when there is text, nothing otherwise. */
  function Optional(mark: string, text: string): string
  {
    if text == "" then "" else mark + text
  }

  function VersionText(v: nat): string
  {
    "HTTP/" + Decimal(v / 16) + "." + Decimal(v % 16)
  }

  function RequestLine(q: Request): string
  {
    MethodName(q.method_) + " " + q.path + Optional("?", q.query) + Optional("#", q.fragment)
    + " " + VersionText(q.version) + "\r\n"
  }

  function Line(f: Field): string
  {
    f.name + ": " + f.value + "\r\n"
  }

  function Lines(fs: seq<Field>): string
  {
    if fs == [] then "" else Line(fs[0]) + Lines(fs[1..])
  }

  predicate IsConnection(name: string) { Key(name) == "connection" }

  function Others(h: seq<Field>): seq<Field>
  {
    if h == [] then [] else (if IsConnection(h[0].name) then [] else [h[0]]) + Others(h[1..])
  }

  function Connection(q: Request): Field
  {
    Field("connection", if q.close then "close" else "keep-alive")
  }

  function ContentLength(q: Request): seq<Field>
  {
    if q.body == "" then [] else [Field("content-length", Decimal(|q.body|))]
  }

  /** The header lines, in the order they are printed. */
  function Printed(q: Request): seq<Field>
  {
    [Connection(q)] + Others(q.headers) + ContentLength(q)
  }

  function HeadText(q: Request): string
  {
    RequestLine(q) + Lines(Printed(q)) + "\r\n"
  }

  lemma {:induction false} LinesJoin(f: seq<Field>, g: seq<Field>)
    ensures Lines(f + g) == Lines(f) + Lines(g)
  {
    if f == [] {
      assert f + g == g;
    } else {
      assert (f + g)[1..] == f[1..] + g;
      LinesJoin(f[1..], g);
    }
  }

  lemma {:induction false} OthersSnoc(h: seq<Field>, f: Field)
    ensures Others(h + [f]) == Others(h) + (if IsConnection(f.name) then [] else [f])
  {
    hide IsConnection;
    if h == [] {
      assert h + [f] == [f];
    } else {
      assert (h + [f])[1..] == h[1..] + [f];
      OthersSnoc(h[1..], f);
    }
  }

  lemma OneLine(f: Field)
    ensures Lines([f]) == Line(f) && Lines([]) == ""
  {
    assert Lines([f]) == Line(f) + Lines([f][1..]);
  }

  /** What one turn of the printing loop adds. */
  lemma LinesStep(c: Field, h: seq<Field>, i: nat)
    requires i < |h|
    ensures Lines([c] + Others(h[..i + 1])) ==
            Lines([c] + Others(h[..i])) + (if IsConnection(h[i].name) then "" else Line(h[i]))
  {
    hide Line, IsConnection, Lines, Others;
    assert h[..i + 1] == h[..i] + [h[i]];
    OthersSnoc(h[..i], h[i]);
    OneLine(h[i]);
    var more := if IsConnection(h[i].name) then [] else [h[i]];
    assert [c] + (Others(h[..i]) + more) == ([c] + Others(h[..i])) + more;
    LinesJoin([c] + Others(h[..i]), more);
  }

  method DumpLine(q: Request) returns (os: string)
    ensures os == RequestLine(q)
  {
    hide Decimal, MethodName, VersionText;
    os := MethodName(q.method_) + " " + q.path;
    if q.query != "" {
      os := os + "?" + q.query;
    }
    if q.fragment != "" {
      os := os + "#" + q.fragment;
    }
    os := os + " " + VersionText(q.version) + "\r\n";
  }

  /** HttpRequest::dump. */
  method Dump(q: Request) returns (os: string)
    ensures os == HeadText(q) + q.body
  {
    hide Line, Lines, Decimal, RequestLine, IsConnection, Others;
    os := DumpLine(q);
    var c := Connection(q);
    os := os + Line(c);
    OneLine(c);
    assert q.headers[..0] == [];
    assert [c] + Others([]) == [c] by { NoOthers(); }
    var i := 0;
    while i < |q.headers|
      invariant 0 <= i <= |q.headers|
      invariant os == RequestLine(q) + Lines([c] + Others(q.headers[..i]))
    {
      LinesStep(c, q.headers, i);
      if !IsConnection(q.headers[i].name) {
        os := os + Line(q.headers[i]);
      }
      i := i + 1;
    }
    assert q.headers[..i] == q.headers;
    LinesJoin([c] + Others(q.headers), ContentLength(q));
    if q.body != "" {
      var f := Field("content-length", Decimal(|q.body|));
      OneLine(f);
      os := os + Line(f) + "\r\n" + q.body;
    } else {
      OneLine(c);
      os := os + "\r\n" + q.body;
    }
  }

  lemma NoOthers()
    ensures Others([]) == []
  {
  }
}
