/**
 The printed form of an IPv6 socket address: eight groups in hexadecimal with the
 first run of zero groups left out, and the port.
*/
module Ipv6Text {
  import opened Wrappers
  import opened HttpText

  type Groups = g: seq<nat> | |g| == 8 && forall i :: 0 <= i < 8 ==> g[i] < 0x1_0000
    witness [0, 0, 0, 0, 0, 0, 0, 0]

  // ----- hexadecimal -------------------------------------------------------------------

  function HexDigit(n: nat): char
    requires n < 16
  {
    if n < 10 then n as char + '0' else (n - 10) as char + 'a'
  }

  function Hex(n: nat): (text: string)
    ensures text != ""
  {
    if n < 16 then [HexDigit(n)] else Hex(n / 16) + [HexDigit(n % 16)]
  }

  function DigitValue(c: char): Option<nat>
  {
    if '0' <= c <= '9' then Some(c as int - '0' as int)
    else if 'a' <= c <= 'f' then Some(c as int - 'a' as int + 10)
    else if 'A' <= c <= 'F' then Some(c as int - 'A' as int + 10)
    else None
  }

  /** The value of a group of hexadecimal digits. */
  function HexValue(text: string): Option<nat>
  {
    if text == "" then Some(0)
    else
      var high, low := HexValue(text[..|text| - 1]), DigitValue(text[|text| - 1]);
      if high.Some? && low.Some? then Some(high.value * 16 + low.value) else None
  }

  predicate Plain(text: string)
  {
    forall i :: 0 <= i < |text| ==> text[i] != ':' && text[i] != ']'
  }

  lemma {:induction false} HexRoundTrip(n: nat)
    ensures HexValue(Hex(n)) == Some(n) && Plain(Hex(n))
    ensures n < 16 ==> |Hex(n)| == 1
    ensures n < 0x1_0000 ==> |Hex(n)| <= 4
  {
    var text := Hex(n);
    if n < 16 {
      assert text[..0] == "";
    } else {
      HexRoundTrip(n / 16);
      assert text[..|text| - 1] == Hex(n / 16);
      HexLength(n);
    }
  }

  lemma {:induction false} HexLength(n: nat)
    ensures n < 0x10 ==> |Hex(n)| == 1
    ensures n < 0x100 ==> |Hex(n)| <= 2
    ensures n < 0x1000 ==> |Hex(n)| <= 3
    ensures n < 0x1_0000 ==> |Hex(n)| <= 4
  {
    if n >= 16 {
      HexLength(n / 16);
    }
  }

  // ----- reading: section 2.2 of RFC 4291 --------------------------------------------------

  /** The first colon from `i` on, or the end. */
  function Colon(text: string, i: nat): (k: nat)
    requires i <= |text|
    ensures i <= k <= |text| && (k < |text| ==> text[k] == ':')
    decreases |text| - i
  {
    if i == |text| || text[i] == ':' then i else Colon(text, i + 1)
  }

  function Group(text: string): Option<nat>
  {
    if 1 <= |text| <= 4 then HexValue(text) else None
  }

  /** One or more groups separated by single colons. */
  function ReadGroups(text: string): Option<seq<nat>>
    decreases |text|
  {
    var k := Colon(text, 0);
    var first := Group(text[..k]);
    if first.None? then None
    else if k == |text| then Some([first.value])
    else
      var rest := ReadGroups(text[k + 1..]);
      if rest.None? then None else Some([first.value] + rest.value)
  }

  function ReadSide(text: string): Option<seq<nat>>
  {
    if text == "" then Some([]) else ReadGroups(text)
  }

  predicate Double(text: string, p: nat)
  {
    p + 1 < |text| && text[p] == ':' && text[p + 1] == ':'
  }

  function FirstDouble(text: string, i: nat): (p: nat)
    requires i <= |text|
    ensures p < |text| ==> Double(text, p)
    ensures i <= p <= |text| && forall q :: i <= q < p ==> !Double(text, q)
    decreases |text| - i
  {
    if i == |text| || Double(text, i) then i else FirstDouble(text, i + 1)
  }

  function Zeros(n: nat): (z: seq<nat>)
    ensures |z| == n && forall i :: 0 <= i < n ==> z[i] == 0
  {
    if n == 0 then [] else [0] + Zeros(n - 1)
  }

  /** The address a text stands for: "::" stands for one or more groups of zeros and can
      appear once. */
  function Expand(text: string): Option<seq<nat>>
  {
    var p := FirstDouble(text, 0);
    if p == |text| then
      var all := ReadGroups(text);
      if all.Some? && |all.value| == 8 then all else None
    else
      var left, right := ReadSide(text[..p]), ReadSide(text[p + 2..]);
      if left.Some? && right.Some? && |left.value| + |right.value| < 8
      then Some(left.value + Zeros(8 - |left.value| - |right.value|) + right.value) else None
  }

  // ----- printing ------------------------------------------------------------------------------

  /** Groups separated by colons. */
  function Join(g: seq<nat>): string
  {
    if g == [] then "" else if |g| == 1 then Hex(g[0]) else Hex(g[0]) + ":" + Join(g[1..])
  }

  /** The first zero group from `i` on, or the end. */
  function ZeroAt(g: seq<nat>, i: nat): (z: nat)
    requires i <= |g|
    ensures i <= z <= |g| && (z < |g| ==> g[z] == 0) && forall k :: i <= k < z ==> g[k] != 0
    decreases |g| - i
  {
    if i == |g| || g[i] == 0 then i else ZeroAt(g, i + 1)
  }

  /** The end of a run of zero groups. */
  function ZeroEnd(g: seq<nat>, i: nat): (e: nat)
    requires i <= |g|
    ensures i <= e <= |g| && (e < |g| ==> g[e] != 0) && forall k :: i <= k < e ==> g[k] == 0
    decreases |g| - i
  {
    if i == |g| || g[i] != 0 then i else ZeroEnd(g, i + 1)
  }

  function Body(g: seq<nat>): string
  {
    var z := ZeroAt(g, 0);
    if z == |g| then Join(g) else Join(g[..z]) + "::" + Join(g[ZeroEnd(g, z)..])
  }

  function Text(g: Groups, port: nat): string
  {
    "[" + Body(g) + "]: " + Decimal(port)
  }

  lemma {:induction false} JoinSnoc(g: seq<nat>, x: nat)
    ensures Join(g + [x]) == if g == [] then Hex(x) else Join(g) + ":" + Hex(x)
  {
    hide Hex;
    if |g| == 1 {
      assert (g + [x])[1..] == [x];
      assert (g + [x])[0] == g[0];
    } else if |g| > 1 {
      assert (g + [x])[1..] == g[1..] + [x];
      JoinSnoc(g[1..], x);
      assert Join(g) == Hex(g[0]) + ":" + Join(g[1..]);
    }
  }

  /** What the loop of the printer has put out before group `i`. */
  function SoFar(g: seq<nat>, i: nat, used: bool): string
    requires i <= |g|
  {
    var z := ZeroAt(g, 0);
    if i <= z then Join(g[..i])
    else if used && ZeroEnd(g, z) <= i then Join(g[..z]) + "::" + Join(g[ZeroEnd(g, z)..i])
    else Join(g[..z])
  }

  /** IPv6Address::insert. */
  method Insert(g: Groups, port: nat) returns (os: string)
    ensures os == Text(g, port)
  {
    hide Hex, Decimal, Join, Body, SoFar, ZeroAt, ZeroEnd;
    os := "[";
    var used := false;
    var i := 0;
    ghost var z := ZeroAt(g, 0);
    ghost var e := ZeroEnd(g, z);
    NothingYet(g);
    while i < 8
      invariant 0 <= i <= 8
      invariant used <==> e < i && z < 8
      invariant os == "[" + SoFar(g, i, used)
    {
      if !(g[i] == 0 && !used) {
        if i != 0 && g[i - 1] == 0 && !used {
          os := os + ":";
          used := true;
        }
        if i != 0 {
          os := os + ":";
        }
        os := os + Hex(g[i]);
      }
      PrintStep(g, i);
      i := i + 1;
    }
    if !used && g[7] == 0 {
      os := os + "::";
    }
    PrintEnd(g);
    os := os + "]: " + Decimal(port);
  }

  lemma NothingYet(g: Groups)
    ensures SoFar(g, 0, false) == ""
  {
    assert g[..0] == [];
  }

  lemma NoGroups()
    ensures Join([]) == ""
  {
  }

  /** What is put out after the loop. */
  lemma PrintEnd(g: Groups)
    ensures var z := ZeroAt(g, 0); var used := z < 8 && ZeroEnd(g, z) < 8;
            Body(g) == SoFar(g, 8, used) + (if !used && g[7] == 0 then "::" else "")
  {
    hide Join;
    NoGroups();
    var z := ZeroAt(g, 0);
    var e := ZeroEnd(g, z);
    assert g[..8] == g && (e == 8 ==> g[e..] == []) && g[e..8] == g[e..];
  }

  /** What one turn of the loop adds. */
  lemma PrintStep(g: Groups, i: nat)
    requires i < 8
    ensures var z := ZeroAt(g, 0); var e := ZeroEnd(g, z);
            && (i < z ==> SoFar(g, i + 1, false) == SoFar(g, i, false) + (if i != 0 then ":" else "") + Hex(g[i]))
            && (z <= i < e ==> SoFar(g, i + 1, false) == SoFar(g, i, false))
            && (z < e == i ==> SoFar(g, i + 1, true) == SoFar(g, i, false) + "::" + Hex(g[i]))
            && (z < e < i ==> SoFar(g, i + 1, true) == SoFar(g, i, true) + ":" + Hex(g[i]))
  {
    hide Hex, Join, ZeroAt, ZeroEnd;
    var z := ZeroAt(g, 0);
    var e := ZeroEnd(g, z);
    if i < z {
      assert g[..i + 1] == g[..i] + [g[i]];
      JoinSnoc(g[..i], g[i]);
      NoGroups();
      assert i == 0 ==> g[..i] == [];
    } else if i < e {
      assert g[..i] == g[..z] || z < i;
    } else if z < e {
      assert g[e..i + 1] == g[e..i] + [g[i]];
      JoinSnoc(g[e..i], g[i]);
      if e < i {
        var a, b := Join(g[..z]) + "::", Join(g[e..i]);
        assert a + (b + ":" + Hex(g[i])) == a + b + ":" + Hex(g[i]);
      }
    }
  }

  // ----- printing loses nothing ---------------------------------------------------------------------

  /** Text without double, leading or trailing colons, and without a bracket. */
  predicate Clean(text: string)
  {
    && (forall p :: 0 <= p < |text| ==> text[p] != ']' && !Double(text, p))
    && (text != "" ==> text[0] != ':' && text[|text| - 1] != ':')
  }

  lemma CleanJoin(a: string, b: string)
    requires Clean(a) && Clean(b) && a != "" && b != ""
    ensures Clean(a + ":" + b)
  {
    var t := a + ":" + b;
    forall p | 0 <= p < |t|
      ensures t[p] != ']' && !Double(t, p)
    {
      if p < |a| {
        assert t[p] == a[p] && !Double(a, p);
        assert p + 1 < |a| ==> t[p + 1] == a[p + 1];
      } else if p > |a| {
        var q := p - |a| - 1;
        assert t[p] == b[q] && !Double(b, q);
        assert p + 1 < |t| ==> t[p + 1] == b[q + 1];
      } else {
        assert t[p + 1] == b[0];
      }
    }
    assert t[0] == a[0] && t[|t| - 1] == b[|b| - 1];
  }

  predicate Small(g: seq<nat>)
  {
    forall i :: 0 <= i < |g| ==> g[i] < 0x1_0000
  }

  lemma {:induction false} ColonIn(text: string, i: nat, k: nat)
    requires i <= k <= |text| && (forall j :: i <= j < k ==> text[j] != ':') && (k < |text| ==> text[k] == ':')
    ensures Colon(text, i) == k
    decreases k - i
  {
    if i < k {
      ColonIn(text, i + 1, k);
    }
  }

  lemma PlainIsClean(h: string)
    requires Plain(h)
    ensures Clean(h)
  {
  }

  lemma ReadOne(h: string, v: nat)
    requires Plain(h) && Group(h) == Some(v)
    ensures ReadGroups(h) == Some([v])
  {
    ColonIn(h, 0, |h|);
    assert h[..|h|] == h;
  }

  lemma ReadMore(h: string, v: nat, rest: string, r: seq<nat>)
    requires Plain(h) && Group(h) == Some(v) && ReadGroups(rest) == Some(r)
    ensures ReadGroups(h + ":" + rest) == Some([v] + r)
  {
    hide Group;
    var t := h + ":" + rest;
    ColonIn(t, 0, |h|);
    assert t[..|h|] == h && t[|h| + 1..] == rest;
  }

  /** Joined groups are read back one by one. */
  lemma {:induction false} JoinRoundTrip(g: seq<nat>)
    requires g != [] && Small(g)
    ensures Join(g) != "" && Clean(Join(g)) && ReadGroups(Join(g)) == Some(g)
  {
    hide Hex, HexValue, ReadGroups, Clean;
    var h := Hex(g[0]);
    HexRoundTrip(g[0]);
    PlainIsClean(h);
    if |g| == 1 {
      ReadOne(h, g[0]);
      assert [g[0]] == g;
    } else {
      JoinRoundTrip(g[1..]);
      CleanJoin(h, Join(g[1..]));
      ReadMore(h, g[0], Join(g[1..]), g[1..]);
      assert [g[0]] + g[1..] == g;
    }
  }

  lemma SideRoundTrip(g: seq<nat>)
    requires Small(g)
    ensures Clean(Join(g)) && ReadSide(Join(g)) == Some(g)
  {
    hide ReadGroups;
    if g != [] {
      JoinRoundTrip(g);
    }
  }

  /** Between two clean sides the double colon is the only one. */
  lemma OnlyDouble(a: string, b: string)
    requires Clean(a) && Clean(b)
    ensures forall p: nat :: Double(a + "::" + b, p) <==> p == |a|
    ensures forall p :: 0 <= p < |a + "::" + b| ==> (a + "::" + b)[p] != ']'
  {
    var t := a + "::" + b;
    forall p: nat
      ensures Double(t, p) <==> p == |a|
    {
      if p < |a| {
        assert t[p] == a[p] && !Double(a, p);
        assert p + 1 < |a| ==> t[p + 1] == a[p + 1];
      } else if p == |a| + 1 {
        assert p + 1 < |t| ==> t[p + 1] == b[0];
      } else if |a| + 1 < p < |t| {
        var q := p - |a| - 2;
        assert t[p] == b[q] && !Double(b, q);
        assert p + 1 < |t| ==> t[p + 1] == b[q + 1];
      }
    }
    forall p | 0 <= p < |t|
      ensures t[p] != ']'
    {
      if p < |a| {
        assert t[p] == a[p];
      } else if p > |a| + 1 {
        assert t[p] == b[p - |a| - 2];
      }
    }
  }

  predicate AtMostOneDouble(text: string)
  {
    forall p: nat, q: nat :: p < |text| && q < |text| && Double(text, p) && Double(text, q) ==> p == q
  }

  /** The printed body has at most one "::", and expanding it gives back the eight groups. */
  lemma BodyRoundTrip(g: Groups)
    ensures Expand(Body(g)).Some? && Expand(Body(g)).value == g
    ensures AtMostOneDouble(Body(g))
    ensures forall p :: 0 <= p < |Body(g)| ==> Body(g)[p] != ']'
  {
    hide Join, ReadGroups, Clean;
    var z := ZeroAt(g, 0);
    if z == 8 {
      JoinRoundTrip(g);
      CleanHasNone(Join(g));
    } else {
      var e := ZeroEnd(g, z);
      var a, b := Join(g[..z]), Join(g[e..]);
      SideRoundTrip(g[..z]);
      SideRoundTrip(g[e..]);
      OnlyDouble(a, b);
      ExpandSides(a, b, g[..z], g[e..]);
      assert g == g[..z] + Zeros(e - z) + g[e..];
    }
  }

  lemma CleanHasNone(text: string)
    requires Clean(text)
    ensures FirstDouble(text, 0) == |text| && AtMostOneDouble(text)
    ensures forall p :: 0 <= p < |text| ==> text[p] != ']'
  {
  }

  /** Expanding two clean sides around a double colon. */
  lemma ExpandSides(a: string, b: string, g: seq<nat>, h: seq<nat>)
    requires Clean(a) && Clean(b) && ReadSide(a) == Some(g) && ReadSide(b) == Some(h) && |g| + |h| < 8
    ensures Expand(a + "::" + b) == Some(g + Zeros(8 - |g| - |h|) + h)
  {
    hide ReadSide, Clean, Zeros;
    OnlyDouble(a, b);
    var t := a + "::" + b;
    assert Double(t, |a|);
    assert FirstDouble(t, 0) == |a|;
    assert t[..|a|] == a && t[|a| + 2..] == b;
  }

  /** After the bracket, a colon and a space, the rest of the text is the port's numeral. */
  lemma PortReadsBack(g: Groups, port: nat)
    ensures var t, n := Text(g, port), |Body(g)|;
      && |t| > n + 4 && t[0] == '[' && t[1..n + 1] == Body(g) && t[n + 1..n + 4] == "]: "
      && Digits(t[n + 4..]) && DecimalValue(t[n + 4..]) == port
  {
    hide Body, Decimal, DecimalValue, Digits;
    DecimalRoundTrip(port);
    assert Text(g, port)[|Body(g)| + 4..] == Decimal(port);
  }

  /** A group is printed in lower case and without leading zeros. */
  lemma {:induction false} HexIsShort(n: nat)
    ensures forall i :: 0 <= i < |Hex(n)| ==> '0' <= Hex(n)[i] <= '9' || 'a' <= Hex(n)[i] <= 'f'
    ensures |Hex(n)| > 1 ==> Hex(n)[0] != '0'
    ensures n > 0 ==> Hex(n)[0] != '0'
  {
    if n >= 16 {
      HexIsShort(n / 16);
    }
  }

  /** The run of zero groups left out is the first one, whole. */
  lemma FirstRunIsLeftOut(g: Groups, k: nat, m: nat)
    requires k < m <= 8 && (forall i :: 0 <= i < k ==> g[i] != 0) && (forall i :: k <= i < m ==> g[i] == 0)
    requires m == 8 || g[m] != 0
    ensures Body(g) == Join(g[..k]) + "::" + Join(g[m..])
  {
    hide Join;
    var z := ZeroAt(g, 0);
    assert g[k] == 0;
    assert z == k;
    var e := ZeroEnd(g, k);
    assert e < 8 ==> g[e] != 0;
    assert e == m;
  }

  /** Different addresses or ports never print alike. */
  lemma TextIsInjective(g: Groups, p: nat, h: Groups, q: nat)
    requires Text(g, p) == Text(h, q)
    ensures g == h && p == q
  {
    hide Body, Decimal, DecimalValue, Digits, Expand;
    BodyRoundTrip(g);
    BodyRoundTrip(h);
    DecimalRoundTrip(p);
    DecimalRoundTrip(q);
    var a, b := Body(g), Body(h);
    var t := Text(g, p);
    BracketEnds(a, "]: " + Decimal(p));
    BracketEnds(b, "]: " + Decimal(q));
    assert t == "[" + a + ("]: " + Decimal(p)) && t == "[" + b + ("]: " + Decimal(q));
    assert t[1 + |a|] == ']' && t[1 + |b|] == ']';
    assert |a| == |b|;
    assert a == t[1..1 + |a|] && b == t[1..1 + |a|];
    assert Decimal(p) == t[|a| + 4..] && Decimal(q) == t[|a| + 4..];
  }

  lemma BracketEnds(a: string, rest: string)
    requires forall i :: 0 <= i < |a| ==> a[i] != ']'
    ensures forall i :: 1 <= i < 1 + |a| ==> ("[" + a + rest)[i] != ']'
  {
    forall i | 1 <= i < 1 + |a|
      ensures ("[" + a + rest)[i] != ']'
    {
      assert ("[" + a + rest)[i] == a[i - 1];
    }
  }
}
