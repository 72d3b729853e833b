/** A UUID is 16 bytes. The service sorts by the text of section 4 of RFC 9562 in lower case, Postgres
    by the bytes, and the ledger model by the big-endian value: the three orders are one. Bytes are
    written as characters below 256. */
module UuidOrder {
  import opened Lex

  predicate Bytes(s: string) { forall i :: 0 <= i < |s| ==> s[i] < 256 as char }

  type Uuid = u: string | |u| == 16 && Bytes(u) witness seq(16, _ => '0')

  function HexDigit(n: nat): char
    requires n < 16
  {
    if n < 10 then '0' + n as char else 'a' + (n - 10) as char
  }

  function HexByte(b: char): string
    requires b < 256 as char
  {
    [HexDigit(b as int / 16), HexDigit(b as int % 16)]
  }

  function Hex(s: string): string
    requires Bytes(s)
  {
    if |s| == 0 then "" else Hex(s[..|s| - 1]) + HexByte(s[|s| - 1])
  }

  /** 8-4-4-4-12 lower-case hexadecimal digits. */
  function Text(u: Uuid): string {
    Hex(u[0..4]) + "-" + Hex(u[4..6]) + "-" + Hex(u[6..8]) + "-" + Hex(u[8..10]) + "-" + Hex(u[10..16])
  }

  function Value(s: string): nat
    requires Bytes(s)
  {
    if |s| == 0 then 0 else Value(s[..|s| - 1]) * 256 + s[|s| - 1] as int
  }

  // ---- comparing concatenations ---------------------------------------------------------------

  /** Equally long heads are compared first. */
  lemma {:induction false} LexConcat(a: string, b: string, x: string, y: string)
    requires |a| == |b|
    ensures LexLe(a + x, b + y) <==> if a == b then LexLe(x, y) else LexLe(a, b)
  {
    if |a| == 0 {
      assert a + x == x && b + y == y;
    } else {
      LexConcat(a[1..], b[1..], x, y);
      assert (a + x)[1..] == a[1..] + x && (b + y)[1..] == b[1..] + y;
      assert a == [a[0]] + a[1..] && b == [b[0]] + b[1..];
    }
  }

  lemma HexDigitOrder(m: nat, n: nat)
    requires m < 16 && n < 16
    ensures HexDigit(m) < HexDigit(n) <==> m < n
    ensures HexDigit(m) == HexDigit(n) <==> m == n
  {
  }

  lemma HexByteOrder(a: char, b: char)
    requires a < 256 as char && b < 256 as char
    ensures LexLe(HexByte(a), HexByte(b)) <==> a <= b
    ensures HexByte(a) == HexByte(b) <==> a == b
  {
    HexDigitOrder(a as int / 16, b as int / 16);
    HexDigitOrder(a as int % 16, b as int % 16);
    var x, y := HexByte(a), HexByte(b);
    assert LexLe(x[1..], y[1..]) <==> x[1] <= y[1] by {
      assert x[1..] == [x[1]] && y[1..] == [y[1]];
    }
    assert x[0] == y[0] && x[1] == y[1] <==> x == y;
    assert a as int == (a as int / 16) * 16 + a as int % 16;
    assert b as int == (b as int / 16) * 16 + b as int % 16;
  }

  lemma SingleOrder(c: char, d: char)
    ensures LexLe([c], [d]) <==> c <= d
  {
  }

  /** Hexadecimal text of equally long byte strings compares as the bytes do. */
  lemma {:induction false} HexOrder(a: string, b: string)
    requires |a| == |b| && Bytes(a) && Bytes(b)
    ensures |Hex(a)| == |Hex(b)|
    ensures LexLe(Hex(a), Hex(b)) <==> LexLe(a, b)
    ensures Hex(a) == Hex(b) <==> a == b
  {
    if |a| > 0 {
      var fa, fb := a[..|a| - 1], b[..|b| - 1];
      var c, d := a[|a| - 1], b[|b| - 1];
      HexOrder(fa, fb);
      HexByteOrder(c, d);
      SingleOrder(c, d);
      assert a == fa + [c] && b == fb + [d];
      LexConcat(fa, fb, [c], [d]);
      LexConcat(Hex(fa), Hex(fb), HexByte(c), HexByte(d));
      SplitEqual(Hex(fa), Hex(fb), HexByte(c), HexByte(d));
    }
  }

  lemma SplitEqual(a: string, b: string, x: string, y: string)
    requires |a| == |b|
    ensures a + x == b + y <==> a == b && x == y
  {
    if a + x == b + y {
      assert a == (a + x)[..|a|] && b == (b + y)[..|a|];
      assert x == (a + x)[|a|..] && y == (b + y)[|a|..];
    }
  }

  /** One group of digits, a separator and the rest compare as the group's bytes and then the rest. */
  lemma GroupOrder(a: string, b: string, restA: string, restB: string, textA: string, textB: string)
    requires |a| == |b| && Bytes(a) && Bytes(b)
    requires LexLe(textA, textB) <==> LexLe(restA, restB)
    ensures LexLe(Hex(a) + "-" + textA, Hex(b) + "-" + textB) <==> LexLe(a + restA, b + restB)
  {
    HexOrder(a, b);
    LexConcat(Hex(a) + "-", Hex(b) + "-", textA, textB);
    LexConcat(Hex(a), Hex(b), "-", "-");
    SplitEqual(Hex(a), Hex(b), "-", "-");
    LexConcat(a, b, restA, restB);
  }

  function GroupStart(group: nat): nat
    requires group <= 4
  {
    if group == 0 then 0 else 2 + 2 * group
  }

  function TextFrom(u: Uuid, group: nat): string
    requires group <= 4
    decreases 4 - group
  {
    if group == 4 then Hex(u[10..16])
    else Hex(u[GroupStart(group)..GroupStart(group + 1)]) + "-" + TextFrom(u, group + 1)
  }

  lemma Regroup(a: string, b: string, rest: string)
    ensures a + "-" + b + rest == a + "-" + (b + rest)
  {
  }

  lemma TextIsTextFrom(u: Uuid)
    ensures Text(u) == TextFrom(u, 0)
  {
    var a, b, c, d, e := Hex(u[0..4]), Hex(u[4..6]), Hex(u[6..8]), Hex(u[8..10]), Hex(u[10..16]);
    var from3, from2, from1 := d + "-" + e, c + "-" + (d + "-" + e), b + "-" + (c + "-" + (d + "-" + e));
    assert TextFrom(u, 3) == from3 by { assert TextFrom(u, 4) == e; }
    assert TextFrom(u, 2) == from2;
    assert TextFrom(u, 1) == from1;
    assert TextFrom(u, 0) == a + "-" + from1;
    FiveGroups(a, b, c, d, e);
  }

  lemma FiveGroups(a: string, b: string, c: string, d: string, e: string)
    ensures a + "-" + b + "-" + c + "-" + d + "-" + e == a + "-" + (b + "-" + (c + "-" + (d + "-" + e)))
  {
    var x, y := "-" + d + "-" + e, "-" + c + ("-" + d + "-" + e);
    assert a + "-" + b + "-" + c + "-" + d + "-" + e == (a + "-" + b) + y;
    assert b + y == b + "-" + (c + "-" + (d + "-" + e));
    Regroup(a, b, y);
  }

  predicate SameOrder(u: Uuid, v: Uuid, group: nat)
    requires group <= 4
  {
    LexLe(TextFrom(u, group), TextFrom(v, group)) <==> LexLe(u[GroupStart(group)..], v[GroupStart(group)..])
  }

  lemma SameOrderStep(u: Uuid, v: Uuid, group: nat, lo: nat, hi: nat)
    requires group < 4 && lo == GroupStart(group) && hi == GroupStart(group + 1) && SameOrder(u, v, group + 1)
    ensures SameOrder(u, v, group)
  {
    GroupOrder(u[lo..hi], v[lo..hi], u[hi..], v[hi..], TextFrom(u, group + 1), TextFrom(v, group + 1));
    assert u[lo..hi] + u[hi..] == u[lo..];
    assert v[lo..hi] + v[hi..] == v[lo..];
  }

  lemma {:induction false} TextFromOrder(u: Uuid, v: Uuid, group: nat)
    requires group <= 4
    ensures SameOrder(u, v, group)
    decreases 4 - group
  {
    if group == 4 {
      HexOrder(u[10..16], v[10..16]);
      assert u[10..16] == u[10..] && v[10..16] == v[10..];
    } else {
      TextFromOrder(u, v, group + 1);
      SameOrderStep(u, v, group, GroupStart(group), GroupStart(group + 1));
    }
  }

  lemma {:induction false} ValueOrder(a: string, b: string)
    requires |a| == |b| && Bytes(a) && Bytes(b)
    ensures Value(a) <= Value(b) <==> LexLe(a, b)
    ensures Value(a) == Value(b) <==> a == b
  {
    if |a| > 0 {
      var fa, fb := a[..|a| - 1], b[..|b| - 1];
      var c, d := a[|a| - 1], b[|b| - 1];
      ValueOrder(fa, fb);
      SingleOrder(c, d);
      assert a == fa + [c] && b == fb + [d];
      LexConcat(fa, fb, [c], [d]);
      LexTotal(fa, fb);
    }
  }

  /** Go's order on UUID.String(), Postgres's order on uuid, and the order of the values agree. */
  lemma ThreeOrdersAgree(u: Uuid, v: Uuid)
    ensures LexLe(Text(u), Text(v)) <==> LexLe(u, v)
    ensures LexLe(u, v) <==> Value(u) <= Value(v)
    ensures u == v <==> Value(u) == Value(v)
  {
    TextIsTextFrom(u);
    TextIsTextFrom(v);
    TextFromOrder(u, v, 0);
    assert u[0..] == u && v[0..] == v;
    ValueOrder(u, v);
  }
}
