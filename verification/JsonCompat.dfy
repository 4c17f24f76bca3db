/** The lenient readers of configuration values from a JSON tree: numbers, booleans and IPv4
    addresses, each also as text. */
module JsonCompat {
  import opened Crc24
  import opened Sequences

  datatype Json =
    | Null
    | Bool(b: bool)
    | Num(x: real)
    | Str(s: string)
    | Arr(items: seq<Json>)
    | Obj(fields: seq<Field>)

  datatype Field = Field(key: string, value: Json)

  // ---- Text ----

  function Lower(c: char): char {
    if 'A' <= c <= 'Z' then (c as int + 32) as char else c
  }

  /** Equal but for the case of letters. */
  predicate SameName(a: string, b: string) {
    |a| == |b| && forall i :: 0 <= i < |a| ==> Lower(a[i]) == Lower(b[i])
  }

  predicate IsSpace(c: char) {
    c == ' ' || 9 <= c as int <= 13
  }

  predicate IsDigit(c: char) {
    '0' <= c <= '9'
  }

  function DigitValue(c: char): (d: nat)
    requires IsDigit(c)
    ensures d < 10
  {
    c as int - '0' as int
  }

  function SkipSpace(s: string, i: nat): (j: nat)
    requires i <= |s|
    ensures i <= j <= |s|
    decreases |s| - i
  {
    if i < |s| && IsSpace(s[i]) then SkipSpace(s, i + 1) else i
  }

  /** The digits from position i on: their end, and the number they extend v to. */
  function Digits(s: string, i: nat, v: nat): (r: (nat, nat))
    requires i <= |s|
    ensures i <= r.0 <= |s|
    decreases |s| - i
  {
    if i < |s| && IsDigit(s[i]) then Digits(s, i + 1, v * 10 + DigitValue(s[i])) else (i, v)
  }

  /** strtoul with base 10 and 32-bit unsigned long: `end` is where it stopped, 0 when it
      found no number; `range` is the ERANGE error. A minus sign negates modulo 2^32. */
  datatype Parsed = Parsed(value: nat, end: nat, range: bool)

  function Strtoul(s: string): Parsed {
    var i := SkipSpace(s, 0);
    var minus := i < |s| && s[i] == '-';
    var j := if minus || (i < |s| && s[i] == '+') then i + 1 else i;
    var r := Digits(s, j, 0);
    if r.0 == j then Parsed(0, 0, false)
    else if r.1 >= UINT32 then Parsed(UINT32 - 1, r.0, true)
    else Parsed(if minus then (UINT32 - r.1) % UINT32 else r.1, r.0, false)
  }

  // ---- Readers ----

  function GetU32(item: Json, max: nat): (r: Option<nat>)
    ensures r.Some? ==> r.value <= max
  {
    match item
    case Num(x) =>
      if x < 0.0 || x > max as real then None
      else if x.Floor as real != x then None
      else Some(x.Floor)
    case Str(s) =>
      if s == "" then None
      else
        var p := Strtoul(s);
        if p.range || p.end == 0 || p.end != |s| || p.value > max then None else Some(p.value)
    case _ => None
  }

  function GetBool(item: Json): (r: Option<nat>)
    ensures r.Some? ==> r.value <= 1
  {
    match item
    case Bool(b) => Some(if b then 1 else 0)
    case Num(x) => if x == 0.0 then Some(0) else if x == 1.0 then Some(1) else None
    case Str(s) =>
      if s == "0" || SameName(s, "false") then Some(0)
      else if s == "1" || SameName(s, "true") then Some(1)
      else None
    case _ => None
  }

  function Octet(n: nat, b: nat): (o: nat)
    requires b < 4
    ensures o < 256
  {
    (match b case 0 => n case 1 => n / 0x100 case 2 => n / 0x10000 case _ => n / 0x1000000) % 256
  }

  /** The address with octets o, the first one lowest. */
  function FromOctets(o: seq<nat>): nat
    requires |o| == 4
  {
    o[0] + 0x100 * o[1] + 0x10000 * o[2] + 0x1000000 * o[3]
  }

  function GetIp4(item: Json): (r: Option<nat>)
    ensures r.Some? ==> r.value < UINT32
  {
    if !item.Arr? || |item.items| != 4 then None
    else
      var o := seq(4, b requires 0 <= b < 4 => GetU32(item.items[b], 255));
      if o[0].Some? && o[1].Some? && o[2].Some? && o[3].Some? then
        Some(FromOctets([o[0].value, o[1].value, o[2].value, o[3].value]))
      else None
  }

  function Place(b: nat): nat
    requires b <= 3
  {
    match b case 0 => 1 case 1 => 0x100 case 2 => 0x10000 case _ => 0x1000000
  }

  /** An octet enters at bits that are still 0. */
  lemma OctetOrs(addr: nat, octet: nat, b: nat)
    requires b <= 3 && addr < Place(b)
    ensures Or(addr, octet * Place(b)) == addr + octet * Place(b)
  {
    Pow2Values();
    assert Pow2(0) == 1;
    OrAdds(octet, addr, 8 * b);
    hide Or, Pow2;
  }

  /** The address after b octets. */
  function Partial(o: seq<nat>): nat
    requires |o| <= 4
  {
    if o == [] then 0 else Partial(o[..|o| - 1]) + o[|o| - 1] * Place(|o| - 1)
  }

  lemma PartialSnoc(o: seq<nat>, x: nat)
    requires |o| < 4
    ensures Partial(o + [x]) == Partial(o) + x * Place(|o|)
  {
    assert (o + [x])[..|o|] == o;
  }

  lemma PartialFits(o: seq<nat>)
    requires |o| < 4 && forall i :: 0 <= i < |o| ==> o[i] < 256
    ensures Partial(o) < Place(|o|)
  {
    if |o| == 0 {
    } else if |o| == 1 {
      assert o[..0] == [];
    } else if |o| == 2 {
      assert o[..1][..0] == [];
    } else {
      assert o[..2][..1][..0] == [];
    }
  }

  lemma PartialAll(o: seq<nat>)
    requires |o| == 4
    ensures Partial(o) == FromOctets(o)
  {
    assert o == [] + [o[0]] + [o[1]] + [o[2]] + [o[3]];
    PartialSnoc([], o[0]);
    PartialSnoc([] + [o[0]], o[1]);
    PartialSnoc([] + [o[0]] + [o[1]], o[2]);
    PartialSnoc([] + [o[0]] + [o[1]] + [o[2]], o[3]);
    assert Partial([]) == 0;
    hide Partial;
  }

  lemma Ip4Octets(item: Json, o: seq<nat>)
    requires item.Arr? && |item.items| == 4 == |o|
    requires forall i :: 0 <= i < 4 ==> GetU32(item.items[i], 255) == Some(o[i])
    ensures GetIp4(item) == Some(FromOctets(o))
  {
    assert o == [o[0], o[1], o[2], o[3]];
    hide GetU32, FromOctets;
  }

  lemma Ip4Refused(item: Json, b: nat)
    requires item.Arr? && |item.items| == 4 && b < 4 && GetU32(item.items[b], 255).None?
    ensures GetIp4(item).None?
  {
    hide GetU32, FromOctets;
  }

  /** json_get_ip4_array */
  method ReadIp4(item: Json) returns (r: Option<nat>)
    ensures r == GetIp4(item)
  {
    if !item.Arr? || |item.items| != 4 {
      return None;
    }
    hide *;
    var addr := 0;
    ghost var octets: seq<nat> := [];
    NoOctets();
    for b := 0 to 4
      invariant |octets| == b && addr == Partial(octets)
      invariant forall i :: 0 <= i < b ==> octets[i] < 256 && GetU32(item.items[i], 255) == Some(octets[i])
    {
      var octet := GetU32(item.items[b], 255);
      if octet.None? {
        Ip4Refused(item, b);
        return None;
      }
      PartialFits(octets);
      OctetOrs(addr, octet.value, b);
      PartialSnoc(octets, octet.value);
      octets := octets + [octet.value];
      addr := Or(addr, octet.value * Place(b));
    }
    PartialAll(octets);
    Ip4Octets(item, octets);
    return Some(addr);
  }

  lemma NoOctets()
    ensures Partial([]) == 0
  {}

  // ---- Decimal text ----

  function Decimal(n: nat): (s: string)
    ensures |s| > 0 && forall i :: 0 <= i < |s| ==> IsDigit(s[i])
  {
    if n < 10 then [('0' as int + n) as char] else Decimal(n / 10) + [('0' as int + n % 10) as char]
  }

  /** The number a string of digits extends v to. */
  function NumberOf(s: string, v: nat): nat
    requires forall i :: 0 <= i < |s| ==> IsDigit(s[i])
  {
    if s == "" then v else NumberOf(s[1..], v * 10 + DigitValue(s[0]))
  }

  lemma {:induction false} NumberOfSnoc(s: string, c: char, v: nat)
    requires (forall i :: 0 <= i < |s| ==> IsDigit(s[i])) && IsDigit(c)
    ensures NumberOf(s + [c], v) == NumberOf(s, v) * 10 + DigitValue(c)
  {
    if s == "" {
      assert (s + [c])[1..] == "";
    } else {
      NumberOfSnoc(s[1..], c, v * 10 + DigitValue(s[0]));
      assert (s + [c])[1..] == s[1..] + [c];
    }
  }

  lemma {:induction false} DecimalIsNumber(n: nat)
    ensures NumberOf(Decimal(n), 0) == n
  {
    if n < 10 {
      assert Decimal(n)[1..] == "";
    } else {
      DecimalIsNumber(n / 10);
      NumberOfSnoc(Decimal(n / 10), ('0' as int + n % 10) as char, 0);
    }
  }

  lemma {:induction false} AllDigits(s: string, i: nat, v: nat)
    requires i <= |s| && forall k :: 0 <= k < |s| ==> IsDigit(s[k])
    ensures Digits(s, i, v) == (|s|, NumberOf(s[i..], v))
    decreases |s| - i
  {
    if i < |s| {
      AllDigits(s, i + 1, v * 10 + DigitValue(s[i]));
      assert s[i..][1..] == s[i + 1..];
    }
  }

  /** Printing and parsing: the decimal text of a word is read back as the word. */
  lemma DecimalScans(n: nat)
    requires n < UINT32
    ensures Strtoul(Decimal(n)) == Parsed(n, |Decimal(n)|, false)
  {
    var s := Decimal(n);
    DecimalIsNumber(n);
    AllDigits(s, 0, 0);
    assert s[0..] == s && IsDigit(s[0]);
    hide Decimal, NumberOf, Digits;
  }

  lemma DecimalReads(n: nat, max: nat)
    requires n <= max < UINT32
    ensures GetU32(Str(Decimal(n)), max) == GetU32(Num(n as real), max) == Some(n)
  {
    DecimalScans(n);
    assert (n as real).Floor == n;
    hide Strtoul, Decimal;
  }

  lemma MinusScans(n: nat)
    requires 0 < n < UINT32
    ensures Strtoul("-" + Decimal(n)) == Parsed(UINT32 - n, |Decimal(n)| + 1, false)
  {
    var d := Decimal(n);
    DecimalIsNumber(n);
    TailDigits(d);
    hide Decimal, NumberOf, Digits;
    assert SkipSpace("-" + d, 0) == 0;
    assert (UINT32 - n) % UINT32 == UINT32 - n;
  }

  /** A minus sign wraps: the text of -n is read as 2^32 - n, as strtoul has it. */
  lemma NegativeWraps(n: nat)
    requires 0 < n < UINT32
    ensures GetU32(Str("-" + Decimal(n)), UINT32 - 1) == Some(UINT32 - n)
  {
    MinusScans(n);
    hide Strtoul, Decimal;
  }

  lemma TailDigits(d: string)
    requires d != "" && forall k :: 0 <= k < |d| ==> IsDigit(d[k])
    ensures Digits("-" + d, 1, 0) == (|d| + 1, NumberOf(d, 0))
  {
    DigitsShift("-", d, 0, 0);
  }

  lemma {:induction false} DigitsShift(a: string, d: string, i: nat, v: nat)
    requires i <= |d| && forall k :: 0 <= k < |d| ==> IsDigit(d[k])
    ensures Digits(a + d, |a| + i, v) == (|a| + |d|, NumberOf(d[i..], v))
    decreases |d| - i
  {
    if i < |d| {
      DigitsShift(a, d, i + 1, v * 10 + DigitValue(d[i]));
      assert d[i..][1..] == d[i + 1..];
    }
    assert d[0..] == d;
  }

  lemma OctetsRoundTrip(n: nat)
    requires n < UINT32
    ensures FromOctets([Octet(n, 0), Octet(n, 1), Octet(n, 2), Octet(n, 3)]) == n
  {
    assert n / 0x10000 == n / 0x100 / 0x100 && n / 0x1000000 == n / 0x10000 / 0x100;
  }
}
