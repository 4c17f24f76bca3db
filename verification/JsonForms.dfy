/** Which JSON values the lenient readers accept, and as what, written without the readers. */
module JsonForms {
  import opened Crc24
  import opened Sequences
  import opened JsonCompat

  predicate Spaces(s: string) {
    forall k :: 0 <= k < |s| ==> IsSpace(s[k])
  }

  predicate AreDigits(s: string) {
    forall k :: 0 <= k < |s| ==> IsDigit(s[k])
  }

  ghost predicate NumeralAs(s: string, ws: string, sign: string, digits: string, n: nat) {
    && s == ws + sign + digits && Spaces(ws) && (sign == "" || sign == "+" || sign == "-")
    && digits != "" && AreDigits(digits) && NumberOf(digits, 0) < UINT32
    && n == if sign == "-" then (UINT32 - NumberOf(digits, 0)) % UINT32 else NumberOf(digits, 0)
  }

  /** White space, perhaps a sign, and digits to the end, for a number below 2^32; a minus
      sign negates modulo 2^32. */
  ghost predicate Numeral(s: string, n: nat) {
    exists ws, sign, digits :: NumeralAs(s, ws, sign, digits, n)
  }

  /** A number, as such or as text. */
  ghost predicate IsNumber(j: Json, n: nat, max: nat) {
    n <= max && (j == Num(n as real) || (j.Str? && Numeral(j.s, n)))
  }

  ghost predicate NotANumber(j: Json, max: nat) {
    forall n :: !IsNumber(j, n, max)
  }

  ghost predicate IsSwitch(j: Json, n: nat) {
    || (n == 0 && (j == Bool(false) || j == Num(0.0) || (j.Str? && (j.s == "0" || SameName(j.s, "false")))))
    || (n == 1 && (j == Bool(true) || j == Num(1.0) || (j.Str? && (j.s == "1" || SameName(j.s, "true")))))
  }

  /** Four octets, the first one lowest in the word. */
  ghost predicate IsAddress(j: Json, n: nat) {
    && j.Arr? && |j.items| == 4 && n < UINT32
    && forall b :: 0 <= b < 4 ==> IsNumber(j.items[b], Octet(n, b), 255)
  }

  ghost predicate NotAnAddress(j: Json) {
    forall n :: !IsAddress(j, n)
  }

  // ---- Numerals ----

  lemma {:induction false} SpacesSkipped(s: string, i: nat)
    requires i <= |s|
    ensures var j := SkipSpace(s, i);
            (forall k :: i <= k < j ==> IsSpace(s[k])) && (j < |s| ==> !IsSpace(s[j]))
    decreases |s| - i
  {
    if i < |s| && IsSpace(s[i]) {
      SpacesSkipped(s, i + 1);
    }
    hide IsSpace;
  }

  lemma {:induction false} SkipsExactly(s: string, i: nat, j: nat)
    requires i <= j <= |s| && (forall k :: i <= k < j ==> IsSpace(s[k])) && (j < |s| ==> !IsSpace(s[j]))
    ensures SkipSpace(s, i) == j
    decreases j - i
  {
    hide IsSpace;
    if i < j {
      SkipsExactly(s, i + 1, j);
    }
  }

  lemma {:induction false} DigitsRun(s: string, i: nat, v: nat)
    requires i <= |s|
    ensures var r := Digits(s, i, v);
            && AreDigits(s[i..r.0]) && (r.0 < |s| ==> !IsDigit(s[r.0])) && r.1 == NumberOf(s[i..r.0], v)
    decreases |s| - i
  {
    if i < |s| && IsDigit(s[i]) {
      DigitsRun(s, i + 1, v * 10 + DigitValue(s[i]));
      var r := Digits(s, i, v);
      assert s[i..r.0] == [s[i]] + s[i + 1..r.0] && s[i..r.0][1..] == s[i + 1..r.0];
    } else {
      assert s[i..i] == "";
    }
  }

  /** Where strtoul finds white space, sign and digits. */
  ghost predicate ParsedAt(s: string, i: nat, j: nat, e: nat) {
    && i <= j <= e <= |s| && Spaces(s[..i]) && (s[i..j] == "" || s[i..j] == "+" || s[i..j] == "-")
    && AreDigits(s[j..e]) && (e < |s| ==> !IsDigit(s[e]))
    && Strtoul(s) == (if e == j then Parsed(0, 0, false)
                      else if NumberOf(s[j..e], 0) >= UINT32 then Parsed(UINT32 - 1, e, true)
                      else Parsed(if s[i..j] == "-" then (UINT32 - NumberOf(s[j..e], 0)) % UINT32
                                  else NumberOf(s[j..e], 0), e, false))
  }

  lemma Parse(s: string) returns (i: nat, j: nat, e: nat)
    ensures ParsedAt(s, i, j, e)
  {
    i := SkipSpace(s, 0);
    SpacesSkipped(s, 0);
    j := if i < |s| && (s[i] == '-' || s[i] == '+') then i + 1 else i;
    DigitsRun(s, j, 0);
    e := Digits(s, j, 0).0;
    SignIs(s, i, j);
    hide Digits, SkipSpace, NumberOf, IsDigit;
  }

  lemma SignIs(s: string, i: nat, j: nat)
    requires i <= |s| && j == if i < |s| && (s[i] == '-' || s[i] == '+') then i + 1 else i
    ensures if i < |s| && s[i] == '-' then s[i..j] == "-" else if j > i then s[i..j] == "+" else s[i..j] == ""
    ensures s[i..j] == "-" <==> i < |s| && s[i] == '-'
  {
    if j > i { assert s[i..j] == [s[i]]; assert "-"[0] == '-' && "+"[0] == '+'; }
  }

  lemma AcceptedIsNumeral(s: string, n: nat)
    requires Strtoul(s) == Parsed(n, |s|, false) && s != ""
    ensures Numeral(s, n)
  {
    var i, j, e := Parse(s);
    hide Strtoul, NumberOf, IsDigit, IsSpace;
    assert s == s[..i] + s[i..j] + s[j..];
    assert s[j..e] == s[j..];
    assert NumeralAs(s, s[..i], s[i..j], s[j..], n);
  }

  lemma NumeralIsAccepted(s: string, n: nat)
    requires Numeral(s, n)
    ensures Strtoul(s) == Parsed(n, |s|, false) && s != ""
  {
    var ws, sign, digits :| NumeralAs(s, ws, sign, digits, n);
    var i, j := |ws|, |ws| + |sign|;
    assert s[..i] == ws && s[i..j] == sign && s[j..] == digits;
    assert forall k :: 0 <= k < i ==> s[k] == ws[k];
    assert s[i] == (if sign == "" then digits[0] else sign[0]);
    assert !IsSpace(s[i]) && IsDigit(s[j]);
    SkipsExactly(s, 0, i);
    DigitsRun(s, j, 0);
    AllDigitsRead(s, j, 0);
    assert sign == "" ==> s[i] != '-' && s[i] != '+';
    hide Digits, SkipSpace, NumberOf;
  }

  lemma {:induction false} AllDigitsRead(s: string, j: nat, v: nat)
    requires j <= |s| && AreDigits(s[j..])
    ensures Digits(s, j, v) == (|s|, NumberOf(s[j..], v))
    decreases |s| - j
  {
    hide IsDigit;
    if j < |s| {
      assert s[j] == s[j..][0] && s[j..][1..] == s[j + 1..];
      AllDigitsRead(s, j + 1, v * 10 + DigitValue(s[j]));
    }
  }

  // ---- The readers accept exactly these ----

  lemma TextIsNumber(s: string, max: nat, n: nat)
    ensures GetU32(Str(s), max) == Some(n) <==> n <= max && Numeral(s, n)
  {
    if Numeral(s, n) { NumeralIsAccepted(s, n); }
    var p := Strtoul(s);
    if !p.range && p.end == |s| && s != "" { AcceptedIsNumeral(s, p.value); }
    hide Strtoul, Numeral;
  }

  /** json_get_u32_compat accepts exactly the numbers up to the maximum, as such or as text. */
  lemma NumbersExactly(j: Json, max: nat, n: nat)
    ensures GetU32(j, max) == Some(n) <==> IsNumber(j, n, max)
  {
    if j.Str? { TextIsNumber(j.s, max, n); }
    assert (n as real).Floor == n;
    hide Strtoul, Numeral;
  }

  /** json_get_bool_compat accepts exactly true, false, 0, 1 and their texts. */
  lemma SwitchesExactly(j: Json, n: nat)
    ensures GetBool(j) == Some(n) <==> IsSwitch(j, n)
  {
    if j.Str? { TextsDiffer(j.s); }
    hide SameName;
  }

  lemma TextsDiffer(s: string)
    ensures !(s == "0" && s == "1") && !(SameName(s, "true") && SameName(s, "false"))
    ensures !(s == "0" && SameName(s, "true")) && !(s == "1" && SameName(s, "false"))
  {
    assert |"0"| == |"1"| == 1 && |"true"| == 4 && |"false"| == 5 && "0"[0] != "1"[0];
  }

  /** json_get_ip4_array accepts exactly arrays of four octets. */
  lemma AddressesExactly(j: Json, n: nat)
    ensures GetIp4(j) == Some(n) <==> IsAddress(j, n)
  {
    if IsAddress(j, n) {
      AddressAccepted(j, n);
    }
    if GetIp4(j) == Some(n) {
      AcceptedAddress(j, n);
    }
    hide *;
  }

  lemma AddressAccepted(j: Json, n: nat)
    requires IsAddress(j, n)
    ensures GetIp4(j) == Some(n)
  {
    hide IsNumber, GetU32, GetIp4, Octet, FromOctets;
    forall b | 0 <= b < 4
      ensures GetU32(j.items[b], 255) == Some(Octet(n, b))
    {
      NumbersExactly(j.items[b], 255, Octet(n, b));
    }
    Ip4Octets(j, [Octet(n, 0), Octet(n, 1), Octet(n, 2), Octet(n, 3)]);
    OctetsRoundTrip(n);
  }

  lemma OctetsOf(a: nat, b: nat, c: nat, d: nat)
    requires a < 256 && b < 256 && c < 256 && d < 256
    ensures var n := FromOctets([a, b, c, d]);
            Octet(n, 0) == a && Octet(n, 1) == b && Octet(n, 2) == c && Octet(n, 3) == d && n < UINT32
  {
    var n := FromOctets([a, b, c, d]);
    assert n == a + 0x100 * (b + 0x100 * (c + 0x100 * d));
    assert n / 0x100 == b + 0x100 * (c + 0x100 * d);
    assert n / 0x10000 == c + 0x100 * d;
    assert n / 0x1000000 == d;
  }

  lemma AcceptedAddress(j: Json, n: nat)
    requires GetIp4(j) == Some(n)
    ensures IsAddress(j, n)
  {
    var o := IpParts(j, n);
    OctetsOf(o[0], o[1], o[2], o[3]);
    assert o == [o[0], o[1], o[2], o[3]];
    hide IsNumber, GetU32, GetIp4, Octet, FromOctets;
    forall b | 0 <= b < 4
      ensures IsNumber(j.items[b], Octet(n, b), 255)
    {
      assert Octet(n, b) == o[b];
      NumbersExactly(j.items[b], 255, o[b]);
    }
  }

  lemma IpParts(j: Json, n: nat) returns (o: seq<nat>)
    requires GetIp4(j) == Some(n)
    ensures j.Arr? && |j.items| == 4 == |o| && n == FromOctets(o)
    ensures forall b :: 0 <= b < 4 ==> GetU32(j.items[b], 255) == Some(o[b]) && o[b] < 256
  {
    hide GetU32, FromOctets;
    o := [GetU32(j.items[0], 255).value, GetU32(j.items[1], 255).value, GetU32(j.items[2], 255).value,
          GetU32(j.items[3], 255).value];
  }

  // ---- What no reader of numbers accepts ----

  /** Not a number or a text, a negative number, a fraction, a number above the maximum; empty
      text, and text with a character after the digits that is none. */
  lemma NoNumber(j: Json, max: nat)
    requires || !(j.Num? || j.Str?)
             || (j.Num? && (j.x < 0.0 || j.x > max as real || j.x.Floor as real != j.x))
             || (j.Str? && (j.s == "" || !IsDigit(j.s[|j.s| - 1])))
    ensures NotANumber(j, max)
  {
    hide Numeral;
    forall n: nat
      ensures !IsNumber(j, n, max)
    {
      assert (n as real).Floor == n;
      if j.Str? && Numeral(j.s, n) {
        EndsInDigit(j.s, n);
      }
    }
  }

  lemma EndsInDigit(s: string, n: nat)
    requires Numeral(s, n)
    ensures s != "" && IsDigit(s[|s| - 1])
  {
    var ws, sign, digits :| NumeralAs(s, ws, sign, digits, n);
    assert s[|s| - 1] == digits[|digits| - 1];
    hide NumberOf;
  }

  lemma AddressPart(j: Json, n: nat, b: nat)
    requires IsAddress(j, n) && b < 4
    ensures !NotANumber(j.items[b], 255)
  {
    assert IsNumber(j.items[b], Octet(n, b), 255);
    hide IsNumber;
  }

  /** An array of another length, or with a part that is no octet. */
  lemma NoAddress(j: Json)
    requires !j.Arr? || |j.items| != 4 || exists b :: 0 <= b < 4 && NotANumber(j.items[b], 255)
    ensures NotAnAddress(j)
  {
    hide IsNumber, NotANumber;
    if j.Arr? && |j.items| == 4 {
      var b: nat :| b < 4 && NotANumber(j.items[b], 255);
      forall n: nat
        ensures !IsAddress(j, n)
      {
        if IsAddress(j, n) { AddressPart(j, n, b); }
      }
    }
  }
}
