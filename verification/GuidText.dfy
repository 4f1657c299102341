/** String_To_Guid and Guid_To_String of lusbk_handles.h, with the format
    "%08X-%04X-%04X-%02X%02X-%02X%02X%02X%02X%02X%02X". */
module GuidText {
  import opened Basics

  datatype Guid = Guid(data1: nat, data2: nat, data3: nat, data4: seq<Byte>)

  /** The field sizes of a GUID: 32, 16, 16 and eight times 8 bits. */
  predicate Valid(g: Guid) { g.data1 < 0x1_0000_0000 && g.data2 < 0x1_0000 && g.data3 < 0x1_0000 && |g.data4| == 8 }

  const GUID_STRING_LENGTH := 38

  const WIDTHS: seq<nat> := [8, 4, 4, 2, 2, 2, 2, 2, 2, 2, 2]

  /** The fields that a dash follows. */
  predicate Dash(k: nat) { k == 0 || k == 1 || k == 2 || k == 4 }

  // ---------------------------------------------------------------- hexadecimal numbers

  function Pow16(w: nat): nat { if w == 0 then 1 else 16 * Pow16(w - 1) }

  function Digit(d: nat): char
    requires d < 16
  {
    if d < 10 then '0' + d as char else 'A' + (d - 10) as char
  }

  predicate IsHex(c: char) { '0' <= c <= '9' || 'A' <= c <= 'F' || 'a' <= c <= 'f' }

  function HexValue(c: char): (d: nat)
    requires IsHex(c)
    ensures d < 16
  {
    if '0' <= c <= '9' then (c - '0') as nat
    else if 'A' <= c <= 'F' then (c - 'A') as nat + 10
    else (c - 'a') as nat + 10
  }

  /** "%0wX" of a number that fits. */
  function Hex(v: nat, w: nat): (t: string)
    ensures |t| == w && forall i :: 0 <= i < w ==> IsHex(t[i])
  {
    if w == 0 then "" else Hex(v / 16, w - 1) + [Digit(v % 16)]
  }

  function Number(t: string): nat
    requires forall i :: 0 <= i < |t| ==> IsHex(t[i])
  {
    if t == "" then 0 else 16 * Number(t[..|t| - 1]) + HexValue(t[|t| - 1])
  }

  /** How many hexadecimal digits the text starts with, `w` at most. */
  function Span(t: string, w: nat): (n: nat)
    ensures n <= |t| && n <= w && forall i :: 0 <= i < n ==> IsHex(t[i])
    ensures n < |t| && n < w ==> !IsHex(t[n])
  {
    if w == 0 || t == "" || !IsHex(t[0]) then 0 else 1 + Span(t[1..], w - 1)
  }

  // ---------------------------------------------------------------- printing and scanning

  function DashText(k: nat): string { if Dash(k) then "-" else "" }

  /** The fields from number `k` on. */
  function PrintFields(values: seq<nat>, k: nat): string
    requires k <= |values| == 11
    decreases 11 - k
  {
    if k == 11 then "" else Hex(values[k], WIDTHS[k]) + (DashText(k) + PrintFields(values, k + 1))
  }

  /** The scan of the fields from number `k` on: each conversion takes at least one digit and at most
      its width, and a dash must match. */
  function ScanFields(t: string, k: nat): (values: Option<seq<nat>>)
    requires k <= 11
    ensures values.Some? ==> |values.value| == 11 - k
    decreases 11 - k
  {
    if k == 11 then Some([])
    else
      match ScanField(t, WIDTHS[k], Dash(k))
      case None => None
      case Some(field) =>
        match ScanFields(field.1, k + 1)
        case None => None
        case Some(values) => Some([field.0] + values)
  }

  /** One conversion and its dash: the number, and the text behind them. */
  function ScanField(t: string, w: nat, dash: bool): Option<(nat, string)> {
    var n := Span(t, w);
    if n == 0 then None
    else
      match AfterDash(t[n..], dash)
      case None => None
      case Some(rest) => Some((Number(t[..n]), rest))
  }

  function AfterDash(t: string, dash: bool): Option<string> {
    if !dash then Some(t) else if t != "" && t[0] == '-' then Some(t[1..]) else None
  }

  function Values(g: Guid): seq<nat>
    requires Valid(g)
  {
    [g.data1, g.data2, g.data3] + seq(8, i requires 0 <= i < 8 => g.data4[i] as nat)
  }

  /** Guid_To_String. */
  function GuidToString(g: Guid): string
    requires Valid(g)
  {
    "{" + PrintFields(Values(g), 0) + "}"
  }

  /** String_To_Guid, with the casts to 16 and 8 bits. */
  function StringToGuid(t: string): Option<Guid> {
    match ScanFields(if t != "" && t[0] == '{' then t[1..] else t, 0)
    case None => None
    case Some(values) => Some(FromValues(values))
  }

  // ---------------------------------------------------------------- round trip

  lemma DigitBack(d: nat)
    requires d < 16
    ensures IsHex(Digit(d)) && HexValue(Digit(d)) == d
  {
  }

  lemma {:induction false} HexBack(v: nat, w: nat)
    requires v < Pow16(w)
    ensures Number(Hex(v, w)) == v
  {
    if w > 0 {
      var t := Hex(v, w);
      assert t[..|t| - 1] == Hex(v / 16, w - 1);
      HexBack(v / 16, w - 1);
      DigitBack(v % 16);
    }
  }

  lemma {:induction false} SpanFull(t: string, more: string)
    requires forall i :: 0 <= i < |t| ==> IsHex(t[i])
    ensures Span(t + more, |t|) == |t|
  {
    if t != "" {
      assert (t + more)[1..] == t[1..] + more;
      SpanFull(t[1..], more);
    }
  }

  /** A field of full width is scanned whole, and the scan goes on behind its dash. */
  lemma ScanStep(k: nat, w: nat, x: string, tail: string)
    requires k < 11 && w == WIDTHS[k] && |x| == w && forall i :: 0 <= i < w ==> IsHex(x[i])
    ensures ScanFields(x + (DashText(k) + tail), k) ==
            match ScanFields(tail, k + 1) case None => None case Some(values) => Some([Number(x)] + values)
  {
    FieldBack(k, w, x, tail);
  }

  lemma FieldBack(k: nat, w: nat, x: string, tail: string)
    requires 0 < w == |x| && forall i :: 0 <= i < w ==> IsHex(x[i])
    ensures ScanField(x + (DashText(k) + tail), w, Dash(k)) == Some((Number(x), tail))
  {
    var rest := DashText(k) + tail;
    SpanFull(x, rest);
    Parting(x, rest);
    DashBack(k, tail);
  }

  lemma DashBack(k: nat, tail: string)
    ensures AfterDash(DashText(k) + tail, Dash(k)) == Some(tail)
  {
    assert DashText(k) + tail == if Dash(k) then ['-'] + tail else tail;
  }

  lemma Parting(x: string, rest: string)
    ensures (x + rest)[..|x|] == x && (x + rest)[|x|..] == rest
  {
  }

  lemma {:induction false} FieldsBack(values: seq<nat>, k: nat, more: string)
    requires k <= |values| == 11 && forall i :: 0 <= i < 11 ==> values[i] < Pow16(WIDTHS[i])
    ensures ScanFields(PrintFields(values, k) + more, k) == Some(values[k..])
    decreases 11 - k
  {
    if k < 11 {
      var w := WIDTHS[k];
      var x, tail := Hex(values[k], w), PrintFields(values, k + 1);
      Regroup(x, DashText(k), tail, more);
      ScanStep(k, w, x, tail + more);
      FieldsBack(values, k + 1, more);
      HexBack(values[k], w);
      HeadAndRest(values, k);
    } else {
      assert values[k..] == [];
    }
  }

  lemma HeadAndRest(values: seq<nat>, k: nat)
    requires k < |values|
    ensures [values[k]] + values[k + 1..] == values[k..]
  {
  }

  lemma Regroup(x: string, dash: string, tail: string, more: string)
    ensures (x + (dash + tail)) + more == x + (dash + (tail + more))
  {
  }

  /** The length of the text of the fields from number `k` on. */
  function LengthFrom(k: nat): nat
    requires k <= 11
    decreases 11 - k
  {
    if k == 11 then 0 else WIDTHS[k] + |DashText(k)| + LengthFrom(k + 1)
  }

  lemma {:induction false} FieldsLength(values: seq<nat>, k: nat)
    requires k <= |values| == 11
    ensures |PrintFields(values, k)| == LengthFrom(k)
    decreases 11 - k
  {
    if k < 11 { FieldsLength(values, k + 1); }
  }

  lemma LengthAll()
    ensures LengthFrom(0) == 36
  {
    assert LengthFrom(9) == 4;
    assert LengthFrom(7) == 8;
    assert LengthFrom(5) == 12;
    assert LengthFrom(3) == 17;
    assert LengthFrom(1) == 27;
  }

  lemma Powers()
    ensures Pow16(8) == 0x1_0000_0000 && Pow16(4) == 0x1_0000 && Pow16(2) == 256
  {
    assert Pow16(2) == 16 * (16 * Pow16(0));
    assert Pow16(4) == 16 * (16 * Pow16(2));
    assert Pow16(6) == 16 * (16 * Pow16(4));
    assert Pow16(8) == 16 * (16 * Pow16(6));
  }

  lemma Fit(g: Guid)
    requires Valid(g)
    ensures forall i :: 0 <= i < 11 ==> Values(g)[i] < Pow16(WIDTHS[i])
  {
    Powers();
  }

  /** What is scanned from the values of a GUID is the GUID. */
  function FromValues(v: seq<nat>): Guid
    requires |v| == 11
  {
    Guid(v[0], v[1] % 0x1_0000, v[2] % 0x1_0000, seq(8, i requires 0 <= i < 8 => v[3 + i] % 256))
  }

  lemma ValuesBack(g: Guid)
    requires Valid(g)
    ensures FromValues(Values(g)) == g
  {
    assert FromValues(Values(g)).data4 == g.data4;
  }

  /** Every GUID comes back from its text, which is always 38 characters long. */
  lemma RoundTrip(g: Guid)
    requires Valid(g)
    ensures StringToGuid(GuidToString(g)) == Some(g) && |GuidToString(g)| == GUID_STRING_LENGTH
  {
    var v := Values(g);
    var fields := PrintFields(v, 0);
    Fit(g);
    FieldsBack(v, 0, "}");
    FieldsLength(v, 0);
    LengthAll();
    assert GuidToString(g)[1..] == fields + "}";
    assert v[0..] == v;
    ValuesBack(g);
  }

  // ---------------------------------------------------------------- the text itself

  /** The digits of a byte, and those of two bytes. */
  lemma HexTwo(v: nat)
    requires v < 256
    ensures Hex(v, 2) == [Digit(v / 16), Digit(v % 16)]
  {
    assert Hex(v / 16, 1) == Hex(v / 16 / 16, 0) + [Digit(v / 16 % 16)];
  }

  lemma HexFour(v: nat)
    requires v < 0x1_0000
    ensures Hex(v, 4) == Hex(v / 256, 2) + Hex(v % 256, 2)
  {
    HexTwo(v % 256);
    Places(v);
    assert Hex(v / 16, 3) == Hex(v / 16 / 16, 2) + [Digit(v / 16 % 16)];
  }

  lemma Places(v: nat)
    ensures v / 16 / 16 == v / 256 && v % 256 / 16 == v / 16 % 16 && v % 256 % 16 == v % 16
  {
  }

  /** Digits are printed in upper case and read in either case. */
  lemma Digits(d: nat)
    requires d < 16
    ensures Digit(d) == "0123456789ABCDEF"[d] && HexValue("0123456789ABCDEF"[d]) == d
    ensures IsHex("0123456789abcdef"[d]) && HexValue("0123456789abcdef"[d]) == d
  {
  }

  lemma Step(v: seq<nat>, k: nat, w: nat)
    requires |v| == 11 && k < 11 && w == WIDTHS[k]
    ensures PrintFields(v, k) == Hex(v[k], w) + if Dash(k) then "-" + PrintFields(v, k + 1) else PrintFields(v, k + 1)
  {
    NoDash(PrintFields(v, k + 1));
  }

  lemma NoDash(t: string)
    ensures "" + t == t
  {
  }

  /** The last six bytes have no dashes. */
  lemma LastBytes(v: seq<nat>)
    requires |v| == 11
    ensures PrintFields(v, 5) ==
            Hex(v[5], 2) + (Hex(v[6], 2) + (Hex(v[7], 2) + (Hex(v[8], 2) + (Hex(v[9], 2) + (Hex(v[10], 2) + "")))))
  {
    LastThree(v, Hex(v[8], 2) + (Hex(v[9], 2) + (Hex(v[10], 2) + "")));
    Step(v, 5, 2);
    Step(v, 6, 2);
    Step(v, 7, 2);
  }

  lemma LastThree(v: seq<nat>, t: string)
    requires |v| == 11 && t == Hex(v[8], 2) + (Hex(v[9], 2) + (Hex(v[10], 2) + ""))
    ensures PrintFields(v, 8) == t
  {
    Step(v, 8, 2);
    Step(v, 9, 2);
    Step(v, 10, 2);
    assert PrintFields(v, 11) == "";
  }

  /** The text is, in braces, the first field with eight digits, the next two with four, and the bytes
      with two each, with a dash behind the first three fields and behind the second byte. */
  lemma Layout(g: Guid, bytes: string)
    requires Valid(g)
    requires bytes == Hex(g.data4[2], 2) + (Hex(g.data4[3], 2) + (Hex(g.data4[4], 2)
                      + (Hex(g.data4[5], 2) + (Hex(g.data4[6], 2) + (Hex(g.data4[7], 2) + "")))))
    ensures GuidToString(g) ==
            "{" + (Hex(g.data1, 8) + ("-" + (Hex(g.data2, 4) + ("-" + (Hex(g.data3, 4) + ("-"
            + (Hex(g.data4[0], 2) + (Hex(g.data4[1], 2) + ("-" + bytes))))))))) + "}"
  {
    var v := Values(g);
    Step(v, 0, 8);
    Step(v, 1, 4);
    Step(v, 2, 4);
    Step(v, 3, 2);
    Step(v, 4, 2);
    LastBytes(v);
  }

  /** The opening brace may be missing. */
  lemma BraceOptional(g: Guid)
    requires Valid(g)
    ensures StringToGuid(GuidToString(g)[1..]) == Some(g)
  {
    RoundTrip(g);
    var fields := PrintFields(Values(g), 0);
    Unbraced(fields);
    FieldsLength(Values(g), 0);
    LengthAll();
    FirstDigit(Values(g));
  }

  lemma Unbraced(fields: string)
    requires fields != ""
    ensures ("{" + fields + "}")[1..] == fields + "}" && (fields + "}")[0] == fields[0]
  {
  }

  lemma FirstDigit(v: seq<nat>)
    requires |v| == 11
    ensures PrintFields(v, 0) != "" && IsHex(PrintFields(v, 0)[0])
  {
    Step(v, 0, 8);
    assert PrintFields(v, 0)[0] == Hex(v[0], 8)[0];
  }
}
