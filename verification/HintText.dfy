/** The stored form of a remembered place: "<channel>:<12 hex digits>"
    (lib/CloudSync/WifiList.cpp). */
module HintText {
  import opened Common
  import opened Storage
  import opened WifiList

  const ZERO: Letter := 48
  const NINE: Letter := 57
  const COLON: Letter := 58
  const UPPER_A: Letter := 65
  const UPPER_F: Letter := 70
  const LOWER_A: Letter := 97
  const LOWER_F: Letter := 102
  // The buffer a hint is printed into and read from, without its NUL.
  const HINT_MAX: nat := 15

  function HexDigit(v: nat): Letter
    requires v < 16
  {
    if v < 10 then ZERO + v else LOWER_A + v - 10
  }

  /** The value of a hex digit in either case; -1 for any other byte. */
  function HexValue(c: Letter): (v: int)
    ensures -1 <= v < 16
  {
    if ZERO <= c <= NINE then c - ZERO
    else if LOWER_A <= c <= LOWER_F then c - LOWER_A + 10
    else if UPPER_A <= c <= UPPER_F then c - UPPER_A + 10
    else -1
  }

  function AddressHex(address: Address): Text {
    seq(12, i requires 0 <= i < 12 =>
      HexDigit(if i % 2 == 0 then address[i / 2] / 16 else address[i / 2] % 16))
  }

  function AddressOf(hex: Text): Option<Address> {
    if |hex| != 12 || exists i :: 0 <= i < 12 && HexValue(hex[i]) < 0 then None
    else Some(seq(6, i requires 0 <= i < 6 && 0 <= HexValue(hex[2 * i]) && 0 <= HexValue(hex[2 * i + 1]) =>
      HexValue(hex[2 * i]) * 16 + HexValue(hex[2 * i + 1])))
  }

  lemma HexDigitsSpellTheAddress(address: Address, i: nat)
    requires i < 12
    ensures HexValue(AddressHex(address)[i]) == if i % 2 == 0 then address[i / 2] / 16 else address[i / 2] % 16
  {
  }

  lemma AddressRoundTrip(address: Address)
    ensures AddressOf(AddressHex(address)) == Some(address)
  {
    var hex := AddressHex(address);
    forall i | 0 <= i < 12
      ensures 0 <= HexValue(hex[i])
    {
      HexDigitsSpellTheAddress(address, i);
    }
    var back := AddressOf(hex).value;
    forall i | 0 <= i < 6
      ensures back[i] == address[i]
    {
      HexDigitsSpellTheAddress(address, 2 * i);
      HexDigitsSpellTheAddress(address, 2 * i + 1);
    }
    assert back == address;
  }

  method AddressToHex(address: Address) returns (out: Text)
    ensures out == AddressHex(address)
  {
    out := [];
    for i := 0 to 6
      invariant |out| == 2 * i
      invariant forall j :: 0 <= j < 2 * i ==> out[j] == AddressHex(address)[j]
    {
      out := out + [HexDigit(address[i] / 16), HexDigit(address[i] % 16)];
    }
  }

  method AddressFromHex(hex: Text) returns (out: Option<Address>)
    ensures out == AddressOf(hex)
  {
    if |hex| != 12 { return None; }
    var bytes: seq<Octet> := [];
    for i := 0 to 12
      invariant |bytes| == (i + 1) / 2
      invariant forall j :: 0 <= j < i ==> 0 <= HexValue(hex[j])
      invariant forall j :: 0 <= j < i / 2 ==> bytes[j] == HexValue(hex[2 * j]) * 16 + HexValue(hex[2 * j + 1])
      invariant i % 2 == 1 ==> bytes[i / 2] == HexValue(hex[i - 1]) * 16
    {
      var v := HexValue(hex[i]);
      if v < 0 { return None; }
      if i % 2 == 0 {
        bytes := bytes + [v * 16];
      } else {
        bytes := bytes[i / 2 := bytes[i / 2] + v];
      }
    }
    assert bytes == AddressOf(hex).value;
    return Some(bytes);
  }

  /** A channel as it is printed, without leading zeros. */
  function Decimal(n: Octet): Text {
    if n < 10 then [ZERO + n]
    else if n < 100 then [ZERO + n / 10, ZERO + n % 10]
    else [ZERO + n / 100, ZERO + n / 10 % 10, ZERO + n % 10]
  }

  function PrintHint(h: Option<Hint>): Text
  {
    if h.None? then []
    else
      var full := Decimal(h.value.channel) + [COLON] + AddressHex(h.value.address);
      if |full| <= HINT_MAX then full else full[..HINT_MAX]
  }

  function ColonAt(text: Text): (at: int)
    ensures -1 <= at < |text|
    ensures 0 <= at ==> text[at] == COLON && forall j :: 0 <= j < at ==> text[j] != COLON
    ensures at < 0 ==> forall j :: 0 <= j < |text| ==> text[j] != COLON
  {
    if text == [] then -1
    else if text[0] == COLON then 0
    else var at := ColonAt(text[1..]); if at < 0 then -1 else at + 1
  }

  /** The number a digit string spells; -1 when some byte is not a digit. */
  function Spelled(digits: Text): int {
    if digits == [] then 0
    else
      var before := Spelled(digits[..|digits| - 1]);
      var last := digits[|digits| - 1];
      if before < 0 || last < ZERO || NINE < last then -1 else before * 10 + last - ZERO
  }

  function ParseHint(text: Text): Option<Hint> {
    var colon := ColonAt(text);
    if colon <= 0 || 2 < colon then None
    else
      var channel := Spelled(text[..colon]);
      var address := AddressOf(text[colon + 1..]);
      if channel < 1 || 14 < channel || address.None? then None
      else Some(Hint(channel, address.value))
  }

  lemma ParsedHintOk(text: Text)
    ensures ParseHint(text).Some? ==> HintOk(ParseHint(text).value)
  {
  }

  lemma DecimalRoundTrip(n: Octet)
    requires 1 <= n <= 14
    ensures Spelled(Decimal(n)) == n && 1 <= |Decimal(n)| <= 2
    ensures forall i :: 0 <= i < |Decimal(n)| ==> Decimal(n)[i] != COLON
  {
    if n < 10 {
      assert Decimal(n)[..0] == [];
    } else {
      assert Decimal(n)[..1] == [ZERO + n / 10];
      assert [ZERO + n / 10][..0] == [];
      assert Spelled([ZERO + n / 10]) == n / 10;
    }
  }

  /** Printing a place and reading it back gives the same place. */
  lemma HintRoundTrip(h: Hint)
    requires HintOk(h)
    ensures ParseHint(PrintHint(Some(h))) == Some(h)
    ensures 1 <= |PrintHint(Some(h))| <= HINT_MAX
  {
    var digits := Decimal(h.channel);
    var hex := AddressHex(h.address);
    var text := PrintHint(Some(h));
    DecimalRoundTrip(h.channel);
    AddressRoundTrip(h.address);
    assert text == digits + [COLON] + hex;
    assert text[|digits|] == COLON;
    assert forall j :: 0 <= j < |digits| ==> text[j] == digits[j];
    assert ColonAt(text) == |digits|;
    assert text[..|digits|] == digits && text[|digits| + 1..] == hex;
  }

  /** The channel in decimal without a leading zero, a colon (58), the address. */
  lemma PrintedHint(h: Hint)
    requires HintOk(h)
    ensures PrintHint(Some(h)) ==
              (if h.channel < 10 then [48 + h.channel] else [49, 38 + h.channel]) + [58] + AddressHex(h.address)
  {
    assert |AddressHex(h.address)| == 12;
    assert Decimal(h.channel) == if h.channel < 10 then [48 + h.channel] else [49, 38 + h.channel];
    hide AddressHex, Decimal;
  }

  const HEX_DIGITS: seq<int> := [48, 49, 50, 51, 52, 53, 54, 55, 56, 57, 97, 98, 99, 100, 101, 102]

  /** The address in small hex digits, byte by byte, the high half first. */
  lemma PrintedAddress(address: Address, i: nat)
    requires i < 6
    ensures AddressHex(address)[2 * i] == HEX_DIGITS[address[i] / 16]
    ensures AddressHex(address)[2 * i + 1] == HEX_DIGITS[address[i] % 16]
  {
    HexDigitIs(address[i] / 16);
    HexDigitIs(address[i] % 16);
    hide HexDigit;
  }

  lemma HexDigitIs(v: nat)
    requires v < 16
    ensures HexDigit(v) == HEX_DIGITS[v]
  {
  }

  method HintToText(h: Option<Hint>) returns (out: Text)
    ensures out == PrintHint(h)
  {
    if h.None? { return []; }
    var hex := AddressToHex(h.value.address);
    var full := Decimal(h.value.channel) + [COLON] + hex;
    out := if |full| <= HINT_MAX then full else full[..HINT_MAX];
  }

  method HintFromText(text: Text) returns (out: Option<Hint>)
    ensures out == ParseHint(text)
  {
    var colon := 0;
    while colon < |text| && text[colon] != COLON
      invariant 0 <= colon <= |text|
      invariant forall j :: 0 <= j < colon ==> text[j] != COLON
    {
      colon := colon + 1;
    }
    if colon == |text| || colon == 0 || 2 < colon { return None; }
    assert ColonAt(text) == colon;
    var channel := 0;
    for p := 0 to colon
      invariant 0 <= channel == Spelled(text[..p])
    {
      assert text[..p + 1][..p] == text[..p];
      if text[p] < ZERO || NINE < text[p] {
        SpelledPrefix(text[..colon], p + 1);
        assert text[..colon][..p + 1] == text[..p + 1];
        return None;
      }
      channel := channel * 10 + (text[p] - ZERO);
    }
    var address := AddressFromHex(text[colon + 1..]);
    if channel < 1 || 14 < channel || address.None? { return None; }
    return Some(Hint(channel, address.value));
  }

  lemma {:induction false} SpelledPrefix(digits: Text, n: nat)
    requires n <= |digits| && Spelled(digits[..n]) < 0
    ensures Spelled(digits) < 0
    decreases |digits| - n
  {
    if n < |digits| {
      assert digits[..n + 1][..n] == digits[..n];
      SpelledPrefix(digits, n + 1);
    } else {
      assert digits[..n] == digits;
    }
  }
}
