/** The hexadecimal form of a hash of any size (source/hash/Hash.cpp): Base 16 of RFC 4648, section 8, written in
    lower case and read in either case. */
module Hash {
  import opened Wrappers

  newtype Byte = n: int | 0 <= n < 256

  const DIGITS := "0123456789abcdef"

  /** The value of a hexadecimal digit. */
  function FromHex(c: char): (v: Option<Byte>)
    ensures v.Some? ==> v.value < 16
  {
    if '0' <= c <= '9' then Some((c as int - '0' as int) as Byte)
    else if 'a' <= c <= 'f' then Some((c as int - 'a' as int + 10) as Byte)
    else if 'A' <= c <= 'F' then Some((c as int - 'A' as int + 10) as Byte)
    else None
  }

  predicate IsHex(s: string) {
    forall i :: 0 <= i < |s| ==> FromHex(s[i]).Some?
  }

  function Lower(c: char): char {
    if 'A' <= c <= 'Z' then (c as int - 'A' as int + 'a' as int) as char else c
  }

  function Lowercase(s: string): string {
    seq(|s|, i requires 0 <= i < |s| => Lower(s[i]))
  }

  /** The two digits of a byte, as "%02x" prints them. */
  function ByteHex(b: Byte): (s: string)
    ensures |s| == 2
  {
    [DIGITS[b / 16], DIGITS[b % 16]]
  }

  function Hex(data: seq<Byte>): (s: string)
    ensures |s| == 2 * |data|
  {
    if data == [] then "" else Hex(data[..|data| - 1]) + ByteHex(data[|data| - 1])
  }

  lemma {:induction false} HexAt(data: seq<Byte>, i: nat)
    requires i < |data|
    ensures Hex(data)[2 * i] == DIGITS[data[i] / 16] && Hex(data)[2 * i + 1] == DIGITS[data[i] % 16]
  {
    if i < |data| - 1 {
      HexAt(data[..|data| - 1], i);
    }
  }

  lemma DigitRoundTrip(v: Byte)
    requires v < 16
    ensures FromHex(DIGITS[v]) == Some(v)
  {
  }

  lemma DigitLowers(c: char)
    requires FromHex(c).Some?
    ensures DIGITS[FromHex(c).value] == Lower(c)
  {
  }

  /** Two digits that stand for a byte. */
  predicate SpellsByte(hi: char, lo: char, b: Byte) {
    && FromHex(hi).Some? && FromHex(lo).Some?
    && b as int == 16 * (FromHex(hi).value as int) + FromHex(lo).value as int
  }

  /** The bytes that `s` spells: this is what `parse` promises when it succeeds. */
  predicate Spells(s: string, data: seq<Byte>) {
    && |s| == 2 * |data|
    && forall i :: 0 <= i < |data| ==> SpellsByte(s[2 * i], s[2 * i + 1], data[i])
  }

  lemma SpellsIsHex(s: string, data: seq<Byte>)
    requires Spells(s, data)
    ensures IsHex(s)
  {
    forall j | 0 <= j < |s| ensures FromHex(s[j]).Some? {
      var i := j / 2;
      assert SpellsByte(s[2 * i], s[2 * i + 1], data[i]);
      assert j == 2 * i || j == 2 * i + 1;
    }
  }

  lemma ByteLowers(hi: char, lo: char, b: Byte)
    requires SpellsByte(hi, lo, b)
    ensures ByteHex(b) == [Lower(hi), Lower(lo)]
  {
    assert b / 16 == FromHex(hi).value && b % 16 == FromHex(lo).value;
    DigitLowers(hi);
    DigitLowers(lo);
  }

  /** Printing what a string spells gives the string in lower case. */
  lemma PrintAfterParse(s: string, data: seq<Byte>)
    requires Spells(s, data)
    ensures Hex(data) == Lowercase(s)
  {
    forall j | 0 <= j < |s| ensures Hex(data)[j] == Lower(s[j]) {
      var i := j / 2;
      assert j == 2 * i || j == 2 * i + 1;
      HexAt(data, i);
      ByteLowers(s[2 * i], s[2 * i + 1], data[i]);
      assert ByteHex(data[i])[0] == Lower(s[2 * i]) && ByteHex(data[i])[1] == Lower(s[2 * i + 1]);
    }
  }

  /** The printed form of a hash spells that hash. */
  lemma ParseAfterPrint(data: seq<Byte>)
    ensures Spells(Hex(data), data)
  {
    forall i | 0 <= i < |data| ensures SpellsByte(Hex(data)[2 * i], Hex(data)[2 * i + 1], data[i]) {
      HexAt(data, i);
      DigitRoundTrip(data[i] / 16);
      DigitRoundTrip(data[i] % 16);
    }
  }

  /** The number that `values` is in base `base`, the first digit being the most significant one. */
  function Numeral(base: nat, values: seq<nat>): nat {
    if values == [] then 0 else Numeral(base, values[..|values| - 1]) * base + values[|values| - 1]
  }

  function DigitsOf(s: string): seq<nat>
    requires IsHex(s)
  {
    seq(|s|, i requires 0 <= i < |s| => FromHex(s[i]).value as nat)
  }

  function BytesOf(data: seq<Byte>): seq<nat> {
    seq(|data|, i requires 0 <= i < |data| => data[i] as nat)
  }

  lemma NumeralSnoc(base: nat, values: seq<nat>, last: nat)
    ensures Numeral(base, values + [last]) == Numeral(base, values) * base + last
  {
    assert (values + [last])[..|values|] == values;
  }

  /** A string that spells a hash is the same number in base 16 as the hash is in base 256: the digits are in their
      places, the higher half of each byte first. */
  lemma {:induction false} SpellsTheNumber(s: string, data: seq<Byte>)
    requires Spells(s, data) && IsHex(s)
    ensures Numeral(16, DigitsOf(s)) == Numeral(256, BytesOf(data))
  {
    if data != [] {
      var n := |data| - 1;
      var before := DigitsOf(s[..2 * n]);
      var hi, lo := FromHex(s[2 * n]).value as nat, FromHex(s[2 * n + 1]).value as nat;
      SpellsTheNumber(s[..2 * n], data[..n]);
      assert SpellsByte(s[2 * n], s[2 * n + 1], data[n]);
      assert DigitsOf(s) == before + [hi] + [lo];
      NumeralSnoc(16, before, hi);
      NumeralSnoc(16, before + [hi], lo);
      assert BytesOf(data) == BytesOf(data[..n]) + [data[n] as nat];
      NumeralSnoc(256, BytesOf(data[..n]), data[n] as nat);
    }
  }

  /** The digits are those of Base 16, in both cases. */
  lemma DigitIs(c: char, v: nat)
    requires v < 16
    ensures FromHex(c) == Some(v as Byte) <==> c == "0123456789abcdef"[v] || c == "0123456789ABCDEF"[v]
  {
  }

  /** A string spells at most one hash. */
  lemma SpellsOne(s: string, a: seq<Byte>, b: seq<Byte>)
    requires Spells(s, a) && Spells(s, b)
    ensures a == b
  {
    forall i | 0 <= i < |a| ensures a[i] == b[i] {
      assert SpellsByte(s[2 * i], s[2 * i + 1], a[i]) && SpellsByte(s[2 * i], s[2 * i + 1], b[i]);
    }
  }

  datatype Parsed = Ok(data: array<Byte>) | Thrown(what: string)

  const BAD_LENGTH := "invalid hash string length"
  const BAD_CHARACTER := "invalid hex character"

  /** `char_from_hex` writing through a reference: the value is only set on success. */
  method CharFromHex(c: char, value: Byte) returns (ok: bool, newValue: Byte)
    ensures ok == FromHex(c).Some? && newValue == if ok then FromHex(c).value else value
  {
    if '0' <= c <= '9' {
      return true, (c as int - '0' as int) as Byte;
    }
    if 'a' <= c <= 'f' {
      return true, (c as int - 'a' as int + 10) as Byte;
    }
    if 'A' <= c <= 'F' {
      return true, (c as int - 'A' as int + 10) as Byte;
    }
    return false, value;
  }

  /** `parse` succeeds exactly on strings of `2 * size` hexadecimal digits. */
  method Parse(size: nat, hash: string) returns (r: Parsed)
    ensures r.Ok? <==> |hash| == 2 * size && IsHex(hash)
    ensures r.Ok? ==> fresh(r.data) && r.data.Length == size && Spells(hash, r.data[..])
    ensures r.Thrown? ==> r.what == if |hash| != 2 * size then BAD_LENGTH else BAD_CHARACTER
  {
    if |hash| != 2 * size {
      return Thrown(BAD_LENGTH);
    }
    var data := new Byte[size](_ => 0);
    for i := 0 to size
      invariant forall j :: 0 <= j < i ==> SpellsByte(hash[2 * j], hash[2 * j + 1], data[j])
    {
      var okHi, hi := CharFromHex(hash[2 * i], 0);
      if !okHi {
        return Thrown(BAD_CHARACTER);
      }
      var okLo, lo := CharFromHex(hash[2 * i + 1], 0);
      if !okLo {
        return Thrown(BAD_CHARACTER);
      }
      // the shift and the sum stay below 256, so the truncation to a byte changes nothing
      data[i] := ((hi as int * 16 + lo as int) % 256) as Byte;
    }
    SpellsIsHex(hash, data[..]);
    r := Ok(data);
  }

  /** "%02x" printed at position `at`: two digits and a terminator. */
  method PrintByte(buf: array<char>, at: nat, b: Byte)
    requires at + 2 < buf.Length
    modifies buf
    ensures buf[..] == old(buf[..at]) + ByteHex(b) + ['\0'] + old(buf[at + 3..])
  {
    buf[at] := DIGITS[b / 16];
    buf[at + 1] := DIGITS[b % 16];
    buf[at + 2] := '\0';
  }

  /** `string`: each terminator but the last is overwritten by the digits of the next byte. The array is the
      storage of the string, which has its own terminator behind the `2 * size` characters. */
  method Print(data: array<Byte>) returns (buf: array<char>)
    ensures fresh(buf) && buf.Length == 2 * data.Length + 1
    ensures buf[..2 * data.Length] == Hex(data[..]) && buf[2 * data.Length] == '\0'
  {
    var size := data.Length;
    buf := new char[2 * size + 1](_ => '\0');
    for i := 0 to size
      invariant buf[..2 * i] == Hex(data[..i])
      invariant forall j :: 2 * i <= j < buf.Length ==> buf[j] == '\0'
    {
      ghost var before := buf[..];
      PrintByte(buf, 2 * i, data[i]);
      assert data[..i + 1][..i] == data[..i];
      assert buf[..2 * (i + 1)] == before[..2 * i] + ByteHex(data[i]);
      assert forall j :: 2 * i + 2 <= j < buf.Length ==> buf[j] == buf[..][j];
    }
    assert data[..size] == data[..];
  }

  /** Reading back what was printed gives the same hash, for every size. */
  method PrintThenParse(data: array<Byte>) returns (r: Parsed)
    ensures r.Ok? && fresh(r.data) && r.data[..] == data[..]
  {
    var buf := Print(data);
    ParseAfterPrint(data[..]);
    SpellsIsHex(Hex(data[..]), data[..]);
    r := Parse(data.Length, buf[..2 * data.Length]);
    SpellsOne(Hex(data[..]), data[..], r.data[..]);
  }

  /** Printing what was read gives the string in lower case. */
  method ParseThenPrint(size: nat, hash: string) returns (s: Option<string>)
    ensures s == if |hash| == 2 * size && IsHex(hash) then Some(Lowercase(hash)) else None
  {
    var r := Parse(size, hash);
    if r.Thrown? {
      return None;
    }
    var buf := Print(r.data);
    PrintAfterParse(hash, r.data[..]);
    s := Some(buf[..2 * size]);
  }
}
