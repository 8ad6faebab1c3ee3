/** Base64 as section 4 of RFC 4648 writes it and as `atob` reads it. */
module Base64 {
  import opened Wrappers

  type Byte = b: int | 0 <= b < 256

  type Sextet = d: int | 0 <= d < 64

  function Digit(d: Sextet): char {
    if d < 26 then ('A' as int + d) as char
    else if d < 52 then ('a' as int + d - 26) as char
    else if d < 62 then ('0' as int + d - 52) as char
    else if d == 62 then '+'
    else '/'
  }

  function Value(c: char): Option<Sextet> {
    if 'A' <= c <= 'Z' then Some(c as int - 'A' as int)
    else if 'a' <= c <= 'z' then Some(c as int - 'a' as int + 26)
    else if '0' <= c <= '9' then Some(c as int - '0' as int + 52)
    else if c == '+' then Some(62)
    else if c == '/' then Some(63)
    else None
  }

  lemma DigitHasValue(d: Sextet)
    ensures Value(Digit(d)) == Some(d)
  {
  }

  // ---------- Writing ----------

  /** Three bytes to four values; a last byte or pair fills its last value with zero bits. */
  function Sextets(bytes: seq<Byte>): seq<Sextet> {
    if bytes == [] then []
    else if |bytes| == 1 then [bytes[0] / 4, bytes[0] % 4 * 16]
    else if |bytes| == 2 then [bytes[0] / 4, bytes[0] % 4 * 16 + bytes[1] / 16, bytes[1] % 16 * 4]
    else
      [bytes[0] / 4, bytes[0] % 4 * 16 + bytes[1] / 16, bytes[1] % 16 * 4 + bytes[2] / 64, bytes[2] % 64] + Sextets(bytes[3..])
  }

  function Written(values: seq<Sextet>): string {
    seq(|values|, i requires 0 <= i < |values| => Digit(values[i]))
  }

  function Padding(n: nat): string {
    if n % 3 == 1 then "==" else if n % 3 == 2 then "=" else ""
  }

  function Encode(bytes: seq<Byte>): string {
    Written(Sextets(bytes)) + Padding(|bytes|)
  }

  // ---------- Reading ----------

  predicate IsSpace(c: char) {
    c == ' ' || c == '\t' || c == '\n' || c == '\r' || c as int == 12
  }

  function Strip(data: string): string
    decreases |data|
  {
    if data == "" then ""
    else Strip(data[..|data| - 1]) + if IsSpace(data[|data| - 1]) then "" else [data[|data| - 1]]
  }

  function DropOne(text: string): string {
    if text != "" && text[|text| - 1] == '=' then text[..|text| - 1] else text
  }

  /** At most two padding signs, and only where they make the length come out. */
  function Unpad(text: string): string {
    if |text| % 4 == 0 then DropOne(DropOne(text)) else text
  }

  predicate AllDigits(text: string)
    decreases |text|
  {
    text == "" || (Value(text[|text| - 1]).Some? && AllDigits(text[..|text| - 1]))
  }

  /** Four values to three bytes; what is left of a shorter last group after its whole bytes is dropped. */
  function Bytes(values: seq<Sextet>): seq<Byte> {
    if |values| < 2 then []
    else
      var high: int, next: int := values[0], values[1];
      var first: Byte := high * 4 + next / 16;
      if |values| == 2 then [first]
      else
        var low: int := values[2];
        var second: Byte := next % 16 * 16 + low / 4;
        if |values| == 3 then [first, second]
        else
          var last: int := values[3];
          [first, second, low % 4 * 64 + last] + Bytes(values[4..])
  }

  function Values(text: string): seq<Sextet>
    requires AllDigits(text)
    decreases |text|
  {
    if text == "" then [] else Values(text[..|text| - 1]) + [Value(text[|text| - 1]).value]
  }

  /** Spaces are skipped, padding is optional, and any other character or a stray last digit is refused. */
  function Decode(data: string): Option<seq<Byte>> {
    var text := Unpad(Strip(data));
    if |text| % 4 == 1 || !AllDigits(text) then None else Some(Bytes(Values(text)))
  }

  // ---------- Reading what was written ----------

  lemma {:induction false} BytesOfSextets(bytes: seq<Byte>)
    ensures Bytes(Sextets(bytes)) == bytes
  {
    if |bytes| >= 3 {
      var head := [bytes[0] / 4, bytes[0] % 4 * 16 + bytes[1] / 16, bytes[1] % 16 * 4 + bytes[2] / 64, bytes[2] % 64];
      BytesOfSextets(bytes[3..]);
      assert Sextets(bytes) == head + Sextets(bytes[3..]);
      assert Sextets(bytes)[4..] == Sextets(bytes[3..]);
      assert [bytes[0], bytes[1], bytes[2]] + bytes[3..] == bytes;
    }
  }

  lemma OneGroupMore(bytes: nat, digits: nat)
    ensures (bytes + 3) % 3 == bytes % 3 && (digits + 4) % 4 == digits % 4
  {
  }

  lemma {:induction false} PaddedLength(bytes: seq<Byte>)
    ensures (|Sextets(bytes)| + |Padding(|bytes|)|) % 4 == 0 && |Sextets(bytes)| % 4 != 1
  {
    if |bytes| >= 3 {
      PaddedLength(bytes[3..]);
      var n := |Sextets(bytes[3..])|;
      assert |Sextets(bytes)| == n + 4;
      OneGroupMore(|bytes[3..]|, n);
      OneGroupMore(|bytes[3..]|, n + |Padding(|bytes[3..]|)|);
    }
  }

  lemma {:induction false} ValuesOfDigits(text: string, values: seq<Sextet>)
    requires |text| == |values| && forall i :: 0 <= i < |text| ==> text[i] == Digit(values[i])
    ensures AllDigits(text) && Values(text) == values
    decreases |text|
  {
    if text != "" {
      var n := |text| - 1;
      ValuesOfDigits(text[..n], values[..n]);
      DigitHasValue(values[n]);
      assert values == values[..n] + [values[n]];
    }
  }

  lemma {:induction false} NothingToStrip(data: string)
    requires forall i :: 0 <= i < |data| ==> !IsSpace(data[i])
    ensures Strip(data) == data
    decreases |data|
  {
    if data != "" {
      NothingToStrip(data[..|data| - 1]);
      assert data == data[..|data| - 1] + [data[|data| - 1]];
    }
  }

  lemma UnpadsWhatWasPadded(digits: string, n: nat)
    requires (|digits| + |Padding(n)|) % 4 == 0
    requires forall i :: 0 <= i < |digits| ==> digits[i] != '='
    ensures Unpad(digits + Padding(n)) == digits
  {
    var text := digits + Padding(n);
    if n % 3 == 1 {
      assert text[..|text| - 1][..|digits|] == digits;
    } else if n % 3 == 2 {
      assert text[..|text| - 1] == digits;
    }
  }

  lemma DigitsOnly(values: seq<Sextet>)
    ensures forall i :: 0 <= i < |values| ==> Written(values)[i] != '=' && !IsSpace(Written(values)[i])
  {
    forall i | 0 <= i < |values| ensures Written(values)[i] != '=' && !IsSpace(Written(values)[i]) { DigitHasValue(values[i]); }
  }

  lemma DecodesWhatWasEncoded(bytes: seq<Byte>)
    ensures Decode(Encode(bytes)) == Some(bytes)
  {
    var values := Sextets(bytes);
    PaddedLength(bytes);
    DigitsOnly(values);
    NothingToStrip(Encode(bytes));
    UnpadsWhatWasPadded(Written(values), |bytes|);
    ValuesOfDigits(Written(values), values);
    BytesOfSextets(bytes);
  }

  // ---------- Reading what else there is ----------

  lemma {:induction false} StripConcat(a: string, b: string)
    ensures Strip(a + b) == Strip(a) + Strip(b)
    decreases |b|
  {
    if b == "" {
      assert a + b == a;
    } else {
      assert (a + b)[..|a + b| - 1] == a + b[..|b| - 1];
      StripConcat(a, b[..|b| - 1]);
    }
  }

  /** White space anywhere makes no difference. */
  lemma SpaceIgnored(a: string, c: char, b: string)
    requires c == ' ' || c == '\t' || c == '\n' || c == '\r' || c as int == 12
    ensures Decode(a + [c] + b) == Decode(a + b)
  {
    StripConcat(a + [c], b);
    StripConcat(a, [c]);
    StripConcat(a, b);
    assert [c][..0] == "";
    assert Strip([c]) == "";
    assert Strip(a + [c]) == Strip(a);
  }

  /** The padding may be missing. */
  lemma PaddingOptional(bytes: seq<Byte>)
    ensures Decode(Written(Sextets(bytes))) == Some(bytes)
  {
    var values := Sextets(bytes);
    PaddedLength(bytes);
    DigitsOnly(values);
    NothingToStrip(Written(values));
    ValuesOfDigits(Written(values), values);
    BytesOfSextets(bytes);
  }

  /** The characters a value is written with. */
  predicate InAlphabet(c: char) {
    exists d: Sextet :: Digit(d) == c
  }

  lemma ValueInAlphabet(c: char)
    ensures Value(c).Some? <==> InAlphabet(c)
  {
    if InAlphabet(c) {
      var d: Sextet :| Digit(d) == c;
      DigitHasValue(d);
    }
    if Value(c).Some? { assert Digit(Value(c).value) == c; }
  }

  lemma {:induction false} AllDigitsMeans(text: string)
    ensures AllDigits(text) <==> forall i :: 0 <= i < |text| ==> InAlphabet(text[i])
    decreases |text|
  {
    if text != "" {
      AllDigitsMeans(text[..|text| - 1]);
      ValueInAlphabet(text[|text| - 1]);
    }
  }

  /** Any other character is refused, and so is a padding sign that does not stand in the last two places of a text that comes out. */
  lemma OtherCharactersRefused(a: string, c: char, b: string)
    requires !IsSpace(c) && !InAlphabet(c)
    requires c == '=' ==> |Strip(b)| >= 2 || |Strip(a + [c] + b)| % 4 != 0
    ensures Decode(a + [c] + b) == None
  {
    StrippedAround(a, c, b);
    var stripped, at := Strip(a + [c] + b), |Strip(a)|;
    UnpadCuts(stripped);
    var text := Unpad(stripped);
    if at < |text| {
      assert text[at] == c;
      AllDigitsMeans(text);
    }
  }

  lemma StrippedAround(a: string, c: char, b: string)
    requires !IsSpace(c)
    ensures Strip(a + [c] + b) == Strip(a) + [c] + Strip(b)
  {
    StripConcat(a + [c], b);
    StripConcat(a, [c]);
    assert [c][..0] == "";
    assert Strip([c]) == [c];
  }

  /** Only padding signs are cut off, at most two, and only where the length is a multiple of four. */
  lemma UnpadCuts(text: string)
    ensures |text| - 2 <= |Unpad(text)| <= |text| && Unpad(text) == text[..|Unpad(text)|]
    ensures forall i :: |Unpad(text)| <= i < |text| ==> text[i] == '='
    ensures |text| % 4 != 0 ==> Unpad(text) == text
  {
  }

  /** And so is a single digit left over after groups of four. */
  lemma StrayDigitRefused(digits: string)
    requires |digits| % 4 == 1 && forall i :: 0 <= i < |digits| ==> InAlphabet(digits[i])
    ensures Decode(digits) == None
  {
    forall i | 0 <= i < |digits| ensures !IsSpace(digits[i]) { ValueInAlphabet(digits[i]); }
    NothingToStrip(digits);
  }

  /** Reading loses nothing: written back, the bytes give the same text. */
  predicate Canonical(data: string) {
    Decode(data).Some? && Encode(Decode(data).value) == data
  }

  /** The texts that reading loses nothing of are exactly those written for some bytes. */
  lemma CanonicalIffWritten(data: string)
    ensures Canonical(data) <==> exists bytes :: data == Encode(bytes)
  {
    if Canonical(data) {
      assert data == Encode(Decode(data).value);
    }
    forall bytes | data == Encode(bytes) ensures Canonical(data) {
      DecodesWhatWasEncoded(bytes);
    }
  }
}
