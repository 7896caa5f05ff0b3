/** encodeURIComponent and its inverse: percent-encoded UTF-8 (section 2.1 of RFC 3986, section 3 of RFC 3629). */
module UriComponent {
  import opened Wrappers
  import opened Sequences
  import opened Text

  predicate Unreserved(c: char) {
    'a' <= c <= 'z' || 'A' <= c <= 'Z' || '0' <= c <= '9' || c in "-_.!~*'()"
  }

  // ----- Bytes of a character -----

  type Byte = b: int | 0 <= b < 256

  function Tail(n: nat): (b: Byte)
    ensures 0x80 <= b < 0xC0
  {
    0x80 + n % 64
  }

  function Utf8(c: char): (bytes: seq<Byte>)
    ensures 1 <= |bytes| <= 4
  {
    var n := c as int;
    if n < 0x80 then [n]
    else if n < 0x800 then [0xC0 + n / 64, Tail(n)]
    else if n < 0x10000 then [0xE0 + n / 64 / 64, Tail(n / 64), Tail(n)]
    else [0xF0 + n / 64 / 64 / 64, Tail(n / 64 / 64), Tail(n / 64), Tail(n)]
  }

  function HexDigit(n: nat): char
    requires n < 16
  {
    if n < 10 then '0' + n as char else 'A' + (n - 10) as char
  }

  function PercentByte(b: Byte): (t: string)
    ensures |t| == 3
  {
    ['%', HexDigit(b / 16), HexDigit(b % 16)]
  }

  function PercentBytes(bytes: seq<Byte>): (t: string)
    ensures |t| == 3 * |bytes|
  {
    if bytes == [] then "" else PercentByte(bytes[0]) + PercentBytes(bytes[1..])
  }

  function EncodeChar(c: char): (t: string)
    ensures t != ""
  {
    if Unreserved(c) then [c] else PercentBytes(Utf8(c))
  }

  function Encode(s: string): string {
    FlatMap(EncodeChar, s)
  }

  /** What stays as it is: letters, digits and nine marks. */
  lemma KeptIff(c: char)
    ensures Encode([c]) == [c] <==>
            'a' <= c <= 'z' || 'A' <= c <= 'Z' || '0' <= c <= '9' || c == '-' || c == '_' || c == '.' || c == '!'
            || c == '~' || c == '*' || c == '\'' || c == '(' || c == ')'
  {
    assert [c][1..] == "" && Encode("") == "";
    assert Encode([c]) == EncodeChar(c);
    if !Unreserved(c) {
      assert |PercentBytes(Utf8(c))| >= 3;
    }
  }

  lemma {:induction false} EncodeConcat(a: string, b: string)
    ensures Encode(a + b) == Encode(a) + Encode(b)
  {
    FlatMapConcat(EncodeChar, a, b);
  }

  lemma PercentSome(a: Byte, b: Byte, c: Byte)
    ensures PercentBytes([a]) == PercentByte(a)
    ensures PercentBytes([a, b]) == PercentByte(a) + PercentByte(b)
    ensures PercentBytes([a, b, c]) == PercentByte(a) + PercentByte(b) + PercentByte(c)
  {
    var none: seq<Byte> := [];
    assert PercentBytes(none) == "";
    assert [a][1..] == none && [b][1..] == none && [c][1..] == none && [b, c][1..] == [c];
    assert PercentBytes([b]) == PercentByte(b) + PercentBytes(none);
    assert PercentBytes([c]) == PercentByte(c) + PercentBytes(none);
    assert PercentBytes([b, c]) == PercentByte(b) + PercentBytes([c]);
    assert [a, b][1..] == [b] && [a, b, c][1..] == [b, c];
  }

  lemma EncodeOne(c: char)
    ensures Encode([c]) == EncodeChar(c)
  {
    assert [c][1..] == "" && Encode("") == "";
  }

  /** Another ASCII character becomes a percent sign and its two digits. */
  lemma EncodedAscii(c: char, high: nat, low: nat)
    requires high < 16 && low < 16 && c as int == 16 * high + low && c as int < 0x80 && Encode([c]) != [c]
    ensures Encode([c]) == ['%', "0123456789ABCDEF"[high], "0123456789ABCDEF"[low]]
  {
    EncodeOne(c);
    PercentSome(c as int, 0, 0);
  }

  /** Two and three bytes of UTF-8. */
  lemma EncodedSamples(e: char, euro: char)
    requires e as int == 0xE9 && euro as int == 0x20AC
    ensures Encode([e]) == "%C3%A9" && Encode([euro]) == "%E2%82%AC"
  {
    EncodeOne(e);
    EncodeOne(euro);
    PercentSome(0xC3, 0xA9, 0);
    PercentSome(0xE2, 0x82, 0xAC);
    assert Utf8(e) == [0xC3, 0xA9] && Utf8(euro) == [0xE2, 0x82, 0xAC];
  }

  // ----- Reading back -----

  function ReadByte(t: string): Option<Byte> {
    if |t| < 3 || t[0] != '%' then None
    else
      var high, low := HexValue(t[1]), HexValue(t[2]);
      if high.None? || low.None? || high.value > 15 || low.value > 15 then None else Some(16 * high.value + low.value)
  }

  /** Reads n continuation bytes and adds their bits. */
  function ReadTail(t: string, n: nat, code: nat): Option<nat>
    decreases n
  {
    if n == 0 then Some(code)
    else
      var b := ReadByte(t);
      if b.None? || !(0x80 <= b.value < 0xC0) then None else ReadTail(t[3..], n - 1, code * 64 + (b.value - 0x80))
  }

  // How many bytes follow the first, its bits and the least code that needs them.
  function Lead(b: Byte): Option<(nat, nat, nat)> {
    if b < 0x80 then Some((0, b, 0))
    else if 0xC0 <= b < 0xE0 then Some((1, b - 0xC0, 0x80))
    else if 0xE0 <= b < 0xF0 then Some((2, b - 0xE0, 0x800))
    else if 0xF0 <= b < 0xF8 then Some((3, b - 0xF0, 0x10000))
    else None
  }

  predicate IsScalar(code: nat) {
    code < 0xD800 || 0xE000 <= code < 0x110000
  }

  function ReadChar(t: string): Option<(char, nat)> {
    var b := ReadByte(t);
    if b.None? || Lead(b.value).None? then None
    else
      var (n, bits, least) := Lead(b.value).value;
      var code := ReadTail(t[3..], n, bits);
      if code.None? || code.value < least || !IsScalar(code.value) then None else Some((code.value as char, 3 + 3 * n))
  }

  /** None when the escapes are malformed. */
  function Decode(t: string): Option<string> {
    if t == "" then Some("")
    else
      var first := if t[0] == '%' then ReadChar(t) else Some((t[0], 1));
      if first.None? || first.value.1 > |t| then None
      else
        var rest := Decode(t[first.value.1..]);
        if rest.None? then None else Some([first.value.0] + rest.value)
  }

  // ----- Round trip -----

  lemma ReadPercentByte(b: Byte, rest: string)
    ensures ReadByte(PercentByte(b) + rest) == Some(b) && (PercentByte(b) + rest)[3..] == rest
  {
    HexReadBack(b / 16);
    HexReadBack(b % 16);
  }

  lemma HexReadBack(n: nat)
    requires n < 16
    ensures HexValue(HexDigit(n)) == Some(n)
  {
  }

  function Bits(bytes: seq<Byte>, code: nat): nat
    requires forall i :: 0 <= i < |bytes| ==> 0x80 <= bytes[i]
  {
    if bytes == [] then code else Bits(bytes[1..], code * 64 + (bytes[0] - 0x80))
  }

  lemma {:induction false} ReadTailBytes(bytes: seq<Byte>, rest: string, code: nat)
    requires forall i :: 0 <= i < |bytes| ==> 0x80 <= bytes[i] < 0xC0
    ensures ReadTail(PercentBytes(bytes) + rest, |bytes|, code) == Some(Bits(bytes, code))
    decreases |bytes|
  {
    if bytes != [] {
      var more := PercentBytes(bytes[1..]) + rest;
      assert PercentBytes(bytes) + rest == PercentByte(bytes[0]) + more;
      ReadPercentByte(bytes[0], more);
      ReadTailBytes(bytes[1..], rest, code * 64 + (bytes[0] - 0x80));
    }
  }

  lemma BitsCons(b: Byte, rest: seq<Byte>, code: nat, sum: nat)
    requires 0x80 <= b && sum == code * 64 + (b - 0x80) && forall i :: 0 <= i < |rest| ==> 0x80 <= rest[i]
    ensures Bits([b] + rest, code) == Bits(rest, sum)
  {
    assert ([b] + rest)[1..] == rest;
  }

  lemma SixBits(n: nat)
    ensures n / 64 * 64 + (Tail(n) - 0x80) == n
  {
  }

  lemma SixMoreBits(n: nat, rest: seq<Byte>)
    requires forall i :: 0 <= i < |rest| ==> 0x80 <= rest[i]
    ensures Bits([Tail(n)] + rest, n / 64) == Bits(rest, n)
  {
    SixBits(n);
    BitsCons(Tail(n), rest, n / 64, n);
  }

  lemma BitsOfChar(c: char)
    ensures var bytes := Utf8(c);
            && Lead(bytes[0]).Some? && Lead(bytes[0]).value.0 == |bytes| - 1
            && (forall i :: 0 <= i < |bytes| - 1 ==> 0x80 <= bytes[1..][i] < 0xC0)
            && Bits(bytes[1..], Lead(bytes[0]).value.1) == c as int && Lead(bytes[0]).value.2 <= c as int
  {
    var n, bytes := c as int, Utf8(c);
    if n < 0x80 {
      assert bytes[1..] == [];
    } else {
      SixMoreBits(n, []);
      assert [Tail(n)] + [] == [Tail(n)];
      if n < 0x800 {
        assert bytes[1..] == [Tail(n)];
      } else {
        SixMoreBits(n / 64, [Tail(n)]);
        assert [Tail(n / 64)] + [Tail(n)] == [Tail(n / 64), Tail(n)];
        if n < 0x10000 {
          assert bytes[1..] == [Tail(n / 64), Tail(n)];
        } else {
          SixMoreBits(n / 64 / 64, [Tail(n / 64), Tail(n)]);
          assert bytes[1..] == [Tail(n / 64 / 64)] + [Tail(n / 64), Tail(n)];
        }
      }
    }
  }

  lemma ReadEncodedChar(c: char, rest: string)
    ensures ReadChar(PercentBytes(Utf8(c)) + rest) == Some((c, 3 * |Utf8(c)|))
  {
    var bytes := Utf8(c);
    var t := PercentBytes(bytes) + rest;
    BitsOfChar(c);
    assert t == PercentByte(bytes[0]) + (PercentBytes(bytes[1..]) + rest);
    ReadPercentByte(bytes[0], PercentBytes(bytes[1..]) + rest);
    ReadTailBytes(bytes[1..], rest, Lead(bytes[0]).value.1);
  }

  lemma DecodeChar(c: char, rest: string, text: string)
    requires Decode(rest) == Some(text)
    ensures Decode(EncodeChar(c) + rest) == Some([c] + text)
  {
    var t := EncodeChar(c) + rest;
    if Unreserved(c) {
      assert c != '%' && t[1..] == rest;
    } else {
      assert PercentBytes(Utf8(c))[0] == '%';
      ReadEncodedChar(c, rest);
      assert t[3 * |Utf8(c)|..] == rest;
    }
  }

  /** A reader that reads each encoded character back before going on. */
  ghost predicate ReadsChars(encode: char -> string, decode: string -> Option<string>) {
    forall c, rest {:trigger decode(encode(c) + rest)} :: decode(rest).Some? ==>
      decode(encode(c) + rest) == Some([c] + decode(rest).value)
  }

  lemma {:induction false} ReadsStrings(encode: char -> string, decode: string -> Option<string>, s: string,
                                        rest: string)
    requires ReadsChars(encode, decode) && decode(rest).Some?
    ensures decode(FlatMap(encode, s) + rest) == Some(s + decode(rest).value)
  {
    var text := decode(rest).value;
    if s == "" {
      assert FlatMap(encode, s) + rest == rest && s + text == text;
    } else {
      var next := FlatMap(encode, s[1..]) + rest;
      ReadsStrings(encode, decode, s[1..], rest);
      assert FlatMap(encode, s) + rest == encode(s[0]) + next;
      assert decode(encode(s[0]) + next) == Some([s[0]] + decode(next).value);
      assert [s[0]] + (s[1..] + text) == s + text;
    }
  }

  /** Decoding reads an encoded prefix back and goes on with the rest. */
  lemma DecodeEncoded(s: string, rest: string)
    requires Decode(rest).Some?
    ensures Decode(Encode(s) + rest) == Some(s + Decode(rest).value)
  {
    forall c, next | Decode(next).Some? ensures Decode(EncodeChar(c) + next) == Some([c] + Decode(next).value) {
      DecodeChar(c, next, Decode(next).value);
    }
    ReadsStrings(EncodeChar, Decode, s, rest);
  }

  predicate UrlSafe(c: char) {
    c == '%' || Unreserved(c)
  }

  lemma {:induction false} PercentBytesSafe(bytes: seq<Byte>, c: char)
    requires c in PercentBytes(bytes)
    ensures UrlSafe(c)
  {
    if c !in PercentByte(bytes[0]) {
      PercentBytesSafe(bytes[1..], c);
    }
  }

  /** An encoded component holds no separator of a query. */
  lemma EncodedSafe(s: string, c: char)
    requires c in Encode(s)
    ensures UrlSafe(c)
  {
    InFlatMap(EncodeChar, s, c);
    var x :| x in s && c in EncodeChar(x);
    if !Unreserved(x) {
      PercentBytesSafe(Utf8(x), c);
    }
  }
}
