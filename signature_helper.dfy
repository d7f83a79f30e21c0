/** frontend/src/utils/helpers.js, `createHmacSignature`: despite its name it is not an
    HMAC. The UTF-8 bytes of the data are XORed with the UTF-8 bytes of the key repeated
    cyclically, each result byte becomes one character, and the base64 text of those
    characters is cut to 20 characters. */
module SignatureHelper {
  import opened Wrappers
  import opened Lists

  type byte = bv8

  // ---------------------------------------------------------------- TextEncoder

  /** A continuation byte `10xxxxxx` carrying the low six bits of n. */
  function Continuation(n: nat): byte {
    (0x80 + n % 0x40) as byte
  }

  /** A quotient below a bound. */
  lemma DivBelow(n: nat, d: nat, q: nat)
    requires d > 0 && n < d * q
    ensures n / d < q
  {
  }

  /** A leading byte: the `prefix` bits followed by the high bits `top` of the code point. */
  function Leading(prefix: nat, top: nat): (b: byte)
    requires prefix + top < 0x100
  {
    (prefix + top) as byte
  }

  /** The UTF-8 encoding of one code point (RFC 3629, section 3). */
  function Utf8Char(c: char): (r: seq<byte>)
    ensures 1 <= |r| <= 4
    ensures (c as int < 0x80) == (|r| == 1)
    ensures c as int < 0x80 ==> r == [(c as int) as byte]
  {
    var n: nat := c as int;
    if n < 0x80 then [n as byte]
    else if n < 0x800 then
      DivBelow(n, 0x40, 0x20);
      [Leading(0xC0, n / 0x40), Continuation(n)]
    else if n < 0x10000 then
      DivBelow(n, 0x1000, 0x10);
      [Leading(0xE0, n / 0x1000), Continuation(n / 0x40), Continuation(n)]
    else
      DivBelow(n, 0x40000, 0x8);
      [Leading(0xF0, n / 0x40000), Continuation(n / 0x1000), Continuation(n / 0x40), Continuation(n)]
  }

  /** `new TextEncoder().encode(s)`. */
  function Utf8(s: string): seq<byte> {
    if |s| == 0 then [] else Utf8Char(s[0]) + Utf8(s[1..])
  }

  predicate AllAscii(s: string) {
    forall i :: 0 <= i < |s| ==> s[i] as int < 0x80
  }

  /** Every character takes one to four bytes, and exactly one byte each when all are
      ASCII. */
  lemma {:induction false} Utf8Length(s: string)
    ensures |s| <= |Utf8(s)| <= 4 * |s|
    ensures AllAscii(s) <==> |Utf8(s)| == |s|
  {
    if |s| > 0 {
      var h, t := Utf8Char(s[0]), Utf8(s[1..]);
      Utf8Length(s[1..]);
      assert Utf8(s) == h + t;
      assert AllAscii(s) <==> s[0] as int < 0x80 && AllAscii(s[1..]) by {
        assert forall i :: 1 <= i < |s| ==> s[i] == s[1..][i - 1];
      }
    }
  }

  /** Text made of ASCII characters only is its own encoding. */
  lemma {:induction false} Utf8Ascii(s: string)
    requires AllAscii(s)
    ensures |Utf8(s)| == |s| && forall i :: 0 <= i < |s| ==> Utf8(s)[i] == (s[i] as int) as byte
  {
    if |s| > 0 {
      var h, t, r := Utf8Char(s[0]), Utf8(s[1..]), Utf8(s);
      assert AllAscii(s[1..]) by {
        assert forall i :: 1 <= i < |s| ==> s[i] == s[1..][i - 1];
      }
      Utf8Ascii(s[1..]);
      assert r == h + t;
      assert |h| == 1;
      forall i | 0 <= i < |s|
        ensures r[i] == (s[i] as int) as byte
      {
        if i > 0 {
          assert r[i] == t[i - 1];
          assert s[i] == s[1..][i - 1];
        }
      }
    }
  }

  // ---------------------------------------------------------------- XOR

  /** `keyData[i % keyData.length]`: with an empty key the index is NaN, the element
      undefined, and XOR with undefined XORs with 0. */
  function KeyByte(key: seq<byte>, i: nat): byte {
    if |key| == 0 then 0 else key[i % |key|]
  }

  /** The bytes the loop produces: data byte i XOR key byte i mod the key length. */
  function XorBytes(data: seq<byte>, key: seq<byte>): (r: seq<byte>)
    ensures |r| == |data|
    ensures forall i :: 0 <= i < |data| ==> r[i] == data[i] ^ KeyByte(key, i)
  {
    seq(|data|, i requires 0 <= i < |data| => data[i] ^ KeyByte(key, i))
  }

  /** XOR with the same key undoes itself. */
  lemma XorTwice(data: seq<byte>, key: seq<byte>)
    ensures XorBytes(XorBytes(data, key), key) == data
  {
    var once := XorBytes(data, key);
    var twice := XorBytes(once, key);
    forall i | 0 <= i < |data| ensures twice[i] == data[i] {
      var k := KeyByte(key, i);
      assert twice[i] == (data[i] ^ k) ^ k;
      assert (data[i] ^ k) ^ k == data[i] ^ (k ^ k) == data[i] ^ 0;
    }
  }

  /** With an empty key the bytes are unchanged. */
  lemma XorEmptyKey(data: seq<byte>)
    ensures XorBytes(data, []) == data
  {
    forall i | 0 <= i < |data| ensures XorBytes(data, [])[i] == data[i] {
      assert data[i] ^ 0 == data[i];
    }
  }

  /** The XOR loop: one character per UTF-8 byte of the data, that byte XOR the key byte
      at the same position modulo the key length. */
  method XorString(secretKey: string, data: string) returns (signature: string)
    ensures |signature| == |Utf8(data)|
    ensures forall i :: 0 <= i < |signature| ==>
              signature[i] as int == (Utf8(data)[i] ^ KeyByte(Utf8(secretKey), i)) as int
  {
    var keyData := Utf8(secretKey);
    var dataBuffer := Utf8(data);
    signature := "";
    for i := 0 to |dataBuffer|
      invariant |signature| == i
      invariant forall j :: 0 <= j < i ==> signature[j] as int == (dataBuffer[j] ^ KeyByte(keyData, j)) as int
    {
      var b := dataBuffer[i] ^ KeyByte(keyData, i);
      signature := signature + [(b as int) as char];
    }
  }

  // ---------------------------------------------------------------- btoa

  /** Character codes that fit in one byte, as `btoa` requires. */
  predicate Octets(v: seq<int>) {
    forall i :: 0 <= i < |v| ==> 0 <= v[i] < 0x100
  }

  /** The codes of a string's characters. */
  function Codes(s: string): (v: seq<int>)
    ensures |v| == |s| && forall i :: 0 <= i < |s| ==> v[i] == s[i] as int
  {
    seq(|s|, i requires 0 <= i < |s| => s[i] as int)
  }

  /** The values of bytes, which is what `btoa` reads from `String.fromCharCode`'s
      characters. */
  function Values(b: seq<byte>): (v: seq<int>)
    ensures |v| == |b| && Octets(v) && forall i :: 0 <= i < |b| ==> v[i] == b[i] as int
  {
    seq(|b|, i requires 0 <= i < |b| => b[i] as int)
  }

  /** A character of the base64 alphabet (RFC 4648, section 4, table 1). */
  predicate IsBase64Digit(c: char) {
    ('A' <= c <= 'Z') || ('a' <= c <= 'z') || ('0' <= c <= '9') || c == '+' || c == '/'
  }

  /** The value of an alphabet character; any other character counts as 0. */
  function SextetValue(c: char): int {
    if 'A' <= c <= 'Z' then c as int - 'A' as int
    else if 'a' <= c <= 'z' then c as int - 'a' as int + 26
    else if '0' <= c <= '9' then c as int - '0' as int + 52
    else if c == '+' then 62
    else if c == '/' then 63
    else 0
  }

  /** The alphabet character for a six-bit value. */
  function Sextet(x: int): (c: char)
    requires 0 <= x < 64
    ensures IsBase64Digit(c)
  {
    if x < 26 then ('A' as int + x) as char
    else if x < 52 then ('a' as int + x - 26) as char
    else if x < 62 then ('0' as int + x - 52) as char
    else if x == 62 then '+'
    else '/'
  }

  /** Reading an alphabet character back gives its six-bit value. */
  lemma SextetInverse(x: int)
    requires 0 <= x < 64
    ensures SextetValue(Sextet(x)) == x
  {
  }

  /** Three bytes as four characters, the last `pad` of them replaced by `=`. */
  function Quad(b0: int, b1: int, b2: int, pad: nat): (r: string)
    requires 0 <= b0 < 0x100 && 0 <= b1 < 0x100 && 0 <= b2 < 0x100 && pad <= 2
    ensures |r| == 4
  {
    [Sextet(b0 / 4), Sextet((b0 % 4) * 16 + b1 / 16),
     if pad == 2 then '=' else Sextet((b1 % 16) * 4 + b2 / 64),
     if pad >= 1 then '=' else Sextet(b2 % 64)]
  }

  /** The base64 encoding of RFC 4648, section 4, with `=` padding: each group of three
      bytes becomes four characters, a final group of one or two bytes is padded. */
  function Base64(b: seq<int>): (r: string)
    requires Octets(b)
    ensures |r| == 4 * ((|b| + 2) / 3)
  {
    if |b| == 0 then ""
    else if |b| == 1 then Quad(b[0], 0, 0, 2)
    else if |b| == 2 then Quad(b[0], b[1], 0, 1)
    else
      GroupCount(|b| - 3);
      Quad(b[0], b[1], b[2], 0) + Base64(b[3..])
  }

  /** One more group of three bytes is one more group of four characters. */
  lemma GroupCount(n: nat)
    ensures (n + 3 + 2) / 3 == (n + 2) / 3 + 1
  {
  }

  /** Base64 text: alphabet characters, with `=` only in the last two places. */
  lemma {:induction false} Base64Alphabet(b: seq<int>)
    requires Octets(b)
    ensures forall i :: 0 <= i < |Base64(b)| ==>
      IsBase64Digit(Base64(b)[i]) || (Base64(b)[i] == '=' && i >= |Base64(b)| - 2)
  {
    if |b| >= 3 {
      Base64Alphabet(b[3..]);
      var r := Base64(b);
      assert r == Quad(b[0], b[1], b[2], 0) + Base64(b[3..]);
      forall i | 4 <= i < |r| ensures r[i] == Base64(b[3..])[i - 4] { }
    }
  }

  /** Four six-bit values as three bytes. */
  function Join3(v0: int, v1: int, v2: int, v3: int): seq<int> {
    [v0 * 4 + v1 / 16, (v1 % 16) * 16 + v2 / 4, (v2 % 4) * 64 + v3]
  }

  /** The decoding of RFC 4648, section 4: groups of four characters give three bytes,
      fewer when the group ends in padding. */
  function Unbase64(s: string): seq<int> {
    if |s| < 4 then []
    else
      var bytes := Join3(SextetValue(s[0]), SextetValue(s[1]), SextetValue(s[2]), SextetValue(s[3]));
      if s[2] == '=' then bytes[..1]
      else if s[3] == '=' then bytes[..2]
      else bytes + Unbase64(s[4..])
  }

  /** Cutting three bytes into four six-bit values and joining them again is the
      identity. */
  lemma BitsRoundTrip(b0: int, b1: int, b2: int)
    requires 0 <= b0 < 0x100 && 0 <= b1 < 0x100 && 0 <= b2 < 0x100
    ensures Join3(b0 / 4, (b0 % 4) * 16 + b1 / 16, (b1 % 16) * 4 + b2 / 64, b2 % 64) == [b0, b1, b2]
  {
  }

  /** One group decodes back to its bytes. */
  lemma QuadRoundTrip(b0: int, b1: int, b2: int, pad: nat)
    requires 0 <= b0 < 0x100 && 0 <= b1 < 0x100 && 0 <= b2 < 0x100 && pad <= 2
    ensures Unbase64(Quad(b0, b1, b2, pad)) == [b0, b1, b2][..3 - pad]
  {
    BitsRoundTrip(b0, b1, b2);
    SextetInverse(b0 / 4);
    SextetInverse((b0 % 4) * 16 + b1 / 16);
    SextetInverse((b1 % 16) * 4 + b2 / 64);
    SextetInverse(b2 % 64);
    assert Quad(b0, b1, b2, pad)[4..] == [];
  }

  /** A complete group is decoded on its own. */
  lemma UnbaseGroup(q: string, rest: string)
    requires |q| == 4 && q[2] != '=' && q[3] != '='
    ensures Unbase64(q + rest) == Unbase64(q) + Unbase64(rest)
  {
    assert (q + rest)[4..] == rest;
    assert q[4..] == [];
  }

  /** Base64 of three bytes or more: the first group, then the rest. */
  lemma Base64Step(b: seq<int>)
    requires Octets(b) && |b| >= 3
    ensures Base64(b) == Quad(b[0], b[1], b[2], 0) + Base64(b[3..])
  {
  }

  /** Decoding a full group followed by more text. */
  lemma UnbaseStep(g: seq<int>, rest: string)
    requires |g| == 3 && Octets(g)
    ensures Unbase64(Quad(g[0], g[1], g[2], 0) + rest) == g + Unbase64(rest)
  {
    QuadRoundTrip(g[0], g[1], g[2], 0);
    UnbaseGroup(Quad(g[0], g[1], g[2], 0), rest);
    assert [g[0], g[1], g[2]] == g;
  }

  /** One or two bytes: a single padded group. */
  lemma Base64Short(b: seq<int>)
    requires Octets(b) && 1 <= |b| <= 2
    ensures Base64(b) == if |b| == 1 then Quad(b[0], 0, 0, 2) else Quad(b[0], b[1], 0, 1)
  {
  }

  /** Equal texts decode equally: the step of the round trip with the text already cut
      into its first group and the rest. */
  lemma RoundTripChain(b: seq<int>, whole: string, q: string, rest: string)
    requires |b| >= 3 && whole == q + rest
    requires Unbase64(q + rest) == b[..3] + Unbase64(rest) && Unbase64(rest) == b[3..]
    ensures Unbase64(whole) == b
  {
    assert b == b[..3] + b[3..];
  }

  /** The step of the round trip for three bytes or more. */
  lemma Base64RoundTripStep(b: seq<int>)
    requires Octets(b) && |b| >= 3 && Unbase64(Base64(b[3..])) == b[3..]
    ensures Unbase64(Base64(b)) == b
  {
    Base64Step(b);
    UnbaseStep(b[..3], Base64(b[3..]));
    RoundTripChain(b, Base64(b), Quad(b[0], b[1], b[2], 0), Base64(b[3..]));
  }

  lemma {:induction false} Base64RoundTrip(b: seq<int>)
    requires Octets(b)
    ensures Unbase64(Base64(b)) == b
  {
    if |b| == 0 {
      assert Base64(b) == "";
    } else if |b| == 1 {
      Base64Short(b);
      QuadRoundTrip(b[0], 0, 0, 2);
    } else if |b| == 2 {
      Base64Short(b);
      QuadRoundTrip(b[0], b[1], 0, 1);
    } else {
      Base64RoundTrip(b[3..]);
      Base64RoundTripStep(b);
    }
  }

  /** The first 4k characters encode the first 3k bytes. */
  lemma {:induction false} Base64Prefix(b: seq<int>, k: nat)
    requires Octets(b) && 3 * k <= |b|
    ensures Base64(b)[..4 * k] == Base64(b[..3 * k])
  {
    if k > 0 {
      Base64Prefix(b[3..], k - 1);
      assert b[..3 * k][3..] == b[3..][..3 * (k - 1)];
      assert b[..3 * k][..3] == b[..3];
    }
  }

  /** `btoa(s)`: throws unless every character is below 256. */
  function Btoa(s: string): (r: Result<string>)
    ensures r.Ok? <==> Octets(Codes(s))
  {
    if Octets(Codes(s)) then Ok(Base64(Codes(s))) else Err("InvalidCharacterError")
  }

  /** `createHmacSignature(secretKey, data)`: base64 text of length min(20, 4 * ceil(n / 3))
      for the n UTF-8 bytes of the data. */
  method CreateHmacSignature(secretKey: string, data: string) returns (sig: string)
    ensures sig == Take(Base64(Values(XorBytes(Utf8(data), Utf8(secretKey)))), 20)
    ensures |sig| == Min(20, 4 * ((|Utf8(data)| + 2) / 3))
  {
    var signature := XorString(secretKey, data);
    assert Codes(signature) == Values(XorBytes(Utf8(data), Utf8(secretKey)));
    var encoded := Btoa(signature);
    sig := Take(encoded.value, 20);
  }

  /** Up to fifteen bytes encode in at most twenty characters. */
  lemma ShortFits(v: seq<int>)
    requires Octets(v) && |v| < 15
    ensures Take(Base64(v), 20) == Base64(v)
  {
    assert (|v| + 2) / 3 <= 5;
  }

  /** Twenty characters of fifteen bytes or more are the encoding of the first fifteen. */
  lemma LongCut(v: seq<int>)
    requires Octets(v) && |v| >= 15
    ensures Take(Base64(v), 20) == Base64(v[..15])
  {
    Base64Prefix(v, 5);
  }

  /** Twenty characters of base64 decode to the first fifteen bytes, or to all of them
      when there are fewer. */
  lemma TruncatedRoundTrip(v: seq<int>)
    requires Octets(v)
    ensures Unbase64(Take(Base64(v), 20)) == v[..Min(15, |v|)]
  {
    if |v| >= 15 {
      LongCut(v);
      Base64RoundTrip(v[..15]);
    } else {
      ShortFits(v);
      Base64RoundTrip(v);
      assert v[..Min(15, |v|)] == v;
    }
  }

  /** The signature is reversible: it decodes to the first min(15, n) XORed bytes, and
      XORing those with the key gives back the data's UTF-8 bytes. */
  lemma SignatureRevealsData(secretKey: string, data: string)
    ensures var key := Utf8(secretKey);
      var x := XorBytes(Utf8(data), key);
      var m := Min(15, |x|);
      && Unbase64(Take(Base64(Values(x)), 20)) == Values(x[..m])
      && XorBytes(x, key)[..m] == Utf8(data)[..m]
  {
    var key := Utf8(secretKey);
    var x := XorBytes(Utf8(data), key);
    TruncatedRoundTrip(Values(x));
    assert Values(x[..Min(15, |x|)]) == Values(x)[..Min(15, |x|)];
    XorTwice(Utf8(data), key);
  }
}
