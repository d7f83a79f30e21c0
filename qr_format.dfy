/** The values that travel inside a signed QR payload, shared by the generator
    (qr_generator/generate_qr.py) and the scan page that verifies it. */
module QrFormat {
  import opened Text

  /** The field delimiter of the payload. */
  const Delimiter: char := '|'

  /** Characters Python's `str(float)` can print: digits, sign, point, exponent marker,
      and the letters of "inf" and "nan". */
  predicate IsFloatChar(c: char) {
    IsDigit(c) || c == '-' || c == '+' || c == '.' || c == 'e' || c == 'i' || c == 'n' || c == 'f' || c == 'a'
  }

  /** The text Python prints for a float (its exact digits are not modelled). */
  type FloatText = s: string | |s| >= 1 && forall i :: 0 <= i < |s| ==> IsFloatChar(s[i])
    witness "0.0"

  predicate IsLowerHex(c: char) {
    IsDigit(c) || ('a' <= c <= 'f')
  }

  /** `str(uuid.uuid4())`: 8-4-4-4-12 lower-case hexadecimal groups, version nibble 4
      and variant nibble 8, 9, a or b. */
  predicate IsUuidText(s: string) {
    && |s| == 36
    && (forall i :: 0 <= i < 36 && i != 8 && i != 13 && i != 18 && i != 23 ==> IsLowerHex(s[i]))
    && s[8] == '-' && s[13] == '-' && s[18] == '-' && s[23] == '-'
    && s[14] == '4' && (s[19] == '8' || s[19] == '9' || s[19] == 'a' || s[19] == 'b')
  }

  type Uuid = s: string | IsUuidText(s)
    witness "00000000-0000-4000-8000-000000000000"

  /** A SHA-256 digest printed as 64 lower-case hexadecimal digits (Python `hexdigest()`,
      CryptoJS `toString(enc.Hex)`). */
  type HexDigest = s: string | |s| == 64 && forall i :: 0 <= i < |s| ==> IsLowerHex(s[i])
    witness seq(64, _ => '0')

  /** HMAC-SHA256 (RFC 2104 over FIPS 180-4) of a message under a secret, both taken as
      UTF-8 text. Its internals are not modelled: every operation that signs or verifies
      receives it as this parameter, and only equality of digests matters. */
  type Mac = (string, string) -> HexDigest

  lemma FloatTextFree(s: FloatText)
    ensures Free(s, Delimiter)
  {
  }

  lemma UuidFree(s: Uuid)
    ensures Free(s, Delimiter)
  {
    assert forall i :: 0 <= i < |s| ==> IsLowerHex(s[i]) || s[i] == '-';
  }

  lemma IntTextFree(n: int)
    ensures Free(IntToString(n), Delimiter)
  {
    IntToStringAlphabet(n);
  }

  lemma DigestFree(s: HexDigest)
    ensures Free(s, Delimiter)
  {
  }
}
