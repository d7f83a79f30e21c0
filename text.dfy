/** Text primitives shared by the JavaScript front end and the Python generator:
    decimal rendering of integers (Python `str(int)` and JavaScript number-to-string agree
    on integers), JavaScript `parseInt`, `String.prototype.split` on one character and
    its inverse `join`, `includes`, the `\s` class of JavaScript regular expressions and
    the UTF-16 length JavaScript reports as `.length`. */
module Text {
  import opened Wrappers

  predicate IsDigit(c: char) {
    '0' <= c <= '9'
  }

  predicate AllDigits(s: string) {
    forall i :: 0 <= i < |s| ==> IsDigit(s[i])
  }

  function DigitValue(c: char): (d: nat)
    requires IsDigit(c)
    ensures d < 10
  {
    c as int - '0' as int
  }

  function DigitChar(d: nat): (c: char)
    requires d < 10
    ensures IsDigit(c) && DigitValue(c) == d
  {
    ('0' as int + d) as char
  }

  /** The value of a run of decimal digits, most significant first. */
  function DigitsValue(s: string): nat
    requires AllDigits(s)
  {
    if |s| == 0 then 0 else DigitsValue(s[..|s| - 1]) * 10 + DigitValue(s[|s| - 1])
  }

  /** Decimal rendering of a natural number, without leading zeros. */
  function NatToString(n: nat): (s: string)
    ensures |s| >= 1 && AllDigits(s)
    ensures s[0] == '0' ==> n == 0 && |s| == 1
  {
    if n < 10 then [DigitChar(n)] else NatToString(n / 10) + [DigitChar(n % 10)]
  }

  /** Decimal rendering of an integer, with a leading '-' when negative. */
  function IntToString(n: int): (s: string)
    ensures |s| >= 1
  {
    if n < 0 then "-" + NatToString(-n) else NatToString(n)
  }

  lemma {:induction false} NatToStringValue(n: nat)
    ensures DigitsValue(NatToString(n)) == n
  {
    if n >= 10 {
      NatToStringValue(n / 10);
      var s := NatToString(n);
      assert s[..|s| - 1] == NatToString(n / 10);
    }
  }

  /** Neither rendering contains a character other than digits and '-'. */
  lemma IntToStringAlphabet(n: int)
    ensures forall i :: 0 <= i < |IntToString(n)| ==> IsDigit(IntToString(n)[i]) || IntToString(n)[i] == '-'
  {
  }

  // ---------------------------------------------------------------------------
  // JavaScript parseInt(string) with no radix

  /** The characters JavaScript treats as white space (`\s` in a regular expression,
      StrWhiteSpaceChar in parseInt): white space and line terminators. */
  predicate IsJsSpace(c: char) {
    var n := c as int;
    (0x09 <= n <= 0x0D) || n == 0x20 || n == 0xA0 || n == 0x1680
    || (0x2000 <= n <= 0x200A) || n == 0x2028 || n == 0x2029 || n == 0x202F
    || n == 0x205F || n == 0x3000 || n == 0xFEFF
  }

  function TrimStart(s: string): (r: string)
    ensures |r| <= |s| && r == s[|s| - |r|..]
    ensures |r| > 0 ==> !IsJsSpace(r[0])
    ensures forall i :: 0 <= i < |s| - |r| ==> IsJsSpace(s[i])
  {
    if |s| > 0 && IsJsSpace(s[0]) then TrimStart(s[1..]) else s
  }

  /** Length of the longest prefix of `s` made of decimal digits. */
  function LeadingDigits(s: string): (k: nat)
    ensures k <= |s| && AllDigits(s[..k])
    ensures k < |s| ==> !IsDigit(s[k])
  {
    if |s| > 0 && IsDigit(s[0]) then
      var k := 1 + LeadingDigits(s[1..]);
      assert s[..k] == [s[0]] + s[1..][..k - 1];
      k
    else 0
  }

  predicate IsHexDigit(c: char) {
    IsDigit(c) || ('a' <= c <= 'f') || ('A' <= c <= 'F')
  }

  function HexValue(c: char): (d: nat)
    requires IsHexDigit(c)
    ensures d < 16
  {
    if IsDigit(c) then DigitValue(c)
    else if 'a' <= c <= 'f' then c as int - 'a' as int + 10
    else c as int - 'A' as int + 10
  }

  /** Value of the longest prefix of hexadecimal digits, and its length. */
  function LeadingHex(s: string, acc: nat): (r: (nat, nat))
    ensures r.1 <= |s|
  {
    if |s| > 0 && IsHexDigit(s[0]) then
      var t := LeadingHex(s[1..], acc * 16 + HexValue(s[0]));
      (t.0, t.1 + 1)
    else (acc, 0)
  }

  /** JavaScript `parseInt(s)`: leading white space is skipped, one sign is allowed,
      a "0x"/"0X" prefix selects base 16, and the longest run of digits that follows is
      read; `None` stands for NaN (no digit at all). */
  function JsParseInt(s: string): Option<int> {
    var t := TrimStart(s);
    var neg := |t| > 0 && t[0] == '-';
    var u := if |t| > 0 && (t[0] == '-' || t[0] == '+') then t[1..] else t;
    var sign := if neg then -1 else 1;
    if |u| >= 2 && u[0] == '0' && (u[1] == 'x' || u[1] == 'X') then
      var h := LeadingHex(u[2..], 0);
      if h.1 == 0 then None else Some(sign * h.0)
    else
      var k := LeadingDigits(u);
      if k == 0 then None else Some(sign * DigitsValue(u[..k]))
  }

  lemma LeadingDigitsAll(s: string)
    requires AllDigits(s)
    ensures LeadingDigits(s) == |s|
  {
  }

  /** After the sign, a digit run that does not start "0x" is read in base 10. */
  lemma ParseUnsigned(t: string, u: string, sign: int)
    requires |t| >= 1 && !IsJsSpace(t[0])
    requires u == (if t[0] == '-' || t[0] == '+' then t[1..] else t)
    requires sign == (if t[0] == '-' then -1 else 1)
    requires |u| >= 1 && AllDigits(u) && (u[0] == '0' ==> |u| == 1)
    ensures JsParseInt(t) == Some(sign * DigitsValue(u))
  {
    assert TrimStart(t) == t;
    LeadingDigitsAll(u);
    assert u[..|u|] == u;
  }

  /** `parseInt` reads back every decimal rendering exactly. */
  lemma JsParseIntOfIntToString(n: int)
    ensures JsParseInt(IntToString(n)) == Some(n)
  {
    var s := IntToString(n);
    var m: nat := if n < 0 then -n else n;
    var d := NatToString(m);
    NatToStringValue(m);
    if n < 0 {
      assert s[1..] == d;
      ParseUnsigned(s, d, -1);
    } else {
      ParseUnsigned(s, d, 1);
    }
  }

  // ---------------------------------------------------------------------------
  // split on one character and its inverse, join

  /** JavaScript `s.split(d)` for a one-character separator (Python `str.split` agrees):
      the maximal pieces between occurrences of `d`; the empty string gives `[""]`. */
  function Split(s: string, d: char): (r: seq<string>)
    ensures |r| >= 1
  {
    if |s| == 0 then [""]
    else
      var rest := Split(s[1..], d);
      if s[0] == d then [""] + rest else [[s[0]] + rest[0]] + rest[1..]
  }

  /** `fields.join(d)` (Python `d.join(fields)`, and the f-strings that interpolate with `d`). */
  function Join(fields: seq<string>, d: char): string {
    if |fields| == 0 then ""
    else if |fields| == 1 then fields[0]
    else fields[0] + [d] + Join(fields[1..], d)
  }

  predicate Free(s: string, d: char) {
    forall i :: 0 <= i < |s| ==> s[i] != d
  }

  lemma {:induction false} SplitPrefixFree(a: string, t: string, d: char)
    requires Free(a, d)
    ensures Split(a + t, d) == [a + Split(t, d)[0]] + Split(t, d)[1..]
  {
    if |a| > 0 {
      SplitPrefixFree(a[1..], t, d);
      var st := Split(t, d);
      var rest := Split((a + t)[1..], d);
      assert (a + t)[1..] == a[1..] + t;
      assert rest == [a[1..] + st[0]] + st[1..];
      assert (a + t)[0] == a[0] && a[0] != d;
      assert Split(a + t, d) == [[a[0]] + rest[0]] + rest[1..];
      assert [a[0]] + (a[1..] + st[0]) == a + st[0];
    } else {
      assert a + t == t;
      var st := Split(t, d);
      assert st == [st[0]] + st[1..];
      assert a + st[0] == st[0];
    }
  }

  /** Splitting undoes joining when no field contains the separator. */
  lemma {:induction false} SplitJoin(fields: seq<string>, d: char)
    requires |fields| >= 1
    requires forall k :: 0 <= k < |fields| ==> Free(fields[k], d)
    ensures Split(Join(fields, d), d) == fields
  {
    if |fields| == 1 {
      SplitPrefixFree(fields[0], "", d);
      assert fields[0] + "" == fields[0];
    } else {
      SplitJoin(fields[1..], d);
      var tail := [d] + Join(fields[1..], d);
      assert Join(fields, d) == fields[0] + tail;
      SplitPrefixFree(fields[0], tail, d);
      assert tail[1..] == Join(fields[1..], d);
      assert Split(tail, d) == [""] + fields[1..];
      assert fields[0] + "" == fields[0];
    }
  }

  /** Joining undoes splitting: no character is lost or invented. */
  lemma {:induction false} JoinSplit(s: string, d: char)
    ensures Join(Split(s, d), d) == s
  {
    if |s| > 0 {
      JoinSplit(s[1..], d);
      var rest := Split(s[1..], d);
      if s[0] == d {
        assert Join([""] + rest, d) == "" + [d] + Join(rest, d);
        assert s == [s[0]] + s[1..];
      } else {
        var r := [[s[0]] + rest[0]] + rest[1..];
        if |rest| == 1 {
          assert Join(r, d) == [s[0]] + rest[0];
        } else {
          assert Join(r, d) == [s[0]] + rest[0] + [d] + Join(rest[1..], d);
          assert Join(rest, d) == rest[0] + [d] + Join(rest[1..], d);
        }
        assert s == [s[0]] + s[1..];
      }
    }
  }

  /** No piece of a split contains the separator. */
  lemma {:induction false} SplitFree(s: string, d: char)
    ensures forall k :: 0 <= k < |Split(s, d)| ==> Free(Split(s, d)[k], d)
  {
    if |s| > 0 {
      SplitFree(s[1..], d);
    }
  }

  /** The first piece of a split is the text before the first separator. */
  lemma SplitHead(s: string, d: char)
    ensures Free(Split(s, d)[0], d)
    ensures |Split(s, d)[0]| <= |s| && Split(s, d)[0] == s[..|Split(s, d)[0]|]
    ensures |Split(s, d)[0]| < |s| ==> s[|Split(s, d)[0]|] == d
  {
    SplitFree(s, d);
    if |s| > 0 {
      SplitHead(s[1..], d);
    }
  }

  // ---------------------------------------------------------------------------
  // includes

  /** JavaScript `s.includes(sub)`. */
  function Contains(s: string, sub: string): bool {
    (|sub| <= |s| && s[..|sub|] == sub) || (|s| > 0 && Contains(s[1..], sub))
  }

  predicate OccursAt(s: string, sub: string, i: int) {
    0 <= i <= |s| - |sub| && s[i..i + |sub|] == sub
  }

  /** `Contains` holds exactly when `sub` occurs at some position of `s`. */
  lemma {:induction false} ContainsIff(s: string, sub: string)
    ensures Contains(s, sub) <==> exists i :: OccursAt(s, sub, i)
  {
    if |sub| <= |s| && s[..|sub|] == sub {
      assert OccursAt(s, sub, 0);
    } else if |s| > 0 {
      ContainsIff(s[1..], sub);
      if exists i :: OccursAt(s, sub, i) {
        var i :| OccursAt(s, sub, i);
        assert i > 0;
        assert OccursAt(s[1..], sub, i - 1);
      }
      if Contains(s[1..], sub) {
        var j :| OccursAt(s[1..], sub, j);
        assert s[j + 1..j + 1 + |sub|] == s[1..][j..j + |sub|];
        assert OccursAt(s, sub, j + 1);
      }
    } else {
      assert forall i :: !OccursAt(s, sub, i);
    }
  }

  lemma ContainsChar(s: string, c: char)
    ensures Contains(s, [c]) <==> c in s
  {
    ContainsIff(s, [c]);
    if c in s {
      var i :| 0 <= i < |s| && s[i] == c;
      assert OccursAt(s, [c], i);
    }
    if Contains(s, [c]) {
      var i :| OccursAt(s, [c], i);
      assert s[i] == c;
    }
  }

  /** A text cannot contain a piece whose first character it lacks. */
  lemma ContainsNeedsHead(s: string, sub: string)
    requires |sub| > 0 && sub[0] !in s
    ensures !Contains(s, sub)
  {
    ContainsIff(s, sub);
  }

  /** A text contains a piece of its own length only when it is that piece. */
  lemma ContainsSameLength(s: string, sub: string)
    requires |s| == |sub| && s != sub
    ensures !Contains(s, sub)
  {
    ContainsIff(s, sub);
    assert s[0..|sub|] == s;
  }

  // ---------------------------------------------------------------------------
  // whitespace removal and UTF-16 length

  /** `s.replace(/\s+/g, '')`: every JavaScript white-space character removed. */
  function StripWhitespace(s: string): (r: string)
    ensures |r| <= |s|
  {
    if |s| == 0 then ""
    else if IsJsSpace(s[0]) then StripWhitespace(s[1..])
    else [s[0]] + StripWhitespace(s[1..])
  }

  predicate NoWhitespace(s: string) {
    forall i :: 0 <= i < |s| ==> !IsJsSpace(s[i])
  }

  lemma {:induction false} StripWhitespaceClean(s: string)
    ensures NoWhitespace(StripWhitespace(s))
  {
    if |s| > 0 {
      StripWhitespaceClean(s[1..]);
    }
  }

  /** Text without white space is left as it is; hence stripping is idempotent. */
  lemma {:induction false} StripWhitespaceKeepsClean(s: string)
    requires NoWhitespace(s)
    ensures StripWhitespace(s) == s
  {
    if |s| > 0 {
      StripWhitespaceKeepsClean(s[1..]);
    }
  }

  /** Stripping keeps exactly the non-white-space characters, counted with multiplicity. */
  lemma {:induction false} StripWhitespaceCounts(s: string, c: char)
    ensures multiset(StripWhitespace(s))[c] == if IsJsSpace(c) then 0 else multiset(s)[c]
  {
    if |s| > 0 {
      StripWhitespaceCounts(s[1..], c);
      assert s == [s[0]] + s[1..];
    }
  }

  /** Stripping works character by character and keeps the order of what it keeps: the
      stripped concatenation is the concatenation of the stripped parts, and one
      character is dropped exactly when it is white space. */
  lemma {:induction false} StripWhitespaceAppend(a: string, b: string)
    ensures StripWhitespace(a + b) == StripWhitespace(a) + StripWhitespace(b)
  {
    if |a| > 0 {
      assert (a + b)[1..] == a[1..] + b;
      StripWhitespaceAppend(a[1..], b);
    } else {
      assert a + b == b;
    }
  }

  lemma StripWhitespaceChar(c: char)
    ensures StripWhitespace([c]) == if IsJsSpace(c) then "" else [c]
  {
    assert [c][1..] == "";
  }

  /** `.length` of a JavaScript string: one UTF-16 code unit per character of the Basic
      Multilingual Plane, two (a surrogate pair) for every character above it. */
  function Utf16Length(s: string): (n: nat)
    ensures |s| <= n <= 2 * |s|
  {
    if |s| == 0 then 0 else (if s[0] as int < 0x1_0000 then 1 else 2) + Utf16Length(s[1..])
  }

  // ---------------------------------------------------------------------------
  // JavaScript `%`

  /** JavaScript `a % b` for a positive divisor: the remainder takes the sign of the
      dividend (division truncates toward zero), unlike Dafny's Euclidean `%`. */
  function JsRem(a: int, b: int): (r: int)
    requires b > 0
    ensures a >= 0 ==> 0 <= r < b
    ensures a >= 0 ==> r == a % b
    ensures a < 0 ==> -b < r <= 0
  {
    if a >= 0 then a % b else -((-a) % b)
  }
}
