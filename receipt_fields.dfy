/** The two receipt-field extractors of frontend/src/pages/ScanPage.jsx:
      extractDate  = first match of /\d{1,2}[\/\-]\d{1,2}[\/\-]\d{2,4}/, else today's
                     date as `toISOString().split('T')[0]`;
      extractTotal = `parseFloat` of group 1 of /total\s*[\$\£\€]?(\d+\.\d{2})/i, else 0.
    Each regular expression is written as a declarative "matches here" predicate, and a
    hand-written scanner is proved to return the leftmost match the JavaScript engine
    returns. Money is exact integer cents. */
module ReceiptFields {
  import opened Wrappers
  import opened Text

  /** t[a..b] exists and is all decimal digits. */
  predicate DigitsIn(t: string, a: int, b: int) {
    0 <= a <= b <= |t| && forall k :: a <= k < b ==> IsDigit(t[k])
  }

  /** Up to `max` digits read from position i. */
  function DigitRun(t: string, i: nat, max: nat): (k: nat)
    requires i <= |t|
    ensures k <= max && i + k <= |t| && DigitsIn(t, i, i + k)
    ensures k < max && i + k < |t| ==> !IsDigit(t[i + k])
    decreases max
  {
    if max == 0 || i == |t| || !IsDigit(t[i]) then 0 else 1 + DigitRun(t, i + 1, max - 1)
  }

  // ---------------------------------------------------------------------------
  // extractDate

  predicate IsDateSep(c: char) {
    c == '/' || c == '-'
  }

  /** t[i..j] matches the date pattern with its separators at p and q. */
  predicate DateMatchVia(t: string, i: int, p: int, q: int, j: int) {
    && i + 1 <= p <= i + 2 && DigitsIn(t, i, p) && p < |t| && IsDateSep(t[p])
    && p + 2 <= q <= p + 3 && DigitsIn(t, p + 1, q) && q < |t| && IsDateSep(t[q])
    && q + 3 <= j <= q + 5 && DigitsIn(t, q + 1, j)
  }

  /** t[i..j] is a match of /\d{1,2}[\/\-]\d{1,2}[\/\-]\d{2,4}/. */
  ghost predicate DateMatch(t: string, i: int, j: int) {
    exists p, q :: DateMatchVia(t, i, p, q, j)
  }

  /** Two matches at one start put their separators at the same places (a separator is
      never a digit), so only the last group's length can differ: the greedy match the
      engine reports is the longest match at that start. */
  lemma DateSeparatorsUnique(t: string, i: int, p: int, q: int, j: int, p': int, q': int, j': int)
    requires DateMatchVia(t, i, p, q, j) && DateMatchVia(t, i, p', q', j')
    ensures p == p' && q == q'
  {
    RunEndUnique(t, i, p, p');
    RunEndUnique(t, p + 1, q, q');
  }

  /** A digit run from a has one end. */
  lemma RunEndUnique(t: string, a: int, b: int, b': int)
    requires DigitsIn(t, a, b) && (b < |t| ==> !IsDigit(t[b]))
    requires DigitsIn(t, a, b') && (b' < |t| ==> !IsDigit(t[b']))
    ensures b == b'
  {
  }

  /** The position of the separator after one or two digits from i, if that is how the
      text continues; the digit run fixes it. */
  function GroupThenSep(t: string, i: nat): (r: Option<nat>)
    requires i <= |t|
    ensures r.Some? ==> i + 1 <= r.value <= i + 2 && DigitsIn(t, i, r.value) && r.value < |t| && IsDateSep(t[r.value])
    ensures forall p :: i + 1 <= p <= i + 2 && DigitsIn(t, i, p) && p < |t| && IsDateSep(t[p]) ==> r == Some(p)
  {
    var k := DigitRun(t, i, 2);
    forall p | i + 1 <= p <= i + 2 && DigitsIn(t, i, p) && p < |t| && IsDateSep(t[p])
      ensures p == i + k
    {
      RunEndUnique(t, i, i + k, p);
    }
    if k == 0 || i + k >= |t| || !IsDateSep(t[i + k]) then None else Some(i + k)
  }

  /** The end of the match the engine takes at start i, if any. */
  function DateEndAt(t: string, i: nat): (r: Option<nat>)
    requires i <= |t|
    ensures r.Some? ==> i < r.value <= |t|
  {
    match GroupThenSep(t, i)
    case None => None
    case Some(p) =>
      match GroupThenSep(t, p + 1)
      case None => None
      case Some(q) =>
        var k3 := DigitRun(t, q + 1, 4);
        if k3 < 2 then None else Some(q + 1 + k3)
  }

  /** At one start the scanner finds the longest match, and finds none only when there is none. */
  lemma DateEndAtCorrect(t: string, i: nat)
    requires i <= |t|
    ensures DateEndAt(t, i).Some? ==> DateMatch(t, i, DateEndAt(t, i).value)
    ensures forall j :: DateMatch(t, i, j) ==> DateEndAt(t, i).Some? && j <= DateEndAt(t, i).value
  {
    if DateEndAt(t, i).Some? {
      var p := GroupThenSep(t, i).value;
      var q := GroupThenSep(t, p + 1).value;
      assert DateMatchVia(t, i, p, q, DateEndAt(t, i).value);
    }
    forall j | DateMatch(t, i, j)
      ensures DateEndAt(t, i).Some? && j <= DateEndAt(t, i).value
    {
      var p, q :| DateMatchVia(t, i, p, q, j);
      DateEndAtLongest(t, i, p, q, j);
    }
  }

  lemma DateEndAtLongest(t: string, i: nat, p: int, q: int, j: int)
    requires i <= |t| && DateMatchVia(t, i, p, q, j)
    ensures DateEndAt(t, i).Some? && j <= DateEndAt(t, i).value
  {
    assert GroupThenSep(t, i) == Some(p);
    assert GroupThenSep(t, p + 1) == Some(q);
    RunReachesEnd(t, q + 1, j, 4);
  }

  /** A bounded digit run is at least as long as any run of digits within the bound. */
  lemma RunReachesEnd(t: string, a: nat, b: int, max: nat)
    requires a <= |t| && DigitsIn(t, a, b) && b - a <= max
    ensures b <= a + DigitRun(t, a, max)
  {
  }

  lemma DateMatchInside(t: string)
    ensures forall i, j :: DateMatch(t, i, j) ==> 0 <= i < |t|
  {
    forall i, j | DateMatch(t, i, j) ensures 0 <= i < |t| {
      var p, q :| DateMatchVia(t, i, p, q, j);
    }
  }

  /** The leftmost match at or after `from`: its start and its end. */
  function FindDate(t: string, from: nat): (r: Option<(nat, nat)>)
    requires from <= |t|
    ensures r.Some? ==> from <= r.value.0 < r.value.1 <= |t|
    decreases |t| - from
  {
    match DateEndAt(t, from)
    case Some(j) => Some((from, j))
    case None => if from == |t| then None else FindDate(t, from + 1)
  }

  /** The search returns the leftmost start of a match and the longest match there. */
  lemma {:induction false} FindDateLeftmost(t: string, from: nat)
    requires from <= |t|
    ensures var r := FindDate(t, from);
      && (r.Some? ==>
            && from <= r.value.0 && DateMatch(t, r.value.0, r.value.1)
            && (forall i, j :: from <= i < r.value.0 ==> !DateMatch(t, i, j))
            && (forall j :: DateMatch(t, r.value.0, j) ==> j <= r.value.1))
      && (r.None? ==> forall i, j :: from <= i ==> !DateMatch(t, i, j))
    decreases |t| - from
  {
    DateEndAtCorrect(t, from);
    match DateEndAt(t, from)
    case Some(j) =>
      assert FindDate(t, from) == Some((from, j));
    case None =>
      assert forall j :: !DateMatch(t, from, j);
      if from == |t| {
        DateMatchInside(t);
        assert FindDate(t, from) == None;
      } else {
        FindDateLeftmost(t, from + 1);
        var r := FindDate(t, from + 1);
        assert FindDate(t, from) == r;
        forall i, j | from <= i && (r.None? || i < r.value.0)
          ensures !DateMatch(t, i, j)
        {
          if i == from {
            assert !DateMatch(t, from, j);
          }
        }
      }
  }

  /** A calendar day; `toISOString` prints years 0 to 9999 with four digits. */
  datatype CalendarDate = CalendarDate(year: nat, month: nat, day: nat)

  predicate ValidDate(d: CalendarDate) {
    d.year <= 9999 && 1 <= d.month <= 12 && 1 <= d.day <= 31
  }

  /** A number below 100 in two digits, zero-padded. */
  function TwoDigits(n: nat): (s: string)
    requires n < 100
    ensures |s| == 2 && AllDigits(s) && DigitsValue(s) == n
  {
    var s := [DigitChar(n / 10), DigitChar(n % 10)];
    assert s[..1] == [s[0]] && [s[0]][..0] == [];
    assert DigitsValue([s[0]]) == n / 10;
    s
  }

  /** A number below 10000 in four digits, zero-padded. */
  function FourDigits(n: nat): (s: string)
    requires n < 10000
    ensures |s| == 4 && AllDigits(s) && DigitsValue(s) == n
  {
    var c := n / 10;
    var b := c / 10;
    var a := b / 10;
    var s := [DigitChar(a), DigitChar(b % 10), DigitChar(c % 10), DigitChar(n % 10)];
    assert [s[0]][..0] == [];
    assert DigitsValue([s[0]]) == a;
    assert [s[0], s[1]][..1] == [s[0]];
    assert DigitsValue([s[0], s[1]]) == a * 10 + b % 10;
    assert s[..3][..2] == [s[0], s[1]];
    assert DigitsValue(s[..3]) == (a * 10 + b % 10) * 10 + c % 10;
    s
  }

  /** `toISOString().split('T')[0]`: YYYY-MM-DD, zero-padded. The text reads back as the
      same year, month and day. */
  function IsoDate(d: CalendarDate): (s: string)
    requires ValidDate(d)
    ensures |s| == 10 && s[4] == '-' && s[7] == '-'
    ensures AllDigits(s[..4]) && AllDigits(s[5..7]) && AllDigits(s[8..])
    ensures DigitsValue(s[..4]) == d.year && DigitsValue(s[5..7]) == d.month && DigitsValue(s[8..]) == d.day
  {
    var y, m, dd := FourDigits(d.year), TwoDigits(d.month), TwoDigits(d.day);
    var s := y + "-" + m + "-" + dd;
    assert s[..4] == y && s[5..7] == m && s[8..] == dd;
    s
  }

  /** extractDate: the leftmost date-shaped substring (longest at its start), or today's
      ISO date when the text has none. */
  function ExtractDate(text: string, today: CalendarDate): string
    requires ValidDate(today)
  {
    match FindDate(text, 0)
    case Some((i, j)) => text[i..j]
    case None => IsoDate(today)
  }

  /** What extractDate returns, stated against the pattern. */
  lemma ExtractDateSpec(text: string, today: CalendarDate)
    requires ValidDate(today)
    ensures (forall i, j :: !DateMatch(text, i, j)) ==> ExtractDate(text, today) == IsoDate(today)
    ensures (exists i, j :: DateMatch(text, i, j)) ==>
      exists i, j :: 0 <= i <= j <= |text| && ExtractDate(text, today) == text[i..j] && DateMatch(text, i, j)
        && (forall i', j' :: i' < i ==> !DateMatch(text, i', j'))
        && (forall j' :: DateMatch(text, i, j') ==> j' <= j)
  {
    FindDateLeftmost(text, 0);
    match FindDate(text, 0)
    case Some((i, j)) =>
      var p, q :| DateMatchVia(text, i, p, q, j);
    case None =>
  }

  // ---------------------------------------------------------------------------
  // extractTotal

  /** ASCII letters compared without case, as a non-Unicode /i pattern does. */
  function Lower(c: char): char {
    if 'A' <= c <= 'Z' then (c as int + 32) as char else c
  }

  predicate TotalWordAt(t: string, i: int) {
    0 <= i && i + 5 <= |t|
    && Lower(t[i]) == 't' && Lower(t[i + 1]) == 'o' && Lower(t[i + 2]) == 't'
    && Lower(t[i + 3]) == 'a' && Lower(t[i + 4]) == 'l'
  }

  /** `$`, `£` or `€`. */
  predicate IsCurrency(c: char) {
    c == '$' || c as int == 0xA3 || c as int == 0x20AC
  }

  /** A match of the total pattern at i: the white space ends at w, the amount (group 1)
      is t[c..d + 3] with its point at d. */
  predicate TotalMatchVia(t: string, i: int, w: int, c: int, d: int) {
    && TotalWordAt(t, i)
    && i + 5 <= w <= |t| && (forall k :: i + 5 <= k < w ==> IsJsSpace(t[k]))
    && (c == w || (c == w + 1 && w < |t| && IsCurrency(t[w])))
    && c < d && DigitsIn(t, c, d) && d + 3 <= |t|
    && t[d] == '.' && IsDigit(t[d + 1]) && IsDigit(t[d + 2])
  }

  ghost predicate TotalMatch(t: string, i: int, c: int, d: int) {
    exists w :: TotalMatchVia(t, i, w, c, d)
  }

  ghost predicate TotalMatchAt(t: string, i: int) {
    exists c, d :: TotalMatch(t, i, c, d)
  }

  /** First index at or after k that is not white space. */
  function SpaceEnd(t: string, k: nat): (w: nat)
    requires k <= |t|
    ensures k <= w <= |t| && (forall m :: k <= m < w ==> IsJsSpace(t[m]))
    ensures w < |t| ==> !IsJsSpace(t[w])
    decreases |t| - k
  {
    if k < |t| && IsJsSpace(t[k]) then SpaceEnd(t, k + 1) else k
  }

  /** Every maximal digit run from c. */
  function DigitsFrom(t: string, c: nat): (d: nat)
    requires c <= |t|
    ensures c <= d <= |t| && DigitsIn(t, c, d) && (d < |t| ==> !IsDigit(t[d]))
    decreases |t| - c
  {
    if c < |t| && IsDigit(t[c]) then DigitsFrom(t, c + 1) else c
  }

  /** The amount the engine captures at start i: (c, d), or none. */
  function TotalAt(t: string, i: nat): (r: Option<(nat, nat)>)
    requires i <= |t|
    ensures r.Some? ==> var (c, d) := r.value;
      DigitsIn(t, c, d) && d + 3 <= |t| && IsDigit(t[d + 1]) && IsDigit(t[d + 2])
  {
    if !TotalWordAt(t, i) then None
    else
      var w := SpaceEnd(t, i + 5);
      var c := if w < |t| && IsCurrency(t[w]) then w + 1 else w;
      var d := DigitsFrom(t, c);
      if c < d && d + 3 <= |t| && t[d] == '.' && IsDigit(t[d + 1]) && IsDigit(t[d + 2]) then Some((c, d))
      else None
  }

  /** At one start there is at most one way to match (white space, the optional currency
      sign and the digit run are each forced), and the scanner finds it. */
  lemma TotalAtCorrect(t: string, i: nat)
    requires i <= |t|
    ensures TotalAt(t, i).Some? ==> TotalMatch(t, i, TotalAt(t, i).value.0, TotalAt(t, i).value.1)
    ensures forall c, d :: TotalMatch(t, i, c, d) ==> TotalAt(t, i) == Some((c, d))
  {
    if TotalWordAt(t, i) {
      var w := SpaceEnd(t, i + 5);
      if TotalAt(t, i).Some? {
        assert TotalMatchVia(t, i, w, TotalAt(t, i).value.0, TotalAt(t, i).value.1);
      }
      forall c', d' | TotalMatch(t, i, c', d')
        ensures TotalAt(t, i) == Some((c', d'))
      {
        var w' :| TotalMatchVia(t, i, w', c', d');
        assert w' < |t| && !IsJsSpace(t[w']);
        SpaceRunUnique(t, i + 5, w, w');
        var c := if w < |t| && IsCurrency(t[w]) then w + 1 else w;
        assert c' == c;
        var d := DigitsFrom(t, c);
        RunEndUnique(t, c, d, d');
      }
    }
  }

  /** A white-space run from a has one end. */
  lemma SpaceRunUnique(t: string, a: int, w: int, w': int)
    requires 0 <= a <= w <= |t| && (forall k :: a <= k < w ==> IsJsSpace(t[k])) && (w < |t| ==> !IsJsSpace(t[w]))
    requires a <= w' <= |t| && (forall k :: a <= k < w' ==> IsJsSpace(t[k])) && (w' < |t| ==> !IsJsSpace(t[w']))
    ensures w == w'
  {
  }

  /** The leftmost start of a total match at or after `from`, with its capture. */
  function FindTotal(t: string, from: nat): (r: Option<(nat, nat, nat)>)
    requires from <= |t|
    ensures r.Some? ==> var (_, c, d) := r.value;
      DigitsIn(t, c, d) && d + 3 <= |t| && IsDigit(t[d + 1]) && IsDigit(t[d + 2])
    decreases |t| - from
  {
    match TotalAt(t, from)
    case Some((c, d)) => Some((from, c, d))
    case None => if from == |t| then None else FindTotal(t, from + 1)
  }

  /** The search returns the leftmost start of a match, with the one capture there. */
  lemma {:induction false} FindTotalLeftmost(t: string, from: nat)
    requires from <= |t|
    ensures var r := FindTotal(t, from);
      && (r.Some? ==>
            && from <= r.value.0 && TotalMatch(t, r.value.0, r.value.1, r.value.2)
            && (forall i :: from <= i < r.value.0 ==> !TotalMatchAt(t, i)))
      && (r.None? ==> forall i :: from <= i ==> !TotalMatchAt(t, i))
    decreases |t| - from
  {
    TotalAtCorrect(t, from);
    match TotalAt(t, from)
    case Some((c, d)) =>
      assert FindTotal(t, from) == Some((from, c, d));
    case None =>
      assert !TotalMatchAt(t, from);
      if from == |t| {
        TotalMatchInside(t);
        assert FindTotal(t, from) == None;
      } else {
        FindTotalLeftmost(t, from + 1);
        var r := FindTotal(t, from + 1);
        assert FindTotal(t, from) == r;
        if r.Some? {
          forall i | from <= i < r.value.0 ensures !TotalMatchAt(t, i) {
            assert i == from || from + 1 <= i;
          }
        } else {
          forall i | from <= i ensures !TotalMatchAt(t, i) {
            assert i == from || from + 1 <= i;
          }
        }
      }
  }

  lemma TotalMatchInside(t: string)
    ensures forall i :: TotalMatchAt(t, i) ==> 0 <= i < |t|
  {
    forall i | TotalMatchAt(t, i) ensures 0 <= i < |t| {
      var c, d :| TotalMatch(t, i, c, d);
      var w :| TotalMatchVia(t, i, w, c, d);
    }
  }

  /** The captured amount "D+.DD" in cents. */
  function Cents(t: string, c: nat, d: nat): nat
    requires DigitsIn(t, c, d) && d + 3 <= |t| && IsDigit(t[d + 1]) && IsDigit(t[d + 2])
  {
    DigitsValue(t[c..d]) * 100 + DigitValue(t[d + 1]) * 10 + DigitValue(t[d + 2])
  }

  /** extractTotal in cents: the amount after the earliest "total" (any case) that is
      followed by optional white space, an optional currency sign and D+.DD; 0 when no
      such text exists. The amount does not depend on how the match is found, since each
      start has at most one. */
  function ExtractTotal(text: string): nat {
    match FindTotal(text, 0)
    case Some((_, c, d)) => Cents(text, c, d)
    case None => 0
  }

  /** What extractTotal returns, stated against the pattern. */
  lemma ExtractTotalSpec(text: string)
    ensures (forall i :: !TotalMatchAt(text, i)) ==> ExtractTotal(text) == 0
    ensures (exists i :: TotalMatchAt(text, i)) ==>
      exists i, c, d :: TotalMatch(text, i, c, d)
        && (forall i' :: 0 <= i' < i ==> !TotalMatchAt(text, i'))
        && DigitsIn(text, c, d) && d + 3 <= |text| && IsDigit(text[d + 1]) && IsDigit(text[d + 2])
        && ExtractTotal(text) == Cents(text, c, d)
  {
    FindTotalLeftmost(text, 0);
    match FindTotal(text, 0)
    case Some((i, c, d)) =>
      assert TotalMatchAt(text, i);
      var w :| TotalMatchVia(text, i, w, c, d);
    case None =>
  }

  /** The earliest "total" wins even inside "Subtotal": a receipt listing a subtotal of
      9.99 before a total of 10.99 reads as 999 cents. */
  const SubtotalReceipt: string := "Subtotal 9.99\nTotal 10.99"

  /** In the sample receipt the word starts at 3 ("Sub|total") and the amount is 9.99. */
  lemma SubtotalWord()
    ensures !TotalWordAt(SubtotalReceipt, 0) && !TotalWordAt(SubtotalReceipt, 1)
    ensures !TotalWordAt(SubtotalReceipt, 2) && TotalWordAt(SubtotalReceipt, 3)
  {
    var t := SubtotalReceipt;
    assert t[0] == 'S' && t[1] == 'u' && t[2] == 'b' && t[3] == 't' && t[4] == 'o';
    assert t[5] == 't' && t[6] == 'a' && t[7] == 'l';
  }

  lemma SubtotalAmount()
    ensures TotalAt(SubtotalReceipt, 3) == Some((9, 10))
  {
    var t := SubtotalReceipt;
    SubtotalWord();
    assert t[8] == ' ' && t[9] == '9' && t[10] == '.' && t[11] == '9' && t[12] == '9';
    assert SpaceEnd(t, 9) == 9 && SpaceEnd(t, 8) == 9;
    assert DigitsFrom(t, 10) == 10 && DigitsFrom(t, 9) == 10;
  }

  /** In the sample receipt the first match is the one inside "Subtotal". */
  lemma SubtotalMatchFirst()
    ensures FindTotal(SubtotalReceipt, 0) == Some((3, 9, 10))
  {
    SubtotalWord();
    SubtotalAmount();
  }

  lemma SubtotalBeforeTotal()
    ensures ExtractTotal(SubtotalReceipt) == 999
  {
    SubtotalMatchFirst();
    var t := SubtotalReceipt;
    assert t[9..10] == "9" && t[9..10][..0] == [];
  }
}
