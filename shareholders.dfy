/**
 * The shareholders attribute. create_user stores a User's list of
 * {'id': ..., 'percentage': ...} records as the text Python's `str()`
 * prints for it; the shareholder pass reads that text back with two
 * independent regular-expression scans whose results are paired by
 * position. This module models the printer, both scans and Python's
 * `float()` on the numbers they extract.
 */
module Shareholders {
  import opened Graph

  /** One shareholder record; the percentage is kept as the decimal digits Python prints. */
  datatype Shareholder = Shareholder(id: string, percentage: Decimal)

  /** A non-negative number in positional notation: `whole` digits, then `.` and `fraction` digits if any. */
  datatype Decimal = Decimal(whole: string, fraction: string)

  const ID_KEY := "'id': '"
  const PERCENTAGE_KEY := "'percentage': "

  predicate IsDigit(c: char) { '0' <= c <= '9' }

  /** Characters of the character class `[0-9.]`. */
  predicate IsNumeralChar(c: char) { IsDigit(c) || c == '.' }

  predicate AllDigits(s: string) { forall k | 0 <= k < |s| :: IsDigit(s[k]) }

  predicate QuoteFree(s: string) { forall k | 0 <= k < |s| :: s[k] != '\'' }

  predicate ValidDecimal(d: Decimal) { |d.whole| > 0 && AllDigits(d.whole) && AllDigits(d.fraction) }

  /** Ids that Python's `repr` prints verbatim between single quotes (printable ASCII, no quote, no backslash). */
  predicate PlainId(id: string) {
    |id| > 0 && forall k | 0 <= k < |id| :: ' ' <= id[k] <= '~' && id[k] != '\'' && id[k] != '\\'
  }

  predicate PlainRecords(xs: seq<Shareholder>) {
    forall i | 0 <= i < |xs| :: PlainId(xs[i].id) && ValidDecimal(xs[i].percentage)
  }

  // ---------------------------------------------------------------------
  // Numbers
  // ---------------------------------------------------------------------

  function Pow10(n: nat): (r: nat)
    ensures r >= 1
  {
    if n == 0 then 1 else 10 * Pow10(n - 1)
  }

  /** The value of a string of decimal digits (0 for the empty string). */
  function DigitsValue(s: string): nat
    requires AllDigits(s)
  {
    if s == [] then 0 else 10 * DigitsValue(s[..|s| - 1]) + ((s[|s| - 1] as int) - ('0' as int))
  }

  function DecimalText(d: Decimal): string {
    d.whole + (if d.fraction == [] then "" else "." + d.fraction)
  }

  function DecimalValue(d: Decimal): real
    requires ValidDecimal(d)
  {
    (DigitsValue(d.whole) as real) + (DigitsValue(d.fraction) as real) / (Pow10(|d.fraction|) as real)
  }

  function FirstDot(s: string): (r: Option<nat>)
    ensures r.Some? ==> r.value < |s| && s[r.value] == '.' && forall k | 0 <= k < r.value :: s[k] != '.'
    ensures r.None? ==> forall k | 0 <= k < |s| :: s[k] != '.'
  {
    if s == [] then None
    else if s[0] == '.' then Some(0)
    else match FirstDot(s[1..]) {
      case None => None
      case Some(k) => Some(k + 1)
    }
  }

  /**
   * Python's `float()` on a run of `[0-9.]`: digits with at most one
   * point and at least one digit. Texts reaching it here hold no other
   * character (any other character is refused).
   */
  function ParseFloat(text: string): Option<real> {
    if exists k | 0 <= k < |text| :: !IsNumeralChar(text[k]) then None
    else match FirstDot(text) {
      case None =>
        if text == [] then None else Some(DigitsValue(text) as real)
      case Some(k) =>
        var w, f := text[..k], text[k + 1..];
        if FirstDot(f).Some? || |w| + |f| == 0 then None
        else Some((DigitsValue(w) as real) + (DigitsValue(f) as real) / (Pow10(|f|) as real))
    }
  }

  // ---------------------------------------------------------------------
  // The printer: Python's str() of a list of {'id', 'percentage'} dicts
  // ---------------------------------------------------------------------

  function EntryText(x: Shareholder): string {
    "{" + ID_KEY + x.id + "'" + ", " + PERCENTAGE_KEY + DecimalText(x.percentage) + "}"
  }

  function JoinedEntries(xs: seq<Shareholder>): string
    requires |xs| > 0
  {
    if |xs| == 1 then EntryText(xs[0]) else EntryText(xs[0]) + ", " + JoinedEntries(xs[1..])
  }

  function ListText(xs: seq<Shareholder>): string
    requires |xs| > 0
  {
    "[" + JoinedEntries(xs) + "]"
  }

  /** What create_user stores: the printed list, or null for an absent or empty list. */
  function StoredShareholders(xs: Option<seq<Shareholder>>): (r: Option<string>)
    ensures r.None? <==> xs.None? || xs.value == []
  {
    if xs.None? || xs.value == [] then None else Some(ListText(xs.value))
  }

  function Ids(xs: seq<Shareholder>): (r: seq<string>)
    ensures |r| == |xs| && forall i | 0 <= i < |xs| :: r[i] == xs[i].id
  {
    if xs == [] then [] else [xs[0].id] + Ids(xs[1..])
  }

  function PercentageTexts(xs: seq<Shareholder>): (r: seq<string>)
    ensures |r| == |xs| && forall i | 0 <= i < |xs| :: r[i] == DecimalText(xs[i].percentage)
  {
    if xs == [] then [] else [DecimalText(xs[0].percentage)] + PercentageTexts(xs[1..])
  }

  // ---------------------------------------------------------------------
  // The reader: the shape test and the two findall scans
  // ---------------------------------------------------------------------

  /** `s.startswith("[{") and s.endswith("}]")`. */
  predicate WellShaped(s: string) {
    |s| >= 2 && s[..2] == "[{" && s[|s| - 2..] == "}]"
  }

  /** The length of the longest prefix of `s` without a single quote. */
  function QuoteFreeRun(s: string): (n: nat)
    ensures n <= |s| && QuoteFree(s[..n]) && (n < |s| ==> s[n] == '\'')
  {
    if s == [] || s[0] == '\'' then 0 else 1 + QuoteFreeRun(s[1..])
  }

  /** The length of the longest prefix of `s` in `[0-9.]`. */
  function NumeralRun(s: string): (n: nat)
    ensures n <= |s| && (forall k | 0 <= k < n :: IsNumeralChar(s[k])) && (n < |s| ==> !IsNumeralChar(s[n]))
  {
    if s == [] || !IsNumeralChar(s[0]) then 0 else 1 + NumeralRun(s[1..])
  }

  /** The group of `'id': '([^']+)'` when the pattern matches at the very start of `s`. */
  function IdMatchAt(s: string): (r: Option<string>)
    ensures r.Some? ==> |ID_KEY| + |r.value| + 1 <= |s| && |r.value| > 0
  {
    if |s| >= |ID_KEY| && s[..|ID_KEY|] == ID_KEY then
      var n := QuoteFreeRun(s[|ID_KEY|..]);
      if 0 < n < |s| - |ID_KEY| then Some(s[|ID_KEY|..|ID_KEY| + n]) else None
    else None
  }

  /** `re.findall(r"'id': '([^']+)'", s)`. */
  function FindIds(s: string): seq<string>
    decreases |s|
  {
    if s == [] then []
    else match IdMatchAt(s) {
      case Some(id) => [id] + FindIds(s[|ID_KEY| + |id| + 1..])
      case None => FindIds(s[1..])
    }
  }

  /** The group of `'percentage': ([0-9.]+)` when the pattern matches at the very start of `s`. */
  function PercentageMatchAt(s: string): (r: Option<string>)
    ensures r.Some? ==> |PERCENTAGE_KEY| + |r.value| <= |s| && |r.value| > 0
  {
    if |s| >= |PERCENTAGE_KEY| && s[..|PERCENTAGE_KEY|] == PERCENTAGE_KEY then
      var n := NumeralRun(s[|PERCENTAGE_KEY|..]);
      if 0 < n then Some(s[|PERCENTAGE_KEY|..|PERCENTAGE_KEY| + n]) else None
    else None
  }

  /** `re.findall(r"'percentage': ([0-9.]+)", s)`. */
  function FindPercentages(s: string): seq<string>
    decreases |s|
  {
    if s == [] then []
    else match PercentageMatchAt(s) {
      case Some(p) => [p] + FindPercentages(s[|PERCENTAGE_KEY| + |p|..])
      case None => FindPercentages(s[1..])
    }
  }

  /** `float()` of each extracted percentage text, None where it raises. */
  function Floats(texts: seq<string>): seq<Option<real>> {
    if texts == [] then [] else [ParseFloat(texts[0])] + Floats(texts[1..])
  }

  lemma {:induction false} FloatsSpec(texts: seq<string>)
    ensures |Floats(texts)| == |texts|
    ensures forall k | 0 <= k < |texts| :: Floats(texts)[k] == ParseFloat(texts[k])
  {
    if texts != [] {
      FloatsSpec(texts[1..]);
    }
  }

  /** The percentage paired with the i-th id: `float(percentage_matches[i])`, or 0.0 past the end. */
  function PercentageAt(floats: seq<Option<real>>, i: nat): Option<real> {
    if i < |floats| then floats[i] else Some(0.0)
  }
}

module ShareholderRoundTrip {
  import opened Graph
  import opened Shareholders

  /** No position of `p` can start an id match, whatever follows `p`. */
  predicate NoIdStart(p: string) {
    forall j | 0 <= j < |p| :: p[j] != '\'' || (j + 1 < |p| && p[j + 1] != 'i')
  }

  /** No position of `p` can start a percentage match, whatever follows `p`. */
  predicate NoPercentageStart(p: string) {
    forall j | 0 <= j < |p| :: p[j] != '\'' || (j + 1 < |p| && p[j + 1] != 'p')
  }

  lemma {:induction false} FindIdsSkip(p: string, t: string)
    requires NoIdStart(p)
    ensures FindIds(p + t) == FindIds(t)
    decreases |p|
  {
    if p != [] {
      var s := p + t;
      assert s[0] == p[0];
      if p[0] == '\'' {
        assert s[1] == p[1];
      }
      assert IdMatchAt(s) == None;
      assert s[1..] == p[1..] + t;
      assert NoIdStart(p[1..]) by {
        forall j | 0 <= j < |p[1..]| ensures p[1..][j] != '\'' || (j + 1 < |p[1..]| && p[1..][j + 1] != 'i') {
          assert p[1..][j] == p[j + 1];
        }
      }
      FindIdsSkip(p[1..], t);
    } else {
      assert p + t == t;
    }
  }

  lemma {:induction false} FindPercentagesSkip(p: string, t: string)
    requires NoPercentageStart(p)
    ensures FindPercentages(p + t) == FindPercentages(t)
    decreases |p|
  {
    if p != [] {
      var s := p + t;
      assert s[0] == p[0];
      if p[0] == '\'' {
        assert s[1] == p[1];
      }
      assert PercentageMatchAt(s) == None;
      assert s[1..] == p[1..] + t;
      assert NoPercentageStart(p[1..]) by {
        forall j | 0 <= j < |p[1..]| ensures p[1..][j] != '\'' || (j + 1 < |p[1..]| && p[1..][j + 1] != 'p') {
          assert p[1..][j] == p[j + 1];
        }
      }
      FindPercentagesSkip(p[1..], t);
    } else {
      assert p + t == t;
    }
  }

  lemma QuoteFreeRunStops(a: string, b: string)
    requires QuoteFree(a) && b != [] && b[0] == '\''
    ensures QuoteFreeRun(a + b) == |a|
    decreases |a|
  {
    if a != [] {
      assert (a + b)[1..] == a[1..] + b;
      QuoteFreeRunStops(a[1..], b);
    } else {
      assert a + b == b;
    }
  }

  lemma NumeralRunStops(a: string, b: string)
    requires forall k | 0 <= k < |a| :: IsNumeralChar(a[k])
    requires b != [] && !IsNumeralChar(b[0])
    ensures NumeralRun(a + b) == |a|
    decreases |a|
  {
    if a != [] {
      assert (a + b)[1..] == a[1..] + b;
      NumeralRunStops(a[1..], b);
    } else {
      assert a + b == b;
    }
  }

  lemma DecimalTextChars(d: Decimal)
    requires ValidDecimal(d)
    ensures forall k | 0 <= k < |DecimalText(d)| :: IsNumeralChar(DecimalText(d)[k])
  {
    var s := DecimalText(d);
    forall k | 0 <= k < |s| ensures IsNumeralChar(s[k]) {
      if k < |d.whole| {
        assert s[k] == d.whole[k];
      } else if d.fraction != [] && k > |d.whole| {
        assert s[k] == d.fraction[k - |d.whole| - 1];
      }
    }
  }

  /** What follows a record's id up to the next record: the percentage key, the number, and the closing brace. */
  function EntryTail(x: Shareholder): string {
    ", " + PERCENTAGE_KEY + DecimalText(x.percentage) + "}"
  }

  lemma EntryTextAfterId(x: Shareholder, t: string)
    ensures EntryText(x) + t == "{" + (ID_KEY + (x.id + ("'" + (EntryTail(x) + t))))
  {
  }

  lemma NoIdStartInTail(x: Shareholder)
    requires ValidDecimal(x.percentage)
    ensures NoIdStart(EntryTail(x))
  {
    var dec := DecimalText(x.percentage);
    var lit := ", 'percentage': ";
    var tail := EntryTail(x);
    assert tail == lit + (dec + "}");
    DecimalTextChars(x.percentage);
    forall j | 0 <= j < |tail| ensures tail[j] != '\'' || (j + 1 < |tail| && tail[j + 1] != 'i') {
      if j < |lit| {
        assert tail[j] == lit[j];
        if j + 1 < |lit| {
          assert tail[j + 1] == lit[j + 1];
        }
      } else if j < |lit| + |dec| {
        assert tail[j] == dec[j - |lit|];
      } else {
        assert tail[j] == '}';
      }
    }
  }

  lemma IdMatchAtRecord(id: string, rest: string)
    requires PlainId(id) && rest != [] && rest[0] == '\''
    ensures IdMatchAt(ID_KEY + (id + rest)) == Some(id)
  {
    var s := ID_KEY + (id + rest);
    assert QuoteFree(id);
    QuoteFreeRunStops(id, rest);
    assert s[..|ID_KEY|] == ID_KEY;
    assert s[|ID_KEY|..] == id + rest;
    assert QuoteFreeRun(s[|ID_KEY|..]) == |id|;
    assert s[|ID_KEY|..|ID_KEY| + |id|] == id;
  }

  /** An id match at the start is followed by the scan of what comes after its closing quote. */
  lemma FindIdsAtMatch(s: string, id: string)
    requires IdMatchAt(s) == Some(id)
    ensures FindIds(s) == [id] + FindIds(s[|ID_KEY| + |id| + 1..])
  {
  }

  /** The id scan finds a record's id and nothing else in its text. */
  lemma FindIdsEntry(x: Shareholder, t: string)
    requires PlainId(x.id) && ValidDecimal(x.percentage)
    ensures FindIds(EntryText(x) + t) == [x.id] + FindIds(t)
  {
    var rest := "'" + (EntryTail(x) + t);
    var s := ID_KEY + (x.id + rest);
    var u := EntryTail(x) + t;
    assert FindIds(EntryText(x) + t) == FindIds(s) by {
      EntryTextAfterId(x, t);
      FindIdsSkip("{", s);
    }
    assert FindIds(s) == [x.id] + FindIds(u) by {
      IdMatchAtRecord(x.id, rest);
      FindIdsAtMatch(s, x.id);
      assert s[|ID_KEY| + |x.id| + 1..] == u;
    }
    assert FindIds(u) == FindIds(t) by {
      NoIdStartInTail(x);
      FindIdsSkip(EntryTail(x), t);
    }
  }

  /** Python never prints `'id': '` so that the percentage scan could start inside an id. */
  lemma NoPercentageAtIdValue(id: string, t: string)
    requires PlainId(id) && t != [] && t[0] == ','
    ensures PercentageMatchAt("'" + id + "'" + t) == None
  {
    var s := "'" + id + "'" + t;
    var key := PERCENTAGE_KEY;
    if |s| >= |key| {
      // the first position where the printed id and the key part ways
      var k := if |id| < 10 then 1 + |id| else if |id| == 10 then 12 else 11;
      assert s[1 + |id|] == '\'' && s[2 + |id|] == ',';
      assert k == 11 ==> s[k] == id[10];
      assert s[k] != key[k];
      assert s[..|key|][k] == s[k];
    }
  }

  lemma EntryTextAroundId(x: Shareholder, t: string)
    ensures EntryText(x) + t
         == "{'id': " + ("'" + x.id + "'" + (", " + (PERCENTAGE_KEY + (DecimalText(x.percentage) + ("}" + t)))))
  {
  }

  lemma NoPercentageStartInId(id: string)
    requires PlainId(id)
    ensures NoPercentageStart(id + "', ")
  {
    var p := id + "', ";
    forall j | 0 <= j < |p| ensures p[j] != '\'' || (j + 1 < |p| && p[j + 1] != 'p') {
      if j < |id| {
        assert p[j] == id[j];
      } else {
        assert p[j] == "', "[j - |id|];
        if j + 1 < |p| {
          assert p[j + 1] == "', "[j + 1 - |id|];
        }
      }
    }
  }

  lemma PercentageMatchAtNumber(dec: Decimal, t: string)
    requires ValidDecimal(dec)
    ensures PercentageMatchAt(PERCENTAGE_KEY + (DecimalText(dec) + ("}" + t))) == Some(DecimalText(dec))
  {
    var rest := PERCENTAGE_KEY + (DecimalText(dec) + ("}" + t));
    DecimalTextChars(dec);
    NumeralRunStops(DecimalText(dec), "}" + t);
    assert rest[..|PERCENTAGE_KEY|] == PERCENTAGE_KEY;
    assert rest[|PERCENTAGE_KEY|..] == DecimalText(dec) + ("}" + t);
    assert NumeralRun(rest[|PERCENTAGE_KEY|..]) == |DecimalText(dec)| > 0;
    assert rest[|PERCENTAGE_KEY|..|PERCENTAGE_KEY| + |DecimalText(dec)|] == DecimalText(dec);
  }

  lemma DropTwo(a: string, b: string, c: string)
    ensures (a + (b + c))[|a| + |b|..] == c
  {
  }

  /** The scan finds nothing between the id's opening quote and the percentage key. */
  lemma FindPercentagesAcrossId(id: string, rest: string)
    requires PlainId(id)
    ensures FindPercentages("'" + id + "'" + (", " + rest)) == FindPercentages(rest)
  {
    var quoted := "'" + id + "'" + (", " + rest);
    NoPercentageAtIdValue(id, ", " + rest);
    assert quoted[1..] == (id + "', ") + rest;
    NoPercentageStartInId(id);
    FindPercentagesSkip(id + "', ", rest);
  }

  /** The scan reads the printed number right after the percentage key. */
  lemma FindPercentagesAtNumber(dec: Decimal, t: string)
    requires ValidDecimal(dec)
    ensures FindPercentages(PERCENTAGE_KEY + (DecimalText(dec) + ("}" + t))) == [DecimalText(dec)] + FindPercentages(t)
  {
    PercentageMatchAtNumber(dec, t);
    FindPercentagesAfterMatch(DecimalText(dec), "}" + t);
    FindPercentagesSkip("}", t);
  }

  /** A match at the start is followed by the scan of what comes after the number. */
  lemma FindPercentagesAfterMatch(d: string, u: string)
    requires PercentageMatchAt(PERCENTAGE_KEY + (d + u)) == Some(d)
    ensures FindPercentages(PERCENTAGE_KEY + (d + u)) == [d] + FindPercentages(u)
  {
    DropTwo(PERCENTAGE_KEY, d, u);
  }

  /** The percentage scan finds a record's printed number and nothing else in its text. */
  lemma FindPercentagesEntry(x: Shareholder, t: string)
    requires PlainId(x.id) && ValidDecimal(x.percentage)
    ensures FindPercentages(EntryText(x) + t) == [DecimalText(x.percentage)] + FindPercentages(t)
  {
    var rest := PERCENTAGE_KEY + (DecimalText(x.percentage) + ("}" + t));
    EntryTextAroundId(x, t);
    FindPercentagesSkip("{'id': ", "'" + x.id + "'" + (", " + rest));
    FindPercentagesAcrossId(x.id, rest);
    FindPercentagesAtNumber(x.percentage, t);
  }

  lemma {:induction false} FindIdsJoined(xs: seq<Shareholder>)
    requires |xs| > 0 && PlainRecords(xs)
    ensures FindIds(JoinedEntries(xs) + "]") == Ids(xs)
    decreases |xs|
  {
    if |xs| == 1 {
      FindIdsEntry(xs[0], "]");
      FindIdsSkip("]", []);
    } else {
      assert JoinedEntries(xs) + "]" == EntryText(xs[0]) + (", " + (JoinedEntries(xs[1..]) + "]"));
      FindIdsEntry(xs[0], ", " + (JoinedEntries(xs[1..]) + "]"));
      FindIdsSkip(", ", JoinedEntries(xs[1..]) + "]");
      FindIdsJoined(xs[1..]);
    }
  }

  lemma {:induction false} FindPercentagesJoined(xs: seq<Shareholder>)
    requires |xs| > 0 && PlainRecords(xs)
    ensures FindPercentages(JoinedEntries(xs) + "]") == PercentageTexts(xs)
    decreases |xs|
  {
    if |xs| == 1 {
      FindPercentagesEntry(xs[0], "]");
      FindPercentagesSkip("]", []);
    } else {
      assert JoinedEntries(xs) + "]" == EntryText(xs[0]) + (", " + (JoinedEntries(xs[1..]) + "]"));
      FindPercentagesEntry(xs[0], ", " + (JoinedEntries(xs[1..]) + "]"));
      FindPercentagesSkip(", ", JoinedEntries(xs[1..]) + "]");
      FindPercentagesJoined(xs[1..]);
    }
  }

  lemma JoinedEnds(xs: seq<Shareholder>)
    requires |xs| > 0
    ensures |JoinedEntries(xs)| >= 1 && JoinedEntries(xs)[0] == '{' && JoinedEntries(xs)[|JoinedEntries(xs)| - 1] == '}'
    decreases |xs|
  {
    if |xs| > 1 {
      JoinedEnds(xs[1..]);
    }
  }

  /** `float()` reads back exactly the number Python printed. */
  lemma ParseFloatDecimal(d: Decimal)
    requires ValidDecimal(d)
    ensures ParseFloat(DecimalText(d)) == Some(DecimalValue(d))
  {
    if d.fraction == [] {
      ParseFloatWhole(d);
    } else {
      ParseFloatFraction(d);
    }
  }

  lemma ParseFloatWhole(d: Decimal)
    requires ValidDecimal(d) && d.fraction == []
    ensures ParseFloat(DecimalText(d)) == Some(DecimalValue(d))
  {
    assert DecimalText(d) == d.whole;
    ParseFloatDigits(d.whole);
    assert DigitsValue(d.fraction) == 0 && Pow10(0) == 1;
    assert DecimalValue(d) == DigitsValue(d.whole) as real + 0.0 / 1.0;
  }

  lemma ParseFloatFraction(d: Decimal)
    requires ValidDecimal(d) && d.fraction != []
    ensures ParseFloat(DecimalText(d)) == Some(DecimalValue(d))
  {
    var s := DecimalText(d);
    var n := |d.whole|;
    DecimalTextChars(d);
    assert s == d.whole + "." + d.fraction;
    assert s[..n] == d.whole && s[n] == '.' && s[n + 1..] == d.fraction;
    assert forall j | 0 <= j < n :: s[j] == d.whole[j];
    FirstDotAt(s, n);
    ParseFloatPoint(s, n);
    assert DigitsValue(s[..n]) == DigitsValue(d.whole) && DigitsValue(s[n + 1..]) == DigitsValue(d.fraction);
  }

  /** A run of digits reads as its value. */
  lemma ParseFloatDigits(s: string)
    requires |s| > 0 && AllDigits(s)
    ensures ParseFloat(s) == Some(DigitsValue(s) as real)
  {
    assert FirstDot(s) == None;
  }

  /** The first point of a text is the point at k when none comes before it. */
  lemma FirstDotAt(s: string, k: nat)
    requires k < |s| && s[k] == '.' && forall j | 0 <= j < k :: s[j] != '.'
    ensures FirstDot(s) == Some(k)
  {
  }

  /** A text with its one point at k reads as the digits around it. */
  lemma ParseFloatPoint(s: string, k: nat)
    requires k < |s| && FirstDot(s) == Some(k) && k > 0 && AllDigits(s[..k]) && AllDigits(s[k + 1..])
    requires forall j | 0 <= j < |s| :: IsNumeralChar(s[j])
    ensures ParseFloat(s) == Some((DigitsValue(s[..k]) as real) + (DigitsValue(s[k + 1..]) as real) / (Pow10(|s[k + 1..]|) as real))
  {
    assert FirstDot(s[k + 1..]) == None;
  }

  lemma ListTextShape(xs: seq<Shareholder>)
    requires |xs| > 0
    ensures WellShaped(ListText(xs))
  {
    JoinedEnds(xs);
    var s := ListText(xs);
    assert s[..2] == "[{";
    assert s[|s| - 2..] == "}]";
  }

  lemma ListTextIds(xs: seq<Shareholder>)
    requires |xs| > 0 && PlainRecords(xs)
    ensures FindIds(ListText(xs)) == Ids(xs)
  {
    assert ListText(xs) == "[" + (JoinedEntries(xs) + "]");
    FindIdsSkip("[", JoinedEntries(xs) + "]");
    FindIdsJoined(xs);
  }

  lemma ListTextPercentages(xs: seq<Shareholder>)
    requires |xs| > 0 && PlainRecords(xs)
    ensures FindPercentages(ListText(xs)) == PercentageTexts(xs)
  {
    assert ListText(xs) == "[" + (JoinedEntries(xs) + "]");
    FindPercentagesSkip("[", JoinedEntries(xs) + "]");
    FindPercentagesJoined(xs);
  }

  /**
   * Round trip of the stored text: for records with plain ids and
   * non-negative positional numbers, the shape test passes and the two
   * scans recover the ids and the numbers in order, each number parsing
   * back to its value.
   */
  lemma ParseStoredShareholders(xs: seq<Shareholder>)
    requires |xs| > 0 && PlainRecords(xs)
    ensures WellShaped(ListText(xs))
    ensures FindIds(ListText(xs)) == Ids(xs)
    ensures FindPercentages(ListText(xs)) == PercentageTexts(xs)
    ensures forall i | 0 <= i < |xs| :: PercentageAt(Floats(FindPercentages(ListText(xs))), i) == Some(DecimalValue(xs[i].percentage))
  {
    ListTextShape(xs);
    ListTextIds(xs);
    ListTextPercentages(xs);
    PercentageTextsRead(xs, FindPercentages(ListText(xs)));
  }

  /** Every printed number reads back as its record's value. */
  lemma PercentageTextsRead(xs: seq<Shareholder>, texts: seq<string>)
    requires PlainRecords(xs) && texts == PercentageTexts(xs)
    ensures forall i | 0 <= i < |xs| :: PercentageAt(Floats(texts), i) == Some(DecimalValue(xs[i].percentage))
  {
    FloatsSpec(texts);
    forall i | 0 <= i < |xs| ensures PercentageAt(Floats(texts), i) == Some(DecimalValue(xs[i].percentage)) {
      ParseFloatDecimal(xs[i].percentage);
    }
  }

  // ---------------------------------------------------------------------
  // A negative percentage shifts the pairing
  // ---------------------------------------------------------------------

  /** How `str` prints a record whose percentage is negative: a minus sign before the number. */
  function NegativeEntryText(x: Shareholder): string {
    "{" + ID_KEY + x.id + "'" + ", " + PERCENTAGE_KEY + "-" + DecimalText(x.percentage) + "}"
  }

  function NegativeTail(x: Shareholder): string {
    ", " + PERCENTAGE_KEY + "-" + DecimalText(x.percentage) + "}"
  }

  lemma NoIdStartInNegativeTail(x: Shareholder)
    requires ValidDecimal(x.percentage)
    ensures NoIdStart(NegativeTail(x))
  {
    var dec := DecimalText(x.percentage);
    var lit := ", 'percentage': -";
    var tail := NegativeTail(x);
    assert tail == lit + (dec + "}");
    DecimalTextChars(x.percentage);
    forall j | 0 <= j < |tail| ensures tail[j] != '\'' || (j + 1 < |tail| && tail[j + 1] != 'i') {
      if j < |lit| {
        assert tail[j] == lit[j];
        if j + 1 < |lit| {
          assert tail[j + 1] == lit[j + 1];
        }
      } else if j < |lit| + |dec| {
        assert tail[j] == dec[j - |lit|];
      } else {
        assert tail[j] == '}';
      }
    }
  }

  lemma NegativeEntryTextAfterId(x: Shareholder, t: string)
    ensures NegativeEntryText(x) + t == "{" + (ID_KEY + (x.id + ("'" + (NegativeTail(x) + t))))
  {
  }

  /** The id scan still finds the id of a record with a negative percentage. */
  lemma FindIdsNegativeEntry(x: Shareholder, t: string)
    requires PlainId(x.id) && ValidDecimal(x.percentage)
    ensures FindIds(NegativeEntryText(x) + t) == [x.id] + FindIds(t)
  {
    var rest := "'" + (NegativeTail(x) + t);
    var s := ID_KEY + (x.id + rest);
    var u := NegativeTail(x) + t;
    assert FindIds(NegativeEntryText(x) + t) == FindIds(s) by {
      NegativeEntryTextAfterId(x, t);
      FindIdsSkip("{", s);
    }
    assert FindIds(s) == [x.id] + FindIds(u) by {
      IdMatchAtRecord(x.id, rest);
      FindIdsAtMatch(s, x.id);
      assert s[|ID_KEY| + |x.id| + 1..] == u;
    }
    assert FindIds(u) == FindIds(t) by {
      NoIdStartInNegativeTail(x);
      FindIdsSkip(NegativeTail(x), t);
    }
  }

  lemma NoPercentageStartAfterKey(dec: Decimal)
    requires ValidDecimal(dec)
    ensures NoPercentageStart("percentage': -" + DecimalText(dec) + "}")
  {
    var lit := "percentage': -";
    var d := DecimalText(dec);
    var p := lit + d + "}";
    DecimalTextChars(dec);
    forall j | 0 <= j < |p| ensures p[j] != '\'' || (j + 1 < |p| && p[j + 1] != 'p') {
      if j < |lit| {
        assert p[j] == lit[j];
        if j + 1 < |lit| {
          assert p[j + 1] == lit[j + 1];
        }
      } else if j < |lit| + |d| {
        assert p[j] == d[j - |lit|];
      } else {
        assert p[j] == '}';
      }
    }
  }

  lemma AfterKeyQuote(d: string, t: string)
    ensures (PERCENTAGE_KEY + ("-" + (d + ("}" + t))))[1..] == ("percentage': -" + d + "}") + t
  {
    var rest := PERCENTAGE_KEY + ("-" + (d + ("}" + t)));
    assert rest[1..] == PERCENTAGE_KEY[1..] + ("-" + (d + ("}" + t)));
  }

  /** The percentage key followed by a minus sign matches nothing. */
  lemma FindPercentagesAtMinus(dec: Decimal, t: string)
    requires ValidDecimal(dec)
    ensures FindPercentages(PERCENTAGE_KEY + ("-" + (DecimalText(dec) + ("}" + t)))) == FindPercentages(t)
  {
    var rest := PERCENTAGE_KEY + ("-" + (DecimalText(dec) + ("}" + t)));
    assert rest[|PERCENTAGE_KEY|..][0] == '-';
    assert PercentageMatchAt(rest) == None;
    AfterKeyQuote(DecimalText(dec), t);
    NoPercentageStartAfterKey(dec);
    FindPercentagesSkip("percentage': -" + DecimalText(dec) + "}", t);
  }

  lemma NegativeEntryTextAroundId(x: Shareholder, t: string)
    ensures NegativeEntryText(x) + t
         == "{'id': " + ("'" + x.id + "'" + (", " + (PERCENTAGE_KEY + ("-" + (DecimalText(x.percentage) + ("}" + t))))))
  {
  }

  /** The percentage scan finds nothing in a record whose percentage is negative. */
  lemma FindPercentagesNegativeEntry(x: Shareholder, t: string)
    requires PlainId(x.id) && ValidDecimal(x.percentage)
    ensures FindPercentages(NegativeEntryText(x) + t) == FindPercentages(t)
  {
    var rest := PERCENTAGE_KEY + ("-" + (DecimalText(x.percentage) + ("}" + t)));
    NegativeEntryTextAroundId(x, t);
    FindPercentagesSkip("{'id': ", "'" + x.id + "'" + (", " + rest));
    FindPercentagesAcrossId(x.id, rest);
    FindPercentagesAtMinus(x.percentage, t);
  }

  /** Two records, the first printed with a negative percentage. */
  function NegativeFirstText(x: Shareholder, y: Shareholder): string {
    "[" + NegativeEntryText(x) + ", " + EntryText(y) + "]"
  }

  /**
   * Both ids are found but only the second record's number is: the
   * scans return lists of different lengths, which the pass pairs by
   * position.
   */
  lemma NegativeFirstScans(x: Shareholder, y: Shareholder)
    requires PlainId(x.id) && ValidDecimal(x.percentage) && PlainId(y.id) && ValidDecimal(y.percentage)
    ensures WellShaped(NegativeFirstText(x, y))
    ensures FindIds(NegativeFirstText(x, y)) == [x.id, y.id]
    ensures FindPercentages(NegativeFirstText(x, y)) == [DecimalText(y.percentage)]
  {
    var s := NegativeFirstText(x, y);
    var tail := ", " + (EntryText(y) + "]");
    assert s == "[" + (NegativeEntryText(x) + tail);
    assert s[..2] == "[{";
    assert s[|s| - 2..] == "}]";
    NegativeFirstIds(x, y, tail);
    NegativeFirstPercentages(x, y, tail);
  }

  lemma NegativeFirstIds(x: Shareholder, y: Shareholder, tail: string)
    requires PlainId(x.id) && ValidDecimal(x.percentage) && PlainId(y.id) && ValidDecimal(y.percentage)
    requires tail == ", " + (EntryText(y) + "]")
    ensures FindIds("[" + (NegativeEntryText(x) + tail)) == [x.id, y.id]
  {
    FindIdsSkip("[", NegativeEntryText(x) + tail);
    FindIdsNegativeEntry(x, tail);
    FindIdsSkip(", ", EntryText(y) + "]");
    FindIdsEntry(y, "]");
    FindIdsSkip("]", []);
  }

  lemma NegativeFirstPercentages(x: Shareholder, y: Shareholder, tail: string)
    requires PlainId(x.id) && ValidDecimal(x.percentage) && PlainId(y.id) && ValidDecimal(y.percentage)
    requires tail == ", " + (EntryText(y) + "]")
    ensures FindPercentages("[" + (NegativeEntryText(x) + tail)) == [DecimalText(y.percentage)]
  {
    FindPercentagesSkip("[", NegativeEntryText(x) + tail);
    FindPercentagesNegativeEntry(x, tail);
    FindPercentagesSkip(", ", EntryText(y) + "]");
    FindPercentagesEntry(y, "]");
    FindPercentagesSkip("]", []);
  }

}
