/** Content negotiation: reading Accept headers and choosing the best offer. */
module Negotiation {
  import opened Options
  import opened Characters
  import opened Grammar

  /* ---- Character classes ---- */

  predicate IsSpace(c: char) {
    c == ' ' || c == '\t' || c == '\r' || c == '\n'
  }

  predicate IsSeparator(c: char) {
    c in " \t\"(),/:;<=>?@[]\\{}"
  }

  predicate IsTokenSlash(c: char) {
    (31 as char < c < 127 as char && !IsSeparator(c)) || c == '/'
  }

  /* ---- Reading a header ---- */

  datatype Spec = Spec(value: string, q: real)

  function AfterSpace(s: string): string {
    s[Span(IsSpace, s)..]
  }

  function Number(digits: string): (n: nat)
    requires AllChars(IsAsciiDigit, digits)
  {
    if digits == "" then 0
    else Number(digits[..|digits| - 1]) * 10 + (digits[|digits| - 1] - '0') as int
  }

  function Pow10(n: nat): (p: nat)
    ensures p > 0
  {
    if n == 0 then 1 else 10 * Pow10(n - 1)
  }

  /** The value of a quality and the text after it. */
  function Quality(s: string): Option<(real, string)> {
    if s == "" || (s[0] != '0' && s[0] != '1') then None
    else
      var lead := if s[0] == '0' then 0.0 else 1.0;
      if !StartsWith(s[1..], '.') then Some((lead, s[1..]))
      else
        var n := Span(IsAsciiDigit, s[2..]);
        Some((lead + Number(s[2..][..n]) as real / Pow10(n) as real, s[2..][n..]))
  }

  /** What follows a value: its weight, and the text after it. */
  function Weight(s: string): Option<(real, string)> {
    if !StartsWith(s, ';') then Some((1.0, s))
    else
      var t := AfterSpace(s[1..]);
      if "q=" <= t then Quality(t[2..]) else None
  }

  lemma {:induction false} WeightShrinks(s: string)
    ensures Weight(s).Some? ==> |Weight(s).value.1| <= |s| && Weight(s).value.0 >= 0.0
  {
  }

  /** One specification and what follows its comma. */
  datatype Item = Stop | Last(spec: Spec) | More(spec: Spec, rest: string)

  function ItemAt(s: string): (x: Item)
    ensures x.More? ==> |x.rest| < |s|
    ensures !x.Stop? ==> x.spec.q >= 0.0
  {
    var n := Span(IsTokenSlash, s);
    if n == 0 then Stop
    else
      WeightShrinks(AfterSpace(s[n..]));
      match Weight(AfterSpace(s[n..]))
      case None => Stop
      case Some((q, rest)) =>
        var t := AfterSpace(rest);
        if !StartsWith(t, ',') then Last(Spec(s[..n], q))
        else More(Spec(s[..n], q), AfterSpace(t[1..]))
  }

  /** The specifications in one header value, up to the first thing that is not one. */
  function ParseItems(s: string): seq<Spec>
    decreases |s|
  {
    match ItemAt(s)
    case Stop => []
    case Last(x) => [x]
    case More(x, rest) => [x] + ParseItems(rest)
  }

  function ParseAll(values: seq<string>): seq<Spec> {
    if values == [] then [] else ParseItems(values[0]) + ParseAll(values[1..])
  }

  /* ---- The scanning loops ---- */

  /** How far a run of characters goes. */
  method ScanRun(s: string, isValid: char -> bool) returns (i: nat)
    ensures i == Span(isValid, s)
  {
    i := 0;
    while i < |s| && isValid(s[i])
      invariant i <= |s| && forall k :: 0 <= k < i ==> isValid(s[k])
    {
      i := i + 1;
    }
    SpanIs(isValid, s, i);
  }

  method SkipSpace(s: string) returns (rest: string)
    ensures rest == AfterSpace(s)
  {
    var i := ScanRun(s, IsSpace);
    rest := s[i..];
  }

  method ExpectTokenSlash(s: string) returns (token: string, rest: string)
    ensures var n := Span(IsTokenSlash, s); token == s[..n] && rest == s[n..]
  {
    var i := ScanRun(s, IsTokenSlash);
    token, rest := s[..i], s[i..];
  }

  /** The digits after the point, as a numerator and a denominator. */
  method ReadDecimals(s: string) returns (i: nat, n: nat, d: nat)
    ensures i == Span(IsAsciiDigit, s) && n == Number(s[..i]) && d == Pow10(i)
  {
    i, n, d := 0, 0, 1;
    while i < |s| && IsAsciiDigit(s[i])
      invariant i <= |s| && AllChars(IsAsciiDigit, s[..i])
      invariant n == Number(s[..i]) && d == Pow10(i)
    {
      assert s[..i + 1][..i] == s[..i];
      n := n * 10 + (s[i] - '0') as int;
      d := d * 10;
      i := i + 1;
    }
    assert forall k :: 0 <= k < i ==> s[..i][k] == s[k];
    SpanIs(IsAsciiDigit, s, i);
  }

  /** A negative quality stands for an error. */
  method ExpectQuality(s: string) returns (q: real, rest: string)
    ensures Quality(s).None? <==> q < 0.0
    ensures Quality(s).Some? ==> Quality(s).value == (q, rest)
  {
    hide Number, Pow10;
    if s == "" || (s[0] != '0' && s[0] != '1') {
      return -1.0, "";
    }
    q := if s[0] == '0' then 0.0 else 1.0;
    rest := s[1..];
    if !StartsWith(rest, '.') {
      return;
    }
    rest := rest[1..];
    assert rest == s[2..];
    var i, n, d := ReadDecimals(rest);
    q, rest := q + n as real / d as real, rest[i..];
  }

  /** `parseAccept`. */
  method ParseAccept(values: seq<string>) returns (specs: seq<Spec>)
    ensures specs == ParseAll(values)
    ensures forall i :: 0 <= i < |specs| ==> specs[i].q >= 0.0
  {
    hide ParseItems;
    specs := [];
    var k := 0;
    assert values[0..] == values;
    while k < |values|
      invariant k <= |values| && ParseAll(values) == specs + ParseAll(values[k..])
      invariant forall i :: 0 <= i < |specs| ==> specs[i].q >= 0.0
    {
      ghost var before := specs;
      var more := ParseValue(values[k]);
      assert values[k..][1..] == values[k + 1..];
      assert before + (more + ParseAll(values[k + 1..])) == before + more + ParseAll(values[k + 1..]);
      specs := specs + more;
      k := k + 1;
    }
  }

  /** The body of the inner loop of `parseAccept`. */
  method ParseItem(s0: string) returns (x: Item)
    ensures x == ItemAt(s0)
  {
    var token, s := ExpectTokenSlash(s0);
    if token == "" {
      return Stop;
    }
    var q := 1.0;
    s := SkipSpace(s);
    if StartsWith(s, ';') {
      s := SkipSpace(s[1..]);
      if !("q=" <= s) {
        return Stop;
      }
      q, s := ExpectQuality(s[2..]);
      if q < 0.0 {
        return Stop;
      }
    }
    s := SkipSpace(s);
    if !StartsWith(s, ',') {
      return Last(Spec(token, q));
    }
    s := SkipSpace(s[1..]);
    x := More(Spec(token, q), s);
  }

  /** The inner loop of `parseAccept`. */
  method ParseValue(value: string) returns (specs: seq<Spec>)
    ensures specs == ParseItems(value)
    ensures forall i :: 0 <= i < |specs| ==> specs[i].q >= 0.0
  {
    hide ItemAt;
    specs := [];
    var s := value;
    while true
      invariant ParseItems(value) == specs + ParseItems(s)
      invariant forall i :: 0 <= i < |specs| ==> specs[i].q >= 0.0
      decreases |s|
    {
      var x := ParseItem(s);
      if x.Stop? {
        return;
      }
      specs := specs + [x.spec];
      if x.Last? {
        return;
      }
      s := x.rest;
    }
  }

  /* ---- Characters ---- */

  /** White space and tokens as in RFC 7230, section 3.2.6, with the slash of a media type. */
  lemma {:induction false} HeaderChars(c: char)
    ensures IsSpace(c) <==> c in " \t\r\n"
    ensures IsTokenSlash(c) <==> IsAsciiDigit(c) || IsAsciiLetter(c) || c in "!#$%&'*+-.^_`|~/"
  {
  }

  /* ---- Decimal numbers ---- */

  lemma {:induction false} DigitAt(k: nat)
    requires k < 10
    ensures IsAsciiDigit(DIGITS[k]) && (DIGITS[k] - '0') as int == k
  {
  }

  /** The decimal digits of a number. */
  function Decimal(n: nat): (s: string)
    ensures s != ""
  {
    if n < 10 then [DIGITS[n]] else Decimal(n / 10) + [DIGITS[n % 10]]
  }

  /** The lowest k digits of a number. */
  function LowDigits(n: nat, k: nat): (s: string)
    ensures |s| == k
  {
    if k == 0 then "" else LowDigits(n / 10, k - 1) + [DIGITS[n % 10]]
  }

  /** A number is read back from its digits, whatever zeros are in front. */
  lemma {:induction false} NumberDecimal(n: nat, zeros: string)
    requires forall i :: 0 <= i < |zeros| ==> zeros[i] == '0'
    ensures AllChars(IsAsciiDigit, zeros + Decimal(n)) && Number(zeros + Decimal(n)) == n
  {
    DigitAt(n % 10);
    var s := zeros + Decimal(n);
    if n < 10 {
      assert s[..|s| - 1] == zeros;
      NumberZeros(zeros);
    } else {
      NumberDecimal(n / 10, zeros);
      assert s[..|s| - 1] == zeros + Decimal(n / 10);
    }
  }

  lemma {:induction false} NumberZeros(zeros: string)
    requires forall i :: 0 <= i < |zeros| ==> zeros[i] == '0'
    ensures AllChars(IsAsciiDigit, zeros) && Number(zeros) == 0
  {
    if zeros != "" {
      NumberZeros(zeros[..|zeros| - 1]);
    }
  }

  /** The strings of k digits and the numbers below the k-th power of ten correspond. */
  lemma {:induction false} NumberDigits(s: string)
    requires AllChars(IsAsciiDigit, s)
    ensures Number(s) < Pow10(|s|) && LowDigits(Number(s), |s|) == s
  {
    if s != "" {
      var k, d := |s| - 1, (s[|s| - 1] - '0') as int;
      assert s == s[..k] + [s[k]];
      NumberDigits(s[..k]);
      TenFold(Number(s[..k]), d);
      DigitAt(d);
    }
  }

  lemma {:induction false} LowNumber(n: nat, k: nat)
    requires n < Pow10(k)
    ensures AllChars(IsAsciiDigit, LowDigits(n, k)) && Number(LowDigits(n, k)) == n
  {
    if k > 0 {
      LowNumber(n / 10, k - 1);
      DigitAt(n % 10);
      var s := LowDigits(n, k);
      assert s[..k - 1] == LowDigits(n / 10, k - 1);
    }
  }

  lemma {:induction false} TenFold(n: nat, d: nat)
    requires d < 10
    ensures (n * 10 + d) / 10 == n && (n * 10 + d) % 10 == d
  {
  }

  /** The k-th power of ten is the least number with k + 1 digits. */
  lemma {:induction false} Pow10Is(k: nat, n: nat)
    ensures |Decimal(n)| > k <==> n >= Pow10(k) || k == 0
  {
    if k > 1 {
      if n >= 10 {
        Pow10Is(k - 1, n / 10);
      } else {
        assert Pow10(k) == 10 * (10 * Pow10(k - 2));
      }
    }
  }

  /** A weight that is written with k digits is that decimal fraction. */
  lemma {:induction false} WeightIs(space: string, one: bool, n: nat, k: nat)
    requires n < Pow10(k)
    ensures var w := WeightText(space, one, Some(LowDigits(n, k)));
      && AllChars(IsAsciiDigit, LowDigits(n, k))
      && QualityOf(w) == (if one then 1.0 else 0.0) + n as real / Pow10(k) as real
  {
    LowNumber(n, k);
  }

  /* ---- Printed headers ---- */

  /** A weight: white space after the semicolon, the digit before the point, and the digits
      after it if there is a point. */
  datatype WeightText = WeightText(space: string, one: bool, decimals: Option<string>)

  datatype Field = Field(value: string, before: string, weight: Option<WeightText>, after: string)

  predicate Blank(s: string) {
    AllChars(IsSpace, s)
  }

  predicate GoodField(f: Field) {
    && f.value != "" && AllChars(IsTokenSlash, f.value)
    && Blank(f.before) && Blank(f.after)
    && (f.weight.Some? ==>
          && Blank(f.weight.value.space)
          && (f.weight.value.decimals.Some? ==> AllChars(IsAsciiDigit, f.weight.value.decimals.value)))
  }

  function QualityOf(w: WeightText): real
    requires w.decimals.Some? ==> AllChars(IsAsciiDigit, w.decimals.value)
  {
    var lead := if w.one then 1.0 else 0.0;
    if w.decimals.None? then lead
    else lead + Number(w.decimals.value) as real / Pow10(|w.decimals.value|) as real
  }

  function SpecOf(f: Field): Spec
    requires GoodField(f)
  {
    Spec(f.value, if f.weight.None? then 1.0 else QualityOf(f.weight.value))
  }

  function PrintQuality(w: WeightText, k: string): string {
    (if w.one then "1" else "0") + if w.decimals.None? then k else "." + (w.decimals.value + k)
  }

  function PrintWeight(w: Option<WeightText>, k: string): string {
    if w.None? then k else ";" + (w.value.space + ("q=" + PrintQuality(w.value, k)))
  }

  function PrintField(f: Field, k: string): string {
    f.value + (f.before + PrintWeight(f.weight, f.after + k))
  }

  /** Fields with commas between them, each followed by white space. */
  function PrintFields(fs: seq<Field>, gaps: seq<string>): string
    requires |fs| == |gaps|
  {
    if fs == [] then ""
    else if |fs| == 1 then PrintField(fs[0], "")
    else PrintField(fs[0], "," + (gaps[0] + PrintFields(fs[1..], gaps[1..])))
  }

  lemma {:induction false} SkipBlank(ws: string, k: string)
    requires Blank(ws) && (k == "" || !IsSpace(k[0]))
    ensures AfterSpace(ws + k) == k
  {
    SpanAll(IsSpace, ws, k);
  }

  predicate Ends(k: string) {
    k == "" || k[0] == ','
  }

  lemma {:induction false} QualityPrinted(w: WeightText, k: string)
    requires w.decimals.Some? ==> AllChars(IsAsciiDigit, w.decimals.value)
    requires k == "" || IsSpace(k[0]) || k[0] == ','
    ensures Quality(PrintQuality(w, k)) == Some((QualityOf(w), k))
  {
    var s := PrintQuality(w, k);
    if w.decimals.Some? {
      SpanAll(IsAsciiDigit, w.decimals.value, k);
      assert s[2..] == w.decimals.value + k;
    } else {
      assert s[1..] == k;
    }
  }

  lemma {:induction false} WeightPrinted(w: Option<WeightText>, after: string, k: string)
    requires Blank(after) && Ends(k)
    requires w.Some? ==> Blank(w.value.space)
    requires w.Some? && w.value.decimals.Some? ==> AllChars(IsAsciiDigit, w.value.decimals.value)
    ensures var s := PrintWeight(w, after + k);
      Weight(AfterSpace(s)) ==
        if w.None? then Some((1.0, k)) else Some((QualityOf(w.value), after + k))
  {
    SkipBlank(after, k);
    if w.Some? {
      hide Quality, QualityOf, PrintQuality, AfterSpace;
      var q := PrintQuality(w.value, after + k);
      QualityPrinted(w.value, after + k);
      SkipBlank(w.value.space, "q=" + q);
      SkipBlank("", ";" + (w.value.space + ("q=" + q)));
      WeightAfter(w.value.space, q);
    }
  }

  /** The text of a weight, once the white space is skipped. */
  lemma {:induction false} WeightAfter(space: string, q: string)
    requires AfterSpace(space + ("q=" + q)) == "q=" + q
    ensures var s := ";" + (space + ("q=" + q));
      "" + s == s && Weight(s) == Quality(q)
  {
    var s := ";" + (space + ("q=" + q));
    assert s[1..] == space + ("q=" + q);
    assert ("q=" + q)[2..] == q;
  }

  lemma {:induction false} SpaceTwice(a: string, b: string)
    requires Blank(a)
    ensures AfterSpace(a + b) == AfterSpace(b)
  {
    var n := Span(IsSpace, b);
    assert b == b[..n] + b[n..];
    assert a + b == (a + b[..n]) + b[n..];
    SkipBlank(a + b[..n], b[n..]);
  }

  /** A token run ends where white space, a weight, a comma or nothing begins. */
  lemma {:induction false} TokenPrinted(f: Field, k: string)
    requires GoodField(f) && Ends(k)
    ensures var s := PrintField(f, k);
      && Span(IsTokenSlash, s) == |f.value| && s[..|f.value|] == f.value
      && s[|f.value|..] == f.before + PrintWeight(f.weight, f.after + k)
  {
    var w := PrintWeight(f.weight, f.after + k);
    assert f.before + w == "" || !IsTokenSlash((f.before + w)[0]) by {
      if f.before == "" {
        assert f.before + w == w;
        if f.weight.None? {
          assert f.after == "" ==> f.after + k == k;
        }
      }
    }
    SpanAll(IsTokenSlash, f.value, f.before + w);
  }

  lemma {:induction false} FieldPrinted(f: Field, k: string)
    requires GoodField(f) && Ends(k)
    ensures ItemAt(PrintField(f, k)) == if k == "" then Last(SpecOf(f)) else More(SpecOf(f), AfterSpace(k[1..]))
  {
    hide Weight, PrintWeight, Span, PrintField, QualityOf;
    TokenPrinted(f, k);
    SpaceTwice(f.before, PrintWeight(f.weight, f.after + k));
    WeightPrinted(f.weight, f.after, k);
    SkipBlank(f.after, k);
    SkipBlank("", k);
    assert "" + k == k;
  }

  /** Reading a printed header gives back its values and weights, whatever the white space. */
  lemma {:induction false} FieldsRoundTrip(fs: seq<Field>, gaps: seq<string>)
    requires |fs| == |gaps| && (forall i :: 0 <= i < |fs| ==> GoodField(fs[i]) && Blank(gaps[i]))
    ensures |ParseItems(PrintFields(fs, gaps))| == |fs|
    ensures forall i :: 0 <= i < |fs| ==> ParseItems(PrintFields(fs, gaps))[i] == SpecOf(fs[i])
    decreases |fs|
  {
    hide ItemAt, PrintField, SpecOf, AfterSpace, GoodField;
    if fs == [] {
      NothingThere();
    } else if |fs| == 1 {
      FieldPrinted(fs[0], "");
    } else {
      var rest := PrintFields(fs[1..], gaps[1..]);
      FieldsRoundTrip(fs[1..], gaps[1..]);
      FieldPrinted(fs[0], "," + (gaps[0] + rest));
      FirstChar(fs[1], if |fs| == 2 then "" else "," + (gaps[1] + PrintFields(fs[1..][1..], gaps[1..][1..])));
      SkipBlank(gaps[0], rest);
      assert ("," + (gaps[0] + rest))[1..] == gaps[0] + rest;
    }
  }

  lemma {:induction false} NothingThere()
    ensures ItemAt("") == Stop
  {
  }

  lemma {:induction false} FirstChar(f: Field, k: string)
    requires GoodField(f)
    ensures PrintField(f, k) != "" && !IsSpace(PrintField(f, k)[0])
  {
    assert IsTokenSlash(f.value[0]);
  }

  /** What stands behind a semicolon and is no weight that starts with zero or one. */
  predicate NoWeight(junk: string) {
    && junk != "" && !IsSpace(junk[0])
    && ("q=" <= junk ==> |junk| == 2 || (junk[2] != '0' && junk[2] != '1'))
  }

  /** Such a value and all after it are dropped. */
  lemma {:induction false} BadWeight(value: string, before: string, space: string, junk: string)
    requires value != "" && AllChars(IsTokenSlash, value) && Blank(before) && Blank(space) && NoWeight(junk)
    ensures ParseItems(value + (before + (";" + (space + junk)))) == []
  {
    hide Weight, AfterSpace, NoWeight, Span, IsTokenSlash, IsSpace, ParseItems;
    var rest := ";" + (space + junk);
    NoneRead(space, junk);
    BlankFirst(before, rest);
    SpanAll(IsTokenSlash, value, before + rest);
    assert (value + (before + rest))[|value|..] == before + rest;
    StopsThere(value + (before + rest));
  }

  /** White space and a semicolon after it: no token character. */
  lemma {:induction false} BlankFirst(before: string, rest: string)
    requires Blank(before) && StartsWith(rest, ';')
    ensures AfterSpace(before + rest) == rest && !IsTokenSlash((before + rest)[0])
  {
    SkipBlank(before, rest);
  }

  lemma {:induction false} StopsThere(s: string)
    requires ItemAt(s) == Stop
    ensures ParseItems(s) == []
  {
  }

  lemma {:induction false} NoneRead(space: string, junk: string)
    requires Blank(space) && NoWeight(junk)
    ensures Weight(";" + (space + junk)) == None
  {
    hide IsSpace, Number, Pow10;
    var rest := ";" + (space + junk);
    assert rest[1..] == space + junk;
    SkipBlank(space, junk);
    if "q=" <= junk && |junk| > 2 {
      assert junk[2..][0] == junk[2];
    }
  }

  /* ---- Choosing an offer ---- */

  /** How unspecific a media range is. */
  function Wildness(value: string): (w: nat)
    ensures w <= 2
  {
    if value == "*/*" then 2
    else if |value| >= 2 && value[|value| - 2..] == "/*" then 1
    else 0
  }

  predicate Matches(value: string, offer: string) {
    match Wildness(value)
    case 2 => true
    case 1 => value[..|value| - 1] <= offer
    case _ => value == offer
  }

  /** The pair of an offer and a specification that is acceptable. */
  predicate Acceptable(offers: seq<string>, specs: seq<Spec>, i: nat, j: nat)
    requires i < |offers| && j < |specs|
  {
    specs[j].q != 0.0 && Matches(specs[j].value, offers[i])
  }

  /** Higher quality wins, then the more specific range. */
  predicate Better(a: Spec, b: Spec) {
    a.q > b.q || (a.q == b.q && Wildness(a.value) < Wildness(b.value))
  }

  /** The pair (i, j) is acceptable, nothing acceptable is better, and nothing that is as good
      belongs to an earlier offer. */
  ghost predicate Best(offers: seq<string>, specs: seq<Spec>, i: nat, j: nat) {
    && i < |offers| && j < |specs| && Acceptable(offers, specs, i, j)
    && forall k, l :: 0 <= k < |offers| && 0 <= l < |specs| && Acceptable(offers, specs, k, l) ==>
         !Better(specs[l], specs[j]) && (!Better(specs[j], specs[l]) ==> i <= k)
  }

  ghost predicate NoneAcceptable(offers: seq<string>, specs: seq<Spec>) {
    forall k, l :: 0 <= k < |offers| && 0 <= l < |specs| ==> !Acceptable(offers, specs, k, l)
  }

  /** All pairs before (n, m) in the order of the loops are no better than `best`. */
  ghost predicate Leading(offers: seq<string>, specs: seq<Spec>, n: nat, m: nat, best: Option<(nat, nat)>) {
    match best
    case None =>
      forall k, l :: 0 <= k < |offers| && 0 <= l < |specs| && (k < n || (k == n && l < m)) ==>
        !Acceptable(offers, specs, k, l)
    case Some((i, j)) =>
      && i < |offers| && j < |specs| && Acceptable(offers, specs, i, j) && (i < n || (i == n && j < m))
      && forall k, l ::
        0 <= k < |offers| && 0 <= l < |specs| && (k < n || (k == n && l < m)) && Acceptable(offers, specs, k, l) ==>
           !Better(specs[l], specs[j]) && (!Better(specs[j], specs[l]) ==> i <= k)
  }

  /** The pair (n, m) replaces the best one so far. */
  predicate Improves(offers: seq<string>, specs: seq<Spec>, best: Option<(nat, nat)>, n: nat, m: nat)
    requires n < |offers| && m < |specs|
    requires best.Some? ==> best.value.1 < |specs|
  {
    Acceptable(offers, specs, n, m) && (best.None? || Better(specs[m], specs[best.value.1]))
  }

  lemma {:induction false} LeadingNext(offers: seq<string>, specs: seq<Spec>, n: nat, m: nat, best: Option<(nat, nat)>)
    requires n < |offers| && m < |specs| && Leading(offers, specs, n, m, best)
    ensures best.Some? ==> best.value.1 < |specs|
    ensures Leading(offers, specs, n, m + 1, if Improves(offers, specs, best, n, m) then Some((n, m)) else best)
  {
    hide Matches, Wildness;
  }

  lemma {:induction false} LeadingRow(offers: seq<string>, specs: seq<Spec>, n: nat, best: Option<(nat, nat)>)
    requires n < |offers| && Leading(offers, specs, n, |specs|, best)
    ensures Leading(offers, specs, n + 1, 0, best)
  {
    hide Acceptable, Better;
  }

  /** The variables of the loop describe the best pair so far. */
  predicate Tracks(offers: seq<string>, specs: seq<Spec>, defaultOffer: string, best: Option<(nat, nat)>, offer: string,
                   q: real, wild: int) {
    match best
    case None => offer == defaultOffer && q == -1.0 && wild == 3
    case Some((i, j)) =>
      i < |offers| && j < |specs| && offer == offers[i] && q == specs[j].q && wild == Wildness(specs[j].value)
  }

  /** The three cases of a media range. */
  lemma {:induction false} Ranges(value: string, offer: string)
    ensures value == "*/*" ==> Wildness(value) == 2 && Matches(value, offer)
    ensures value != "*/*" && |value| >= 2 && value[|value| - 2..] == "/*" ==>
      Wildness(value) == 1 && (Matches(value, offer) <==> value[..|value| - 1] <= offer)
    ensures value != "*/*" && !(|value| >= 2 && value[|value| - 2..] == "/*") ==>
      Wildness(value) == 0 && (Matches(value, offer) <==> value == offer)
  {
  }

  /** The switch of `negotiateContentType`: whether a pair replaces the best one. */
  method Compare(spec: Spec, offer: string, bestQ: real, bestWild: int) returns (wild: Option<nat>)
    requires spec.q >= 0.0
    ensures wild.Some? <==>
      && spec.q != 0.0 && Matches(spec.value, offer)
      && (spec.q > bestQ || (spec.q == bestQ && bestWild > Wildness(spec.value)))
    ensures wild.Some? ==> wild.value == Wildness(spec.value)
  {
    hide Matches, Wildness;
    Ranges(spec.value, offer);
    if spec.q == 0.0 || spec.q < bestQ {
      return None;
    }
    var n := |spec.value|;
    if spec.value == "*/*" {
      if spec.q > bestQ || bestWild > 2 {
        return Some(2);
      }
    } else if n >= 2 && spec.value[n - 2..] == "/*" {
      if spec.value[..n - 1] <= offer && (spec.q > bestQ || bestWild > 1) {
        return Some(1);
      }
    } else if spec.value == offer && (spec.q > bestQ || bestWild > 0) {
      return Some(0);
    }
    return None;
  }

  /** The offer of the best pair, or the default offer when no pair is acceptable. */
  ghost predicate IsChoice(offers: seq<string>, specs: seq<Spec>, defaultOffer: string, offer: string) {
    if NoneAcceptable(offers, specs) then offer == defaultOffer
    else exists i: nat, j: nat :: Best(offers, specs, i, j) && offer == offers[i]
  }

  /** `negotiateContentType`, after the header is parsed. */
  method ChooseType(specs: seq<Spec>, offers: seq<string>, defaultOffer: string) returns (offer: string)
    requires forall j :: 0 <= j < |specs| ==> specs[j].q >= 0.0
    ensures IsChoice(offers, specs, defaultOffer, offer)
  {
    ghost var best: Option<(nat, nat)> := None;
    offer := defaultOffer;
    var bestQ, bestWild := -1.0, 3;
    var n := 0;
    while n < |offers|
      invariant n <= |offers| && Leading(offers, specs, n, 0, best)
      invariant Tracks(offers, specs, defaultOffer, best, offer, bestQ, bestWild)
    {
      offer, bestQ, bestWild, best := ChooseRow(specs, offers, defaultOffer, n, offer, bestQ, bestWild, best);
      n := n + 1;
    }
    Led(offers, specs, defaultOffer, best, offer);
  }

  lemma {:induction false} Led(offers: seq<string>, specs: seq<Spec>, defaultOffer: string, best: Option<(nat, nat)>,
                               offer: string)
    requires Leading(offers, specs, |offers|, 0, best)
    requires best.None? ==> offer == defaultOffer
    requires best.Some? && best.value.0 < |offers| ==> offer == offers[best.value.0]
    ensures IsChoice(offers, specs, defaultOffer, offer)
  {
    hide Acceptable, Better;
    if best.Some? {
      var (i, j) := best.value;
      assert Best(offers, specs, i, j);
    }
  }

  /** The inner loop of `negotiateContentType`. */
  method ChooseRow(specs: seq<Spec>, offers: seq<string>, ghost defaultOffer: string, n: nat, offer0: string,
                   bestQ0: real, bestWild0: int, ghost best0: Option<(nat, nat)>)
    returns (offer: string, bestQ: real, bestWild: int, ghost best: Option<(nat, nat)>)
    requires forall j :: 0 <= j < |specs| ==> specs[j].q >= 0.0
    requires n < |offers| && Leading(offers, specs, n, 0, best0)
    requires Tracks(offers, specs, defaultOffer, best0, offer0, bestQ0, bestWild0)
    ensures Leading(offers, specs, n + 1, 0, best)
    ensures Tracks(offers, specs, defaultOffer, best, offer, bestQ, bestWild)
  {
    hide Leading, Matches, Wildness;
    offer, bestQ, bestWild, best := offer0, bestQ0, bestWild0, best0;
    var m := 0;
    while m < |specs|
      invariant m <= |specs| && Leading(offers, specs, n, m, best)
      invariant Tracks(offers, specs, defaultOffer, best, offer, bestQ, bestWild)
    {
      LeadingNext(offers, specs, n, m, best);
      var wild := Compare(specs[m], offers[n], bestQ, bestWild);
      if wild.Some? {
        bestQ, bestWild, offer, best := specs[m].q, wild.value, offers[n], Some((n, m));
      }
      m := m + 1;
    }
    LeadingRow(offers, specs, n, best);
  }

  /** `negotiateContentType`. */
  method NegotiateContentType(accept: seq<string>, offers: seq<string>, defaultOffer: string) returns (offer: string)
    ensures IsChoice(offers, ParseAll(accept), defaultOffer, offer)
  {
    var specs := ParseAccept(accept);
    offer := ChooseType(specs, offers, defaultOffer);
  }

  /** The best pair has the highest quality of all acceptable pairs; of those with this quality the
      least wild range; and of those with this range the earliest offer. */
  lemma {:induction false} BestMeans(offers: seq<string>, specs: seq<Spec>, i: nat, j: nat)
    ensures Best(offers, specs, i, j) <==>
      && i < |offers| && j < |specs| && Acceptable(offers, specs, i, j)
      && forall k, l :: 0 <= k < |offers| && 0 <= l < |specs| && Acceptable(offers, specs, k, l) ==>
           && specs[l].q <= specs[j].q
           && (specs[l].q == specs[j].q ==>
                 && Wildness(specs[j].value) <= Wildness(specs[l].value)
                 && (Wildness(specs[j].value) == Wildness(specs[l].value) ==> i <= k))
  {
    hide Acceptable, Wildness;
  }

  /** What ranges accept: all types, the types that start with what is before the star, or one. */
  lemma {:induction false} RangeMeans(main: string, sub: string, offer: string)
    requires '/' !in sub
    ensures main != "*" || sub != "*" ==>
      var value := main + "/" + sub;
      && (sub == "*" ==> Wildness(value) == 1 && (Matches(value, offer) <==> main + "/" <= offer))
      && (sub != "*" ==> Wildness(value) == 0 && (Matches(value, offer) <==> value == offer))
    ensures Wildness("*/*") == 2 && Matches("*/*", offer)
  {
    hide Wildness, Matches;
    Ranges(main + "/" + sub, offer);
    Ranges("*/*", offer);
    if sub == "*" {
      StarRange(main);
    } else {
      NoRange(main, sub);
    }
  }

  lemma {:induction false} StarRange(main: string)
    ensures var value := main + "/" + "*";
      && |value| >= 2 && value[|value| - 2..] == "/*" && value[..|value| - 1] == main + "/"
      && (main != "*" ==> value != "*/*")
  {
    var value := main + "/" + "*";
    assert value[..|main|] == main;
    assert "*/*"[..1] == "*" && |"*/*"| == 3;
  }

  lemma {:induction false} NoRange(main: string, sub: string)
    requires '/' !in sub && sub != "*"
    ensures var value := main + "/" + sub;
      value != "*/*" && (|value| >= 2 ==> value[|value| - 2..] != "/*")
  {
    var value := main + "/" + sub;
    var n := |value|;
    if sub == "" {
      assert value[n - 1] == '/';
    } else {
      assert value[n - 1] == sub[|sub| - 1];
      assert |sub| > 1 ==> value[n - 2] == sub[|sub| - 2] && sub[|sub| - 2] in sub;
      assert |sub| == 1 ==> sub == [sub[0]];
    }
    assert "/*"[1] == '*' && "*/*"[2] == '*' && "/*"[0] == '/' && "*/*"[1] == '/';
    assert n >= 2 ==> value[n - 2..][0] == value[n - 2] && value[n - 2..][1] == value[n - 1];
  }

  /** The best offer is unique. */
  lemma {:induction false} BestIsUnique(offers: seq<string>, specs: seq<Spec>, i: nat, j: nat, k: nat, l: nat)
    requires Best(offers, specs, i, j) && Best(offers, specs, k, l)
    ensures i == k && specs[j].q == specs[l].q && Wildness(specs[j].value) == Wildness(specs[l].value)
  {
  }

  /* ---- Encodings ---- */

  predicate Encodes(value: string, offer: string) {
    value == "*" || value == offer
  }

  /** A single weight: "*" is for every offer, and another value for the offer that it names. */
  lemma {:induction false} OneEncoding(value: string, q: real, offers: seq<string>, offer: string)
    requires IsEncoding(offers, [Spec(value, q)], offer)
    ensures offer ==
      if value == "*" && offers != [] then if q == 0.0 then "" else offers[0]
      else if value in offers then if q == 0.0 then "" else value
      else "identity"
  {
    var specs := [Spec(value, q)];
    if NoneMatches(offers, specs) {
      assert forall k :: 0 <= k < |offers| ==> !Encodes(specs[0].value, offers[k]);
    } else {
      var i: nat, j: nat :| BestEncoding(offers, specs, i, j) && offer == if specs[j].q == 0.0 then "" else offers[i];
      assert j == 0;
      if value == "*" {
        assert Encodes(specs[0].value, offers[0]);
      }
    }
  }

  /** The pair (i, j) matches, nothing that matches has more weight, and none of an earlier
      offer has as much. */
  ghost predicate BestEncoding(offers: seq<string>, specs: seq<Spec>, i: nat, j: nat) {
    && i < |offers| && j < |specs| && Encodes(specs[j].value, offers[i])
    && forall k, l :: 0 <= k < |offers| && 0 <= l < |specs| && Encodes(specs[l].value, offers[k]) ==>
         specs[l].q <= specs[j].q && (specs[l].q == specs[j].q ==> i <= k)
  }

  /** The same for the pairs before (n, m). */
  ghost predicate LeadingEncoding(offers: seq<string>, specs: seq<Spec>, n: nat, m: nat, best: Option<(nat, nat)>,
                                  q: real) {
    && (best.None? ==> q == -1.0)
    && (best.Some? ==>
          && best.value.0 < |offers| && best.value.1 < |specs| && specs[best.value.1].q == q
          && Encodes(specs[best.value.1].value, offers[best.value.0]) && best.value.0 <= n)
    && forall k, l ::
      0 <= k < |offers| && 0 <= l < |specs| && (k < n || (k == n && l < m)) && Encodes(specs[l].value, offers[k]) ==>
         best.Some? && specs[l].q <= q && (specs[l].q == q ==> best.value.0 <= k)
  }

  ghost predicate NoneMatches(offers: seq<string>, specs: seq<Spec>) {
    forall k, l :: 0 <= k < |offers| && 0 <= l < |specs| ==> !Encodes(specs[l].value, offers[k])
  }

  /** The best offer, "identity" if none matches, and nothing if the best one has no weight. */
  ghost predicate IsEncoding(offers: seq<string>, specs: seq<Spec>, offer: string) {
    if NoneMatches(offers, specs) then offer == "identity"
    else
      exists i: nat, j: nat ::
        BestEncoding(offers, specs, i, j) && offer == if specs[j].q == 0.0 then "" else offers[i]
  }

  /** `negotiateContentEncoding`. */
  method NegotiateContentEncoding(accept: seq<string>, offers: seq<string>) returns (offer: string)
    ensures IsEncoding(offers, ParseAll(accept), offer)
  {
    hide ParseAll, Encodes, IsEncoding;
    var specs := ParseAccept(accept);
    var bestQ := -1.0;
    ghost var best: Option<(nat, nat)> := None;
    offer := "identity";
    var n := 0;
    while n < |offers|
      invariant n <= |offers| && LeadingEncoding(offers, specs, n, 0, best, bestQ)
      invariant offer == if best.None? then "identity" else offers[best.value.0]
    {
      var m := 0;
      while m < |specs|
        invariant m <= |specs| && LeadingEncoding(offers, specs, n, m, best, bestQ)
        invariant offer == if best.None? then "identity" else offers[best.value.0]
      {
        if specs[m].q > bestQ && Encodes(specs[m].value, offers[n]) {
          bestQ, offer, best := specs[m].q, offers[n], Some((n, m));
        }
        m := m + 1;
      }
      n := n + 1;
    }
    if bestQ == 0.0 {
      offer := "";
    }
    LedEncoding(offers, specs, best, bestQ, offer);
  }

  lemma {:induction false} LedEncoding(offers: seq<string>, specs: seq<Spec>, best: Option<(nat, nat)>, q: real,
                                       offer: string)
    requires LeadingEncoding(offers, specs, |offers|, 0, best, q)
    requires best.Some? && best.value.0 < |offers| ==> offer == if q == 0.0 then "" else offers[best.value.0]
    requires best.None? ==> offer == "identity"
    ensures IsEncoding(offers, specs, offer)
  {
    hide Encodes;
    if best.Some? {
      var (i, j) := best.value;
      assert BestEncoding(offers, specs, i, j);
    }
  }

  /* ---- An instance ---- */

  const HEADER := "a/b;q=0.9, c/d;q=0.1"

  /** What this header says. */
  lemma {:induction false} HeaderSpecs()
    ensures ParseAll([HEADER]) == [Spec("a/b", 0.9), Spec("c/d", 0.1)]
  {
    hide ParseItems, GoodField, PrintField, SpecOf, FieldFor;
    var f, g := FieldFor("a/b", "9"), FieldFor("c/d", "1");
    var fs, gaps := [f, g], [" ", ""];
    FieldIs("a/b", "9", 9);
    FieldIs("c/d", "1", 1);
    HeaderPrinted();
    assert fs[1..] == [g] && gaps[1..] == [""];
    assert PrintFields([g], [""]) == PrintField(g, "");
    assert PrintFields(fs, gaps) == HEADER;
    FieldsRoundTrip(fs, gaps);
    var values := [HEADER];
    assert values[1..] == [] && ParseAll([]) == [];
    assert ParseAll(values) == ParseItems(HEADER) + [];
  }

  /** Without a weight the quality is one. */
  lemma {:induction false} DefaultWeight()
    ensures ParseAll(["a/b"]) == [Spec("a/b", 1.0)]
  {
    var f := Field.Field("a/b", "", None, "");
    HeaderChars('a');
    HeaderChars('b');
    assert AllChars(IsTokenSlash, "a/b");
    assert "a/b" + ("" + ("" + "")) == "a/b";
    assert PrintField(f, "") == "a/b";
    assert [f][1..] == [] && PrintFields([f], [""]) == "a/b";
    hide ParseItems, PrintFields, IsTokenSlash;
    FieldsRoundTrip([f], [""]);
    var values := ["a/b"];
    assert values[1..] == [] && ParseAll([]) == [];
    assert ParseAll(values) == ParseItems("a/b") + [];
  }

  function FieldFor(value: string, digit: string): Field {
    Field.Field(value, "", Some(WeightText("", false, Some(digit))), "")
  }

  lemma {:induction false} HeaderPrinted()
    ensures PrintField(FieldFor("a/b", "9"), "," + (" " + PrintField(FieldFor("c/d", "1"), ""))) == HEADER
  {
    hide PrintField;
    var k := PrintField(FieldFor("c/d", "1"), "");
    FieldText("c/d", "1", "");
    FieldText("a/b", "9", "," + (" " + k));
    HeaderText();
  }

  lemma {:induction false} HeaderText()
    ensures "a/b" + ";q=0." + "9" + ("," + (" " + ("c/d" + ";q=0." + "1" + ""))) == HEADER
  {
    assert "c/d" + ";q=0." + "1" + "" == "c/d;q=0.1";
    assert "," + (" " + "c/d;q=0.1") == ", c/d;q=0.1";
    assert "a/b" + ";q=0." + "9" == "a/b;q=0.9";
    assert "a/b;q=0.9" + ", c/d;q=0.1" == HEADER;
  }

  lemma {:induction false} FieldText(value: string, digit: string, k: string)
    ensures PrintField(FieldFor(value, digit), k) == value + ";q=0." + digit + k
  {
    assert value + ("" + (";" + ("" + ("q=" + ("0" + ("." + (digit + ("" + k)))))))) == value + ";q=0." + digit + k;
  }

  lemma {:induction false} FieldIs(value: string, digit: string, n: nat)
    requires |value| == 3 && value[1] == '/' && IsAsciiLetter(value[0]) && IsAsciiLetter(value[2])
    requires n < 10 && digit == [DIGITS[n]]
    ensures GoodField(FieldFor(value, digit)) && SpecOf(FieldFor(value, digit)) == Spec(value, n as real / 10.0)
  {
    DigitAt(n);
    HeaderChars(value[0]);
    HeaderChars(value[2]);
    assert AllChars(IsTokenSlash, value);
    assert Decimal(n) == digit && "" + digit == digit;
    NumberDecimal(n, "");
    assert Pow10(1) == 10 * Pow10(0);
    hide IsTokenSlash, Number, Pow10, AllChars;
  }

  /** The offer of the higher weight is chosen, in any order of the offers. */
  lemma {:induction false} HigherWeight(offers: seq<string>, defaultOffer: string, offer: string)
    requires offers == ["a/b", "c/d"] || offers == ["c/d", "a/b"]
    requires IsChoice(offers, ParseAll([HEADER]), defaultOffer, offer)
    ensures offer == "a/b"
  {
    HeaderSpecs();
    hide ParseAll, Matches;
    var specs := ParseAll([HEADER]);
    var k := if offers[0] == "a/b" then 0 else 1;
    forall v, o ensures v == "a/b" || v == "c/d" ==> (Matches(v, o) <==> v == o) {
      Ranges(v, o);
    }
    assert Acceptable(offers, specs, k, 0);
    var i: nat, j: nat :| Best(offers, specs, i, j) && offer == offers[i];
    BestMeans(offers, specs, i, j);
  }
}
