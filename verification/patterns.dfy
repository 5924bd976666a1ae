/**
 Hand-written scanners for the regular expressions the output parser uses.

 Every search pattern has the shape `(?:LABEL|LABEL...)[:\s]+(NUMBER)` and is run with
 `re.search(..., re.IGNORECASE)`: the first position, from left to right, where the
 whole pattern matches wins. A label is one word (`Equity`) or two words separated by
 `\s+` (`No\s+double`); the captured number is either `[-+]?\d+\.\d+` or `[\d.]+`
 followed by a `%` that is not captured.

 Runs of whitespace, separators and digits are taken greedily. That is exactly what the
 backtracking regex engine does here, because in every pattern the element after such a
 run cannot start with a character of the run's own class (a label word after `\s+`, a
 sign or digit after `[:\s]+`, a point after `\d+`, a `%` after `[\d.]+`).
 */
module Patterns {
  import opened Wrappers
  import opened Text

  /** Character classes used by the patterns. */
  datatype CharClass = Whitespace | Separator | Digit | DigitOrPoint

  predicate InClass(c: char, k: CharClass) {
    match k
    case Whitespace => IsSpace(c)
    case Separator => c == ':' || IsSpace(c)
    case Digit => IsDigit(c)
    case DigitOrPoint => IsDigit(c) || c == '.'
  }

  /** The end of the longest run of characters of class `k` that starts at `i`. */
  function RunEnd(s: string, i: nat, k: CharClass): (e: nat)
    requires i <= |s|
    ensures i <= e <= |s|
    ensures forall j | i <= j < e :: InClass(s[j], k)
    ensures e == |s| || !InClass(s[e], k)
    decreases |s| - i
  {
    if i == |s| || !InClass(s[i], k) then i else RunEnd(s, i + 1, k)
  }

  /** A label, written in lower case and matched against the lower-cased text: one word,
      or two words separated by one or more whitespace characters. */
  datatype Label = Word(word: string) | TwoWords(first: string, second: string)

  /** The captured number: `[-+]?\d+\.\d+`, or `[\d.]+` followed by `%`. */
  datatype Number = SignedDecimal | Percentage

  /** `(?:labels[0]|labels[1]|...)[:\s]+(number)`. */
  datatype Pattern = Pattern(labels: seq<Label>, number: Number)

  /** Where label `l` ends when it matches at index `i` of the lower-cased text `t`. */
  function LabelEnd(t: string, i: nat, l: Label): (r: Option<nat>)
    requires i <= |t|
    ensures r.Some? ==> i <= r.value <= |t|
  {
    match l
    case Word(w) =>
      if OccursAt(t, w, i) then Some(i + |w|) else None
    case TwoWords(a, b) =>
      if OccursAt(t, a, i) then
        var j := RunEnd(t, i + |a|, Whitespace);
        if j > i + |a| && OccursAt(t, b, j) then Some(j + |b|) else None
      else None
  }

  /** Text of the shape `[-+]?\d+\.\d+`. */
  predicate IsSignedDecimal(c: string) {
    var body := Unsigned(c);
    var point := IndexOf(body, '.');
    && point.Some?
    && 0 < point.value && point.value + 1 < |body|
    && AllDigits(body[..point.value]) && AllDigits(body[point.value + 1..])
  }

  /** Text of the shape `[\d.]+`. */
  predicate IsDigitsAndPoints(c: string) {
    c != [] && forall i | 0 <= i < |c| :: InClass(c[i], DigitOrPoint)
  }

  /** Where the number starting at index `j` ends, if one starts there. */
  function NumberEnd(s: string, j: nat, n: Number): (r: Option<nat>)
    requires j <= |s|
    ensures r.Some? ==> j < r.value <= |s|
  {
    match n
    case SignedDecimal =>
      var d0 := if j < |s| && (s[j] == '+' || s[j] == '-') then j + 1 else j;
      var d := RunEnd(s, d0, Digit);
      if d0 < d < |s| && s[d] == '.' then
        var e := RunEnd(s, d + 1, Digit);
        if e > d + 1 then Some(e) else None
      else None
    case Percentage =>
      var e := RunEnd(s, j, DigitOrPoint);
      if j < e < |s| && s[e] == '%' then Some(e) else None
  }

  /** A run of digit-class characters, as a slice, is all digits. */
  lemma DigitRun(s: string, lo: nat, hi: nat)
    requires lo <= hi <= |s|
    requires forall i | lo <= i < hi :: InClass(s[i], Digit)
    ensures AllDigits(s[lo..hi])
  {
    forall i | 0 <= i < hi - lo ensures IsDigit(s[lo..hi][i]) {
      assert InClass(s[lo + i], Digit);
    }
  }

  /** Digits, a point, then digits, after an optional sign, have the signed-decimal shape. */
  lemma SignedDecimalFromParts(c: string, k: nat)
    requires 0 < k && k + 1 < |Unsigned(c)| && Unsigned(c)[k] == '.'
    requires AllDigits(Unsigned(c)[..k]) && AllDigits(Unsigned(c)[k + 1..])
    ensures IsSignedDecimal(c)
  {
    var body := Unsigned(c);
    assert '.' !in body[..k];
    IndexOfIs(body, '.', k);
  }

  /** A signed decimal ends right after the digits that follow its point, and what it
      spans has the shape of the pattern. */
  lemma SignedDecimalShape(s: string, j: nat)
    requires j <= |s|
    requires NumberEnd(s, j, SignedDecimal).Some?
    ensures IsSignedDecimal(s[j..NumberEnd(s, j, SignedDecimal).value])
  {
    var e := NumberEnd(s, j, SignedDecimal).value;
    var d0 := if j < |s| && (s[j] == '+' || s[j] == '-') then j + 1 else j;
    var d := RunEnd(s, d0, Digit);
    DigitRun(s, d0, d);
    DigitRun(s, d + 1, e);
    SignedSpan(s, j, d0, d, e);
  }

  /** An optional sign at `j`, digits up to the point at `d`, then digits up to `e`. */
  lemma SignedSpan(s: string, j: nat, d0: nat, d: nat, e: nat)
    requires j <= d0 < d && d + 1 < e <= |s| && s[d] == '.'
    requires d0 == j + 1 || d0 == j
    requires d0 == j + 1 <==> s[j] == '+' || s[j] == '-'
    requires AllDigits(s[d0..d]) && AllDigits(s[d + 1..e])
    ensures IsSignedDecimal(s[j..e])
  {
    var c := s[j..e];
    var body := Unsigned(c);
    var k := d - d0;
    assert c[0] == s[j];
    assert s[d0..d][0] == s[d0];
    assert c[d0 - j..] == s[d0..e];
    assert body == c[d0 - j..];
    assert body[..k] == s[d0..d];
    assert body[k + 1..] == s[d + 1..e];
    SignedDecimalFromParts(c, k);
  }

  /** A percentage is a non-empty run of digits and points directly followed by `%`. */
  lemma PercentageShape(s: string, j: nat)
    requires j <= |s|
    requires NumberEnd(s, j, Percentage).Some?
    ensures IsDigitsAndPoints(s[j..NumberEnd(s, j, Percentage).value])
    ensures NumberEnd(s, j, Percentage).value < |s| && s[NumberEnd(s, j, Percentage).value] == '%'
  {
  }

  /** The number captured when label `l` matches at `i`, followed by separators and a number. */
  function CaptureAfter(s: string, i: nat, l: Label, n: Number): Option<string>
    requires i <= |s|
  {
    match LabelEnd(Lower(s), i, l)
    case None => None
    case Some(k) =>
      var j := RunEnd(s, k, Separator);
      if j == k then None
      else
        match NumberEnd(s, j, n)
        case None => None
        case Some(e) => Some(s[j..e])
  }

  /** The alternatives are tried in order; the first one that completes the match wins. */
  function CaptureAfterAny(s: string, i: nat, labels: seq<Label>, n: Number): Option<string>
    requires i <= |s|
    decreases |labels|
  {
    if labels == [] then None
    else
      match CaptureAfter(s, i, labels[0], n)
      case Some(c) => Some(c)
      case None => CaptureAfterAny(s, i, labels[1..], n)
  }

  /** What the pattern captures when its match starts exactly at index `i`. */
  function MatchAt(s: string, i: nat, p: Pattern): Option<string>
    requires i <= |s|
  {
    CaptureAfterAny(s, i, p.labels, p.number)
  }

  /** A successful search: where the match starts and what it captured. */
  datatype Found = Found(at: nat, text: string)

  /** `re.search` started at index `i`: the leftmost match at or after `i`. */
  function SearchFrom(s: string, p: Pattern, i: nat): (r: Option<Found>)
    requires i <= |s|
    ensures r.Some? ==> i <= r.value.at <= |s| && MatchAt(s, r.value.at, p) == Some(r.value.text)
    ensures r.Some? ==> forall j | i <= j < r.value.at :: MatchAt(s, j, p).None?
    ensures r.None? ==> forall j | i <= j <= |s| :: MatchAt(s, j, p).None?
    decreases |s| - i
  {
    var m := MatchAt(s, i, p);
    if m.Some? then Some(Found(i, m.value))
    else if i == |s| then None
    else
      var r := SearchFrom(s, p, i + 1);
      assert forall j | i <= j <= i :: MatchAt(s, j, p).None?;
      r
  }

  /** `re.search(pattern, s, re.IGNORECASE)`: the match at the smallest index where the
      pattern matches, or nothing when it matches nowhere. */
  function Search(s: string, p: Pattern): (r: Option<Found>)
    ensures r.Some? ==> r.value.at <= |s| && MatchAt(s, r.value.at, p) == Some(r.value.text)
    ensures r.Some? ==> forall j | 0 <= j < r.value.at :: MatchAt(s, j, p).None?
    ensures r.None? <==> forall j | 0 <= j <= |s| :: MatchAt(s, j, p).None?
  {
    SearchFrom(s, p, 0)
  }

  /** What a match captures has the shape of the pattern's number. */
  lemma {:induction false} CaptureShape(s: string, i: nat, labels: seq<Label>, n: Number)
    requires i <= |s|
    requires CaptureAfterAny(s, i, labels, n).Some?
    ensures n == SignedDecimal ==> IsSignedDecimal(CaptureAfterAny(s, i, labels, n).value)
    ensures n == Percentage ==> IsDigitsAndPoints(CaptureAfterAny(s, i, labels, n).value)
    decreases |labels|
  {
    match CaptureAfter(s, i, labels[0], n)
    case Some(c) =>
      var k := LabelEnd(Lower(s), i, labels[0]).value;
      var j := RunEnd(s, k, Separator);
      if n == SignedDecimal {
        SignedDecimalShape(s, j);
      } else {
        PercentageShape(s, j);
      }
    case None =>
      CaptureShape(s, i, labels[1..], n);
  }

  /** A match needs one of the labels to start where the match starts. */
  lemma {:induction false} MatchNeedsLabel(s: string, i: nat, labels: seq<Label>, n: Number)
    requires i <= |s|
    requires forall q | 0 <= q < |labels| :: LabelEnd(Lower(s), i, labels[q]).None?
    ensures CaptureAfterAny(s, i, labels, n).None?
    decreases |labels|
  {
    if labels != [] {
      assert LabelEnd(Lower(s), i, labels[0]).None?;
      assert forall q | 0 <= q < |labels[1..]| :: labels[1..][q] == labels[q + 1];
      MatchNeedsLabel(s, i, labels[1..], n);
    }
  }

  /** The word a label starts with. */
  function FirstWord(l: Label): string {
    match l
    case Word(w) => w
    case TwoWords(a, _) => a
  }

  /** A label only matches where the lower-cased text holds its first character. */
  lemma LabelNeedsInitial(t: string, i: nat, l: Label)
    requires i <= |t| && FirstWord(l) != []
    requires LabelEnd(t, i, l).Some?
    ensures i < |t| && t[i] == FirstWord(l)[0]
  {
    OccursAtChar(t, FirstWord(l), i, 0);
  }

  /** No match starts at a character that does not begin any of the labels. */
  lemma NoMatchWithoutInitial(s: string, j: nat, p: Pattern)
    requires j < |s|
    requires forall q | 0 <= q < |p.labels| ::
      FirstWord(p.labels[q]) != [] && FirstWord(p.labels[q])[0] != LowerChar(s[j])
    ensures MatchAt(s, j, p).None?
  {
    forall q | 0 <= q < |p.labels| ensures LabelEnd(Lower(s), j, p.labels[q]).None? {
      if LabelEnd(Lower(s), j, p.labels[q]).Some? {
        LabelNeedsInitial(Lower(s), j, p.labels[q]);
      }
    }
    MatchNeedsLabel(s, j, p.labels, p.number);
  }

  /** No match starts in a stretch of text without the first character of any label. */
  lemma NoMatchWithoutInitials(s: string, p: Pattern, lo: nat, hi: nat)
    requires lo <= hi <= |s|
    requires forall q | 0 <= q < |p.labels| :: FirstWord(p.labels[q]) != []
    requires forall j | lo <= j < hi ::
      forall q | 0 <= q < |p.labels| :: FirstWord(p.labels[q])[0] != LowerChar(s[j])
    ensures forall j | lo <= j < hi :: MatchAt(s, j, p).None?
  {
    forall j | lo <= j < hi ensures MatchAt(s, j, p).None? {
      NoMatchWithoutInitial(s, j, p);
    }
  }

  /** A pattern none of whose labels' initials occurs in the text is not found. */
  lemma NotFoundWithoutInitials(s: string, p: Pattern)
    requires forall q | 0 <= q < |p.labels| :: FirstWord(p.labels[q]) != []
    requires forall j | 0 <= j < |s| ::
      forall q | 0 <= q < |p.labels| :: FirstWord(p.labels[q])[0] != LowerChar(s[j])
    ensures Search(s, p) == None
  {
    NoMatchWithoutInitials(s, p, 0, |s|);
    forall q | 0 <= q < |p.labels| ensures LabelEnd(Lower(s), |s|, p.labels[q]).None? {
      if LabelEnd(Lower(s), |s|, p.labels[q]).Some? {
        LabelNeedsInitial(Lower(s), |s|, p.labels[q]);
      }
    }
    MatchNeedsLabel(s, |s|, p.labels, p.number);
  }

  /** The search finds the match at `k` when nothing matches before it. */
  lemma SearchIs(s: string, p: Pattern, k: nat, c: string)
    requires k <= |s| && MatchAt(s, k, p) == Some(c)
    requires forall j | 0 <= j < k :: MatchAt(s, j, p).None?
    ensures Search(s, p) == Some(Found(k, c))
  {
  }

  /** A run of class `k` ends at `e` when everything before `e` is in the class and what
      is at `e` is not. */
  lemma {:induction false} RunEndIs(s: string, i: nat, k: CharClass, e: nat)
    requires i <= e <= |s|
    requires forall j | i <= j < e :: InClass(s[j], k)
    requires e == |s| || !InClass(s[e], k)
    ensures RunEnd(s, i, k) == e
    decreases e - i
  {
    if i < e {
      RunEndIs(s, i + 1, k, e);
    }
  }

  /** Text of the shape `[-+]?\d+\.?\d*`: an optional sign, then digits with at most one
      point, the first of them a digit. */
  predicate IsLeadingNumber(c: string) {
    var b := Unsigned(c);
    && b != [] && IsDigit(b[0])
    && (forall i | 0 <= i < |b| :: IsDigit(b[i]) || b[i] == '.')
    && (forall i, j | 0 <= i < j < |b| && b[i] == '.' :: b[j] != '.')
  }

  /** `re.match(r'([-+]?\d+\.?\d*)', s)`: the number `s` starts with, if any. There is one
      exactly when a digit follows the optional sign; it is the longest prefix of that
      shape, so the character after it is no digit, and no point unless it already has
      one. */
  function LeadingNumber(s: string): (r: Option<string>)
    ensures r.None? <==> SignLength(s) == |s| || !IsDigit(s[SignLength(s)])
    ensures r.Some? ==> |r.value| <= |s| && r.value == s[..|r.value|]
    ensures r.Some? ==> SignLength(r.value) == SignLength(s) && IsLeadingNumber(r.value)
    ensures r.Some? ==> (|r.value| == |s| || (!IsDigit(s[|r.value|]) && (s[|r.value|] == '.' ==> '.' in r.value)))
  {
    var d0 := SignLength(s);
    var d := RunEnd(s, d0, Digit);
    if d == d0 then None
    else if d < |s| && s[d] == '.' then
      var e := RunEnd(s, d + 1, Digit);
      LeadingShape(s, d0, d, e);
      Some(s[..e])
    else
      LeadingShape(s, d0, d, d);
      Some(s[..d])
  }

  /** Digits from `d0` to `d`, then, when `e > d`, a point and digits up to `e`, after the
      sign: the prefix up to the end has the leading-number shape. */
  lemma LeadingShape(s: string, d0: nat, d: nat, e: nat)
    requires d0 == SignLength(s) && d0 < d <= e <= |s|
    requires forall i | d0 <= i < d :: IsDigit(s[i])
    requires e > d ==> s[d] == '.' && forall i | d < i < e :: IsDigit(s[i])
    ensures SignLength(s[..e]) == d0 && IsLeadingNumber(s[..e])
  {
    var c := s[..e];
    assert c[0] == s[0];
    var b := c[d0..];
    assert forall i | 0 <= i < |b| :: b[i] == s[d0 + i];
    forall i, j | 0 <= i < j < |b| && b[i] == '.' ensures b[j] != '.' {
      assert d0 + i == d;
    }
  }

  /** Every text a signed-decimal pattern captures is a valid `float`, so the conversion
      the parser applies to it never raises. */
  lemma SignedDecimalParses(c: string)
    requires IsSignedDecimal(c)
    ensures ParseFloat(c).Some?
  {
    var body := Unsigned(c);
    var k := IndexOf(body, '.').value;
    assert c[0] == '+' || c[0] == '-' || IsDigit(c[0]);
    assert c[|c| - 1] == body[|body| - 1];
    assert body[|body| - 1] == body[k + 1..][|body| - k - 2];
    ParseFloatUnpadded(c);
    UnsignedDecimalOfParts(body, k);
  }

  /** A signed decimal followed by anything but a digit is exactly the number the text
      starts with: whatever comes after it is left alone. */
  lemma LeadingDecimal(s: string, sign: string, whole: string, frac: string, rest: string)
    requires sign == "+" || sign == "-"
    requires whole != [] && frac != [] && AllDigits(whole) && AllDigits(frac)
    requires rest == [] || !IsDigit(rest[0])
    requires s == sign + whole + "." + frac + rest
    ensures LeadingNumber(s) == Some(sign + whole + "." + frac)
  {
    var c := sign + whole + "." + frac;
    var d := 1 + |whole|;
    assert s == c + rest && |c| == d + 1 + |frac|;
    assert forall i | 1 <= i < d :: c[i] == whole[i - 1];
    assert forall i | d < i < |c| :: c[i] == frac[i - d - 1];
    assert c[0] == sign[0] && c[d] == '.';
    LeadingDecimalAt(s, c, rest, d);
  }

  /** The same, by positions: a sign, digits up to the point at `d`, digits to the end
      of `c`, then text that does not start with a digit. */
  lemma LeadingDecimalAt(s: string, c: string, rest: string, d: nat)
    requires s == c + rest && 1 < d && d + 1 < |c|
    requires c[0] == '+' || c[0] == '-'
    requires forall i | 1 <= i < d :: IsDigit(c[i])
    requires c[d] == '.'
    requires forall i | d < i < |c| :: IsDigit(c[i])
    requires rest == [] || !IsDigit(rest[0])
    ensures LeadingNumber(s) == Some(c)
  {
    var e := |c|;
    assert forall i | 0 <= i < e :: s[i] == c[i];
    assert e == |s| || s[e] == rest[0];
    RunEndIs(s, 1, Digit, d);
    RunEndIs(s, d + 1, Digit, e);
    assert s[..e] == c;
  }

  /** Every number `LeadingNumber` finds is a valid `float`. */
  lemma LeadingNumberParses(s: string)
    requires LeadingNumber(s).Some?
    ensures ParseFloat(LeadingNumber(s).value).Some?
  {
    LeadingNumberShapeParses(LeadingNumber(s).value);
  }

  /** Text of the leading-number shape is a valid `float`. */
  lemma LeadingNumberShapeParses(c: string)
    requires IsLeadingNumber(c)
    ensures ParseFloat(c).Some?
  {
    var b := Unsigned(c);
    assert c[|c| - 1] == b[|b| - 1];
    ParseFloatUnpadded(c);
    PointedDigitsParse(b);
  }

  /** Digits with at most one point, starting with a digit, are an unsigned decimal. */
  lemma PointedDigitsParse(b: string)
    requires b != [] && IsDigit(b[0])
    requires forall i | 0 <= i < |b| :: IsDigit(b[i]) || b[i] == '.'
    requires forall i, j | 0 <= i < j < |b| && b[i] == '.' :: b[j] != '.'
    ensures UnsignedDecimal(b).Some?
  {
    match IndexOf(b, '.')
    case None =>
      assert AllDigits(b);
    case Some(k) =>
      var whole, frac := b[..k], b[k + 1..];
      assert forall i | 0 <= i < |whole| :: whole[i] == b[i];
      assert forall i | 0 <= i < |frac| :: frac[i] == b[k + 1 + i];
      UnsignedDecimalOfParts(b, k);
  }



}
