/**
 Text primitives with the semantics of the Python string methods and conversions the
 service relies on (`str.strip`, `str.lower`, `str.find`, `str.split`, `str.join`,
 `int`, `float`, `str`), restricted to ASCII: digits are '0'-'9', lower-casing only
 maps 'A'-'Z', and whitespace is the ASCII part of Python's `str.isspace`.
 */
module Text {
  import opened Wrappers

  /* ---------------- Character classes ---------------- */

  /** `c.isspace()` for ASCII: space, tab, line feed, vertical tab, form feed,
      carriage return and the four separators 0x1C-0x1F. */
  predicate IsSpace(c: char) {
    c == ' ' || 9 <= c as int <= 13 || 28 <= c as int <= 31
  }

  /** `c.isdigit()` for ASCII. */
  predicate IsDigit(c: char) {
    '0' <= c <= '9'
  }

  predicate AllDigits(s: string) {
    forall i | 0 <= i < |s| :: IsDigit(s[i])
  }

  predicate NoSpace(s: string) {
    forall i | 0 <= i < |s| :: !IsSpace(s[i])
  }

  /** `c.lower()` for ASCII: upper-case letters map to lower case, everything else is kept. */
  function LowerChar(c: char): char {
    if 'A' <= c <= 'Z' then (c as int + 32) as char else c
  }

  /** `s.lower()`. Lower-casing ASCII never changes the length, so indices found in
      the lower-cased text are valid in the original. */
  function Lower(s: string): (r: string)
    ensures |r| == |s|
    ensures forall i | 0 <= i < |s| :: r[i] == LowerChar(s[i])
  {
    seq(|s|, i requires 0 <= i < |s| => LowerChar(s[i]))
  }

  /* ---------------- Stripping ---------------- */

  /** The number of whitespace characters `s` starts with. */
  function LeadingSpaces(s: string): (n: nat)
    ensures n <= |s|
    ensures forall i | 0 <= i < n :: IsSpace(s[i])
    ensures n == |s| || !IsSpace(s[n])
  {
    if s == [] || !IsSpace(s[0]) then 0 else 1 + LeadingSpaces(s[1..])
  }

  /** The length of `s` once its trailing whitespace is dropped. */
  function TrimmedLength(s: string): (n: nat)
    ensures n <= |s|
    ensures forall i | n <= i < |s| :: IsSpace(s[i])
    ensures n == 0 || !IsSpace(s[n - 1])
  {
    if s == [] || !IsSpace(s[|s| - 1]) then |s| else TrimmedLength(s[..|s| - 1])
  }

  /** `s.strip()`: `s` without its leading and trailing whitespace. */
  function Strip(s: string): (r: string)
    ensures |r| <= |s|
    ensures r == [] || (!IsSpace(r[0]) && !IsSpace(r[|r| - 1]))
  {
    var lo := LeadingSpaces(s);
    s[lo..lo + TrimmedLength(s[lo..])]
  }

  /** `Strip` removes whitespace only: what it drops before and after its result is
      whitespace. */
  lemma StripParts(s: string) returns (lo: nat, hi: nat)
    ensures lo <= hi <= |s| && Strip(s) == s[lo..hi]
    ensures forall i | 0 <= i < lo :: IsSpace(s[i])
    ensures forall i | hi <= i < |s| :: IsSpace(s[i])
  {
    lo := LeadingSpaces(s);
    var t := s[lo..];
    hi := lo + TrimmedLength(t);
    forall i | hi <= i < |s| ensures IsSpace(s[i]) {
      assert s[i] == t[i - lo];
    }
  }

  /** `Strip` keeps exactly the infix between a whitespace prefix and a whitespace suffix
      whose ends are not whitespace; this pins down its result for any concrete text. */
  lemma StripKeeps(s: string, lo: nat, hi: nat)
    requires lo <= hi <= |s|
    requires forall i | 0 <= i < lo :: IsSpace(s[i])
    requires forall i | hi <= i < |s| :: IsSpace(s[i])
    requires lo < hi ==> !IsSpace(s[lo]) && !IsSpace(s[hi - 1])
    ensures Strip(s) == s[lo..hi]
  {
    var lo' := LeadingSpaces(s);
    var t := s[lo'..];
    var n := TrimmedLength(t);
    if lo < hi {
      assert lo' == lo;
      assert n == hi - lo;
    } else {
      assert forall i | 0 <= i < |s| :: IsSpace(s[i]);
      assert lo' == |s|;
    }
  }

  /* ---------------- Searching ---------------- */

  /** Text made of whitespace only strips to nothing. */
  lemma StripSpaces(s: string)
    requires forall i | 0 <= i < |s| :: IsSpace(s[i])
    ensures Strip(s) == []
  {
    StripKeeps(s, 0, 0);
  }

  /** `p` occurs in `s` starting at index `i`. */
  predicate OccursAt(s: string, p: string, i: int) {
    0 <= i && i + |p| <= |s| && s[i..i + |p|] == p
  }

  /** Where `p` occurs, `s` holds `p`'s characters. */
  lemma OccursAtChar(s: string, p: string, i: nat, k: nat)
    requires OccursAt(s, p, i) && k < |p|
    ensures s[i + k] == p[k]
  {
    assert s[i..i + |p|][k] == s[i + k];
  }

  /** `s.find(p, i)`: the first index at or after `i` where `p` occurs; `None` stands for -1. */
  function FindFrom(s: string, p: string, i: nat): (r: Option<nat>)
    ensures r.Some? ==> i <= r.value && OccursAt(s, p, r.value)
    ensures r.Some? ==> forall j | i <= j < r.value :: !OccursAt(s, p, j)
    ensures r.None? ==> forall j | i <= j :: !OccursAt(s, p, j)
    decreases |s| - i
  {
    if i + |p| > |s| then None
    else if s[i..i + |p|] == p then Some(i)
    else FindFrom(s, p, i + 1)
  }

  /** `s.find(p)`. */
  function Find(s: string, p: string): (r: Option<nat>)
    ensures r.Some? ==> OccursAt(s, p, r.value) && forall j | 0 <= j < r.value :: !OccursAt(s, p, j)
    ensures r.None? <==> forall j :: !OccursAt(s, p, j)
  {
    FindFrom(s, p, 0)
  }

  /** `p` occurs where the characters of `s` spell it. */
  lemma OccursAtSpelled(s: string, p: string, i: nat)
    requires i + |p| <= |s|
    requires forall k | 0 <= k < |p| :: s[i + k] == p[k]
    ensures OccursAt(s, p, i)
  {
    assert s[i..i + |p|] == p;
  }

  /** `p` does not occur where one of its characters is missing. */
  lemma NotOccursAt(s: string, p: string, i: nat, k: nat)
    requires k < |p| && (i + k >= |s| || s[i + k] != p[k])
    ensures !OccursAt(s, p, i)
  {
    if OccursAt(s, p, i) {
      OccursAtChar(s, p, i, k);
    }
  }

  /** The first occurrence is the one with no occurrence before it. */
  lemma FindIs(s: string, p: string, k: nat)
    requires OccursAt(s, p, k)
    requires forall j | 0 <= j < k :: !OccursAt(s, p, j)
    ensures Find(s, p) == Some(k)
  {
  }

  /** `p` does not occur before `e` when no character of the text before `e` starts
      `p`'s first two characters. */
  lemma NotOccursBefore(s: string, p: string, e: nat)
    requires |p| >= 2 && e < |s|
    requires forall j | 0 <= j < e :: s[j] != p[0] || s[j + 1] != p[1]
    ensures forall j | 0 <= j < e :: !OccursAt(s, p, j)
  {
    forall j | 0 <= j < e ensures !OccursAt(s, p, j) {
      if s[j] != p[0] {
        NotOccursAt(s, p, j, 0);
      } else {
        NotOccursAt(s, p, j, 1);
      }
    }
  }

  /** A text that lacks the first character of `p` does not contain `p`. */
  lemma NotFoundWithoutInitial(s: string, p: string)
    requires p != [] && forall i | 0 <= i < |s| :: s[i] != p[0]
    ensures Find(s, p) == None
  {
    forall j ensures !OccursAt(s, p, j) {
      if 0 <= j {
        NotOccursAt(s, p, j, 0);
      }
    }
  }

  /** Python's `p in s`. */
  predicate Contains(s: string, p: string)
  {
    Find(s, p).Some?
  }

  /** `s.find(c)` for a one-character string: the first index holding `c`. */
  function IndexOf(s: string, c: char): (r: Option<nat>)
    ensures r.Some? ==> r.value < |s| && s[r.value] == c && c !in s[..r.value]
    ensures r.None? ==> c !in s
  {
    if s == [] then None
    else if s[0] == c then Some(0)
    else
      match IndexOf(s[1..], c)
      case None => None
      case Some(i) =>
        assert s[..i + 1] == [s[0]] + s[1..][..i];
        Some(i + 1)
  }

  /** The first index of `c` is the one with no `c` before it. */
  lemma IndexOfIs(s: string, c: char, k: nat)
    requires k < |s| && s[k] == c && c !in s[..k]
    ensures IndexOf(s, c) == Some(k)
  {
    assert s[k] in s;
  }

  /* ---------------- Splitting and joining ---------------- */

  /** `sep.join(xs)`. */
  function Join(xs: seq<string>, sep: string): string
  {
    if |xs| == 0 then "" else if |xs| == 1 then xs[0] else xs[0] + sep + Join(xs[1..], sep)
  }

  /** Joining one more piece appends the separator and the piece. */
  lemma {:induction false} JoinSnoc(xs: seq<string>, y: string, sep: string)
    requires |xs| >= 1
    ensures Join(xs + [y], sep) == Join(xs, sep) + sep + y
    decreases |xs|
  {
    if |xs| == 1 {
      assert xs + [y] == [xs[0], y];
    } else {
      assert (xs + [y])[1..] == xs[1..] + [y];
      JoinSnoc(xs[1..], y, sep);
    }
  }

  /** `s.split(sep)` for a one-character separator: the pieces between separators, in
      order, empty pieces included; joining them back with `sep` gives `s` again. */
  function Split(s: string, sep: char): (r: seq<string>)
    ensures |r| >= 1
    ensures forall k | 0 <= k < |r| :: sep !in r[k]
    ensures Join(r, [sep]) == s
    decreases |s|
  {
    match IndexOf(s, sep)
    case None => [s]
    case Some(i) =>
      var rest := Split(s[i + 1..], sep);
      assert s == s[..i] + [sep] + s[i + 1..];
      [s[..i]] + rest
  }

  /** Splitting a joined text recovers the pieces when none of them holds the separator. */
  lemma {:induction false} SplitOfJoin(xs: seq<string>, sep: char)
    requires |xs| >= 1
    requires forall k | 0 <= k < |xs| :: sep !in xs[k]
    ensures Split(Join(xs, [sep]), sep) == xs
    decreases |xs|
  {
    var s := Join(xs, [sep]);
    if |xs| == 1 {
    } else {
      assert s == xs[0] + [sep] + Join(xs[1..], [sep]);
      assert s[|xs[0]|] == sep;
      assert s[..|xs[0]|] == xs[0];
      IndexOfIs(s, sep, |xs[0]|);
      var i := |xs[0]|;
      assert s[i + 1..] == Join(xs[1..], [sep]);
      SplitOfJoin(xs[1..], sep);
    }
  }

  /** Joining two non-empty lists one after the other puts one separator between them. */
  lemma {:induction false} JoinAppend(xs: seq<string>, ys: seq<string>, sep: string)
    requires |xs| >= 1 && |ys| >= 1
    ensures Join(xs + ys, sep) == Join(xs, sep) + sep + Join(ys, sep)
    decreases |xs|
  {
    if |xs| == 1 {
      assert (xs + ys)[1..] == ys;
    } else {
      assert (xs + ys)[1..] == xs[1..] + ys;
      JoinAppend(xs[1..], ys, sep);
    }
  }

  /** Splitting text made of two parts around a separator splits each part. */
  lemma SplitConcat(a: string, b: string, sep: char)
    ensures Split(a + [sep] + b, sep) == Split(a, sep) + Split(b, sep)
  {
    var xs, ys := Split(a, sep), Split(b, sep);
    JoinAppend(xs, ys, [sep]);
    assert Join(xs + ys, [sep]) == a + [sep] + b;
    NoSeparatorInEither(xs, ys, sep);
    SplitOfJoin(xs + ys, sep);
  }

  /** Pieces without the separator, taken from two lists, still lack it. */
  lemma NoSeparatorInEither(xs: seq<string>, ys: seq<string>, sep: char)
    requires forall k | 0 <= k < |xs| :: sep !in xs[k]
    requires forall k | 0 <= k < |ys| :: sep !in ys[k]
    ensures forall k | 0 <= k < |xs + ys| :: sep !in (xs + ys)[k]
  {
    forall k | 0 <= k < |xs + ys| ensures sep !in (xs + ys)[k] {
      if k >= |xs| {
        assert (xs + ys)[k] == ys[k - |xs|];
      }
    }
  }

  /** The length of the longest whitespace-free prefix of `s`. */
  function WordLength(s: string): (n: nat)
    ensures n <= |s|
    ensures forall i | 0 <= i < n :: !IsSpace(s[i])
    ensures n == |s| || IsSpace(s[n])
  {
    if s == [] || IsSpace(s[0]) then 0 else 1 + WordLength(s[1..])
  }

  /** `s.split()` with no argument: the maximal runs of non-whitespace characters, in order. */
  function Words(s: string): (r: seq<string>)
    ensures forall k | 0 <= k < |r| :: r[k] != "" && NoSpace(r[k])
    decreases |s|
  {
    var t := s[LeadingSpaces(s)..];
    if t == "" then []
    else
      var n := WordLength(t);
      [t[..n]] + Words(t[n..])
  }

  /** The non-whitespace characters of `s`, in order. */
  function NonSpace(s: string): string
    decreases |s|
  {
    if s == [] then [] else (if IsSpace(s[0]) then [] else [s[0]]) + NonSpace(s[1..])
  }

  lemma {:induction false} NonSpaceAppend(a: string, b: string)
    ensures NonSpace(a + b) == NonSpace(a) + NonSpace(b)
    decreases |a|
  {
    if a == [] {
      assert a + b == b;
    } else {
      assert (a + b)[0] == a[0] && (a + b)[1..] == a[1..] + b;
      NonSpaceAppend(a[1..], b);
    }
  }

  lemma {:induction false} NonSpaceOfSpaces(s: string)
    requires forall i | 0 <= i < |s| :: IsSpace(s[i])
    ensures NonSpace(s) == []
    decreases |s|
  {
    if s != [] {
      NonSpaceOfSpaces(s[1..]);
    }
  }

  lemma {:induction false} NonSpaceOfWord(s: string)
    requires NoSpace(s)
    ensures NonSpace(s) == s
    decreases |s|
  {
    if s != [] {
      NonSpaceOfWord(s[1..]);
    }
  }

  /** The pieces of `ws` written one after the other. */
  function Concat(ws: seq<string>): string {
    if ws == [] then [] else ws[0] + Concat(ws[1..])
  }

  /** Whitespace, then a word: what remains of it is the word. */
  lemma NonSpaceOfWordAfterSpaces(pre: string, w: string, rest: string)
    requires forall i | 0 <= i < |pre| :: IsSpace(pre[i])
    requires NoSpace(w)
    ensures NonSpace(pre + w + rest) == w + NonSpace(rest)
  {
    NonSpaceAppend(pre + w, rest);
    NonSpaceAppend(pre, w);
    NonSpaceOfSpaces(pre);
    NonSpaceOfWord(w);
    assert NonSpace(pre + w) == w;
  }

  /** `split()` loses only whitespace: its words, written one after the other, are the
      non-whitespace characters of the text, in order. */
  lemma {:induction false} WordsKeepCharacters(s: string)
    ensures Concat(Words(s)) == NonSpace(s)
    decreases |s|
  {
    if LeadingSpaces(s) == |s| {
      WordsOfSpaces(s);
      NonSpaceOfSpaces(s);
    } else {
      var w, rest := FirstWordStep(s);
      WordsKeepCharacters(rest);
      var ws := Words(s);
      assert ws[0] == w && ws[1..] == Words(rest);
    }
  }

  /** Text that holds a word: its first word, and what follows it. */
  lemma FirstWordStep(s: string) returns (w: string, rest: string)
    requires LeadingSpaces(s) < |s|
    ensures |rest| < |s|
    ensures Words(s) == [w] + Words(rest)
    ensures NonSpace(s) == w + NonSpace(rest)
  {
    var l := LeadingSpaces(s);
    var t := s[l..];
    var n := WordLength(t);
    w, rest := t[..n], t[n..];
    assert s == s[..l] + w + rest;
    NonSpaceOfWordAfterSpaces(s[..l], w, rest);
  }

  /** Text made of whitespace only has no words. */
  lemma WordsOfSpaces(s: string)
    requires forall i | 0 <= i < |s| :: IsSpace(s[i])
    ensures Words(s) == []
  {
    assert LeadingSpaces(s) == |s|;
  }

  /** The first word of text that starts with whitespace, a word and then whitespace or
      nothing. */
  lemma WordsCons(pre: string, w: string, rest: string)
    requires forall i | 0 <= i < |pre| :: IsSpace(pre[i])
    requires w != [] && NoSpace(w)
    requires rest == [] || IsSpace(rest[0])
    ensures Words(pre + w + rest) == [w] + Words(rest)
  {
    var s := pre + w + rest;
    var t := w + rest;
    assert s == pre + t;
    SpacesBefore(pre, t);
    assert t[0] == w[0];
    WordFirst(w, rest);
  }

  /** Leading whitespace is skipped up to the first other character. */
  lemma SpacesBefore(pre: string, t: string)
    requires forall i | 0 <= i < |pre| :: IsSpace(pre[i])
    requires t != [] && !IsSpace(t[0])
    ensures LeadingSpaces(pre + t) == |pre| && (pre + t)[|pre|..] == t
  {
    var s := pre + t;
    assert forall i | 0 <= i < |pre| :: s[i] == pre[i];
    assert s[|pre|] == t[0];
  }

  /** A word followed by whitespace or nothing is the first word. */
  lemma WordFirst(w: string, rest: string)
    requires w != [] && NoSpace(w)
    requires rest == [] || IsSpace(rest[0])
    ensures Words(w + rest) == [w] + Words(rest)
  {
    var t := w + rest;
    assert forall i | 0 <= i < |w| :: t[i] == w[i];
    assert rest != [] ==> t[|w|] == rest[0];
    assert WordLength(t) == |w|;
    assert t[..|w|] == w && t[|w|..] == rest;
    assert LeadingSpaces(t) == 0;
    assert t[0..] == t;
  }

  /** Words by position in the window `[lo, hi)` of `s`: after the whitespace in `[lo, a)`
      comes the word `[a, b)`. */
  lemma WordsWindow(s: string, lo: nat, a: nat, b: nat, hi: nat)
    requires lo <= a < b <= hi <= |s|
    requires forall i | lo <= i < a :: IsSpace(s[i])
    requires forall i | a <= i < b :: !IsSpace(s[i])
    requires b == hi || IsSpace(s[b])
    ensures Words(s[lo..hi]) == [s[a..b]] + Words(s[b..hi])
  {
    var t := s[lo..hi];
    assert t[a - lo] == s[a];
    assert LeadingSpaces(t) == a - lo;
    var u := t[a - lo..];
    assert u == s[a..hi];
    assert b < hi ==> u[b - a] == s[b];
    assert WordLength(u) == b - a;
    assert u[..b - a] == s[a..b];
    assert u[b - a..] == s[b..hi];
  }

  /** Stripping the window `[lo, hi)` of `s` leaves `[a, b)` when only whitespace
      surrounds it there. */
  lemma StripWindow(s: string, lo: nat, a: nat, b: nat, hi: nat)
    requires lo <= a < b <= hi <= |s|
    requires forall i | lo <= i < a :: IsSpace(s[i])
    requires forall i | b <= i < hi :: IsSpace(s[i])
    requires !IsSpace(s[a]) && !IsSpace(s[b - 1])
    ensures Strip(s[lo..hi]) == s[a..b]
  {
    StripShifted(s[lo..hi], s, lo, a, b);
  }

  /** `StripWindow` for a window `t` known only by the characters it shares with `s`. */
  lemma StripShifted(t: string, s: string, lo: nat, a: nat, b: nat)
    requires lo <= a < b <= lo + |t| <= |s|
    requires forall i | 0 <= i < |t| :: t[i] == s[lo + i]
    requires forall i | lo <= i < a :: IsSpace(s[i])
    requires forall i | b <= i < lo + |t| :: IsSpace(s[i])
    requires !IsSpace(s[a]) && !IsSpace(s[b - 1])
    ensures Strip(t) == s[a..b]
  {
    forall i | 0 <= i < a - lo ensures IsSpace(t[i]) {
      assert t[i] == s[lo + i];
    }
    forall i | b - lo <= i < |t| ensures IsSpace(t[i]) {
      assert t[i] == s[lo + i];
    }
    StripKeeps(t, a - lo, b - lo);
    SliceShifted(t, s, lo, a - lo, b - lo);
  }

  /** A slice of `t` is the matching slice of `s` when `t` sits in `s` at `lo`. */
  lemma SliceShifted(t: string, s: string, lo: nat, i: nat, j: nat)
    requires i <= j <= |t| && lo + |t| <= |s|
    requires forall k | 0 <= k < |t| :: t[k] == s[lo + k]
    ensures t[i..j] == s[lo + i..lo + j]
  {
  }

  /** Splitting on whitespace undoes joining with single spaces, provided every piece is a
      non-empty run of non-whitespace characters. */
  lemma {:induction false} WordsOfJoin(ws: seq<string>)
    requires forall k | 0 <= k < |ws| :: ws[k] != "" && NoSpace(ws[k])
    ensures Words(Join(ws, " ")) == ws
    decreases |ws|
  {
    if |ws| == 1 {
      WordFirst(ws[0], "");
      assert ws[0] + "" == ws[0];
      assert Words("") == [];
    } else if |ws| > 1 {
      WordsOfJoin(ws[1..]);
      WordsOfJoinStep(ws[0], ws[1..]);
      assert ws == [ws[0]] + ws[1..];
    }
  }

  /** One more word in front of joined words that split back. */
  lemma WordsOfJoinStep(w: string, tail: seq<string>)
    requires w != "" && NoSpace(w)
    requires |tail| >= 1 && tail[0] != ""
    requires Words(Join(tail, " ")) == tail
    ensures Words(Join([w] + tail, " ")) == [w] + tail
  {
    JoinCons(w, tail, " ");
    JoinStart(tail, " ");
    WordBeforeJoined(w, tail, Join(tail, " "), Join([w] + tail, " "));
  }

  /** A word, one space, and text that splits into `tail`. */
  lemma WordBeforeJoined(w: string, tail: seq<string>, rest: string, s: string)
    requires w != "" && NoSpace(w)
    requires rest != [] && !IsSpace(rest[0]) && Words(rest) == tail
    requires s == w + " " + rest
    ensures Words(s) == [w] + tail
  {
    assert s[..|w|] == w && s[|w|..] == " " + rest;
    assert forall i | 0 <= i < |w| :: s[i] == w[i];
    assert s[|w|] == ' ';
    WordsWindow(s, 0, 0, |w|, |s|);
    assert s[0..|s|] == s && s[0..|w|] == w && s[|w|..|s|] == " " + rest;
    SkipOneSpace(rest);
  }

  /** Text laid out as `' '.join` lays out words: no whitespace at either end, and every
      whitespace character is a single space followed by a non-whitespace character. */
  predicate SingleSpaced(s: string) {
    && (s == [] || (!IsSpace(s[0]) && !IsSpace(s[|s| - 1])))
    && forall i | 0 <= i < |s| && IsSpace(s[i]) :: s[i] == ' ' && i + 1 < |s| && !IsSpace(s[i + 1])
  }

  /** Non-empty whitespace-free pieces joined by single spaces are single-spaced. */
  lemma {:induction false} JoinSingleSpaced(ws: seq<string>)
    requires forall k | 0 <= k < |ws| :: ws[k] != "" && NoSpace(ws[k])
    ensures SingleSpaced(Join(ws, " "))
    decreases |ws|
  {
    if |ws| == 1 {
      assert Join(ws, " ") == ws[0];
    } else if |ws| > 1 {
      assert forall k | 0 <= k < |ws[1..]| :: ws[1..][k] == ws[k + 1];
      JoinSingleSpaced(ws[1..]);
      assert ws == [ws[0]] + ws[1..];
      JoinCons(ws[0], ws[1..], " ");
      JoinStart(ws[1..], " ");
      SpacedCons(ws[0], Join(ws[1..], " "), Join(ws, " "));
    }
  }

  /** A word, one space and single-spaced text make single-spaced text. */
  lemma SpacedCons(w: string, rest: string, s: string)
    requires w != [] && NoSpace(w)
    requires rest != [] && SingleSpaced(rest)
    requires s == w + " " + rest
    ensures SingleSpaced(s)
  {
    forall i | 0 <= i < |s| && IsSpace(s[i]) ensures s[i] == ' ' && i + 1 < |s| && !IsSpace(s[i + 1]) {
      if i < |w| {
        assert false;
      } else if i == |w| {
        assert s[i + 1] == rest[0];
      } else {
        assert s[i] == rest[i - |w| - 1];
        assert i + 1 < |s| ==> s[i + 1] == rest[i - |w|];
      }
    }
    assert s[0] == w[0] && s[|s| - 1] == rest[|rest| - 1];
  }

  /** Joining a piece in front of others puts one separator after it. */
  lemma JoinCons(w: string, tail: seq<string>, sep: string)
    requires |tail| >= 1
    ensures Join([w] + tail, sep) == w + sep + Join(tail, sep)
  {
    assert ([w] + tail)[1..] == tail;
  }

  /** Joined pieces start with the first piece. */
  lemma JoinStart(xs: seq<string>, sep: string)
    requires |xs| >= 1 && xs[0] != []
    ensures Join(xs, sep) != [] && Join(xs, sep)[0] == xs[0][0]
  {
  }

  /** One space before a word is skipped. */
  lemma SkipOneSpace(rest: string)
    requires rest != [] && !IsSpace(rest[0])
    ensures Words(" " + rest) == Words(rest)
  {
    SpacesBefore(" ", rest);
    assert LeadingSpaces(rest) == 0 && rest[0..] == rest;
  }

  /* ---------------- Numbers ---------------- */

  function DigitValue(c: char): nat
    requires IsDigit(c)
  {
    c as int - '0' as int
  }

  function DigitChar(d: nat): (c: char)
    requires d < 10
    ensures IsDigit(c) && DigitValue(c) == d
  {
    ('0' as int + d) as char
  }

  /** The value of a decimal digit string read most significant digit first (0 when empty). */
  function DigitsValue(s: string): nat
    requires AllDigits(s)
  {
    if s == [] then 0 else 10 * DigitsValue(s[..|s| - 1]) + DigitValue(s[|s| - 1])
  }

  function Pow10(n: nat): (r: nat)
    ensures r >= 1
  {
    if n == 0 then 1 else 10 * Pow10(n - 1)
  }

  /** `str(n)` for a natural number: its decimal digits, with no leading zero. */
  function NatToString(n: nat): (r: string)
    ensures r != [] && AllDigits(r)
    ensures |r| > 1 ==> r[0] != '0'
  {
    if n < 10 then [DigitChar(n)] else NatToString(n / 10) + [DigitChar(n % 10)]
  }

  /** Reading back the digits `str` writes gives the number again. */
  lemma {:induction false} NatToStringValue(n: nat)
    ensures DigitsValue(NatToString(n)) == n
  {
    var r := NatToString(n);
    if n >= 10 {
      NatToStringValue(n / 10);
      assert r[..|r| - 1] == NatToString(n / 10);
    }
  }

  /** `str(n)` for an integer: a minus sign before the digits of a negative number. */
  function IntToString(n: int): string
  {
    if n < 0 then "-" + NatToString(-n) else NatToString(n)
  }

  /** `str(n)` writes a minus sign exactly for a negative number, then the digits of its
      magnitude with no leading zero. */
  lemma IntToStringShape(n: int)
    ensures IntToString(n) != [] && (IntToString(n)[0] == '-' <==> n < 0)
    ensures IsIntText(IntToString(n))
    ensures DigitsValue(Unsigned(IntToString(n))) == if n < 0 then -n else n
    ensures |Unsigned(IntToString(n))| > 1 ==> Unsigned(IntToString(n))[0] != '0'
  {
    var m := if n < 0 then -n else n;
    NatToStringValue(m);
    var d := NatToString(m);
    if n < 0 {
      assert ("-" + d)[1..] == d;
    } else {
      assert d[0] != '-' && d[0] != '+';
    }
  }

  /** Text that `int()` accepts once stripped: an optional sign, then one or more digits. */
  predicate IsIntText(t: string) {
    Unsigned(t) != [] && AllDigits(Unsigned(t))
  }

  /** Python's `int(s)`: optional surrounding whitespace, an optional sign, then one or
      more digits; anything else raises, here `None`. */
  function ParseInt(s: string): Option<int>
  {
    var t := Strip(s);
    if |t| > 0 && (t[0] == '+' || t[0] == '-') then
      if |t| > 1 && AllDigits(t[1..]) then
        var v: int := DigitsValue(t[1..]);
        Some(if t[0] == '-' then -v else v)
      else None
    else if |t| > 0 && AllDigits(t) then Some(DigitsValue(t))
    else None
  }

  /** `int()` accepts exactly the text that strips to an optional sign and digits; the
      magnitude is the digits' value, and the result is negative only after a minus. */
  lemma ParseIntAccepts(s: string)
    ensures ParseInt(s).Some? <==> IsIntText(Strip(s))
    ensures ParseInt(s).Some? ==>
      (if ParseInt(s).value < 0 then -ParseInt(s).value else ParseInt(s).value) == DigitsValue(Unsigned(Strip(s)))
    ensures ParseInt(s).Some? && ParseInt(s).value < 0 ==> Strip(s)[0] == '-'
    ensures ParseInt(s).Some? && Strip(s)[0] == '-' ==> ParseInt(s).value <= 0
  {
  }

  /** Digits alone read as their value. */
  lemma ParseIntOfDigits(d: string)
    requires d != [] && AllDigits(d)
    ensures ParseInt(d) == Some(DigitsValue(d))
  {
    assert d[|d| - 1] != ' ' && !IsSpace(d[|d| - 1]) && !IsSpace(d[0]);
    StripKeeps(d, 0, |d|);
    assert d[0..|d|] == d;
  }

  /** A minus sign before digits negates their value. */
  lemma ParseIntOfNegative(d: string)
    requires d != [] && AllDigits(d)
    ensures ParseInt("-" + d) == Some(-(DigitsValue(d) as int))
  {
    var s := "-" + d;
    assert s[0] == '-' && s[|s| - 1] == d[|d| - 1];
    assert !IsSpace(s[0]) && !IsSpace(s[|s| - 1]);
    StripKeeps(s, 0, |s|);
    assert s[0..|s|] == s;
    assert s[1..] == d;
  }

  /** `int(str(n)) == n`. */
  lemma IntToStringRoundTrip(n: int)
    ensures ParseInt(IntToString(n)) == Some(n)
  {
    var m := if n < 0 then -n else n;
    NatToStringValue(m);
    if n < 0 {
      ParseIntOfNegative(NatToString(m));
    } else {
      ParseIntOfDigits(NatToString(m));
    }
  }

  /** The exact value of the decimal `whole.frac`. */
  function DecimalValue(whole: string, frac: string): real
    requires AllDigits(whole) && AllDigits(frac)
  {
    DigitsValue(whole) as real + DigitsValue(frac) as real / Pow10(|frac|) as real
  }

  function Negate(negative: bool, x: real): real {
    if negative then -x else x
  }

  /** The value of unsigned decimal text: digits with at most one decimal point and at
      least one digit somewhere (`1.`, `.5` and `1.5` all read); `None` for anything
      else. */
  function UnsignedDecimal(body: string): (r: Option<real>)
    ensures r.Some? ==> r.value >= 0.0
  {
    match IndexOf(body, '.')
    case None =>
      if body != "" && AllDigits(body) then Some(DigitsValue(body) as real) else None
    case Some(k) =>
      var whole := body[..k];
      var frac := body[k + 1..];
      if AllDigits(whole) && AllDigits(frac) && |whole| + |frac| > 0
      then Some(DecimalValue(whole, frac))
      else None
  }

  /** Digits, a point and digits have the value of that decimal. */
  lemma UnsignedDecimalOfParts(body: string, k: nat)
    requires k < |body| && body[k] == '.' && |body| > 1
    requires AllDigits(body[..k]) && AllDigits(body[k + 1..])
    ensures UnsignedDecimal(body) == Some(DecimalValue(body[..k], body[k + 1..]))
  {
    assert '.' !in body[..k];
    IndexOfIs(body, '.', k);
  }

  /** The length of the sign `s` starts with: one for `+` or `-`, otherwise none. */
  function SignLength(s: string): (n: nat)
    ensures n <= |s|
  {
    if |s| > 0 && (s[0] == '+' || s[0] == '-') then 1 else 0
  }

  /** `c` without its leading sign character, if it has one. */
  function Unsigned(c: string): string {
    c[SignLength(c)..]
  }

  /** The value of text with no surrounding whitespace: an optional sign, then an
      unsigned decimal. */
  function SignedValue(t: string): Option<real>
  {
    match UnsignedDecimal(Unsigned(t))
    case Some(v) => Some(Negate(|t| > 0 && t[0] == '-', v))
    case None => None
  }

  /** Python's `float(s)` on text made of an optional sign, digits and at most one decimal
      point, with optional surrounding whitespace; at least one digit is needed. Anything
      else raises, here `None`. The value is exact (no binary rounding). */
  function ParseFloat(s: string): Option<real>
  {
    SignedValue(Strip(s))
  }

  /** Text that neither starts nor ends with whitespace is converted as it stands. */
  lemma ParseFloatUnpadded(c: string)
    requires c == [] || (!IsSpace(c[0]) && !IsSpace(c[|c| - 1]))
    ensures ParseFloat(c) == SignedValue(c)
  {
    StripKeeps(c, 0, |c|);
    assert c[0..|c|] == c;
  }

  /** Optionally signed decimal text converts to the exact value of its digits. */
  lemma ParseFloatOfDecimal(sign: string, whole: string, frac: string)
    requires sign == "" || sign == "+" || sign == "-"
    requires whole != [] && frac != [] && AllDigits(whole) && AllDigits(frac)
    ensures ParseFloat(sign + whole + "." + frac) == Some(Negate(sign == "-", DecimalValue(whole, frac)))
  {
    var body := whole + "." + frac;
    assert sign + whole + "." + frac == sign + body;
    DecimalBody(whole, frac);
    SignedBody(sign, body);
  }

  /** Digits, a point and digits: the unsigned decimal of those digits. */
  lemma DecimalBody(whole: string, frac: string)
    requires whole != [] && frac != [] && AllDigits(whole) && AllDigits(frac)
    ensures var body := whole + "." + frac;
      body[0] == whole[0] && body[|body| - 1] == frac[|frac| - 1]
      && UnsignedDecimal(body) == Some(DecimalValue(whole, frac))
  {
    var body := whole + "." + frac;
    assert body[..|whole|] == whole && body[|whole| + 1..] == frac;
    UnsignedDecimalOfParts(body, |whole|);
  }

  /** A sign before an unsigned body that starts with a digit and ends without
      whitespace: the body's value, negated after a minus. */
  lemma SignedBody(sign: string, body: string)
    requires sign == "" || sign == "+" || sign == "-"
    requires body != [] && IsDigit(body[0]) && !IsSpace(body[|body| - 1])
    ensures ParseFloat(sign + body) == match UnsignedDecimal(body)
      case Some(v) => Some(Negate(sign == "-", v))
      case None => None
  {
    var c := sign + body;
    assert c[|c| - 1] == body[|body| - 1];
    if sign == "" {
      assert c == body;
      ParseFloatUnpadded(c);
    } else {
      assert c[0] == sign[0] && c[1..] == body;
      assert !IsSpace(c[0]);
      ParseFloatUnpadded(c);
    }
  }

  /** The number of decimal points in `s`. */
  function DotCount(s: string): nat {
    multiset(s)['.']
  }

  /** A run of digits and points (what the pattern `[\d.]+` captures) is a valid `float`
      exactly when it has at most one point and at least one digit; its value is then
      never negative. */
  lemma ParseFloatDigitsAndDots(c: string)
    requires c != []
    requires forall i | 0 <= i < |c| :: IsDigit(c[i]) || c[i] == '.'
    ensures ParseFloat(c).Some? <==> DotCount(c) <= 1 && exists i | 0 <= i < |c| :: IsDigit(c[i])
    ensures ParseFloat(c).Some? ==> ParseFloat(c).value >= 0.0
  {
    ParseFloatUnpadded(c);
    assert Unsigned(c) == c;
    if IndexOf(c, '.').None? {
      assert AllDigits(c);
      assert IsDigit(c[0]);
    } else {
      DottedDecimal(c, IndexOf(c, '.').value);
    }
  }

  /** Everything after the first point holds all the other points. */
  lemma DotCountAfterFirst(c: string, k: nat)
    requires k < |c| && c[k] == '.' && '.' !in c[..k]
    ensures DotCount(c) == 1 + DotCount(c[k + 1..])
  {
    assert c == c[..k] + [c[k]] + c[k + 1..];
    assert multiset(c) == multiset(c[..k]) + multiset{'.'} + multiset(c[k + 1..]);
  }

  lemma DottedDecimal(c: string, k: nat)
    requires forall i | 0 <= i < |c| :: IsDigit(c[i]) || c[i] == '.'
    requires IndexOf(c, '.') == Some(k)
    ensures UnsignedDecimal(c).Some? <==> DotCount(c) <= 1 && exists i | 0 <= i < |c| :: IsDigit(c[i])
  {
    var whole := c[..k];
    var frac := c[k + 1..];
    DotCountAfterFirst(c, k);
    assert AllDigits(whole);
    if AllDigits(frac) {
      assert '.' !in frac;
      if |whole| > 0 {
        assert IsDigit(c[0]);
      } else if |frac| > 0 {
        assert IsDigit(c[k + 1]);
      } else {
        assert c == ['.'];
      }
    } else {
      var j :| 0 <= j < |frac| && !IsDigit(frac[j]);
      assert frac[j] == '.';
      assert frac[j] in multiset(frac);
    }
  }

  /** Text with two decimal points, such as `1.2.3`, is not a `float` although the
      pattern `[\d.]+` captures it. */
  lemma ParseFloatRejectsTwoPoints(a: string, b: string, c: string)
    requires a != [] && c != [] && AllDigits(a) && AllDigits(b) && AllDigits(c)
    ensures ParseFloat(a + "." + b + "." + c) == None
  {
    var t := a + "." + b + "." + c;
    assert t[0] == a[0] && t[|t| - 1] == c[|c| - 1];
    SignedBody("", t);
    assert "" + t == t;
    TwoPointsUnsigned(a, b, c);
  }

  lemma TwoPointsUnsigned(a: string, b: string, c: string)
    requires AllDigits(a) && AllDigits(b) && AllDigits(c)
    ensures UnsignedDecimal(a + "." + b + "." + c) == None
  {
    var t := a + "." + b + "." + c;
    assert t[..|a|] == a;
    assert forall i | 0 <= i < |a| :: a[i] != '.';
    IndexOfIs(t, '.', |a|);
    var frac := t[|a| + 1..];
    assert frac[|b|] == '.';
    assert !AllDigits(frac);
  }
}
