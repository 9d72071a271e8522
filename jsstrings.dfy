/** The JavaScript string operations the front end relies on: prefix and
    suffix tests, `trim`, `split` on one character and on `/\s+/`,
    ASCII `toLowerCase`, decimal formatting of numbers and `parseInt(_, 10)`. */
module JsStrings {

  datatype Option<T> = None | Some(value: T) {
    function GetOr(default: T): T {
      match this
      case Some(v) => v
      case None => default
    }
  }

  /** The characters JavaScript's `trim` removes and `\s` matches
      (WhiteSpace and LineTerminator of ECMAScript). */
  predicate IsSpace(c: char) {
    c == ' ' || c == '\t' || c == '\n' || c == '\r' || c == '\U{000B}' || c == '\U{000C}'
    || c == '\U{00A0}' || c == '\U{1680}' || ('\U{2000}' <= c <= '\U{200A}')
    || c == '\U{2028}' || c == '\U{2029}' || c == '\U{202F}' || c == '\U{205F}'
    || c == '\U{3000}' || c == '\U{FEFF}'
  }

  predicate AllSpace(s: string) {
    forall i :: 0 <= i < |s| ==> IsSpace(s[i])
  }

  predicate StartsWith(s: string, prefix: string) {
    |prefix| <= |s| && s[..|prefix|] == prefix
  }

  /** Prefixes that differ in their first character exclude each other. */
  lemma StartsWithExcludes(s: string, p: string, q: string)
    requires StartsWith(s, p) && p != [] && q != [] && p[0] != q[0]
    ensures !StartsWith(s, q)
  {
    assert s[0] == s[..|p|][0];
    if |q| <= |s| {
      assert s[..|q|][0] == s[0];
    }
  }

  predicate EndsWith(s: string, suffix: string) {
    |suffix| <= |s| && s[|s| - |suffix|..] == suffix
  }

  // ---------------------------------------------------------------- trim

  /** `trimStart`: the longest suffix that does not start with white space. */
  function TrimStart(s: string): (r: string)
    ensures |r| <= |s| && r == s[|s| - |r|..]
    ensures AllSpace(s[..|s| - |r|])
    ensures r == [] || !IsSpace(r[0])
    ensures s != [] && IsSpace(s[0]) ==> |r| < |s|
  {
    if s != [] && IsSpace(s[0]) then TrimStart(s[1..]) else s
  }

  /** `trimEnd`: the longest prefix that does not end with white space. */
  function TrimEnd(s: string): (r: string)
    ensures |r| <= |s| && r == s[..|r|]
    ensures AllSpace(s[|r|..])
    ensures r == [] || !IsSpace(r[|r| - 1])
  {
    if s != [] && IsSpace(s[|s| - 1]) then TrimEnd(s[..|s| - 1]) else s
  }

  function Trim(s: string): string {
    TrimStart(TrimEnd(s))
  }

  /** TrimStart is determined by its contract: any split of `s` into white
      space followed by a part that does not start with white space. */
  lemma {:induction false} TrimStartUnique(lead: string, rest: string)
    requires AllSpace(lead)
    requires rest == [] || !IsSpace(rest[0])
    ensures TrimStart(lead + rest) == rest
  {
    if lead != [] {
      assert (lead + rest)[1..] == lead[1..] + rest;
      TrimStartUnique(lead[1..], rest);
    } else {
      assert lead + rest == rest;
    }
  }

  lemma {:induction false} TrimEndUnique(body: string, trail: string)
    requires AllSpace(trail)
    requires body == [] || !IsSpace(body[|body| - 1])
    ensures TrimEnd(body + trail) == body
  {
    if trail != [] {
      var s := body + trail;
      assert s[..|s| - 1] == body + trail[..|trail| - 1];
      TrimEndUnique(body, trail[..|trail| - 1]);
    } else {
      assert body + trail == body;
    }
  }

  lemma TrimEndSplits(s: string) returns (trail: string)
    ensures AllSpace(trail) && s == TrimEnd(s) + trail
  {
    trail := s[|TrimEnd(s)|..];
    assert s == s[..|TrimEnd(s)|] + trail;
  }

  lemma TrimStartSplits(s: string) returns (lead: string)
    ensures AllSpace(lead) && s == lead + TrimStart(s)
  {
    var t := TrimStart(s);
    lead := s[..|s| - |t|];
    assert s == lead + s[|s| - |t|..];
  }

  /** `s` is its trimmed core with white space before and after it. */
  lemma TrimDecomposes(s: string) returns (lead: string, trail: string)
    ensures AllSpace(lead) && AllSpace(trail)
    ensures s == lead + Trim(s) + trail
  {
    trail := TrimEndSplits(s);
    lead := TrimStartSplits(TrimEnd(s));
  }

  lemma AllSpaceConcat(x: string, y: string)
    requires AllSpace(x) && AllSpace(y)
    ensures AllSpace(x + y)
  {
  }

  /** A trimmed string neither starts nor ends with white space. */
  lemma TrimEnds(s: string)
    ensures Trim(s) != [] ==> !IsSpace(Trim(s)[0]) && !IsSpace(Trim(s)[|Trim(s)| - 1])
  {
    var e := TrimEnd(s);
    var t := TrimStart(e);
    if t != [] {
      assert t[|t| - 1] == e[|e| - 1];
    }
  }

  lemma TrimOfAllSpace(x: string)
    requires AllSpace(x)
    ensures Trim(x) == []
  {
    TrimEndUnique([], x);
    assert [] + x == x;
  }

  lemma BlankIsAllSpace(s: string)
    requires Trim(s) == []
    ensures AllSpace(s)
  {
    var e := TrimEnd(s);
    var trail := TrimEndSplits(s);
    var lead := TrimStartSplits(e);
    assert lead + [] == lead;
    AllSpaceConcat(e, trail);
  }

  lemma TrimOfPadded(lead: string, t: string, trail: string)
    requires AllSpace(lead) && AllSpace(trail)
    requires t != [] && !IsSpace(t[0]) && !IsSpace(t[|t| - 1])
    ensures Trim(lead + t + trail) == t
  {
    TrimEndUnique(lead + t, trail);
    TrimStartUnique(lead, t);
  }

  lemma ConcatRegroup(a: string, l: string, t: string, r: string, b: string)
    ensures a + (l + t + r) + b == (a + l) + t + (r + b)
  {
  }

  lemma PadNonBlank(a: string, s: string, b: string)
    requires AllSpace(a) && AllSpace(b)
    ensures Trim(s) != [] ==> Trim(a + s + b) == Trim(s)
  {
    var lead, trail := TrimDecomposes(s);
    var t := Trim(s);
    TrimEnds(s);
    ConcatRegroup(a, lead, t, trail, b);
    if t != [] {
      AllSpaceConcat(trail, b);
      AllSpaceConcat(a, lead);
      TrimOfPadded(a + lead, t, trail + b);
    }
  }

  lemma PadBlank(a: string, s: string, b: string)
    requires AllSpace(a) && AllSpace(b)
    requires Trim(s) == []
    ensures Trim(a + s + b) == []
  {
    BlankIsAllSpace(s);
    AllSpaceConcat(a, s);
    AllSpaceConcat(a + s, b);
    TrimOfAllSpace(a + s + b);
  }

  /** Trimming ignores white space added on either side. */
  lemma TrimIgnoresPadding(a: string, s: string, b: string)
    requires AllSpace(a) && AllSpace(b)
    ensures Trim(a + s + b) == Trim(s)
  {
    PadNonBlank(a, s, b);
    if Trim(s) == [] {
      PadBlank(a, s, b);
    }
  }

  /** A string trims to nothing exactly when it is all white space. */
  lemma TrimEmptyIffAllSpace(s: string)
    ensures Trim(s) == [] <==> AllSpace(s)
  {
    if AllSpace(s) {
      TrimOfAllSpace(s);
    }
    if Trim(s) == [] {
      BlankIsAllSpace(s);
    }
  }

  // --------------------------------------------------------------- split

  /** `s.split(c)` for a one-character separator. */
  function SplitOn(s: string, c: char): (parts: seq<string>)
    ensures |parts| >= 1
    decreases |s|
  {
    if s == [] then [""]
    else
      var rest := SplitOn(s[1..], c);
      if s[0] == c then [""] + rest else [[s[0]] + rest[0]] + rest[1..]
  }

  /** `parts.join(c)`, the inverse of SplitOn. */
  function Join(parts: seq<string>, c: char): string
    requires |parts| >= 1
    decreases |parts|
  {
    if |parts| == 1 then parts[0] else parts[0] + [c] + Join(parts[1..], c)
  }

  /** Splitting then joining gives back the string, and no part contains
      the separator. */
  lemma {:induction false} SplitOnJoin(s: string, c: char)
    ensures Join(SplitOn(s, c), c) == s
    ensures forall i :: 0 <= i < |SplitOn(s, c)| ==> c !in SplitOn(s, c)[i]
    decreases |s|
  {
    if s != [] {
      SplitOnJoin(s[1..], c);
      var rest := SplitOn(s[1..], c);
      if s[0] == c {
        assert SplitOn(s, c)[1..] == rest;
      } else {
        var parts := SplitOn(s, c);
        assert parts[1..] == rest[1..];
        if |rest| == 1 {
          assert Join(parts, c) == [s[0]] + rest[0];
        } else {
          assert Join(rest, c) == rest[0] + [c] + Join(rest[1..], c);
        }
        assert s == [s[0]] + s[1..];
      }
    }
  }

  /** Joining parts free of the separator, then splitting, gives back the parts. */
  lemma {:induction false} JoinSplitOn(parts: seq<string>, c: char)
    requires |parts| >= 1
    requires forall i :: 0 <= i < |parts| ==> c !in parts[i]
    ensures SplitOn(Join(parts, c), c) == parts
    decreases |parts|, |parts[0]|
  {
    if |parts| == 1 {
      NoSeparatorSplit(parts[0], c);
    } else if parts[0] == [] {
      var j := Join(parts, c);
      assert j == [c] + Join(parts[1..], c);
      assert j[1..] == Join(parts[1..], c);
      JoinSplitOn(parts[1..], c);
      assert parts == [""] + parts[1..];
    } else {
      var p0 := parts[0];
      var shorter := [p0[1..]] + parts[1..];
      assert c !in shorter[0] by {
        assert forall k :: 0 <= k < |p0[1..]| ==> p0[1..][k] == p0[k + 1];
      }
      JoinSplitOn(shorter, c);
      var j := Join(parts, c);
      assert j == p0 + [c] + Join(parts[1..], c);
      assert Join(shorter, c) == p0[1..] + [c] + Join(parts[1..], c);
      assert j[1..] == Join(shorter, c);
      assert j[0] == p0[0] && p0[0] != c;
      assert [p0[0]] + p0[1..] == p0;
      assert shorter[1..] == parts[1..];
    }
  }

  lemma {:induction false} NoSeparatorSplit(s: string, c: char)
    requires c !in s
    ensures SplitOn(s, c) == [s]
    decreases |s|
  {
    if s != [] {
      assert c !in s[1..] by {
        assert forall k :: 0 <= k < |s[1..]| ==> s[1..][k] == s[k + 1];
      }
      NoSeparatorSplit(s[1..], c);
      assert [s[0]] + s[1..] == s;
    }
  }

  /** The first part of a split is the text before the first separator. */
  lemma {:induction false} SplitOnHead(p: string, c: char, rest: string)
    requires c !in p
    ensures SplitOn(p + [c] + rest, c)[0] == p
    decreases |p|
  {
    if p == [] {
      assert ([] + [c] + rest)[0] == c;
    } else {
      var s := p + [c] + rest;
      assert s[1..] == p[1..] + [c] + rest;
      assert c !in p[1..] by {
        assert forall k :: 0 <= k < |p[1..]| ==> p[1..][k] == p[k + 1];
      }
      SplitOnHead(p[1..], c, rest);
      assert [p[0]] + p[1..] == p;
    }
  }

  /** `s.split(/\s+/)`: fields between maximal runs of white space, with an
      empty first (last) field when `s` starts (ends) with white space. */
  function SplitWs(s: string): (parts: seq<string>)
    ensures |parts| >= 1
    decreases |s|
  {
    if s == [] then [""]
    else if IsSpace(s[0]) then [""] + SplitWs(TrimStart(s))
    else
      var rest := SplitWs(s[1..]);
      [[s[0]] + rest[0]] + rest[1..]
  }

  /** `parts.filter(Boolean)`: the non-empty fields, in order. */
  function Compact(parts: seq<string>): (r: seq<string>)
    ensures |r| <= |parts|
    ensures forall i :: 0 <= i < |r| ==> r[i] != []
  {
    if parts == [] then []
    else if parts[0] == [] then Compact(parts[1..])
    else [parts[0]] + Compact(parts[1..])
  }

  /** Number of maximal runs of non-white-space characters in `s`; a run
      may start at position 0 only when `afterSpace` holds. */
  function Runs(s: string, afterSpace: bool): nat
    decreases |s|
  {
    if s == [] then 0
    else (if afterSpace && !IsSpace(s[0]) then 1 else 0) + Runs(s[1..], IsSpace(s[0]))
  }

  function RunCount(s: string): nat {
    Runs(s, true)
  }

  lemma {:induction false} RunsOfSpace(s: string, b: bool)
    requires AllSpace(s)
    ensures Runs(s, b) == 0
    decreases |s|
  {
    if s != [] {
      RunsOfSpace(s[1..], true);
    }
  }

  /** A string with a non-white-space character has at least one run. */
  lemma {:induction false} RunsOfNonSpace(s: string)
    requires !AllSpace(s)
    ensures Runs(s, true) >= 1
    decreases |s|
  {
    if IsSpace(s[0]) {
      assert !AllSpace(s[1..]) by {
        var i :| 0 <= i < |s| && !IsSpace(s[i]);
        assert s[1..][i - 1] == s[i];
      }
      RunsOfNonSpace(s[1..]);
    }
  }

  /** A string has no runs exactly when it is all white space. */
  lemma RunCountZeroIffSpace(s: string)
    ensures RunCount(s) == 0 <==> AllSpace(s)
  {
    if AllSpace(s) {
      RunsOfSpace(s, true);
    } else {
      RunsOfNonSpace(s);
    }
  }

  lemma {:induction false} RunsSkipLeadingSpace(lead: string, s: string, b: bool)
    requires AllSpace(lead) && lead != []
    ensures Runs(lead + s, b) == Runs(s, true)
    decreases |lead|
  {
    assert (lead + s)[1..] == lead[1..] + s;
    if |lead| > 1 {
      RunsSkipLeadingSpace(lead[1..], s, true);
    } else {
      assert lead[1..] + s == s;
    }
  }

  lemma {:induction false} RunsIgnoreTrailingSpace(s: string, trail: string, b: bool)
    requires AllSpace(trail)
    ensures Runs(s + trail, b) == Runs(s, b)
    decreases |s|
  {
    if s == [] {
      assert s + trail == trail;
      RunsOfSpace(trail, b);
    } else {
      assert (s + trail)[1..] == s[1..] + trail;
      RunsIgnoreTrailingSpace(s[1..], trail, IsSpace(s[0]));
    }
  }

  lemma {:induction false} CompactAppend(a: seq<string>, b: seq<string>)
    ensures Compact(a + b) == Compact(a) + Compact(b)
    decreases |a|
  {
    if a == [] {
      assert a + b == b;
    } else {
      assert (a + b)[1..] == a[1..] + b;
      CompactAppend(a[1..], b);
    }
  }

  /** A run starts at the head of `t` only after white space. */
  lemma RunsAfterWord(t: string)
    ensures Runs(t, true) == Runs(t, false) + (if t != [] && !IsSpace(t[0]) then 1 else 0)
  {
  }

  lemma CompactOfCons(p: string, rest: seq<string>)
    ensures |Compact([p] + rest)| == (if p == [] then 0 else 1) + |Compact(rest)|
  {
    CompactAppend([p], rest);
  }

  lemma SplitWsSpaceStep(s: string)
    requires s != [] && IsSpace(s[0])
    requires |Compact(SplitWs(TrimStart(s)))| == RunCount(TrimStart(s))
    ensures |Compact(SplitWs(s))| == RunCount(s)
  {
    var t := TrimStart(s);
    assert SplitWs(s) == [""] + SplitWs(t);
    CompactOfCons("", SplitWs(t));
    var lead := TrimStartSplits(s);
    assert |lead| == |s| - |t| > 0;
    RunsSkipLeadingSpace(lead, t, true);
  }

  lemma SplitWsWordStep(s: string)
    requires s != [] && !IsSpace(s[0])
    requires |Compact(SplitWs(s[1..]))| == RunCount(s[1..])
    requires SplitWs(s[1..])[0] == [] <==> (s[1..] == [] || IsSpace(s[1..][0]))
    ensures |Compact(SplitWs(s))| == RunCount(s)
  {
    var rest := SplitWs(s[1..]);
    assert SplitWs(s) == [[s[0]] + rest[0]] + rest[1..];
    CompactOfCons([s[0]] + rest[0], rest[1..]);
    assert rest == [rest[0]] + rest[1..];
    CompactOfCons(rest[0], rest[1..]);
    RunsAfterWord(s[1..]);
  }

  /** The non-empty fields of `s.split(/\s+/)` are exactly its runs; the
      first field is empty exactly when `s` is empty or starts with space. */
  lemma {:induction false} SplitWsCountsRuns(s: string)
    ensures |Compact(SplitWs(s))| == RunCount(s)
    ensures SplitWs(s)[0] == [] <==> (s == [] || IsSpace(s[0]))
    decreases |s|
  {
    if s == [] {
    } else if IsSpace(s[0]) {
      SplitWsCountsRuns(TrimStart(s));
      SplitWsSpaceStep(s);
    } else {
      SplitWsCountsRuns(s[1..]);
      SplitWsWordStep(s);
    }
  }

  /** The number of non-empty fields of `s.trim().split(/\s+/)` is the
      number of words (maximal non-white-space runs) of `s`. */
  lemma TrimmedWordsAreRuns(s: string)
    ensures |Compact(SplitWs(Trim(s)))| == RunCount(s)
  {
    SplitWsCountsRuns(Trim(s));
    var lead, trail := TrimDecomposes(s);
    RunsIgnoreTrailingSpace(lead + Trim(s), trail, true);
    if lead != [] {
      RunsSkipLeadingSpace(lead, Trim(s), true);
    } else {
      assert lead + Trim(s) == Trim(s);
    }
  }

  /** A word: non-empty and free of white space. */
  predicate IsWord(w: string) {
    w != [] && forall i :: 0 <= i < |w| ==> !IsSpace(w[i])
  }

  lemma {:induction false} SplitWsOfWordPrefix(w: string, rest: string)
    requires forall i :: 0 <= i < |w| ==> !IsSpace(w[i])
    requires rest == [] || !IsSpace(rest[0])
    ensures SplitWs(w + [' '] + rest) == [w] + SplitWs(rest)
    decreases |w|
  {
    var s := w + [' '] + rest;
    if w == [] {
      assert s == [' '] + rest;
      assert TrimStart(s) == TrimStart(rest) == rest;
    } else {
      assert s[1..] == w[1..] + [' '] + rest;
      SplitWsOfWordPrefix(w[1..], rest);
      assert [w[0]] + w[1..] == w;
    }
  }

  lemma {:induction false} SplitWsOfWord(w: string)
    requires forall i :: 0 <= i < |w| ==> !IsSpace(w[i])
    ensures SplitWs(w) == [w]
    decreases |w|
  {
    if w != [] {
      SplitWsOfWord(w[1..]);
      assert [w[0]] + w[1..] == w;
    }
  }

  /** Words joined by single spaces split back into the same words. */
  lemma {:induction false} SplitWsOfJoin(ws: seq<string>)
    requires |ws| >= 1
    requires forall i :: 0 <= i < |ws| ==> IsWord(ws[i])
    ensures SplitWs(Join(ws, ' ')) == ws
    decreases |ws|
  {
    if |ws| == 1 {
      SplitWsOfWord(ws[0]);
    } else {
      SplitWsOfJoin(ws[1..]);
      JoinStartsWithWord(ws[1..]);
      SplitWsOfWordPrefix(ws[0], Join(ws[1..], ' '));
      assert [ws[0]] + ws[1..] == ws;
    }
  }

  lemma {:induction false} JoinStartsWithWord(ws: seq<string>)
    requires |ws| >= 1
    requires forall i :: 0 <= i < |ws| ==> IsWord(ws[i])
    ensures IsWord(ws[0]) && Join(ws, ' ') != [] && Join(ws, ' ')[0] == ws[0][0]
    ensures !IsSpace(Join(ws, ' ')[|Join(ws, ' ')| - 1])
    decreases |ws|
  {
    if |ws| > 1 {
      JoinStartsWithWord(ws[1..]);
    }
  }

  /** A string with non-space ends trims to itself. */
  lemma TrimOfTrimmed(s: string)
    requires s != [] && !IsSpace(s[0]) && !IsSpace(s[|s| - 1])
    ensures Trim(s) == s
  {
    assert TrimEnd(s) == s;
  }

  /** Words joined by single spaces: already trimmed, and split back into
      the same words. */
  lemma JoinedWords(ws: seq<string>)
    requires |ws| >= 1
    requires forall i :: 0 <= i < |ws| ==> IsWord(ws[i])
    ensures Trim(Join(ws, ' ')) == Join(ws, ' ')
    ensures SplitWs(Join(ws, ' ')) == ws
  {
    SplitWsOfJoin(ws);
    JoinStartsWithWord(ws);
    TrimOfTrimmed(Join(ws, ' '));
  }

  // ---------------------------------------------------------- lower case

  /** `toLowerCase` restricted to ASCII letters. */
  function LowerChar(c: char): char {
    if 'A' <= c <= 'Z' then (c as int + 32) as char else c
  }

  function ToLower(s: string): (r: string)
    ensures |r| == |s|
    ensures forall i :: 0 <= i < |s| ==> r[i] == LowerChar(s[i])
  {
    seq(|s|, i requires 0 <= i < |s| => LowerChar(s[i]))
  }

  /** A lower-cased string ends with a lower-cased suffix exactly when its
      own tail of that length matches it case-insensitively. */
  lemma EndsWithIgnoringCase(s: string, suffix: string)
    ensures EndsWith(ToLower(s), ToLower(suffix))
        <==> |suffix| <= |s| && ToLower(s[|s| - |suffix|..]) == ToLower(suffix)
  {
    if |suffix| <= |s| {
      var tail := s[|s| - |suffix|..];
      assert ToLower(s)[|s| - |suffix|..] == ToLower(tail);
    }
  }

  // ------------------------------------------------------------- numbers

  predicate IsDigit(c: char) {
    '0' <= c <= '9'
  }

  function DigitChar(d: nat): char
    requires d < 10
  {
    ('0' as int + d) as char
  }

  /** The decimal text JavaScript prints for a non-negative integer. */
  function NatToString(n: nat): (s: string)
    ensures s != [] && forall i :: 0 <= i < |s| ==> IsDigit(s[i])
  {
    if n < 10 then [DigitChar(n)] else NatToString(n / 10) + [DigitChar(n % 10)]
  }

  /** The longest prefix of decimal digits. */
  function DigitPrefix(s: string): (r: string)
    ensures StartsWith(s, r)
    ensures forall i :: 0 <= i < |r| ==> IsDigit(r[i])
    ensures |r| < |s| ==> !IsDigit(s[|r|])
  {
    if s != [] && IsDigit(s[0]) then [s[0]] + DigitPrefix(s[1..]) else []
  }

  /** Value of a string of decimal digits, most significant first. */
  function DigitsValue(ds: string): nat
    requires forall i :: 0 <= i < |ds| ==> IsDigit(ds[i])
  {
    if ds == [] then 0
    else
      assert IsDigit(ds[|ds| - 1]);
      DigitsValue(ds[..|ds| - 1]) * 10 + (ds[|ds| - 1] as int - '0' as int)
  }

  /** `parseInt(s, 10)`: skips leading white space, reads an optional sign
      and the longest run of digits; None stands for NaN (no digits). */
  function ParseInt(s: string): Option<int> {
    ParseSigned(TrimStart(s))
  }

  function ParseSigned(t: string): Option<int> {
    if t != [] && t[0] == '-' then
      match ParseDigits(t[1..])
      case None => None
      case Some(v) => Some(-v)
    else if t != [] && t[0] == '+' then ParseDigits(t[1..])
    else ParseDigits(t)
  }

  function ParseDigits(t: string): Option<int> {
    var ds := DigitPrefix(t);
    if ds == [] then None else Some(DigitsValue(ds))
  }

  lemma {:induction false} DigitPrefixOfDigits(ds: string, rest: string)
    requires forall i :: 0 <= i < |ds| ==> IsDigit(ds[i])
    requires rest == [] || !IsDigit(rest[0])
    ensures DigitPrefix(ds + rest) == ds
    decreases |ds|
  {
    if ds == [] {
      assert ds + rest == rest;
    } else {
      assert (ds + rest)[1..] == ds[1..] + rest;
      DigitPrefixOfDigits(ds[1..], rest);
      assert [ds[0]] + ds[1..] == ds;
    }
  }

  lemma {:induction false} DigitsValueOfNatToString(n: nat)
    ensures DigitsValue(NatToString(n)) == n
  {
    if n >= 10 {
      var s := NatToString(n);
      assert s[..|s| - 1] == NatToString(n / 10);
      DigitsValueOfNatToString(n / 10);
    }
  }

  lemma ParseIntNoLeadingSpace(s: string)
    requires s != [] && !IsSpace(s[0])
    ensures ParseInt(s) == ParseSigned(s)
  {
    assert TrimStart(s) == s;
  }

  lemma ParseSignedOfDigits(ds: string, rest: string)
    requires ds != [] && forall i :: 0 <= i < |ds| ==> IsDigit(ds[i])
    requires rest == [] || !IsDigit(rest[0])
    ensures ParseSigned(ds + rest) == Some(DigitsValue(ds) as int)
  {
    assert (ds + rest)[0] == ds[0];
    DigitPrefixOfDigits(ds, rest);
  }

  /** parseInt reads back what NatToString prints, and stops at the first
      character that is not a digit. */
  lemma ParseIntOfNatToString(n: nat, rest: string)
    requires rest == [] || !IsDigit(rest[0])
    ensures ParseInt(NatToString(n) + rest) == Some(n)
  {
    var ds := NatToString(n);
    assert (ds + rest)[0] == ds[0];
    ParseIntNoLeadingSpace(ds + rest);
    ParseSignedOfDigits(ds, rest);
    DigitsValueOfNatToString(n);
  }
}
