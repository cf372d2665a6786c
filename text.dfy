/** The parts of Go's `strings` and `strconv` packages that the playbook and
    runner code relies on, over strings as sequences of Unicode scalar values. */
module Text {
  import opened Wrappers

  /** The white space `strings.TrimSpace` removes (Go's `unicode.IsSpace`). */
  predicate IsSpace(c: char) {
    c == ' ' || c == '\t' || c == '\n' || c == '\r' || c == '\U{B}' || c == '\U{C}'
    || c == '\U{85}' || c == '\U{A0}' || c == '\U{1680}' || ('\U{2000}' <= c <= '\U{200A}')
    || c == '\U{2028}' || c == '\U{2029}' || c == '\U{202F}' || c == '\U{205F}' || c == '\U{3000}'
  }

  /** Drops leading white space. */
  function TrimLeft(s: string): (r: string)
    ensures |r| <= |s| && r == s[|s| - |r|..]
    ensures r == [] || !IsSpace(r[0])
    ensures forall i :: 0 <= i < |s| - |r| ==> IsSpace(s[i])
  {
    if |s| > 0 && IsSpace(s[0]) then TrimLeft(s[1..]) else s
  }

  /** Drops trailing white space. */
  function TrimRight(s: string): (r: string)
    ensures |r| <= |s| && r == s[..|r|]
    ensures r == [] || !IsSpace(r[|r| - 1])
    ensures forall i :: |r| <= i < |s| ==> IsSpace(s[i])
  {
    if |s| > 0 && IsSpace(s[|s| - 1]) then TrimRight(s[..|s| - 1]) else s
  }

  /** `strings.TrimSpace`: the result neither starts nor ends with white space. */
  function TrimSpace(s: string): (r: string)
    ensures |r| <= |s|
    ensures r == [] || (!IsSpace(r[0]) && !IsSpace(r[|r| - 1]))
  {
    TrimRight(TrimLeft(s))
  }

  /** A string that already has no white space at either end is left alone. */
  lemma TrimSpaceKeeps(s: string)
    requires s == [] || (!IsSpace(s[0]) && !IsSpace(s[|s| - 1]))
    ensures TrimSpace(s) == s
  {
  }

  /** The first position at or after `k` holding `c`, or -1. */
  function IndexFrom(s: string, c: char, k: nat): (i: int)
    requires k <= |s|
    ensures i == -1 || k <= i < |s|
    ensures i == -1 <==> forall j :: k <= j < |s| ==> s[j] != c
    ensures 0 <= i ==> s[i] == c && forall j :: k <= j < i ==> s[j] != c
    decreases |s| - k
  {
    if k == |s| then -1
    else if s[k] == c then k
    else IndexFrom(s, c, k + 1)
  }

  /** `strings.Index` for a one-character needle: the first position of `c`, or -1. */
  function IndexOf(s: string, c: char): (i: int)
    ensures -1 <= i < |s|
    ensures i == -1 <==> c !in s
    ensures 0 <= i ==> s[i] == c && c !in s[..i]
  {
    var i := IndexFrom(s, c, 0);
    assert 0 <= i ==> c !in s[..i] by {
      if 0 <= i { assert forall j :: 0 <= j < i ==> s[..i][j] == s[j]; }
    }
    i
  }

  /** `strings.Split` with a one-character separator: the pieces between the
      separators, always at least one. */
  function Split(s: string, sep: char): (parts: seq<string>)
    ensures |parts| >= 1
    ensures |parts| == 1 <==> sep !in s
    ensures forall i :: 0 <= i < |parts| ==> sep !in parts[i]
    ensures sep !in s ==> parts == [s]
    decreases |s|
  {
    var i := IndexOf(s, sep);
    if i < 0 then [s] else [s[..i]] + Split(s[i + 1..], sep)
  }

  /** `strings.Join`. */
  function Join(parts: seq<string>, sep: string): string
  {
    if |parts| == 0 then []
    else if |parts| == 1 then parts[0]
    else parts[0] + sep + Join(parts[1..], sep)
  }

  /** Joining the pieces of a split with the same separator gives back the input. */
  lemma {:induction false} JoinSplit(s: string, sep: char)
    ensures Join(Split(s, sep), [sep]) == s
    decreases |s|
  {
    var i := IndexOf(s, sep);
    if i >= 0 {
      JoinSplit(s[i + 1..], sep);
      JoinSplitStep(s, sep, i);
    }
  }

  /** Splitting pieces joined by a separator none of them holds gives the
      pieces back. */
  lemma {:induction false} SplitJoin(parts: seq<string>, sep: char)
    requires |parts| >= 1 && forall i :: 0 <= i < |parts| ==> sep !in parts[i]
    ensures Split(Join(parts, [sep]), sep) == parts
  {
    if |parts| > 1 {
      SplitJoin(parts[1..], sep);
      SplitFirst(parts[0], sep, Join(parts[1..], [sep]));
      assert [parts[0]] + parts[1..] == parts;
    }
  }

  lemma JoinSplitStep(s: string, sep: char, i: int)
    requires i == IndexOf(s, sep) && i >= 0
    requires Join(Split(s[i + 1..], sep), [sep]) == s[i + 1..]
    ensures Join(Split(s, sep), [sep]) == s
  {
    SplitJoinedAt(s, sep, i, Split(s[i + 1..], sep));
    SeparatorAt(s, sep, i);
  }

  lemma SeparatorAt(s: string, sep: char, i: int)
    requires i == IndexOf(s, sep) && i >= 0
    ensures s == s[..i] + [sep] + s[i + 1..]
  {
    assert s == s[..i] + [s[i]] + s[i + 1..];
  }

  lemma SplitJoinedAt(s: string, sep: char, i: int, tail: seq<string>)
    requires i == IndexOf(s, sep) && i >= 0
    requires tail == Split(s[i + 1..], sep)
    ensures Join(Split(s, sep), [sep]) == s[..i] + [sep] + Join(tail, [sep])
  {
    SplitAt(s, sep, i);
    JoinCons(s[..i], tail, [sep]);
  }

  /** Splitting text that starts with a separator-free piece and a separator
      gives that piece, then the pieces of the rest. */
  lemma SplitFirst(a: string, sep: char, b: string)
    requires sep !in a
    ensures Split(a + [sep] + b, sep) == [a] + Split(b, sep)
  {
    var s := a + [sep] + b;
    var i := IndexOf(s, sep);
    assert s[|a|] == sep && s[..|a|] == a;
    assert i == |a|;
    SplitAt(s, sep, i);
    assert s[i + 1..] == b;
  }

  lemma SplitAt(s: string, sep: char, i: int)
    requires i == IndexOf(s, sep) && i >= 0
    ensures Split(s, sep) == [s[..i]] + Split(s[i + 1..], sep)
  {
  }

  lemma JoinCons(a: string, tail: seq<string>, sep: string)
    requires |tail| >= 1
    ensures Join([a] + tail, sep) == a + sep + Join(tail, sep)
  {
    assert ([a] + tail)[1..] == tail;
  }

  /** `strings.HasPrefix`. */
  predicate HasPrefix(s: string, p: string) {
    |p| <= |s| && s[..|p|] == p
  }

  /** `strings.HasSuffix`. */
  predicate HasSuffix(s: string, p: string) {
    |p| <= |s| && s[|s| - |p|..] == p
  }

  /** `p` occurs in `s` starting at position `i`. */
  predicate OccursAt(p: string, s: string, i: nat) {
    i + |p| <= |s| && s[i..i + |p|] == p
  }

  /** `strings.Contains`. */
  ghost predicate Occurs(p: string, s: string) {
    exists i: nat :: OccursAt(p, s, i)
  }

  /** `strings.ReplaceAll` for a non-empty pattern: scans left to right and
      replaces every non-overlapping occurrence of `pat` by `rep`. */
  function ReplaceAll(s: string, pat: string, rep: string): string
    requires pat != []
    decreases |s|
  {
    if |s| < |pat| then s
    else if s[..|pat|] == pat then rep + ReplaceAll(s[|pat|..], pat, rep)
    else [s[0]] + ReplaceAll(s[1..], pat, rep)
  }

  /** Replacing a pattern that does not occur changes nothing. */
  lemma {:induction false} ReplaceAllAbsent(s: string, pat: string, rep: string)
    requires pat != [] && !Occurs(pat, s)
    ensures ReplaceAll(s, pat, rep) == s
    decreases |s|
  {
    if |s| >= |pat| {
      assert !OccursAt(pat, s, 0);
      assert s[..|pat|] != pat;
      forall i: nat | OccursAt(pat, s[1..], i) ensures false {
        assert s[1..][i..i + |pat|] == s[i + 1..i + 1 + |pat|];
        assert OccursAt(pat, s, i + 1);
      }
      ReplaceAllAbsent(s[1..], pat, rep);
    }
  }

  /** The text before a pattern is kept, the pattern is replaced, and the scan
      resumes after it. */
  lemma {:induction false} ReplaceAllStep(pre: string, pat: string, rep: string, post: string)
    requires pat != [] && !Occurs(pat, pre + pat[..|pat| - 1])
    ensures ReplaceAll(pre + pat + post, pat, rep) == pre + rep + ReplaceAll(post, pat, rep)
    decreases |pre|
  {
    var s := pre + pat + post;
    if |pre| == 0 {
      assert s[..|pat|] == pat;
      assert s[|pat|..] == post;
    } else {
      NoOccurrenceShift(pre, pat, post);
      ReplaceAllStep(pre[1..], pat, rep, post);
      ReplaceAllSkip(s, pat, rep);
      assert [s[0]] + (pre[1..] + rep + ReplaceAll(post, pat, rep)) == pre + rep + ReplaceAll(post, pat, rep);
    }
  }

  /** Where `pat` does not start the text, its first character is copied. */
  lemma ReplaceAllSkip(s: string, pat: string, rep: string)
    requires pat != [] && |s| >= |pat| && s[..|pat|] != pat
    ensures ReplaceAll(s, pat, rep) == [s[0]] + ReplaceAll(s[1..], pat, rep)
  {
  }

  /** If `pat` does not occur in `pre + pat[..|pat|-1]` for a non-empty
      `pre`, it does not start `pre + pat + post`, and it does not occur once
      the first character of `pre` is dropped. */
  lemma NoOccurrenceShift(pre: string, pat: string, post: string)
    requires pat != [] && pre != [] && !Occurs(pat, pre + pat[..|pat| - 1])
    ensures (pre + pat + post)[..|pat|] != pat
    ensures (pre + pat + post)[1..] == pre[1..] + pat + post
    ensures !Occurs(pat, pre[1..] + pat[..|pat| - 1])
  {
    var t := pre + pat[..|pat| - 1];
    assert (pre + pat + post)[..|pat|] == t[..|pat|];
    assert !OccursAt(pat, t, 0);
    var t' := pre[1..] + pat[..|pat| - 1];
    forall i: nat | OccursAt(pat, t', i) ensures false {
      assert t'[i..i + |pat|] == t[i + 1..i + 1 + |pat|];
      assert OccursAt(pat, t, i + 1);
    }
  }

  /** ASCII upper-case letters folded to lower case. */
  function FoldAscii(c: char): char {
    if 'A' <= c <= 'Z' then (c as int + 32) as char else c
  }

  /** `strings.EqualFold`, restricted to ASCII case folding. */
  predicate EqualFold(a: string, b: string) {
    |a| == |b| && forall i :: 0 <= i < |a| ==> FoldAscii(a[i]) == FoldAscii(b[i])
  }

  /** The number of bytes the UTF-8 encoding of `c` takes. */
  function RuneLen(c: char): (n: nat)
    ensures 1 <= n <= 4
    ensures n == 1 <==> c as int < 0x80
  {
    if c as int < 0x80 then 1 else if c as int < 0x800 then 2 else if c as int < 0x1_0000 then 3 else 4
  }

  /** The number of bytes the UTF-8 encoding of `s` takes from position `k` on. */
  function Utf8LenFrom(s: string, k: nat): (n: nat)
    requires k <= |s|
    ensures |s| - k <= n <= 4 * (|s| - k)
    decreases |s| - k
  {
    if k == |s| then 0 else RuneLen(s[k]) + Utf8LenFrom(s, k + 1)
  }

  /** Go's `len` of a string: the length of its UTF-8 encoding in bytes. */
  function Utf8Len(s: string): (n: nat)
    ensures |s| <= n <= 4 * |s|
  {
    Utf8LenFrom(s, 0)
  }

  /** Go's `len(s) < 2`, decided without measuring the whole string. */
  predicate ShorterThanTwoBytes(s: string) {
    s == [] || (|s| == 1 && s[0] < '\U{80}')
  }

  /** A string is shorter than two bytes exactly when it is empty or a single
      ASCII character. */
  lemma ShortUtf8(s: string)
    ensures Utf8Len(s) < 2 <==> ShorterThanTwoBytes(s)
  {
    if s != [] {
      assert Utf8Len(s) == RuneLen(s[0]) + Utf8LenFrom(s, 1);
    }
  }

  /** Go's `int` on a 64-bit platform. */
  const MinInt: int := -0x8000_0000_0000_0000
  const MaxInt: int := 0x7FFF_FFFF_FFFF_FFFF

  predicate IsDigit(c: char) {
    '0' <= c <= '9'
  }

  predicate AllDigits(s: string) {
    forall i :: 0 <= i < |s| ==> IsDigit(s[i])
  }

  /** The value of a string of decimal digits. */
  function DigitsValue(s: string): nat
    requires AllDigits(s)
    decreases |s|
  {
    if s == [] then 0 else DigitsValue(s[..|s| - 1]) * 10 + (s[|s| - 1] as int - '0' as int)
  }

  /** The digits after an optional leading sign. */
  function Unsigned(s: string): string {
    if |s| > 0 && (s[0] == '+' || s[0] == '-') then s[1..] else s
  }

  /** What `strconv.Atoi` accepts syntactically: an optional sign, then at
      least one decimal digit, nothing else. */
  predicate IsDecimal(s: string) {
    |Unsigned(s)| > 0 && AllDigits(Unsigned(s))
  }

  /** The value a well-formed decimal denotes, sign included. */
  function SignedValue(s: string): int
    requires IsDecimal(s)
  {
    var n: int := DigitsValue(Unsigned(s));
    if s[0] == '-' then -n else n
  }

  /** The message of the error `strconv.Atoi` returns. */
  function AtoiError(s: string, reason: string): string {
    "strconv.Atoi: parsing \"" + s + "\": " + reason
  }

  /** Go's largest `uint64`, the bound `strconv.ParseUint` accumulates into. */
  const MaxUint64: int := 0xFFFF_FFFF_FFFF_FFFF

  /** The length of the run of decimal digits that starts at `k`. */
  function DigitRunFrom(s: string, k: nat): (n: nat)
    requires k <= |s|
    ensures k <= n <= |s|
    ensures forall i :: k <= i < n ==> IsDigit(s[i])
    ensures n < |s| ==> !IsDigit(s[n])
    decreases |s| - k
  {
    if k == |s| || !IsDigit(s[k]) then k else DigitRunFrom(s, k + 1)
  }

  /** The value of the leading digits of `s`, up to its first non-digit. */
  function LeadingValue(s: string): nat {
    var n := DigitRunFrom(s, 0);
    assert AllDigits(s[..n]) by { assert forall i :: 0 <= i < n ==> s[..n][i] == s[i]; }
    DigitsValue(s[..n])
  }

  /** The leading digits of the unsigned part already exceed a `uint64`, so
      the digit-by-digit scan of `strconv.ParseUint` stops with "value out of
      range" before it reaches any later invalid character. */
  predicate Overflows(s: string) {
    LeadingValue(Unsigned(s)) > MaxUint64
  }

  /** On a string of digits only, the leading value is the whole value. */
  lemma LeadingValueOfDigits(s: string)
    requires AllDigits(s)
    ensures LeadingValue(s) == DigitsValue(s)
  {
    assert s[..|s|] == s;
  }

  /** `strconv.Atoi`: a signed decimal that fits Go's 64-bit `int`, or an
      error. Digits are scanned from the left, so an overflow of the leading
      digits is reported ahead of a later invalid character. */
  function Atoi(s: string): (r: Result<int>)
    ensures r.Ok? <==> IsDecimal(s)
                       && MinInt <= SignedValue(s) <= MaxInt
    ensures r.Ok? ==> r.value == SignedValue(s) && MinInt <= r.value <= MaxInt
    ensures |s| > 0 && AllDigits(s) && DigitsValue(s) <= MaxInt ==> r == Ok(DigitsValue(s))
    ensures IsDecimal(s) && !(MinInt <= SignedValue(s) <= MaxInt) ==> r == Err(AtoiError(s, "value out of range"))
    ensures !IsDecimal(s) && Overflows(s) ==> r == Err(AtoiError(s, "value out of range"))
    ensures !IsDecimal(s) && !Overflows(s) ==> r == Err(AtoiError(s, "invalid syntax"))
  {
    var body := Unsigned(s);
    if |body| == 0 then Err(AtoiError(s, "invalid syntax"))
    else if Overflows(s) then
      assert AllDigits(body) ==> SignedValue(s) < MinInt || SignedValue(s) > MaxInt by {
        if AllDigits(body) { LeadingValueOfDigits(body); }
      }
      Err(AtoiError(s, "value out of range"))
    else if !AllDigits(body) then Err(AtoiError(s, "invalid syntax"))
    else
      var v := SignedValue(s);
      if v < MinInt || v > MaxInt then Err(AtoiError(s, "value out of range")) else Ok(v)
  }

  /** Leading digits that already overflow 64 bits are reported as out of
      range even when an invalid character follows them. */
  lemma OverflowReportedFirst(digits: string, c: char, rest: string)
    requires |digits| > 0 && AllDigits(digits) && DigitsValue(digits) > MaxUint64
    requires !IsDigit(c)
    ensures var s := digits + [c] + rest;
            Atoi(s) == Err(AtoiError(s, "value out of range"))
  {
    OverflowingPrefix(digits, c, rest);
  }

  lemma OverflowingPrefix(digits: string, c: char, rest: string)
    requires |digits| > 0 && AllDigits(digits) && DigitsValue(digits) > MaxUint64
    requires !IsDigit(c)
    ensures var s := digits + [c] + rest;
            Overflows(s) && !IsDecimal(s)
  {
    var s := digits + [c] + rest;
    assert s[0] == digits[0] && IsDigit(s[0]);
    assert s[0] != '+' && s[0] != '-';
    assert Unsigned(s) == s;
    assert s[|digits|] == c;
    var n := DigitRunFrom(s, 0);
    assert n == |digits| && s[..n] == digits;
    assert LeadingValue(s) == DigitsValue(digits);
  }
}
