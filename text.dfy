/** The string primitives of JavaScript that the task code relies on:
    `trim`, `indexOf`, `lastIndexOf`, `includes`, `split(/\s+/)`, and
    ASCII `toLowerCase`/`toUpperCase`. */
module Text {
  import opened Base

  /** The code points JavaScript counts as WhiteSpace or LineTerminator:
      what `String.prototype.trim` strips and what `\s` matches. */
  predicate IsWhite(c: char)
  {
    || c == ' ' || c == '\t' || c == '\n' || c == '\r' || c == '\U{B}' || c == '\U{C}'
    || c == '\U{A0}' || c == '\U{1680}' || ('\U{2000}' <= c <= '\U{200A}')
    || c == '\U{2028}' || c == '\U{2029}' || c == '\U{202F}' || c == '\U{205F}'
    || c == '\U{3000}' || c == '\U{FEFF}'
  }

  predicate AllWhite(s: string)
  {
    forall i | 0 <= i < |s| :: IsWhite(s[i])
  }

  /** Neither end of `s` is white space: what `trim` produces. */
  predicate Trimmed(s: string)
  {
    s == [] || (!IsWhite(s[0]) && !IsWhite(s[|s| - 1]))
  }

  function TrimStart(s: string): (r: string)
    ensures |r| <= |s| && r == s[|s| - |r|..]
    ensures AllWhite(s[..|s| - |r|])
    ensures r == [] || !IsWhite(r[0])
  {
    if |s| > 0 && IsWhite(s[0]) then
      var r := TrimStart(s[1..]);
      assert s[..|s| - |r|] == [s[0]] + s[1..][..|s[1..]| - |r|];
      r
    else s
  }

  function TrimEnd(s: string): (r: string)
    ensures |r| <= |s| && r == s[..|r|]
    ensures AllWhite(s[|r|..])
    ensures r == [] || !IsWhite(r[|r| - 1])
  {
    if |s| > 0 && IsWhite(s[|s| - 1]) then TrimEnd(s[..|s| - 1]) else s
  }

  /** `s.trim()` */
  function Trim(s: string): (r: string)
    ensures Trimmed(r)
  {
    TrimEnd(TrimStart(s))
  }

  lemma {:induction false} TrimStartOfWhitePrefix(w: string, y: string)
    requires AllWhite(w)
    requires y == [] || !IsWhite(y[0])
    ensures TrimStart(w + y) == y
    decreases |w|
  {
    if |w| > 0 {
      assert (w + y)[1..] == w[1..] + y;
      TrimStartOfWhitePrefix(w[1..], y);
    } else {
      assert w + y == y;
    }
  }

  lemma {:induction false} TrimEndOfWhiteSuffix(y: string, w: string)
    requires AllWhite(w)
    requires y == [] || !IsWhite(y[|y| - 1])
    ensures TrimEnd(y + w) == y
    decreases |w|
  {
    if |w| > 0 {
      assert (y + w)[..|y + w| - 1] == y + w[..|w| - 1];
      TrimEndOfWhiteSuffix(y, w[..|w| - 1]);
    } else {
      assert y + w == y;
    }
  }

  /** `trim` removes exactly the white space around a trimmed core: whatever
      white space surrounds `x`, trimming gives back `x`. */
  lemma TrimAround(w1: string, x: string, w2: string)
    requires AllWhite(w1) && AllWhite(w2) && Trimmed(x)
    ensures Trim(w1 + x + w2) == x
  {
    if x == [] {
      assert w1 + x + w2 == w1 + w2 + [];
      TrimStartOfWhitePrefix(w1 + w2, []);
      assert TrimStart(w1 + x + w2) == [];
    } else {
      assert w1 + x + w2 == w1 + (x + w2);
      TrimStartOfWhitePrefix(w1, x + w2);
      TrimEndOfWhiteSuffix(x, w2);
    }
  }

  /** Trimming a trimmed text followed by white space gives the text back. */
  lemma TrimWhiteTail(x: string, w: string)
    requires Trimmed(x) && AllWhite(w)
    ensures Trim(x + w) == x
  {
    TrimAround([], x, w);
    assert [] + x + w == x + w;
  }

  lemma TrimEmpty()
    ensures Trim([]) == []
  {
  }

  /** Trimming twice is trimming once. */
  lemma TrimIdempotent(s: string)
    ensures Trim(Trim(s)) == Trim(s)
  {
    TrimAround([], Trim(s), []);
    assert [] + Trim(s) + [] == Trim(s);
  }

  lemma SliceOfSlice(s: string, lo: nat, hi: nat, i: nat, j: nat)
    requires lo <= hi <= |s| && i <= j <= hi - lo
    ensures s[lo..hi][i..j] == s[lo + i..lo + j]
  {
    assert forall k | 0 <= k < j - i :: s[lo..hi][i..j][k] == s[lo + i + k];
  }

  /** `pat` occurs in `s` at index `i`. */
  predicate Occurs(s: string, pat: string, i: int)
  {
    0 <= i && i + |pat| <= |s| && s[i..i + |pat|] == pat
  }

  /** `s.includes(pat)` */
  predicate Contains(s: string, pat: string)
  {
    exists i | 0 <= i <= |s| - |pat| :: Occurs(s, pat, i)
  }

  /** `s.indexOf(pat, from)` for `from <= |s|`; `None` stands for -1. */
  function IndexOf(s: string, pat: string, from: nat): (r: Option<nat>)
    ensures r.Some? ==> from <= r.value && Occurs(s, pat, r.value)
    ensures r.Some? ==> forall j | from <= j < r.value :: !Occurs(s, pat, j)
    ensures r.None? ==> forall j | from <= j :: !Occurs(s, pat, j)
    decreases |s| - from
  {
    if from + |pat| > |s| then None
    else if Occurs(s, pat, from) then Some(from)
    else IndexOf(s, pat, from + 1)
  }

  /** The last occurrence of `pat` at an index no larger than `i`. */
  function LastIndexAtOrBelow(s: string, pat: string, i: int): (r: Option<nat>)
    ensures r.Some? ==> r.value <= i && Occurs(s, pat, r.value)
    ensures r.Some? ==> forall j | r.value < j <= i :: !Occurs(s, pat, j)
    ensures r.None? ==> forall j | j <= i :: !Occurs(s, pat, j)
    decreases i + 1
  {
    if i < 0 then None
    else if Occurs(s, pat, i) then Some(i)
    else LastIndexAtOrBelow(s, pat, i - 1)
  }

  /** `s.lastIndexOf(pat)`; `None` stands for -1. */
  function LastIndexOf(s: string, pat: string): (r: Option<nat>)
    ensures r.Some? ==> Occurs(s, pat, r.value)
    ensures r.Some? ==> forall j | r.value < j :: !Occurs(s, pat, j)
    ensures r.None? ==> !Contains(s, pat)
  {
    LastIndexAtOrBelow(s, pat, |s| - |pat|)
  }

  /** Index at which the run of white space starting at `i` ends. */
  function WhiteRunEnd(s: string, i: nat): (j: nat)
    requires i <= |s|
    ensures i <= j <= |s|
    ensures AllWhite(s[i..j])
    ensures j == |s| || !IsWhite(s[j])
    decreases |s| - i
  {
    if i < |s| && IsWhite(s[i]) then WhiteRunEnd(s, i + 1) else i
  }

  /** Index of the first white-space character of `s`, if any. */
  function FirstWhite(s: string, from: nat): (r: Option<nat>)
    ensures r.Some? ==> from <= r.value < |s| && IsWhite(s[r.value])
    ensures r.Some? ==> forall k | from <= k < r.value :: !IsWhite(s[k])
    ensures r.None? ==> forall k | from <= k < |s| :: !IsWhite(s[k])
    decreases |s| - from
  {
    if from >= |s| then None
    else if IsWhite(s[from]) then Some(from)
    else FirstWhite(s, from + 1)
  }

  /** `s.split(/\s+/)`: the pieces between maximal runs of white space,
      including the empty pieces before a leading run and after a trailing one. */
  function SplitWhite(s: string): (r: seq<string>)
    ensures |r| >= 1
    ensures forall k | 0 <= k < |r| :: forall c | c in r[k] :: !IsWhite(c)
    decreases |s|
  {
    match FirstWhite(s, 0)
    case None => [s]
    case Some(i) =>
      assert forall c | c in s[..i] :: !IsWhite(c);
      [s[..i]] + SplitWhite(s[WhiteRunEnd(s, i)..])
  }

  /** The first piece is what precedes the first white space; there is only
      one piece, `s` itself, exactly when `s` holds no white space. */
  lemma SplitFirst(s: string)
    ensures var r := SplitWhite(s);
      && (|r| == 1 <==> forall i | 0 <= i < |s| :: !IsWhite(s[i]))
      && (|r| == 1 ==> r[0] == s)
      && r[0] == s[..|r[0]|]
      && (|r| > 1 ==> |r[0]| < |s| && IsWhite(s[|r[0]|]))
  {
    match FirstWhite(s, 0)
    case None =>
    case Some(i) =>
  }

  /** The last piece of `s.split(/\s+/)`. */
  function LastPiece(s: string): string
  {
    var r := SplitWhite(s); r[|r| - 1]
  }

  /** The last piece is what follows the last white space. */
  lemma {:induction false} SplitLast(s: string)
    ensures |LastPiece(s)| <= |s| && LastPiece(s) == s[|s| - |LastPiece(s)|..]
    ensures |SplitWhite(s)| > 1 ==> |LastPiece(s)| < |s| && IsWhite(s[|s| - |LastPiece(s)| - 1])
    decreases |s|
  {
    match FirstWhite(s, 0)
    case None =>
    case Some(i) =>
      var j := WhiteRunEnd(s, i);
      var rest := s[j..];
      SplitLast(rest);
      var last := LastPiece(rest);
      assert LastPiece(s) == last;
      assert rest[|rest| - |last|..] == s[|s| - |last|..];
      if |SplitWhite(rest)| > 1 {
        assert s[|s| - |last| - 1] == rest[|rest| - |last| - 1];
      } else {
        assert last == rest;
        assert s[j - 1] == s[i..j][j - 1 - i];
      }
  }

  /** A trimmed, non-empty string splits into non-empty first and last pieces. */
  lemma {:induction false} SplitTrimmedEnds(s: string)
    requires s != [] && Trimmed(s)
    ensures SplitWhite(s)[0] != [] && SplitWhite(s)[|SplitWhite(s)| - 1] != []
    decreases |s|
  {
    match FirstWhite(s, 0)
    case None =>
    case Some(i) =>
      var j := WhiteRunEnd(s, i);
      assert j < |s|;
      var rest := s[j..];
      assert rest != [] && !IsWhite(rest[0]) && rest[|rest| - 1] == s[|s| - 1];
      SplitTrimmedEnds(rest);
  }

  /** `Boolean` on a string. */
  predicate NonEmpty(w: string)
  {
    w != []
  }

  /** `s.split(/\s+/).filter(Boolean).length`: the number of words of `s`. */
  function WordCount(s: string): nat
  {
    |Filter(SplitWhite(s), NonEmpty)|
  }

  /** A word of `s` starts at `i`: a character that is not white space and
      begins the text or follows white space. */
  predicate WordStart(s: string, i: int)
    requires 0 <= i < |s|
  {
    !IsWhite(s[i]) && (i == 0 || IsWhite(s[i - 1]))
  }

  /** The number of word starts at index `lo` or later. */
  function StartsFrom(s: string, lo: nat): nat
    requires lo <= |s|
    decreases |s| - lo
  {
    if lo == |s| then 0 else (if WordStart(s, lo) then 1 else 0) + StartsFrom(s, lo + 1)
  }

  /** Past its first character, a suffix has the word starts of the text. */
  lemma {:induction false} StartsShift(s: string, j: nat, lo: nat)
    requires j < lo <= |s|
    ensures StartsFrom(s, lo) == StartsFrom(s[j..], lo - j)
    decreases |s| - lo
  {
    if lo < |s| {
      StartsShift(s, j, lo + 1);
      assert s[j..][lo - j] == s[lo] && s[j..][lo - j - 1] == s[lo - 1];
    }
  }

  /** A stretch without word starts adds nothing to the count. */
  lemma {:induction false} StartsSkip(s: string, lo: nat, hi: nat)
    requires lo <= hi <= |s|
    requires forall k | lo <= k < hi :: !WordStart(s, k)
    ensures StartsFrom(s, lo) == StartsFrom(s, hi)
    decreases hi - lo
  {
    if lo < hi {
      StartsSkip(s, lo + 1, hi);
    }
  }

  /** Splitting at the first white run: the first piece counts as a word
      exactly when it is not empty. */
  lemma WordCountStep(s: string, i: nat)
    requires FirstWhite(s, 0) == Some(i)
    ensures WordCount(s) == (if i > 0 then 1 else 0) + WordCount(s[WhiteRunEnd(s, i)..])
  {
    var rest := s[WhiteRunEnd(s, i)..];
    assert SplitWhite(s) == [s[..i]] + SplitWhite(rest);
    FilterAppend([s[..i]], SplitWhite(rest), NonEmpty);
    assert [s[..i]][..0] == [];
    assert |s[..i]| == i;
  }

  /** Up to the end of the first white run, only index 0 can start a word. */
  lemma StartsBeforeRest(s: string, i: nat)
    requires FirstWhite(s, 0) == Some(i)
    ensures StartsFrom(s, 0) == (if i > 0 then 1 else 0) + StartsFrom(s, WhiteRunEnd(s, i))
  {
    var j := WhiteRunEnd(s, i);
    forall k | 0 < k < j
      ensures !WordStart(s, k)
    {
      if k >= i {
        assert s[k] == s[i..j][k - i];
      }
    }
    if i > 0 {
      StartsSkip(s, 1, j);
    } else {
      StartsSkip(s, 0, j);
    }
  }

  /** After a white run, the text has the word starts of its suffix. */
  lemma StartsOfRest(s: string, i: nat)
    requires FirstWhite(s, 0) == Some(i)
    ensures StartsFrom(s, WhiteRunEnd(s, i)) == StartsFrom(s[WhiteRunEnd(s, i)..], 0)
  {
    var j := WhiteRunEnd(s, i);
    if j < |s| {
      assert s[j - 1] == s[i..j][j - 1 - i];
      StartsShift(s, j, j + 1);
      assert s[j..][0] == s[j];
    }
  }

  /** The words that `split(/\s+/).filter(Boolean)` counts are exactly the
      word starts of the text: one per maximal run of non-white characters. */
  lemma {:induction false} WordCountStarts(s: string)
    ensures WordCount(s) == StartsFrom(s, 0)
    decreases |s|
  {
    match FirstWhite(s, 0)
    case None =>
      assert SplitWhite(s) == [s];
      assert [s][..0] == [];
      if s != [] {
        StartsSkip(s, 1, |s|);
      }
    case Some(i) =>
      WordCountStep(s, i);
      StartsBeforeRest(s, i);
      StartsOfRest(s, i);
      WordCountStarts(s[WhiteRunEnd(s, i)..]);
  }


  /** The character of a decimal digit. */
  function Digit(d: nat): char
    requires d < 10
  {
    ('0' as int + d) as char
  }

  predicate AllDigits(s: string)
  {
    forall i | 0 <= i < |s| :: '0' <= s[i] <= '9'
  }

  /** The decimal numeral of a natural number, as a template literal writes
      it: digits only, no leading zero. */
  function Decimal(n: nat): (r: string)
    ensures r != [] && AllDigits(r)
    ensures |r| > 1 ==> r[0] != '0'
    decreases n
  {
    if n < 10 then [Digit(n)] else Decimal(n / 10) + [Digit(n % 10)]
  }

  /** The number a string of decimal digits denotes. */
  function DigitsValue(s: string): nat
    requires AllDigits(s)
  {
    if |s| == 0 then 0 else DigitsValue(s[..|s| - 1]) * 10 + (s[|s| - 1] as int - '0' as int)
  }

  /** Reading a numeral back gives the number. */
  lemma {:induction false} DecimalValue(n: nat)
    ensures DigitsValue(Decimal(n)) == n
    decreases n
  {
    if n >= 10 {
      var r := Decimal(n);
      assert r[..|r| - 1] == Decimal(n / 10);
      DecimalValue(n / 10);
    }
  }

  /** `${n}` for an integer: a minus sign before the numeral of a negative one. */
  function IntText(n: int): (r: string)
    ensures r != []
    ensures n < 0 <==> r[0] == '-'
    ensures n >= 0 ==> AllDigits(r)
  {
    if n < 0 then "-" + Decimal(-n) else Decimal(n)
  }

  /** Different numbers have different numerals. */
  lemma DecimalInjective(m: nat, n: nat)
    requires Decimal(m) == Decimal(n)
    ensures m == n
  {
    DecimalValue(m);
    DecimalValue(n);
  }

  /** Different integers are written differently. */
  lemma IntTextInjective(a: int, b: int)
    ensures IntText(a) == IntText(b) ==> a == b
  {
    if IntText(a) == IntText(b) {
      if a < 0 {
        assert b < 0;
        assert IntText(a)[1..] == Decimal(-a) && IntText(b)[1..] == Decimal(-b);
        DecimalInjective(-a, -b);
      } else {
        assert b >= 0;
        assert IntText(a) == Decimal(a) && IntText(b) == Decimal(b);
        DecimalInjective(a, b);
      }
    }
  }



  function LowerChar(c: char): char
  {
    if 'A' <= c <= 'Z' then (c as int + 32) as char else c
  }

  function UpperChar(c: char): char
  {
    if 'a' <= c <= 'z' then (c as int - 32) as char else c
  }

  /** `s.toLowerCase()` restricted to ASCII letters. */
  function Lower(s: string): (r: string)
    ensures |r| == |s| && forall i | 0 <= i < |s| :: r[i] == LowerChar(s[i])
  {
    seq(|s|, i requires 0 <= i < |s| => LowerChar(s[i]))
  }

  /** `s.toUpperCase()` restricted to ASCII letters. */
  function Upper(s: string): (r: string)
    ensures |r| == |s| && forall i | 0 <= i < |s| :: r[i] == UpperChar(s[i])
  {
    seq(|s|, i requires 0 <= i < |s| => UpperChar(s[i]))
  }
}
