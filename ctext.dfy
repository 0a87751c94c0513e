/** The string helpers of the configuration console. They work on
    NUL-terminated C strings inside a character buffer: a string is named by
    the buffer and the index of its first character, and reaches up to the
    first NUL at or after that index. */
module CText {
  import opened Common

  const NUL: char := '\0'

  /** The C string starting at `i` has its terminator inside `m`. */
  predicate Terminated(m: seq<char>, i: nat)
  {
    i <= |m| && NUL in m[i..]
  }

  /** The index of the terminator of the C string at `i`. */
  function FirstNul(m: seq<char>, i: nat): (j: nat)
    requires Terminated(m, i)
    ensures i <= j < |m| && m[j] == NUL
    ensures forall k :: i <= k < j ==> m[k] != NUL
    decreases |m| - i
  {
    if m[i] == NUL then i
    else
      assert m[i..] == [m[i]] + m[i + 1..];
      FirstNul(m, i + 1)
  }

  /** The characters of the C string at `i`, without its terminator. */
  function CStr(m: seq<char>, i: nat): (s: seq<char>)
    requires Terminated(m, i)
    ensures NUL !in s
    ensures |s| == FirstNul(m, i) - i
  {
    m[i..FirstNul(m, i)]
  }

  /** A C string is unaffected by writes outside its characters and its
      terminator. */
  lemma CStrFrame(m: seq<char>, m': seq<char>, i: nat)
    requires Terminated(m, i) && |m'| == |m|
    requires forall k :: i <= k <= FirstNul(m, i) ==> m'[k] == m[k]
    ensures Terminated(m', i) && FirstNul(m', i) == FirstNul(m, i)
    ensures CStr(m', i) == CStr(m, i)
  {
    var j := FirstNul(m, i);
    assert m'[i..][j - i] == NUL;
    assert Terminated(m', i);
    var j' := FirstNul(m', i);
    assert j' == j;
    assert m'[i..j] == m[i..j];
  }

  /** A C string whose first `n` characters are `s` and whose terminator
      follows them. */
  lemma CStrIs(m: seq<char>, i: nat, n: nat)
    requires i + n < |m| && m[i + n] == NUL
    requires forall k :: i <= k < i + n ==> m[k] != NUL
    ensures Terminated(m, i) && FirstNul(m, i) == i + n && CStr(m, i) == m[i..i + n]
  {
    assert m[i..][n] == NUL;
  }

  // ---------------------------------------------------------------------
  // `up` and `iequals_P`

  predicate IsLower(c: char) { 'a' <= c <= 'z' }

  predicate IsUpper(c: char) { 'A' <= c <= 'Z' }

  /** `up`: ASCII upper case; every other character is left alone. */
  function Up(c: char): (r: char)
    ensures !IsLower(r)
    ensures IsLower(c) ==> IsUpper(r) && r as int + 32 == c as int
    ensures !IsLower(c) ==> r == c
  {
    if IsLower(c) then (c as int - 32) as char else c
  }

  /** Two characters look the same to `up` iff they are equal or are the
      lower- and upper-case forms of one letter. */
  lemma UpEqual(a: char, b: char)
    ensures Up(a) == Up(b) <==>
      a == b || (IsLower(a) && b as int + 32 == a as int) || (IsLower(b) && a as int + 32 == b as int)
  {
  }

  function Upper(s: seq<char>): (r: seq<char>)
    ensures |r| == |s| && forall k :: 0 <= k < |s| ==> r[k] == Up(s[k])
  {
    seq(|s|, k requires 0 <= k < |s| => Up(s[k]))
  }

  /** Equality after `up`: the same length and the same letters, ignoring
      ASCII case. */
  predicate EqualsIgnoreCase(s: seq<char>, t: seq<char>)
  {
    Upper(s) == Upper(t)
  }

  /** `iequals_P`: compares the C string at `s` in `m` with the program-memory
      literal `p`, ignoring ASCII case. */
  method IEqualsP(m: seq<char>, s: nat, p: string) returns (eq: bool)
    requires Terminated(m, s) && NUL !in p
    ensures eq <==> EqualsIgnoreCase(CStr(m, s), p)
    ensures eq ==> |CStr(m, s)| == |p|
  {
    ghost var t := CStr(m, s);
    var i: nat := 0;
    while true
      invariant s + i <= FirstNul(m, s) && i <= |p|
      invariant forall k :: 0 <= k < i ==> Up(t[k]) == Up(p[k])
      decreases |p| - i
    {
      var a := Up(m[s + i]);
      var b := Up(if i < |p| then p[i] else NUL);
      if a != b {
        assert i < |t| && i < |p| ==> Upper(t)[i] != Upper(p)[i];
        return false;
      }
      if a == NUL {
        assert |t| == i == |p|;
        assert forall k :: 0 <= k < i ==> Upper(t)[k] == Upper(p)[k];
        return true;
      }
      i := i + 1;
    }
  }

  // ---------------------------------------------------------------------
  // `toIntFast` and decimal rendering

  predicate IsDigit(c: char) { '0' <= c <= '9' }

  function DigitVal(c: char): nat
    requires IsDigit(c)
  {
    c as int - '0' as int
  }

  predicate AllDigits(d: seq<char>)
  {
    forall k :: 0 <= k < |d| ==> IsDigit(d[k])
  }

  /** The number a string of decimal digits denotes, most significant first. */
  function Value(d: seq<char>): nat
    requires AllDigits(d)
  {
    if d == [] then 0 else Value(d[..|d| - 1]) * 10 + DigitVal(d[|d| - 1])
  }

  /** The length of the longest run of digits at the front of `t`. */
  function DigitRun(t: seq<char>): (n: nat)
    ensures n <= |t| && AllDigits(t[..n])
    ensures n < |t| ==> !IsDigit(t[n])
  {
    if t == [] || !IsDigit(t[0]) then 0
    else
      var n := 1 + DigitRun(t[1..]);
      assert forall k :: 1 <= k < n ==> t[..n][k] == t[1..][..n - 1][k - 1];
      n
  }

  /** The digit run is determined by where the first non-digit stands. */
  lemma {:induction false} DigitRunIs(t: seq<char>, n: nat)
    requires n <= |t| && AllDigits(t[..n]) && (n < |t| ==> !IsDigit(t[n]))
    ensures DigitRun(t) == n
    decreases n
  {
    if n > 0 {
      assert t[..n][0] == t[0];
      var u := t[1..];
      var v := u[..n - 1];
      forall k | 0 <= k < n - 1 ensures IsDigit(v[k]) {
        assert v[k] == t[..n][k + 1];
      }
      assert n - 1 < |u| ==> u[n - 1] == t[n];
      DigitRunIs(u, n - 1);
    }
  }

  /** What `toIntFast` yields for the string `t`: an optional leading `-`,
      then the value of the longest run of digits; no digits give 0 and
      whatever follows the run is ignored. */
  function ParseInt(t: seq<char>): int
  {
    if |t| > 0 && t[0] == '-' then -(Magnitude(t[1..]) as int) else Magnitude(t)
  }

  /** The value of the digit run at the front of `u`. */
  function Magnitude(u: seq<char>): nat
  {
    Value(u[..DigitRun(u)])
  }

  /** Appending a digit multiplies the value by ten and adds the digit. */
  lemma ValueSnoc(d: seq<char>, c: char)
    requires AllDigits(d) && IsDigit(c)
    ensures AllDigits(d + [c]) && Value(d + [c]) == Value(d) * 10 + DigitVal(c)
  {
    assert (d + [c])[..|d|] == d;
  }

  /** The magnitude is the value of the digits before the first non-digit. */
  lemma MagnitudeIs(u: seq<char>, n: nat, d: seq<char>)
    requires n <= |u| && d == u[..n] && AllDigits(d) && (n < |u| ==> !IsDigit(u[n]))
    ensures Magnitude(u) == Value(d)
  {
    DigitRunIs(u, n);
  }

  /** `ParseInt` of the C string at `s` reads the magnitude of what follows
      an optional leading `-`, which lies at `start` onwards. */
  lemma SignedParse(m: seq<char>, s: nat, neg: bool, start: nat)
    requires Terminated(m, s)
    requires neg <==> m[s] == '-'
    requires start == if neg then s + 1 else s
    ensures start <= FirstNul(m, s)
    ensures ParseInt(CStr(m, s)) == if neg then -(Magnitude(m[start..FirstNul(m, s)]) as int)
                                    else Magnitude(m[start..FirstNul(m, s)])
  {
    var t := CStr(m, s);
    if neg {
      assert t[0] == m[s];
      assert t[1..] == m[start..FirstNul(m, s)];
    }
  }

  /** `toIntFast` on the C string at `s`. Values are unbounded here. */
  method ToIntFast(m: seq<char>, s: nat) returns (v: int)
    requires Terminated(m, s)
    ensures v == ParseInt(CStr(m, s))
  {
    var neg := false;
    var i := s;
    if m[i] == '-' {
      neg := true;
      i := i + 1;
    }
    var start := i;
    ghost var f := FirstNul(m, s);
    assert start <= f;
    var val := 0;
    while IsDigit(m[i])
      invariant start <= i <= f
      invariant AllDigits(m[start..i])
      invariant val == Value(m[start..i])
      decreases f - i
    {
      ScanDigit(m, start, i);
      val := val * 10 + DigitVal(m[i]);
      i := i + 1;
    }
    DigitsOfTail(m, s, neg, start, i);
    v := if neg then -val else val;
  }

  /** The run of digits `toIntFast` scans, read in the buffer, is the run
      `ParseInt` reads in the string. */
  lemma DigitsOfTail(m: seq<char>, s: nat, neg: bool, start: nat, i: nat)
    requires Terminated(m, s)
    requires neg <==> m[s] == '-'
    requires start == if neg then s + 1 else s
    requires start <= i <= FirstNul(m, s)
    requires AllDigits(m[start..i]) && !IsDigit(m[i])
    ensures ParseInt(CStr(m, s)) == if neg then -(Value(m[start..i]) as int) else Value(m[start..i])
  {
    SignedParse(m, s, neg, start);
    RunOfSlice(m, start, FirstNul(m, s), i);
  }

  /** The magnitude of `m[a..b]` when its digits run from `a` to `i`. */
  lemma RunOfSlice(m: seq<char>, a: nat, b: nat, i: nat)
    requires a <= i <= b <= |m|
    requires AllDigits(m[a..i]) && (i < b ==> !IsDigit(m[i]))
    ensures Magnitude(m[a..b]) == Value(m[a..i])
  {
    SliceOfSlice(m, a, b, i);
    MagnitudeIs(m[a..b], i - a, m[a..i]);
  }

  lemma SliceOfSlice<T>(m: seq<T>, a: nat, b: nat, c: nat)
    requires a <= c <= b <= |m|
    ensures m[a..b][..c - a] == m[a..c]
    ensures c < b ==> m[a..b][c - a] == m[c]
  {
  }

  /** One more digit scanned in the buffer. */
  lemma ScanDigit(m: seq<char>, a: nat, i: nat)
    requires a <= i < |m| && AllDigits(m[a..i]) && IsDigit(m[i])
    ensures AllDigits(m[a..i + 1]) && Value(m[a..i + 1]) == Value(m[a..i]) * 10 + DigitVal(m[i])
  {
    SliceOneMore(m, a, i);
    ValueSnoc(m[a..i], m[i]);
  }

  lemma SliceOneMore<T>(m: seq<T>, a: nat, b: nat)
    requires a <= b < |m|
    ensures m[a..b + 1] == m[a..b] + [m[b]]
  {
  }

  function Digit(d: nat): (c: char)
    requires d < 10
    ensures IsDigit(c) && DigitVal(c) == d
  {
    ('0' as int + d) as char
  }

  /** The decimal rendering of `n`, without leading zeros. */
  function Decimal(n: nat): (r: seq<char>)
    ensures |r| > 0 && AllDigits(r)
  {
    if n < 10 then [Digit(n)] else Decimal(n / 10) + [Digit(n % 10)]
  }

  lemma {:induction false} DecimalValue(n: nat)
    ensures Value(Decimal(n)) == n
  {
    if n >= 10 {
      DecimalValue(n / 10);
      var d := Decimal(n);
      assert d[..|d| - 1] == Decimal(n / 10);
    }
  }

  /** `toIntFast` reads back what `Decimal` writes, also with a sign, and it
      stops at the first character that is not a digit. */
  lemma ParseDecimal(n: nat, rest: seq<char>)
    requires rest == [] || !IsDigit(rest[0])
    ensures ParseInt(Decimal(n) + rest) == n
    ensures ParseInt(['-'] + Decimal(n) + rest) == -(n as int)
  {
    var d := Decimal(n);
    ParseUnsigned(d, rest);
    DecimalValue(n);
    NegatedParse(d, rest);
  }

  /** Digits followed by a non-digit read as their value. */
  lemma ParseUnsigned(d: seq<char>, rest: seq<char>)
    requires |d| > 0 && AllDigits(d)
    requires rest == [] || !IsDigit(rest[0])
    ensures ParseInt(d + rest) == Value(d)
  {
    var t := d + rest;
    assert t[..|d|] == d;
    assert |d| < |t| ==> t[|d|] == rest[0];
    DigitRunIs(t, |d|);
  }

  /** A leading `-` before digits negates their reading. */
  lemma NegatedParse(d: seq<char>, rest: seq<char>)
    requires |d| > 0 && IsDigit(d[0])
    ensures ParseInt(['-'] + d + rest) == -ParseInt(d + rest)
  {
    var t := d + rest;
    assert t[0] == d[0];
    assert (['-'] + d + rest)[1..] == t;
  }

  // ---------------------------------------------------------------------
  // `nextToken`: space-separated words

  /** The length of the run of characters other than `stop` at the front of
      `t`: a word when `stop` is a space, a clock field when it is `-`. */
  function RunLen(t: seq<char>, stop: char): (n: nat)
    ensures n <= |t|
    ensures forall k :: 0 <= k < n ==> t[k] != stop
    ensures n < |t| ==> t[n] == stop
  {
    if t == [] || t[0] == stop then 0 else 1 + RunLen(t[1..], stop)
  }

  /** The run ends at the first `stop`. */
  lemma RunLenIs(t: seq<char>, stop: char, n: nat)
    requires n <= |t| && (forall k :: 0 <= k < n ==> t[k] != stop) && (n < |t| ==> t[n] == stop)
    ensures RunLen(t, stop) == n
  {
  }

  /** The words of `t` in the order `nextToken` returns them: maximal runs of
      characters other than space. */
  function Words(t: seq<char>): (ws: seq<seq<char>>)
    ensures forall k :: 0 <= k < |ws| ==> |ws[k]| > 0 && ' ' !in ws[k]
    decreases |t|
  {
    if t == [] then []
    else if t[0] == ' ' then Words(t[1..])
    else
      var n := RunLen(t, ' ');
      [t[..n]] + (if n == |t| then [] else Words(t[n + 1..]))
  }

  /** A string has no word iff it is all spaces. */
  lemma {:induction false} NoWordsIffBlank(t: seq<char>)
    ensures Words(t) == [] <==> forall k :: 0 <= k < |t| ==> t[k] == ' '
    decreases |t|
  {
    if t != [] {
      NoWordsIffBlank(t[1..]);
      if t[0] == ' ' {
        assert forall k :: 1 <= k < |t| ==> t[k] == t[1..][k - 1];
      }
    }
  }

  /** What `nextToken` does to the text `m` with its cursor at `next`,
      leaving `m'`: it answers `None` iff no word is left, and then changes
      nothing and leaves the cursor on the terminator; otherwise the token is
      the C string of the first word, cut off by a NUL written over the
      single space that ends it (if a space ends it), and the cursor then
      stands past that space on the C string of the remaining words. No
      character but that space changes. */
  ghost predicate Tokenized(m: seq<char>, next: nat, m': seq<char>, tok: Option<nat>, next': nat)
    requires Terminated(m, next)
  {
    var ws := Words(CStr(m, next));
    && |m'| == |m| && next <= next' && Terminated(m', next')
    && (forall k :: 0 <= k < |m| ==> m'[k] == m[k] || (next <= k && k + 1 == next' && m[k] == ' ' && m'[k] == NUL))
    && (tok.None? <==> ws == [])
    && (tok.None? ==> m' == m && next' == FirstNul(m, next) && Words(CStr(m', next')) == [])
    && (tok.Some? ==>
          && next <= tok.value < next' && Terminated(m', tok.value)
          && FirstNul(m', tok.value) <= next'
          && CStr(m', tok.value) == ws[0]
          && Words(CStr(m', next')) == ws[1..]
          && var e := FirstNul(m', tok.value);
             (m[e] == ' ' && next' == e + 1) || (m[e] == NUL && next' == e))
  }

  /** `nextToken`: skip spaces; at the end answer `None`; otherwise return
      the word's index, cut it off by writing a NUL over the single space
      that ends it, and move the cursor past that space (or leave it on the
      terminator). */
  method NextToken(buf: array<char>, next: nat) returns (tok: Option<nat>, next': nat)
    requires Terminated(buf[..], next)
    modifies buf
    ensures Tokenized(old(buf[..]), next, buf[..], tok, next')
  {
    ghost var m := buf[..];
    ghost var f := FirstNul(m, next);
    next' := next;
    while buf[next'] == ' '
      invariant next <= next' <= f
      invariant forall k :: next <= k < next' ==> m[k] == ' '
      decreases f - next'
    {
      next' := next' + 1;
    }
    if buf[next'] == NUL {
      tok := None;
      TokenNone(m, buf[..], next, tok, next');
      return;
    }
    var start := next';
    while buf[next'] != NUL && buf[next'] != ' '
      invariant start <= next' <= f
      invariant forall k :: start <= k < next' ==> m[k] != ' '
      decreases f - next'
    {
      next' := next' + 1;
    }
    var e := next';
    tok := Some(start);
    if buf[e] == ' ' {
      buf[e] := NUL;
      next' := e + 1;
      TokenCut(m, buf[..], next, start, e, tok, next');
    } else {
      TokenLast(m, buf[..], next, start, e, tok, next');
    }
  }

  /** Only spaces are left: `nextToken` answers `None`. */
  lemma TokenNone(m: seq<char>, m': seq<char>, next: nat, tok: Option<nat>, f: nat)
    requires Terminated(m, next) && next <= f && f < |m| && m[f] == NUL
    requires forall k :: next <= k < f ==> m[k] == ' '
    requires m' == m && tok == None
    ensures Tokenized(m, next, m', tok, f)
  {
    CStrIs(m, next, f - next);
    AllBlank(m, next);
    CStrIs(m, f, 0);
  }

  /** A word that a space ends: `nextToken` cuts it there. */
  lemma TokenCut(m: seq<char>, m': seq<char>, next: nat, start: nat, e: nat, tok: Option<nat>, next': nat)
    requires Terminated(m, next)
    requires next <= start < e <= FirstNul(m, next)
    requires forall k :: next <= k < start ==> m[k] == ' '
    requires forall k :: start <= k < e ==> m[k] != ' '
    requires m[e] == ' ' && m' == m[e := NUL] && tok == Some(start) && next' == e + 1
    ensures Tokenized(m, next, m', tok, next')
  {
    CutWord(m, m', next, start, e);
  }

  /** A word that the terminator ends: `nextToken` changes nothing. */
  lemma TokenLast(m: seq<char>, m': seq<char>, next: nat, start: nat, e: nat, tok: Option<nat>, next': nat)
    requires Terminated(m, next)
    requires next <= start < e <= FirstNul(m, next)
    requires forall k :: next <= k < start ==> m[k] == ' '
    requires forall k :: start <= k < e ==> m[k] != ' '
    requires m[e] == NUL && m' == m && tok == Some(start) && next' == e
    ensures Tokenized(m, next, m', tok, next')
  {
    LastWord(m, next, start, e);
  }

  /** `nextToken` cutting a word that a space ends: after the NUL is written
      over that space, the word is a C string of its own and the rest of the
      text holds the remaining words. */
  lemma CutWord(m: seq<char>, m': seq<char>, next: nat, start: nat, e: nat)
    requires Terminated(m, next)
    requires next <= start < e <= FirstNul(m, next)
    requires forall k :: next <= k < start ==> m[k] == ' '
    requires forall k :: start <= k < e ==> m[k] != ' '
    requires m[e] == ' ' && m' == m[e := NUL]
    ensures Terminated(m', start) && FirstNul(m', start) == e && CStr(m', start) == m[start..e]
    ensures Terminated(m', e + 1)
    ensures var ws := Words(CStr(m, next));
      ws != [] && ws[0] == CStr(m', start) && ws[1..] == Words(CStr(m', e + 1))
  {
    TokenSplit(m, next, start, e);
    NoNulBefore(m, next, start, e);
    CutFront(m, m', start, e);
    CutBack(m, m', e);
  }

  /** No terminator stands inside the C string at `next`. */
  lemma NoNulBefore(m: seq<char>, next: nat, start: nat, e: nat)
    requires Terminated(m, next)
    requires next <= start <= e <= FirstNul(m, next)
    ensures forall k :: start <= k < e ==> m[k] != NUL
  {
  }

  /** Writing the terminator at `e` ends the C string at `start` there. */
  lemma CutFront(m: seq<char>, m': seq<char>, start: nat, e: nat)
    requires start <= e < |m| && m' == m[e := NUL]
    requires forall k :: start <= k < e ==> m[k] != NUL
    ensures Terminated(m', start) && FirstNul(m', start) == e && CStr(m', start) == m[start..e]
  {
    CStrIs(m', start, e - start);
    assert m'[start..e] == m[start..e];
  }

  /** Writing at `e` leaves the C string after it alone. */
  lemma CutBack(m: seq<char>, m': seq<char>, e: nat)
    requires e < |m| && Terminated(m, e + 1) && m' == m[e := NUL]
    ensures Terminated(m', e + 1) && CStr(m', e + 1) == CStr(m, e + 1)
  {
    CStrFrame(m, m', e + 1);
  }

  /** `nextToken` reaching the terminator at the end of a word. */
  lemma LastWord(m: seq<char>, next: nat, start: nat, e: nat)
    requires Terminated(m, next)
    requires next <= start < e <= FirstNul(m, next)
    requires forall k :: next <= k < start ==> m[k] == ' '
    requires forall k :: start <= k < e ==> m[k] != ' '
    requires m[e] == NUL
    ensures Terminated(m, start) && FirstNul(m, start) == e && CStr(m, start) == m[start..e]
    ensures Terminated(m, e) && CStr(m, e) == []
    ensures var ws := Words(CStr(m, next));
      ws != [] && ws[0] == CStr(m, start) && ws[1..] == []
  {
    TokenSplit(m, next, start, e);
    CStrIs(m, start, e - start);
    CStrIs(m, e, 0);
  }

  /** Leading spaces do not change the words. */
  lemma {:induction false} WordsSkip(t: seq<char>, a: nat)
    requires a <= |t| && forall k :: 0 <= k < a ==> t[k] == ' '
    ensures Words(t) == Words(t[a..])
    decreases a
  {
    if a > 0 {
      WordsSkip(t[1..], a - 1);
      assert t[1..][a - 1..] == t[a..];
    }
  }

  /** A C string made of spaces only has no word. */
  lemma AllBlank(m: seq<char>, i: nat)
    requires Terminated(m, i)
    requires forall k :: i <= k < FirstNul(m, i) ==> m[k] == ' '
    ensures Words(CStr(m, i)) == []
  {
    var t := CStr(m, i);
    assert forall k :: 0 <= k < |t| ==> t[k] == m[i + k];
    NoWordsIffBlank(t);
  }

  /** The word `nextToken` finds: spaces from `next` to `start`, the word
      from `start` to `e`, then a space or the terminator at `e`. */
  lemma TokenSplit(m: seq<char>, next: nat, start: nat, e: nat)
    requires Terminated(m, next)
    requires next <= start < e <= FirstNul(m, next)
    requires forall k :: next <= k < start ==> m[k] == ' '
    requires forall k :: start <= k < e ==> m[k] != ' '
    requires m[e] == ' ' || m[e] == NUL
    ensures m[e] == ' ' ==> Terminated(m, e + 1) && FirstNul(m, e + 1) == FirstNul(m, next)
    ensures Words(CStr(m, next)) == [m[start..e]] + (if m[e] == NUL then [] else Words(CStr(m, e + 1)))
  {
    var f := FirstNul(m, next);
    var t := m[next..f];
    var a := start - next;
    var b := e - next;
    SliceFacts(m, next, f, start, e);
    TokenEnd(m, next, e);
    assert CStr(m, next) == t && t[a..b] == m[start..e];
    if m[e] == NUL {
      WordsSplit(t, a, b, []);
    } else {
      WordsSplit(t, a, b, t[b + 1..]);
      assert t[b + 1..] == CStr(m, e + 1);
    }
  }

  /** A word ends at the terminator exactly when `e` is the terminator of
      the C string at `next`; otherwise a C string follows the space. */
  lemma TokenEnd(m: seq<char>, next: nat, e: nat)
    requires Terminated(m, next)
    requires next <= e <= FirstNul(m, next)
    requires m[e] == ' ' || m[e] == NUL
    ensures m[e] == NUL <==> e == FirstNul(m, next)
    ensures m[e] == ' ' ==> Terminated(m, e + 1) && FirstNul(m, e + 1) == FirstNul(m, next)
    ensures m[e] == ' ' ==> CStr(m, e + 1) == m[e + 1..FirstNul(m, next)]
  {
    if m[e] == ' ' {
      Suffix(m, next, e);
    }
  }

  /** The characters after a non-terminator at `e` inside the C string at
      `p` form a C string with the same terminator. */
  lemma Suffix(m: seq<char>, p: nat, e: nat)
    requires Terminated(m, p) && p <= e <= FirstNul(m, p) && m[e] != NUL
    ensures e < FirstNul(m, p) && Terminated(m, e + 1) && FirstNul(m, e + 1) == FirstNul(m, p)
    ensures CStr(m, e + 1) == m[e + 1..FirstNul(m, p)]
  {
    CStrIs(m, e + 1, FirstNul(m, p) - e - 1);
  }

  /** `WordsSkip` and `WordsAt` together, on a string with the word at `a..b`. */
  lemma WordsSplit(t: seq<char>, a: nat, b: nat, rest: seq<char>)
    requires a < b <= |t|
    requires forall k :: 0 <= k < a ==> t[k] == ' '
    requires forall k :: a <= k < b ==> t[k] != ' '
    requires b < |t| ==> t[b] == ' '
    requires rest == if b == |t| then [] else t[b + 1..]
    ensures Words(t) == [t[a..b]] + (if b == |t| then [] else Words(rest))
  {
    WordsSkip(t, a);
    WordsAt(t, a, b);
  }

  lemma SliceFacts(m: seq<char>, next: nat, f: nat, start: nat, e: nat)
    requires next <= start < e <= f < |m|
    requires forall k :: next <= k < start ==> m[k] == ' '
    requires forall k :: start <= k < e ==> m[k] != ' '
    ensures var t := m[next..f];
      && (forall k :: 0 <= k < start - next ==> t[k] == ' ')
      && (forall k :: start - next <= k < e - next ==> t[k] != ' ')
      && t[start - next..e - next] == m[start..e]
      && (e < f ==> t[e - next] == m[e] && t[e - next + 1..] == m[e + 1..f])
  {
    var t := m[next..f];
    forall k | 0 <= k < start - next ensures t[k] == ' ' {
      assert t[k] == m[next + k];
    }
    forall k | start - next <= k < e - next ensures t[k] != ' ' {
      assert t[k] == m[next + k];
    }
    var w, x := t[start - next..e - next], m[start..e];
    forall k | 0 <= k < |w| ensures w[k] == x[k] {
      assert t[start - next + k] == m[start + k];
    }
    assert w == x;
    if e < f {
      var u, v := t[e - next + 1..], m[e + 1..f];
      forall k | 0 <= k < |u| ensures u[k] == v[k] {
        assert t[e - next + 1 + k] == m[e + 1 + k];
      }
      assert u == v;
    }
  }

  /** The first word of `t[a..]` starts at `a` and ends at `e`. */
  lemma WordsAt(t: seq<char>, a: nat, e: nat)
    requires a < e <= |t|
    requires forall k :: a <= k < e ==> t[k] != ' '
    requires e < |t| ==> t[e] == ' '
    ensures Words(t[a..]) == [t[a..e]] + (if e == |t| then [] else Words(t[e + 1..]))
  {
    var u := t[a..];
    var n := e - a;
    forall k | 0 <= k < n ensures u[k] != ' ' {
      assert u[k] == t[a + k];
    }
    assert n < |u| ==> u[n] == t[e];
    RunLenIs(u, ' ', n);
    assert u[0] != ' ';
    assert Words(u) == [u[..n]] + (if n == |u| then [] else Words(u[n + 1..]));
    assert u[..n] == t[a..e];
    if e < |t| {
      assert u[n + 1..] == t[e + 1..];
    }
  }

  // ---------------------------------------------------------------------
  // `parseClockSpec`: six '-'-separated fields

  /** What follows the first field and its `-` (nothing if there is no `-`). */
  function FieldRest(t: seq<char>): seq<char>
  {
    var n := RunLen(t, '-');
    if n < |t| then t[n + 1..] else []
  }

  /** The first `n` `-`-separated fields of `t`, as `parseClockSpec` cuts
      them: missing fields are empty, and what follows the `n`-th `-` is
      dropped. */
  function Fields(t: seq<char>, n: nat): (fs: seq<seq<char>>)
    ensures |fs| == n
    ensures forall k :: 0 <= k < n ==> '-' !in fs[k]
    decreases n
  {
    if n == 0 then [] else [t[..RunLen(t, '-')]] + Fields(FieldRest(t), n - 1)
  }

  /** Fields written out with `-` between them. */
  function Join(fs: seq<seq<char>>): seq<char>
    requires |fs| > 0
  {
    if |fs| == 1 then fs[0] else fs[0] + ['-'] + Join(fs[1..])
  }

  function Blank(n: nat): (r: seq<seq<char>>)
    ensures |r| == n && forall k :: 0 <= k < n ==> r[k] == []
  {
    seq(n, k => [])
  }

  /** Splitting what `Join` wrote gives the fields back, padded with empty
      fields when there are fewer than `n`; text after the `n`-th `-` is
      dropped. */
  lemma {:induction false} FieldsOfJoin(fs: seq<seq<char>>, n: nat, rest: seq<char>)
    requires 0 < |fs| <= n
    requires forall k :: 0 <= k < |fs| ==> '-' !in fs[k]
    requires rest == [] || (|fs| == n && rest[0] == '-')
    ensures Fields(Join(fs) + rest, n) == fs + Blank(n - |fs|)
    decreases |fs|
  {
    if |fs| == 1 {
      FieldsOfOne(fs, n, rest);
    } else {
      assert Fields(Join(fs[1..]) + rest, n - 1) == fs[1..] + Blank(n - |fs|) by {
        UndashedTail(fs);
        FieldsOfJoin(fs[1..], n - 1, rest);
      }
      FieldsStep(fs, n, rest);
    }
  }

  lemma UndashedTail(fs: seq<seq<char>>)
    requires |fs| > 0 && forall k :: 0 <= k < |fs| ==> '-' !in fs[k]
    ensures forall k :: 0 <= k < |fs| - 1 ==> '-' !in fs[1..][k]
  {
  }

  /** The inductive step of `FieldsOfJoin`: the first field, then the
      fields of the rest. */
  lemma FieldsStep(fs: seq<seq<char>>, n: nat, rest: seq<char>)
    requires 1 < |fs| <= n && '-' !in fs[0]
    requires Fields(Join(fs[1..]) + rest, n - 1) == fs[1..] + Blank(n - |fs|)
    ensures Fields(Join(fs) + rest, n) == fs + Blank(n - |fs|)
  {
    var j := Join(fs[1..]) + rest;
    JoinCons(fs, rest);
    FieldsCons(fs[0], j, n - 1);
    ConsAppend(fs, Blank(n - |fs|));
  }

  /** `FieldsOfJoin` for a single field. */
  lemma FieldsOfOne(fs: seq<seq<char>>, n: nat, rest: seq<char>)
    requires |fs| == 1 && 0 < n && '-' !in fs[0]
    requires rest == [] || (n == 1 && rest[0] == '-')
    ensures Fields(Join(fs) + rest, n) == fs + Blank(n - 1)
  {
    var f := fs[0];
    assert fs == [f] && Join(fs) == f;
    if rest == [] {
      assert f + rest == f;
      FieldsLast(f, n - 1);
      FieldsOfEmpty(n - 1);
    } else {
      assert f + rest == f + ['-'] + rest[1..];
      FieldsCons(f, rest[1..], 0);
      assert Blank(0) == [];
    }
  }

  lemma JoinCons(fs: seq<seq<char>>, rest: seq<char>)
    requires |fs| > 1
    ensures Join(fs) + rest == fs[0] + ['-'] + (Join(fs[1..]) + rest)
  {
  }

  lemma ConsAppend<T>(fs: seq<T>, b: seq<T>)
    requires |fs| > 0
    ensures [fs[0]] + (fs[1..] + b) == fs + b
  {
    assert fs == [fs[0]] + fs[1..];
  }

  /** A field followed by `-`: it is the first field, and the others are
      read from what follows the `-`. */
  lemma FieldsCons(f: seq<char>, t: seq<char>, n: nat)
    requires '-' !in f
    ensures Fields(f + ['-'] + t, n + 1) == [f] + Fields(t, n)
  {
    var u := f + ['-'] + t;
    RunLenIs(u, '-', |f|);
    assert u[..|f|] == f;
    assert u[|f| + 1..] == t;
  }

  /** The last field, with nothing after it. */
  lemma FieldsLast(f: seq<char>, n: nat)
    requires '-' !in f
    ensures Fields(f, n + 1) == [f] + Fields([], n)
  {
    RunLenIs(f, '-', |f|);
    assert f[..|f|] == f;
  }

  lemma {:induction false} FieldsOfEmpty(n: nat)
    ensures Fields([], n) == Blank(n)
  {
    if n > 0 {
      FieldsOfEmpty(n - 1);
    }
  }

  /** The six numbers of a clock specification `YYYY-MM-DD-HH-MM-SS`. */
  datatype DateTime = DateTime(year: int, month: int, day: int, hour: int, minute: int, second: int)

  /** What `parseClockSpec` computes from the text `t`. */
  function ClockOf(t: seq<char>): DateTime
  {
    var f := Fields(t, 6);
    DateTime(ParseInt(f[0]), ParseInt(f[1]), ParseInt(f[2]), ParseInt(f[3]), ParseInt(f[4]), ParseInt(f[5]))
  }

  /** `toIntFast` reads back a number written in decimal. */
  lemma ParseDecimalAlone(n: nat)
    ensures ParseInt(Decimal(n)) == n
  {
    ParseDecimal(n, []);
    assert Decimal(n) + [] == Decimal(n);
  }

  /** Six decimal fields give the date and time they spell. */
  lemma ClockOfDecimals(t: seq<char>, y: nat, mo: nat, d: nat, h: nat, mi: nat, s: nat)
    requires Fields(t, 6) == [Decimal(y), Decimal(mo), Decimal(d), Decimal(h), Decimal(mi), Decimal(s)]
    ensures ClockOf(t) == DateTime(y, mo, d, h, mi, s)
  {
    ParseDecimalAlone(y);
    ParseDecimalAlone(mo);
    ParseDecimalAlone(d);
    ParseDecimalAlone(h);
    ParseDecimalAlone(mi);
    ParseDecimalAlone(s);
  }

  /** Decimal renderings contain no `-`. */
  lemma DecimalsUndashed(fs: seq<seq<char>>)
    requires forall k :: 0 <= k < |fs| ==> AllDigits(fs[k])
    ensures forall k :: 0 <= k < |fs| ==> '-' !in fs[k]
  {
    forall k | 0 <= k < |fs| ensures '-' !in fs[k] {
      assert forall j :: 0 <= j < |fs[k]| ==> IsDigit(fs[k][j]);
    }
  }

  /** A date written in decimal with `-` between its six numbers is read
      back exactly; text after a sixth `-` changes nothing. */
  lemma ClockRoundTrip(y: nat, mo: nat, d: nat, h: nat, mi: nat, s: nat, rest: seq<char>)
    requires rest == [] || rest[0] == '-'
    ensures ClockOf(Join([Decimal(y), Decimal(mo), Decimal(d), Decimal(h), Decimal(mi), Decimal(s)]) + rest)
            == DateTime(y, mo, d, h, mi, s)
  {
    var fs := [Decimal(y), Decimal(mo), Decimal(d), Decimal(h), Decimal(mi), Decimal(s)];
    DecimalsUndashed(fs);
    FieldsOfJoin(fs, 6, rest);
    assert Blank(0) == [] && fs + [] == fs;
    ClockOfDecimals(Join(fs) + rest, y, mo, d, h, mi, s);
  }

  /** A date given without its time reads as midnight: missing fields are
      empty and parse to 0. */
  lemma ClockMissingFields(y: nat, mo: nat, d: nat)
    ensures ClockOf(Join([Decimal(y), Decimal(mo), Decimal(d)])) == DateTime(y, mo, d, 0, 0, 0)
  {
    DateFields([Decimal(y), Decimal(mo), Decimal(d)]);
    ClockOfDate(Join([Decimal(y), Decimal(mo), Decimal(d)]), y, mo, d);
  }

  /** Three fields written out are split back, padded with three empty ones. */
  lemma DateFields(fs: seq<seq<char>>)
    requires |fs| == 3 && forall k :: 0 <= k < 3 ==> AllDigits(fs[k])
    ensures Fields(Join(fs), 6) == [fs[0], fs[1], fs[2], [], [], []]
  {
    DecimalsUndashed(fs);
    FieldsOfJoin(fs, 6, []);
    assert Join(fs) + [] == Join(fs);
    PadThree(fs, Blank(3), []);
  }

  lemma PadThree<T>(a: seq<T>, b: seq<T>, e: T)
    requires |a| == 3 && |b| == 3 && forall k :: 0 <= k < 3 ==> b[k] == e
    ensures a + b == [a[0], a[1], a[2], e, e, e]
  {
  }

  /** Three decimal fields followed by three empty ones give midnight of
      that date. */
  lemma ClockOfDate(t: seq<char>, y: nat, mo: nat, d: nat)
    requires Fields(t, 6) == [Decimal(y), Decimal(mo), Decimal(d), [], [], []]
    ensures ClockOf(t) == DateTime(y, mo, d, 0, 0, 0)
  {
    ParseDecimalAlone(y);
    ParseDecimalAlone(mo);
    ParseDecimalAlone(d);
  }

  /** The state of `parseClockSpec` after `i` fields: the fields cut so far
      are C strings at the indices `t` that end at or before the cursor `p`,
      and the C string at `p` holds the fields still to come. */
  ghost predicate Cutting(m: seq<char>, front: seq<char>, base: nat, p: nat, t: seq<nat>, fs: seq<seq<char>>, i: nat)
  {
    && i == |t| <= 6 && |fs| == 6
    && base <= p && Terminated(m, p) && m[..base] == front
    && fs[i..] == Fields(CStr(m, p), 6 - i)
    && forall j :: 0 <= j < i ==>
         base <= t[j] <= p && Terminated(m, t[j]) && FirstNul(m, t[j]) <= p && CStr(m, t[j]) == fs[j]
  }

  /** `parseClockSpec`: `spec` is the index of the text in `buf`, `None` for
      a null pointer. The fields are cut in place by writing NULs over the
      `-` that end them and then read with `toIntFast`. The source's check
      that every field pointer is non-null can never fail and is left out. */
  method ParseClockSpec(buf: array<char>, spec: Option<nat>) returns (r: Option<DateTime>)
    requires spec.Some? ==> Terminated(buf[..], spec.value)
    modifies buf
    ensures spec.None? ==> r.None? && buf[..] == old(buf[..])
    ensures spec.Some? ==> r == Some(ClockOf(CStr(old(buf[..]), spec.value)))
    ensures spec.Some? ==> buf[..spec.value] == old(buf[..spec.value])
  {
    if spec.None? {
      return None;
    }
    var base := spec.value;
    ghost var text := CStr(buf[..], base);
    ghost var fs := Fields(text, 6);
    var p: nat := base;
    var t: seq<nat> := [];
    ghost var front := buf[..base];
    for i: nat := 0 to 6
      invariant Cutting(buf[..], front, base, p, t, fs, i)
    {
      ghost var m := buf[..];
      var start := p;
      p := FieldEnd(buf[..], p);
      if buf[p] == '-' {
        CutField(m, front, base, start, t, fs, i, p);
        buf[p] := NUL;
        assert buf[..] == m[p := NUL];
        p := p + 1;
      } else {
        LastField(m, front, base, start, t, fs, i, p);
      }
      t := t + [start];
    }
    ghost var m := buf[..];
    AllCut(m, front, base, p, t, fs);
    var year := ToIntFast(buf[..], t[0]);
    var month := ToIntFast(buf[..], t[1]);
    var day := ToIntFast(buf[..], t[2]);
    var hour := ToIntFast(buf[..], t[3]);
    var minute := ToIntFast(buf[..], t[4]);
    var second := ToIntFast(buf[..], t[5]);
    r := Some(DateTime(year, month, day, hour, minute, second));
  }

  /** The field at `p` that a `-` at `e` ends is the next field; the `-`
      becomes its terminator and the cursor moves past it. */
  lemma CutField(m: seq<char>, front: seq<char>, base: nat, p: nat, t: seq<nat>, fs: seq<seq<char>>, i: nat, e: nat)
    requires Cutting(m, front, base, p, t, fs, i) && i < 6
    requires p <= e <= FirstNul(m, p) && m[e] == '-'
    requires forall k :: p <= k < e ==> m[k] != '-'
    ensures Cutting(m[e := NUL], front, base, e + 1, t + [p], fs, i + 1)
  {
    var m' := m[e := NUL];
    var cur := CStr(m, p);
    CutHead(m, p, e);
    var rest := Fields(FieldRest(cur), 5 - i);
    assert fs[i..] == [cur[..RunLen(cur, '-')]] + rest;
    TailOfCons(fs, i, cur[..RunLen(cur, '-')], rest);
    KeepFields(m, m', front, base, p, t, fs, i, e);
    PrefixKept(m, e, base);
    var t' := t + [p];
    forall j | 0 <= j < i + 1
      ensures base <= t'[j] <= e + 1 && Terminated(m', t'[j])
        && FirstNul(m', t'[j]) <= e + 1 && CStr(m', t'[j]) == fs[j]
    {
    }
  }

  /** Writing a NUL over the `-` at `e` that ends the first field of the C
      string at `p` splits it into that field and the rest. */
  lemma CutHead(m: seq<char>, p: nat, e: nat)
    requires Terminated(m, p) && p <= e <= FirstNul(m, p) && m[e] == '-'
    requires forall k :: p <= k < e ==> m[k] != '-'
    ensures var m', cur := m[e := NUL], CStr(m, p);
      && Terminated(m', p) && FirstNul(m', p) == e && CStr(m', p) == cur[..RunLen(cur, '-')]
      && Terminated(m', e + 1) && CStr(m', e + 1) == FieldRest(cur)
  {
    var m' := m[e := NUL];
    FieldSplit(m, p, e);
    NoNulBefore(m, p, p, e);
    Suffix(m, p, e);
    CutFront(m, m', p, e);
    CutBack(m, m', e);
  }

  /** After six fields, each field index names the C string of its field. */
  lemma AllCut(m: seq<char>, front: seq<char>, base: nat, p: nat, t: seq<nat>, fs: seq<seq<char>>)
    requires Cutting(m, front, base, p, t, fs, 6)
    ensures |t| == 6
    ensures Terminated(m, t[0]) && CStr(m, t[0]) == fs[0]
    ensures Terminated(m, t[1]) && CStr(m, t[1]) == fs[1]
    ensures Terminated(m, t[2]) && CStr(m, t[2]) == fs[2]
    ensures Terminated(m, t[3]) && CStr(m, t[3]) == fs[3]
    ensures Terminated(m, t[4]) && CStr(m, t[4]) == fs[4]
    ensures Terminated(m, t[5]) && CStr(m, t[5]) == fs[5]
  {
  }

  /** The scan of `parseClockSpec` over one field: the index of the first
      `-` or terminator at or after `p`. */
  method FieldEnd(m: seq<char>, p: nat) returns (e: nat)
    requires Terminated(m, p)
    ensures p <= e <= FirstNul(m, p) && (m[e] == NUL || m[e] == '-')
    ensures forall k :: p <= k < e ==> m[k] != '-'
  {
    e := p;
    while m[e] != NUL && m[e] != '-'
      invariant p <= e <= FirstNul(m, p)
      invariant forall k :: p <= k < e ==> m[k] != '-'
      decreases FirstNul(m, p) - e
    {
      e := e + 1;
    }
  }

  /** A write at or after `base` keeps what lies before `base`. */
  lemma PrefixKept(m: seq<char>, e: nat, base: nat)
    requires base <= e < |m|
    ensures m[e := NUL][..base] == m[..base]
  {
  }

  /** Dropping the head of the remaining fields. */
  lemma TailOfCons(fs: seq<seq<char>>, i: nat, x: seq<char>, rest: seq<seq<char>>)
    requires i < |fs| && fs[i..] == [x] + rest
    ensures fs[i] == x && fs[i + 1..] == rest
  {
    assert fs[i + 1..] == fs[i..][1..];
  }

  /** Writing a NUL over the `-` at `e` leaves the fields already cut alone. */
  lemma KeepFields(m: seq<char>, m': seq<char>, front: seq<char>, base: nat, p: nat, t: seq<nat>, fs: seq<seq<char>>, i: nat, e: nat)
    requires Cutting(m, front, base, p, t, fs, i) && p <= e < |m| && m[e] == '-' && m' == m[e := NUL]
    ensures forall j :: 0 <= j < i ==>
      base <= (t + [p])[j] <= e + 1 && Terminated(m', (t + [p])[j])
      && FirstNul(m', (t + [p])[j]) <= e + 1 && CStr(m', (t + [p])[j]) == fs[j]
  {
    forall j | 0 <= j < i
      ensures Terminated(m', t[j]) && FirstNul(m', t[j]) <= e + 1 && CStr(m', t[j]) == fs[j]
    {
      assert FirstNul(m, t[j]) != e;
      CStrFrame(m, m', t[j]);
    }
    var t' := t + [p];
    assert forall j :: 0 <= j < i ==> t'[j] == t[j];
  }

  /** The field at `p` that the terminator at `e` ends is the next field and
      the cursor stays on the terminator. */
  lemma LastField(m: seq<char>, front: seq<char>, base: nat, p: nat, t: seq<nat>, fs: seq<seq<char>>, i: nat, e: nat)
    requires Cutting(m, front, base, p, t, fs, i) && i < 6
    requires p <= e <= FirstNul(m, p) && m[e] == NUL
    requires forall k :: p <= k < e ==> m[k] != '-'
    ensures Cutting(m, front, base, e, t + [p], fs, i + 1)
  {
    var cur := CStr(m, p);
    assert e == FirstNul(m, p);
    FieldSplit(m, p, e);
    var rest := Fields(FieldRest(cur), 5 - i);
    assert fs[i..] == [cur[..e - p]] + rest;
    TailOfCons(fs, i, cur[..e - p], rest);
    CStrIs(m, e, 0);
    CStrIs(m, p, e - p);
    var t' := t + [p];
    forall j | 0 <= j < i + 1
      ensures base <= t'[j] <= e && Terminated(m, t'[j])
        && FirstNul(m, t'[j]) <= e && CStr(m, t'[j]) == fs[j]
    {
      if j < i {
        assert t'[j] == t[j];
      }
    }
  }

  /** The first field of the C string at `p` ends at `e`. */
  lemma FieldSplit(m: seq<char>, p: nat, e: nat)
    requires Terminated(m, p) && p <= e <= FirstNul(m, p)
    requires e < FirstNul(m, p) ==> m[e] == '-'
    requires forall k :: p <= k < e ==> m[k] != '-'
    ensures var cur := CStr(m, p);
      && RunLen(cur, '-') == e - p && cur[..e - p] == m[p..e]
      && FieldRest(cur) == if e < FirstNul(m, p) then m[e + 1..FirstNul(m, p)] else []
  {
    var f := FirstNul(m, p);
    var cur := CStr(m, p);
    forall k | 0 <= k < e - p ensures cur[k] != '-' {
      assert cur[k] == m[p + k];
    }
    assert e - p < |cur| ==> cur[e - p] == m[e];
    RunLenIs(cur, '-', e - p);
    var w, x := cur[..e - p], m[p..e];
    forall k | 0 <= k < |w| ensures w[k] == x[k] {
      assert w[k] == m[p + k];
    }
    if e < f {
      var u, v := cur[e - p + 1..], m[e + 1..f];
      forall k | 0 <= k < |u| ensures u[k] == v[k] {
        assert u[k] == m[e + 1 + k];
      }
    }
  }
}
