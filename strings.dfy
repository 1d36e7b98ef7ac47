/** Text helpers with the semantics of the JavaScript string operations the
    application uses: `\s` and `trim`, `indexOf`/`includes`, `split` with a
    string separator, `Array.prototype.join`, `startsWith`, and the decimal
    rendering of a non-negative integer in a template literal. */
module Strings {

  /** The characters JavaScript's `\s` matches and `String.prototype.trim`
      removes: WhiteSpace and LineTerminator of ECMA-262. */
  predicate IsSpace(c: char) {
    || c == ' ' || c == '\t' || c == '\n' || c == '\r'
    || c == '\U{B}' || c == '\U{C}' || c == '\U{A0}' || c == '\U{1680}'
    || ('\U{2000}' <= c <= '\U{200A}')
    || c == '\U{2028}' || c == '\U{2029}' || c == '\U{202F}' || c == '\U{205F}'
    || c == '\U{3000}' || c == '\U{FEFF}'
  }

  /** LineTerminator of ECMA-262: where `^` and `$` match in multiline mode. */
  predicate IsLineTerminator(c: char) {
    c == '\n' || c == '\r' || c == '\U{2028}' || c == '\U{2029}'
  }

  lemma LineTerminatorIsSpace(c: char)
    requires IsLineTerminator(c)
    ensures IsSpace(c)
  {
  }

  predicate IsDigit(c: char) {
    '0' <= c <= '9'
  }

  /** No leading and no trailing white space. */
  predicate IsTrimmed(s: string) {
    s == [] || (!IsSpace(s[0]) && !IsSpace(s[|s| - 1]))
  }

  predicate AllSpace(s: string) {
    forall i :: 0 <= i < |s| ==> IsSpace(s[i])
  }

  /** `s.trimStart()`: the suffix left after dropping leading white space. */
  function TrimStart(s: string): (r: string)
    ensures |r| <= |s| && r == s[|s| - |r|..]
    ensures r == [] || !IsSpace(r[0])
    ensures AllSpace(s[..|s| - |r|])
  {
    if s != [] && IsSpace(s[0]) then TrimStart(s[1..]) else s
  }

  /** `s.trimEnd()`: the prefix left after dropping trailing white space. */
  function TrimEnd(s: string): (r: string)
    ensures |r| <= |s| && r == s[..|r|]
    ensures r == [] || !IsSpace(r[|r| - 1])
    ensures AllSpace(s[|r|..])
  {
    if s != [] && IsSpace(s[|s| - 1]) then TrimEnd(s[..|s| - 1]) else s
  }

  /** `s.trim()`: a contiguous infix of `s` that starts and ends with a
      non-space character, and everything cut away is white space. */
  function Trim(s: string): (r: string)
    ensures IsTrimmed(r)
    ensures |r| <= |s|
    ensures TrimmedInfix(s, r, |s| - |TrimStart(s)|)
  {
    TrimEndKeepsFirst(TrimStart(s));
    TrimInfix(s);
    TrimEnd(TrimStart(s))
  }

  /** `r` is `s[i..i + |r|]`, and what lies before and after it is white
      space. */
  predicate TrimmedInfix(s: string, r: string, i: int) {
    0 <= i && i + |r| <= |s| && r == s[i..i + |r|] && AllSpace(s[..i]) && AllSpace(s[i + |r|..])
  }

  lemma TrimInfix(s: string)
    ensures TrimmedInfix(s, TrimEnd(TrimStart(s)), |s| - |TrimStart(s)|)
  {
    var a := TrimStart(s);
    var i := |s| - |a|;
    InfixOfSuffix(s, a, TrimEnd(a), i);
  }

  lemma InfixOfSuffix(s: string, a: string, r: string, i: int)
    requires 0 <= i <= |s| && a == s[i..] && |r| <= |a| && r == a[..|r|]
    requires AllSpace(s[..i]) && AllSpace(a[|r|..])
    ensures TrimmedInfix(s, r, i)
  {
    assert s[i..i + |r|] == a[..|r|];
    assert s[i + |r|..] == a[|r|..];
  }

  lemma TrimEndKeepsFirst(a: string)
    requires a == [] || !IsSpace(a[0])
    ensures var r := TrimEnd(a); r == [] || !IsSpace(r[0])
  {
  }

  /** `trim` yields the empty string exactly for all-white-space text. */
  lemma TrimEmptyIff(s: string)
    ensures Trim(s) == [] <==> AllSpace(s)
  {
    var a := TrimStart(s);
    assert s[..|s|] == s;
    if a != [] {
      assert s[|s| - |a|] == a[0];
      assert a[..|a|] == a;
    }
  }

  /** The substring `sub` occurs in `s` starting at index `i`. */
  predicate OccursAt(s: string, sub: string, i: int) {
    0 <= i && i + |sub| <= |s| && s[i..i + |sub|] == sub
  }

  /** `s.indexOf(sub, from)`: the first index at or after `from` where `sub`
      occurs, or -1 when there is none. */
  function FindFrom(s: string, sub: string, from: nat): (r: int)
    ensures r == -1 || (from <= r && OccursAt(s, sub, r))
    ensures forall j :: from <= j && (r == -1 || j < r) ==> !OccursAt(s, sub, j)
    decreases |s| - from
  {
    if from + |sub| > |s| then -1
    else if s[from..from + |sub|] == sub then from
    else FindFrom(s, sub, from + 1)
  }

  /** The first `c` at or after `from` is at `k`. */
  lemma FindCharAt(s: string, c: char, from: nat, k: nat)
    requires from <= k < |s| && s[k] == c
    requires forall j :: from <= j < k ==> s[j] != c
    ensures FindFrom(s, [c], from) == k
  {
    forall j | from <= j < k ensures !OccursAt(s, [c], j) {
      assert s[j..j + 1] == [s[j]];
    }
    assert s[k..k + 1] == [c];
    assert OccursAt(s, [c], k);
    var r := FindFrom(s, [c], from);
    assert r != -1 && !(r < k) && !(r > k);
  }

  /** `s.includes(sub)`. */
  predicate Contains(s: string, sub: string) {
    FindFrom(s, sub, 0) >= 0
  }

  lemma ContainsIff(s: string, sub: string)
    ensures Contains(s, sub) <==> exists i :: OccursAt(s, sub, i)
  {
  }

  /** A text without the first character of `sub` does not contain `sub`. */
  lemma NotContainsWithoutHead(s: string, sub: string)
    requires sub != [] && sub[0] !in s
    ensures !Contains(s, sub)
  {
    forall j | 0 <= j && j + |sub| <= |s| ensures !OccursAt(s, sub, j) {
      assert s[j..j + |sub|][0] == s[j];
    }
  }

  /** An occurrence of `sub` in `a + b` whose first character does not occur
      in `a` lies wholly inside `b`. */
  lemma ContainsAfterPrefix(a: string, b: string, sub: string)
    requires sub != [] && sub[0] !in a
    ensures Contains(a + b, sub) <==> Contains(b, sub)
  {
    if Contains(a + b, sub) {
      OccurrenceAfterPrefix(a, b, sub, FindFrom(a + b, sub, 0));
    }
    if Contains(b, sub) {
      OccurrenceShifted(a, b, sub, FindFrom(b, sub, 0));
    }
  }

  lemma OccurrenceAfterPrefix(a: string, b: string, sub: string, i: int)
    requires sub != [] && sub[0] !in a
    requires OccursAt(a + b, sub, i)
    ensures Contains(b, sub)
  {
    assert (a + b)[i] == sub[0];
    assert forall j :: 0 <= j < |a| ==> (a + b)[j] == a[j];
    assert i >= |a|;
    var k := i - |a|;
    assert (a + b)[|a|..] == b;
    assert (a + b)[i..i + |sub|] == (a + b)[|a|..][k..k + |sub|];
    assert OccursAt(b, sub, k);
  }

  lemma OccurrenceShifted(a: string, b: string, sub: string, i: int)
    requires OccursAt(b, sub, i)
    ensures Contains(a + b, sub)
  {
    assert (a + b)[|a|..] == b;
    assert (a + b)[i + |a|..i + |a| + |sub|] == (a + b)[|a|..][i..i + |sub|];
    assert OccursAt(a + b, sub, i + |a|);
  }

  /** `s.startsWith(p)`. */
  predicate StartsWith(s: string, p: string) {
    |p| <= |s| && s[..|p|] == p
  }

  lemma StartsWithConcat(p: string, y: string)
    ensures StartsWith(p + y, p)
  {
    assert (p + y)[..|p|] == p;
  }

  lemma StartsWithAppend(x: string, p: string, y: string)
    requires StartsWith(x, p)
    ensures StartsWith(x + y, p)
  {
    assert (x + y)[..|p|] == x[..|p|];
  }

  lemma SuffixOfConcat(x: string, y: string)
    ensures |y| <= |x + y| && (x + y)[|x + y| - |y|..] == y
  {
    assert (x + y)[|x|..] == y;
  }

  /** `s.split(sep)` for a non-empty separator: the pieces between successive
      non-overlapping occurrences of `sep`, scanned from the left. */
  function Split(s: string, sep: string): (parts: seq<string>)
    requires sep != []
    ensures |parts| >= 1
    decreases |s|, 1
  {
    SplitAt(s, sep, FindFrom(s, sep, 0))
  }

  /** The split of `s` once the first occurrence of `sep` is known to be at
      `i` (or to be missing, when `i` is negative). */
  function SplitAt(s: string, sep: string, i: int): (parts: seq<string>)
    requires sep != [] && (i < 0 || i + |sep| <= |s|)
    ensures |parts| >= 1
    decreases |s|, 0
  {
    if i < 0 then [s]
    else [s[..i]] + Split(s[i + |sep|..], sep)
  }

  /** `parts.join(sep)`. */
  function Join(parts: seq<string>, sep: string): string {
    if |parts| == 0 then ""
    else if |parts| == 1 then parts[0]
    else parts[0] + sep + Join(parts[1..], sep)
  }

  /** Splitting and re-joining with the same separator gives the text back. */
  lemma {:induction false} JoinSplit(s: string, sep: string)
    requires sep != []
    ensures Join(Split(s, sep), sep) == s
    decreases |s|
  {
    var i := FindFrom(s, sep, 0);
    if i >= 0 {
      SplitUnfold(s, sep);
      var rest := s[i + |sep|..];
      JoinSplit(rest, sep);
      JoinCons(s[..i], Split(rest, sep), sep);
      AroundOccurrence(s, sep, i);
    }
  }

  /** A text is the part before an occurrence, the occurrence and the part
      after it. */
  lemma AroundOccurrence(s: string, sub: string, i: int)
    requires OccursAt(s, sub, i)
    ensures s[..i] + sub + s[i + |sub|..] == s
  {
    assert s == s[..i] + s[i..i + |sub|] + s[i + |sub|..];
  }

  lemma JoinCons(first: string, parts: seq<string>, sep: string)
    requires |parts| >= 1
    ensures Join([first] + parts, sep) == first + sep + Join(parts, sep)
  {
    assert ([first] + parts)[1..] == parts;
  }

  /** With a one-character separator, no piece contains it. */
  lemma {:induction false} SplitPiecesAvoidSeparator(s: string, c: char)
    ensures forall p :: p in Split(s, [c]) ==> c !in p
    decreases |s|
  {
    var i := FindFrom(s, [c], 0);
    if i < 0 {
      forall j | 0 <= j < |s| ensures s[j] != c {
        assert !OccursAt(s, [c], j);
      }
    } else {
      SplitPiecesAvoidSeparator(s[i + 1..], c);
      forall j | 0 <= j < i ensures s[j] != c {
        assert !OccursAt(s, [c], j);
      }
    }
  }

  /** The last piece of a split is a suffix of the text. */
  lemma {:induction false} SplitLastPiece(s: string, sep: string)
    requires sep != []
    ensures LastPieceIsSuffix(s, Split(s, sep))
    decreases |s|
  {
    var i := FindFrom(s, sep, 0);
    if i >= 0 {
      var rest := s[i + |sep|..];
      SplitLastPiece(rest, sep);
      var parts := Split(rest, sep);
      SplitUnfold(s, sep);
      LastPieceShift(s, i + |sep|, s[..i], parts);
    }
  }

  predicate LastPieceIsSuffix(s: string, parts: seq<string>) {
    |parts| >= 1 && |parts[|parts| - 1]| <= |s| && parts[|parts| - 1] == s[|s| - |parts[|parts| - 1]|..]
  }

  lemma SplitMany(s: string, sep: string)
    requires sep != [] && |Split(s, sep)| > 1
    ensures FindFrom(s, sep, 0) >= 0
  {
  }

  lemma SplitSingle(s: string, sep: string)
    requires sep != [] && |Split(s, sep)| == 1
    ensures Split(s, sep) == [s]
  {
  }

  lemma SplitUnfold(s: string, sep: string)
    requires sep != [] && FindFrom(s, sep, 0) >= 0
    ensures var i := FindFrom(s, sep, 0);
      i + |sep| <= |s| && Split(s, sep) == [s[..i]] + Split(s[i + |sep|..], sep)
  {
    var i := FindFrom(s, sep, 0);
    assert OccursAt(s, sep, i);
    assert Split(s, sep) == SplitAt(s, sep, i);
    assert SplitAt(s, sep, i) == [s[..i]] + Split(s[i + |sep|..], sep);
  }

  lemma LastPieceShift(s: string, m: nat, first: string, parts: seq<string>)
    requires m <= |s| && LastPieceIsSuffix(s[m..], parts)
    ensures LastPieceIsSuffix(s, [first] + parts)
  {
    assert ([first] + parts)[|parts|] == parts[|parts| - 1];
    SuffixOfSuffix(s, m, |parts[|parts| - 1]|);
  }

  /** When a split yields more than one piece, the separator sits right
      before the last piece. */
  lemma {:induction false} SplitLastPieceAfterSeparator(s: string, sep: string)
    requires sep != []
    requires |Split(s, sep)| > 1
    ensures SeparatorBeforeLast(s, Split(s, sep), sep)
    decreases |s|
  {
    SplitMany(s, sep);
    SplitUnfold(s, sep);
    var i := FindFrom(s, sep, 0);
    var rest := s[i + |sep|..];
    var parts := Split(rest, sep);
    if |parts| == 1 {
      SplitSingle(rest, sep);
    } else {
      SplitLastPieceAfterSeparator(rest, sep);
    }
    SeparatorBeforeLastStep(s, sep, i, parts);
  }

  predicate SeparatorBeforeLast(s: string, parts: seq<string>, sep: string) {
    |parts| >= 1 && |parts[|parts| - 1]| + |sep| <= |s| &&
    s[|s| - |parts[|parts| - 1]| - |sep|..|s| - |parts[|parts| - 1]|] == sep
  }

  lemma SeparatorBeforeLastStep(s: string, sep: string, i: nat, parts: seq<string>)
    requires i + |sep| <= |s| && OccursAt(s, sep, i) && |parts| >= 1
    requires |parts| == 1 ==> parts == [s[i + |sep|..]]
    requires |parts| > 1 ==> SeparatorBeforeLast(s[i + |sep|..], parts, sep)
    ensures SeparatorBeforeLast(s, [s[..i]] + parts, sep)
  {
    if |parts| == 1 {
      SeparatorBeforeSinglePiece(s, i, sep, s[..i], parts);
    } else {
      SeparatorShift(s, i + |sep|, sep, s[..i], parts);
    }
  }

  lemma SeparatorBeforeSinglePiece(s: string, i: nat, sep: string, first: string, parts: seq<string>)
    requires i + |sep| <= |s| && OccursAt(s, sep, i) && parts == [s[i + |sep|..]]
    ensures SeparatorBeforeLast(s, [first] + parts, sep)
  {
    assert ([first] + parts)[1] == s[i + |sep|..];
  }

  lemma SeparatorShift(s: string, m: nat, sep: string, first: string, parts: seq<string>)
    requires m <= |s| && SeparatorBeforeLast(s[m..], parts, sep)
    ensures SeparatorBeforeLast(s, [first] + parts, sep)
  {
    var n := |parts[|parts| - 1]|;
    assert ([first] + parts)[|parts|] == parts[|parts| - 1];
    assert s[|s| - n - |sep|..|s| - n] == s[m..][|s| - m - n - |sep|..|s| - m - n];
  }

  lemma SuffixOfSuffix(s: string, m: nat, n: nat)
    requires m <= |s| && n <= |s| - m
    ensures s[m..][|s| - m - n..] == s[|s| - n..]
  {
  }

  /** A one-character-separator join splits back into its pieces. */
  lemma {:induction false} SplitJoin(parts: seq<string>, c: char)
    requires |parts| >= 1
    requires forall p :: p in parts ==> c !in p
    ensures Split(Join(parts, [c]), [c]) == parts
    decreases |parts|
  {
    var s := Join(parts, [c]);
    var p0 := parts[0];
    forall j | 0 <= j < |p0| ensures !OccursAt(s, [c], j) {
      assert parts[0] in parts;
      if |parts| > 1 { assert s == p0 + [c] + Join(parts[1..], [c]); }
      assert s[j] == p0[j];
    }
    if |parts| == 1 {
      assert FindFrom(s, [c], 0) == -1;
    } else {
      var tail := Join(parts[1..], [c]);
      assert s == p0 + [c] + tail;
      assert OccursAt(s, [c], |p0|);
      assert FindFrom(s, [c], 0) == |p0|;
      assert s[|p0| + 1..] == tail;
      assert s[..|p0|] == p0;
      SplitJoin(parts[1..], c);
    }
  }

  // ---------------------------------------------------------------------
  // Decimal rendering of non-negative integers

  function DigitChar(d: nat): (c: char)
    requires d < 10
    ensures IsDigit(c)
  {
    "0123456789"[d]
  }

  function DigitValue(c: char): nat
    requires IsDigit(c)
  {
    (c as int) - ('0' as int)
  }

  predicate AllDigits(s: string) {
    forall i :: 0 <= i < |s| ==> IsDigit(s[i])
  }

  /** `${n}` for a non-negative integer: its decimal digits, most significant
      first, without leading zeros. */
  function NatToString(n: nat): (r: string)
    ensures |r| >= 1 && AllDigits(r)
    ensures |r| > 1 ==> r[0] != '0'
  {
    if n < 10 then [DigitChar(n)] else NatToString(n / 10) + [DigitChar(n % 10)]
  }

  /** The value of a string of decimal digits. */
  function ParseDigits(s: string): nat
    requires AllDigits(s)
  {
    if s == [] then 0 else 10 * ParseDigits(s[..|s| - 1]) + DigitValue(s[|s| - 1])
  }

  /** Rendering then reading back gives the number: the rendering is exact. */
  lemma {:induction false} ParseNatToString(n: nat)
    ensures ParseDigits(NatToString(n)) == n
  {
    if n >= 10 {
      ParseNatToString(n / 10);
      var r := NatToString(n);
      assert r[..|r| - 1] == NatToString(n / 10);
    }
  }

  lemma NatToStringInjective(m: nat, n: nat)
    requires NatToString(m) == NatToString(n)
    ensures m == n
  {
    ParseNatToString(m);
    ParseNatToString(n);
  }

  /** Three-digit numbers render as exactly three characters. */
  lemma NatToStringThreeDigits(n: nat)
    requires 100 <= n <= 999
    ensures |NatToString(n)| == 3
  {
    var q := n / 10;
    assert 10 <= q < 100;
    assert |NatToString(q / 10)| == 1;
    assert |NatToString(q)| == 2;
  }
}
