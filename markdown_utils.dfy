/** `markdownToPlainText` and `formatChatAnswer`: a fixed chain of global
    regular-expression replacements that strip Markdown syntax, then a trim.
    Each replacement is a scanner with the semantics of
    `String.prototype.replace` with a global regex: at each position the
    pattern is tried; on a match the replacement is emitted and scanning
    resumes after the match, otherwise one character is copied. In the
    multiline passes `^` holds at the start of the text and after a line
    terminator of the input, and `$` at its end and before a line
    terminator. Where a pattern could backtrack, the scanner takes the one
    match the regex engine finds (see each pass). */
module MarkdownUtils {
  import opened Json
  import opened Strings

  /** Every character of `r` occurs in `s` or in `extra`. */
  predicate CharsFrom(r: string, s: string, extra: string) {
    forall c :: c in r ==> c in s || c in extra
  }

  lemma CharsFromTrans(r: string, s: string, t: string, e1: string, e2: string, e: string)
    requires CharsFrom(r, s, e1) && CharsFrom(s, t, e2)
    requires forall c :: c in e1 || c in e2 ==> c in e
    ensures CharsFrom(r, t, e)
  {
  }

  lemma CharsFromSlice(s: string, i: nat, j: nat)
    requires i <= j <= |s|
    ensures CharsFrom(s[i..j], s, [])
  {
    forall c | c in s[i..j] ensures c in s {
      var k :| 0 <= k < j - i && s[i..j][k] == c;
      assert s[i + k] == c;
    }
  }

  lemma CharsFromSuffix(s: string, i: nat, r: string, extra: string)
    requires i <= |s| && CharsFrom(r, s[i..], extra)
    ensures CharsFrom(r, s, extra)
  {
    CharsFromSlice(s, i, |s|);
  }

  /** The length of the longest run of characters in the class, from `i`
      (`RunSpan` states what the run is). */
  function Run(s: string, i: nat, inClass: char -> bool): (n: nat)
    requires i <= |s|
    ensures i + n <= |s|
    decreases |s| - i
  {
    if i < |s| && inClass(s[i]) then 1 + Run(s, i + 1, inClass) else 0
  }

  /** The run is all in the class and stops at the end or at a character
      outside it. */
  lemma {:induction false} RunSpan(s: string, i: nat, inClass: char -> bool)
    requires i <= |s|
    ensures forall k :: i <= k < i + Run(s, i, inClass) ==> inClass(s[k])
    ensures i + Run(s, i, inClass) == |s| || !inClass(s[i + Run(s, i, inClass)])
    decreases |s| - i
  {
    if i < |s| && inClass(s[i]) {
      RunSpan(s, i + 1, inClass);
    }
  }

  /** `$` in multiline mode at position `p`. */
  predicate AtLineEnd(s: string, p: nat) {
    p == |s| || (p < |s| && IsLineTerminator(s[p]))
  }

  /** Whether `^` holds after a consumed stretch ending in `c`. */
  predicate StartsLine(c: char) {
    IsLineTerminator(c)
  }

  // ---------------------------------------------------------------------
  // /```[\s\S]*?```/g -> ''

  /** The lazy body stops at the first fence after the opening one; with
      no closing fence after the first opening one there is none after any
      later one either, so the text is left as it is from there. */
  function RemoveCodeBlocks(s: string): (r: string)
    ensures CharsFrom(r, s, [])
    decreases |s|
  {
    var i := FindFrom(s, "```", 0);
    if i < 0 then s
    else
      var j := FindFrom(s, "```", i + 3);
      if j < 0 then s
      else
        CharsFromSlice(s, 0, i);
        CharsFromSuffix(s, j + 3, RemoveCodeBlocks(s[j + 3..]), []);
        s[..i] + RemoveCodeBlocks(s[j + 3..])
  }

  // ---------------------------------------------------------------------
  // /`([^`]+)`/g, /\*\*([^*]+)\*\*/g, /\*([^*]+)\*/g, /__([^_]+)__/g,
  // /_([^_]+)_/g, /~~([^~]+)~~/g -> '$1'

  /** `delim`, one or more characters other than its first, then `delim`
      again: the content runs to the next occurrence of that character, so
      no backtracking can give another match. */
  function Unwrap(s: string, delim: string): (r: string)
    requires delim != []
    ensures CharsFrom(r, s, [])
    decreases |s|
  {
    if s == [] then []
    else
      var k := FindFrom(s, [delim[0]], |delim|);
      if StartsWith(s, delim) && k > |delim| && OccursAt(s, delim, k) then
        CharsFromSlice(s, |delim|, k);
        CharsFromSuffix(s, k + |delim|, Unwrap(s[k + |delim|..], delim), []);
        s[|delim|..k] + Unwrap(s[k + |delim|..], delim)
      else
        CharsFromSuffix(s, 1, Unwrap(s[1..], delim), []);
        [s[0]] + Unwrap(s[1..], delim)
  }

  // ---------------------------------------------------------------------
  // /\[([^\]]+)\]\([^)]+\)/g, /\[([^\]]+)\]\[[^\]]*\]/g -> '$1'
  // /!\[([^\]]*)\]\([^)]+\)/g -> '$1'

  /** A bracketed label opening at `open` (where `s[open] == '['`) and
      followed by a target in `targetOpen … targetClose`: the label runs to
      the first `]` and must have at least `minLabel` characters, the target
      to the first `targetClose` after `targetOpen` and at least
      `minTarget`. Returns where the label ends and where the match ends. */
  function Bracketed(s: string, open: nat, minLabel: nat, targetOpen: char, targetClose: char, minTarget: nat)
    : (m: Option<(nat, nat)>)
    requires open < |s|
    ensures m.Some? ==> open + 1 <= m.value.0 && m.value.0 + 2 <= m.value.1 <= |s|
  {
    var k := FindFrom(s, "]", open + 1);
    if s[open] == '[' && k >= open + 1 + minLabel && k + 1 < |s| && s[k + 1] == targetOpen then
      var e := FindFrom(s, [targetClose], k + 2);
      if e >= k + 2 + minTarget then Some((k, e + 1)) else None
    else None
  }

  /** The two link passes (`[t](u)`, then `[t][ref]`). */
  function Links(s: string, targetOpen: char, targetClose: char, minTarget: nat): (r: string)
    ensures CharsFrom(r, s, [])
    decreases |s|
  {
    if s == [] then []
    else
      var m := Bracketed(s, 0, 1, targetOpen, targetClose, minTarget);
      if m.Some? then
        CharsFromSlice(s, 1, m.value.0);
        CharsFromSuffix(s, m.value.1, Links(s[m.value.1..], targetOpen, targetClose, minTarget), []);
        s[1..m.value.0] + Links(s[m.value.1..], targetOpen, targetClose, minTarget)
      else
        CharsFromSuffix(s, 1, Links(s[1..], targetOpen, targetClose, minTarget), []);
        [s[0]] + Links(s[1..], targetOpen, targetClose, minTarget)
  }

  /** The image pass `![alt](u)`, whose alt text may be empty. */
  function Images(s: string): (r: string)
    ensures CharsFrom(r, s, [])
    decreases |s|
  {
    if s == [] then []
    else
      var m := if |s| >= 2 && s[0] == '!' then Bracketed(s, 1, 0, '(', ')', 1) else None;
      if m.Some? then
        CharsFromSlice(s, 2, m.value.0);
        CharsFromSuffix(s, m.value.1, Images(s[m.value.1..]), []);
        s[2..m.value.0] + Images(s[m.value.1..])
      else
        CharsFromSuffix(s, 1, Images(s[1..]), []);
        [s[0]] + Images(s[1..])
  }

  // ---------------------------------------------------------------------
  // Line-anchored passes. `atStart` says whether `^` holds at the start
  // of `s`; after a consumed stretch it holds when the stretch ended in a
  // line terminator.

  /** The length of a match of a line-anchored pattern at the start of `s`
      (0 for none). */
  function LineMatch(s: string, pattern: LinePattern): (n: nat)
    ensures n <= |s|
  {
    match pattern
    case Heading =>
      // ^#{1,6}\s+ : seven or more '#' leave a '#' where \s is needed.
      var h := Run(s, 0, IsHash);
      if 1 <= h <= 6 && h < |s| && IsSpace(s[h]) then h + Run(s, h, IsSpace) else 0
    case Quote =>
      // ^>\s+
      if |s| >= 2 && s[0] == '>' && IsSpace(s[1]) then 1 + Run(s, 1, IsSpace) else 0
    case Bullet =>
      // ^[\s]*[-*+]\s+ : the leading run is greedy; a shorter one would
      // leave a white-space character where [-*+] is needed.
      var w := Run(s, 0, IsSpace);
      if w + 1 < |s| && s[w] in "-*+" && IsSpace(s[w + 1]) then w + 1 + Run(s, w + 1, IsSpace) else 0
    case Numbered =>
      // ^[\s]*\d+\.\s+
      var w := Run(s, 0, IsSpace);
      var d := Run(s, w, IsDigit);
      if d >= 1 && w + d + 1 < |s| && s[w + d] == '.' && IsSpace(s[w + d + 1])
      then w + d + 1 + Run(s, w + d + 1, IsSpace) else 0
    case Rule =>
      // ^[-*_]{3,}$ : a shorter run would leave a rule character where $
      // is needed.
      var n := Run(s, 0, IsRuleChar);
      if n >= 3 && AtLineEnd(s, n) then n else 0
    case TableRule =>
      // ^[-\s|:]+$ : the class holds line terminators, so the greedy run
      // may cross lines; the engine backs off to the longest prefix of it
      // that ends at a line end.
      LongestToLineEnd(s, Run(s, 0, IsTableRuleChar))
  }

  datatype LinePattern = Heading | Quote | Bullet | Numbered | Rule | TableRule

  predicate IsBlank(c: char) {
    c == ' ' || c == '\t'
  }

  predicate IsHash(c: char) {
    c == '#'
  }

  predicate IsRuleChar(c: char) {
    c in "-*_"
  }

  predicate IsTableRuleChar(c: char) {
    c == '-' || IsSpace(c) || c == '|' || c == ':'
  }

  predicate IsLineFeed(c: char) {
    c == '\n'
  }


  /** The largest `n` in 1..`limit` at which `$` holds, or 0
      (`NoLineEndBeyond` states that it is the largest). */
  function LongestToLineEnd(s: string, limit: nat): (n: nat)
    requires limit <= |s|
    ensures n <= limit
    ensures n > 0 ==> AtLineEnd(s, n)
  {
    if limit == 0 then 0
    else if AtLineEnd(s, limit) then limit
    else LongestToLineEnd(s, limit - 1)
  }

  lemma {:induction false} NoLineEndBeyond(s: string, limit: nat)
    requires limit <= |s|
    ensures forall k :: LongestToLineEnd(s, limit) < k <= limit ==> !AtLineEnd(s, k)
  {
    if limit > 0 && !AtLineEnd(s, limit) {
      NoLineEndBeyond(s, limit - 1);
    }
  }

  /** A line-anchored global replacement by `replacement`: the pattern is
      tried only where `^` holds. */
  function AnchoredPass(s: string, atStart: bool, pattern: LinePattern, replacement: string): (r: string)
    ensures CharsFrom(r, s, replacement)
    decreases |s|, 1
  {
    if s == [] then []
    else if atStart then FromLineStart(s, pattern, replacement)
    else
      CharsFromSuffix(s, 1, AnchoredPass(s[1..], StartsLine(s[0]), pattern, replacement), replacement);
      [s[0]] + AnchoredPass(s[1..], StartsLine(s[0]), pattern, replacement)
  }

  /** The pass at a line start: a match is replaced, otherwise one
      character is copied. */
  function FromLineStart(s: string, pattern: LinePattern, replacement: string): (r: string)
    requires s != []
    ensures CharsFrom(r, s, replacement)
    decreases |s|, 0
  {
    var n := LineMatch(s, pattern);
    if n > 0 then
      CharsFromSuffix(s, n, AnchoredPass(s[n..], StartsLine(s[n - 1]), pattern, replacement), replacement);
      replacement + AnchoredPass(s[n..], StartsLine(s[n - 1]), pattern, replacement)
    else
      CharsFromSuffix(s, 1, AnchoredPass(s[1..], StartsLine(s[0]), pattern, replacement), replacement);
      [s[0]] + AnchoredPass(s[1..], StartsLine(s[0]), pattern, replacement)
  }

  // ---------------------------------------------------------------------
  // /\|/g -> ' '

  /** Each bar becomes a space in its place; every other character stays
      where it is, so a text without bars is unchanged. */
  function Bars(s: string): (r: string)
    ensures |r| == |s|
    ensures forall i :: 0 <= i < |s| ==> r[i] == if s[i] == '|' then ' ' else s[i]
    ensures '|' !in r
    ensures CharsFrom(r, s, " ")
    ensures '|' !in s ==> r == s
  {
    seq(|s|, i requires 0 <= i < |s| => if s[i] == '|' then ' ' else s[i])
  }

  // ---------------------------------------------------------------------
  // /\n{3,}/g -> '\n\n'

  /** Three or more line feeds in a row become two, so no three are left
      in a row and a text without three in a row is unchanged
      (`BlankRunCollapsed` states that a run becomes exactly two); a text
      that does not open with two line feeds gives one that does not
      either, and the first character other than a line feed is kept. */
  function BlankLines(s: string): (r: string)
    ensures CharsFrom(r, s, [])
    ensures NoTripleLineFeed(r)
    ensures NoTripleLineFeed(s) ==> r == s
    ensures s != [] && s[0] != '\n' ==> r != [] && r[0] == s[0]
    ensures !TwoLineFeeds(s) ==> !TwoLineFeeds(r)
    decreases |s|
  {
    if s == [] then []
    else
      var n := Run(s, 0, IsLineFeed);
      RunSpan(s, 0, IsLineFeed);
      if n >= 3 then
        assert s[0] == '\n' && TripleLineFeedAt(s, 0);
        CharsFromSuffix(s, n, BlankLines(s[n..]), []);
        var t := BlankLines(s[n..]);
        NoTripleCons('\n', t);
        NoTripleCons('\n', ['\n'] + t);
        assert "\n\n" + t == ['\n'] + (['\n'] + t);
        "\n\n" + t
      else
        CharsFromSuffix(s, 1, BlankLines(s[1..]), []);
        var t := BlankLines(s[1..]);
        assert n < 3 && s[0] == '\n' ==> !TwoLineFeeds(s[1..]);
        NoTripleCons(s[0], t);
        NoTripleTail(s);
        assert s == [s[0]] + s[1..];
        [s[0]] + t
  }

  predicate TwoLineFeeds(s: string) {
    |s| >= 2 && s[0] == '\n' && s[1] == '\n'
  }

  predicate TripleLineFeedAt(s: string, i: int)
    requires 0 <= i < |s| - 2
  {
    s[i] == '\n' && s[i + 1] == '\n' && s[i + 2] == '\n'
  }

  predicate NoTripleLineFeed(s: string) {
    forall i :: 0 <= i < |s| - 2 ==> !TripleLineFeedAt(s, i)
  }

  lemma NoTripleTail(s: string)
    requires s != []
    ensures NoTripleLineFeed(s) ==> NoTripleLineFeed(s[1..])
  {
    if NoTripleLineFeed(s) {
      forall i | 0 <= i < |s| - 3 ensures !TripleLineFeedAt(s[1..], i) {
        assert !TripleLineFeedAt(s, i + 1);
      }
    }
  }

  lemma NoTripleCons(c: char, t: string)
    requires NoTripleLineFeed(t)
    requires c == '\n' ==> !TwoLineFeeds(t)
    ensures NoTripleLineFeed([c] + t)
  {
    var s := [c] + t;
    forall i | 0 <= i < |s| - 2 ensures !TripleLineFeedAt(s, i) {
      if i > 0 {
        assert !TripleLineFeedAt(t, i - 1);
      }
    }
  }

  /** No run of three line feeds survives the pass. */
  lemma BlankLinesLeaveNoTriple(s: string)
    ensures !Contains(BlankLines(s), "\n\n\n")
  {
    NoTripleNotContained(BlankLines(s));
  }

  lemma NoTripleNotContained(r: string)
    requires NoTripleLineFeed(r)
    ensures !Contains(r, "\n\n\n")
  {
    ContainsIff(r, "\n\n\n");
    forall i | 0 <= i && i + 3 <= |r| ensures !OccursAt(r, "\n\n\n", i) {
      assert !TripleLineFeedAt(r, i);
      assert r[i..i + 3] == [r[i], r[i + 1], r[i + 2]];
    }
  }

  // ---------------------------------------------------------------------
  // /^[ \t]+|[ \t]+$/gm -> ''

  /** The first alternative at a line start; otherwise a run of blanks that
      reaches the line end (a run that does not cannot match from any of
      its positions). Only blanks are removed, and afterwards no line
      starts or ends with one; a text whose lines already have clean edges
      is unchanged. */
  function EdgeBlanks(s: string, atStart: bool): (r: string)
    ensures CharsFrom(r, s, [])
    ensures NonBlanks(r) == NonBlanks(s)
    ensures NoBlankAtLineEnd(r) && NoBlankAfterLineTerminator(r)
    ensures CleanEdges(s, atStart) ==> r == s
    ensures atStart && r != [] ==> !IsBlank(r[0])
    ensures s != [] && !(Run(s, 0, IsBlank) > 0 && (atStart || AtLineEnd(s, Run(s, 0, IsBlank)))) ==>
      r != [] && r[0] == s[0]
    decreases |s|
  {
    if s == [] then []
    else
      var w := Run(s, 0, IsBlank);
      RunSpan(s, 0, IsBlank);
      if w > 0 && (atStart || AtLineEnd(s, w)) then
        RunIs(s[w..], 0, IsBlank, 0);
        CharsFromSuffix(s, w, EdgeBlanks(s[w..], false), []);
        BlankPrefixSkipped(s, w);
        assert CleanEdges(s, atStart) ==> BlankNotLast(s, w - 1);
        EdgeBlanks(s[w..], false)
      else
        CharsFromSuffix(s, 1, EdgeBlanks(s[1..], StartsLine(s[0])), []);
        var t := EdgeBlanks(s[1..], StartsLine(s[0]));
        BlankRunShift(s);
        ConsUnpadded(s[0], t);
        CleanTail(s, atStart);
        assert ([s[0]] + t)[1..] == t && s == [s[0]] + s[1..];
        [s[0]] + t
  }

  /** The characters of `s` other than blanks, in order. */
  function NonBlanks(s: string): string
    decreases |s|
  {
    if s == [] then [] else (if IsBlank(s[0]) then [] else [s[0]]) + NonBlanks(s[1..])
  }

  lemma {:induction false} BlankPrefixSkipped(s: string, w: nat)
    requires w <= |s| && forall k :: 0 <= k < w ==> IsBlank(s[k])
    ensures NonBlanks(s[w..]) == NonBlanks(s)
    decreases w
  {
    if w > 0 {
      BlankPrefixSkipped(s[1..], w - 1);
      assert s[1..][w - 1..] == s[w..];
    }
  }

  /** No line of `s` starts or ends with a blank; the first line counts
      only when `atStart`. */
  predicate CleanEdges(s: string, atStart: bool) {
    NoBlankAtLineEnd(s) && NoBlankAfterLineTerminator(s) && (atStart && s != [] ==> !IsBlank(s[0]))
  }

  lemma CleanTail(s: string, atStart: bool)
    requires s != []
    ensures CleanEdges(s, atStart) ==> CleanEdges(s[1..], StartsLine(s[0]))
  {
    if CleanEdges(s, atStart) {
      var t := s[1..];
      forall i | 0 <= i < |t| ensures BlankNotLast(t, i) {
        assert BlankNotLast(s, i + 1);
      }
      forall i | 0 < i < |t| ensures NotBlankAfterBreak(t, i) {
        assert NotBlankAfterBreak(s, i + 1);
      }
      if |s| > 1 {
        assert NotBlankAfterBreak(s, 1);
      }
    }
  }

  /** A run of blanks seen from its second character. */
  lemma BlankRunShift(s: string)
    requires s != []
    ensures IsBlank(s[0]) ==>
      Run(s[1..], 0, IsBlank) == Run(s, 0, IsBlank) - 1 &&
      AtLineEnd(s[1..], Run(s, 0, IsBlank) - 1) == AtLineEnd(s, Run(s, 0, IsBlank))
  {
    if IsBlank(s[0]) {
      var w := Run(s, 0, IsBlank);
      RunSpan(s, 0, IsBlank);
      RunIs(s[1..], 0, IsBlank, w - 1);
    }
  }

  /** Every blank is followed, on its line, by another character. */
  predicate NoBlankAtLineEnd(r: string) {
    forall i :: 0 <= i < |r| ==> BlankNotLast(r, i)
  }

  predicate BlankNotLast(r: string, i: nat)
    requires i < |r|
  {
    IsBlank(r[i]) ==> i + 1 < |r| && !IsLineTerminator(r[i + 1])
  }

  /** No line after the first opens with a blank. */
  predicate NoBlankAfterLineTerminator(r: string) {
    forall i :: 0 < i < |r| ==> NotBlankAfterBreak(r, i)
  }

  predicate NotBlankAfterBreak(r: string, i: nat)
    requires 0 < i < |r|
  {
    IsLineTerminator(r[i - 1]) ==> !IsBlank(r[i])
  }

  lemma ConsUnpadded(c: char, t: string)
    requires NoBlankAtLineEnd(t) && NoBlankAfterLineTerminator(t)
    requires IsBlank(c) ==> t != [] && !IsLineTerminator(t[0])
    requires IsLineTerminator(c) && t != [] ==> !IsBlank(t[0])
    ensures NoBlankAtLineEnd([c] + t) && NoBlankAfterLineTerminator([c] + t)
  {
    var s := [c] + t;
    forall i | 0 <= i < |s| ensures BlankNotLast(s, i) {
      if i > 0 {
        assert BlankNotLast(t, i - 1);
        assert s[i] == t[i - 1];
      }
    }
    forall i | 0 < i < |s| ensures NotBlankAfterBreak(s, i) {
      if i > 1 {
        assert NotBlankAfterBreak(t, i - 1);
        assert s[i - 1] == t[i - 2];
      }
    }
  }

  /** The run of a class from `i` has length `n` when `n` characters of the
      class are followed by the end or by a character outside it. */
  lemma RunIs(s: string, i: nat, inClass: char -> bool, n: nat)
    requires i + n <= |s|
    requires forall k :: i <= k < i + n ==> inClass(s[k])
    requires i + n == |s| || !inClass(s[i + n])
    ensures Run(s, i, inClass) == n
  {
    RunSpan(s, i, inClass);
  }

  // ---------------------------------------------------------------------
  // The pipeline

  /** Passes 1 to 11: code blocks, inline code, headings, emphasis, links
      and images. */
  function StripInline(s: string): (r: string)
    ensures CharsFrom(r, s, [])
  {
    var t1 := RemoveCodeBlocks(s);
    var t2 := Unwrap(t1, "`");
    var t3 := AnchoredPass(t2, true, Heading, "");
    var t4 := Unwrap(t3, "**");
    var t5 := Unwrap(t4, "*");
    var t6 := Unwrap(t5, "__");
    CharsFromTrans(t2, t1, s, [], [], []);
    CharsFromTrans(t3, t2, s, [], [], []);
    CharsFromTrans(t4, t3, s, [], [], []);
    CharsFromTrans(t5, t4, s, [], [], []);
    CharsFromTrans(t6, t5, s, [], [], []);
    StripLinks(t6, s)
  }

  function StripLinks(t6: string, s: string): (r: string)
    requires CharsFrom(t6, s, [])
    ensures CharsFrom(r, s, [])
  {
    var t7 := Unwrap(t6, "_");
    var t8 := Unwrap(t7, "~~");
    var t9 := Links(t8, '(', ')', 1);
    var t10 := Links(t9, '[', ']', 0);
    var t11 := Images(t10);
    CharsFromTrans(t7, t6, s, [], [], []);
    CharsFromTrans(t8, t7, s, [], [], []);
    CharsFromTrans(t9, t8, s, [], [], []);
    CharsFromTrans(t10, t9, s, [], [], []);
    CharsFromTrans(t11, t10, s, [], [], []);
    t11
  }

  /** Passes 12 to 15: quotes, list markers (bullets become "• ") and
      horizontal rules. */
  function StripLineMarks(s: string): (r: string)
    ensures CharsFrom(r, s, "• ")
  {
    var t12 := AnchoredPass(s, true, Quote, "");
    var t13 := AnchoredPass(t12, true, Bullet, "• ");
    var t14 := AnchoredPass(t13, true, Numbered, "");
    var t15 := AnchoredPass(t14, true, Rule, "");
    CharsFromTrans(t13, t12, s, "• ", [], "• ");
    CharsFromTrans(t14, t13, s, [], "• ", "• ");
    CharsFromTrans(t15, t14, s, [], "• ", "• ");
    t15
  }

  /** Passes 16 to 19: table bars and rules, runs of blank lines, blanks at
      line edges. No line of the result starts or ends with a blank, and
      no three line feeds stand in a row: the table-rule pass empties every
      line of blanks (`TableRuleClears`), so the edge pass joins no line
      feeds the blank-line pass has left (`EdgeBlanksNoTriple`). */
  function CleanSpacing(s: string): (r: string)
    ensures '|' !in r
    ensures CharsFrom(r, s, " ")
    ensures NoBlankAtLineEnd(r) && NoBlankAfterLineTerminator(r)
    ensures r != [] ==> !IsBlank(r[0])
    ensures NoTripleLineFeed(r)
  {
    var t16 := Bars(s);
    var t17 := AnchoredPass(t16, true, TableRule, "");
    var t18 := BlankLines(t17);
    var t19 := EdgeBlanks(t18, true);
    TableRuleClears(t16, true);
    BlankLinesKeepLines(t17, true);
    EdgeBlanksNoTriple(t18, true);
    CharsFromTrans(t17, t16, s, [], " ", " ");
    CharsFromTrans(t18, t17, s, [], " ", " ");
    CharsFromTrans(t19, t18, s, [], " ", " ");
    t19
  }

  /** `markdownToPlainText`: no table bar survives, the result is trimmed,
      no line starts or ends with a blank, no three line feeds stand in a
      row, and every character comes from the input except the bullet
      marks. */
  function MarkdownToPlainText(markdown: string): (r: string)
    ensures IsTrimmed(r)
    ensures '|' !in r
    ensures NoBlankAtLineEnd(r) && NoBlankAfterLineTerminator(r)
    ensures CharsFrom(r, markdown, "• ")
    ensures markdown == [] ==> r == []
    ensures !Contains(r, "\n\n\n")
  {
    if markdown == [] then []
    else
      var a := StripInline(markdown);
      var b := StripLineMarks(a);
      var c := CleanSpacing(b);
      CharsFromTrans(b, a, markdown, "• ", [], "• ");
      CharsFromTrans(c, b, markdown, " ", "• ", "• ");
      TrimKeeps(c);
      TrimNoTriple(c);
      NoTripleNotContained(Trim(c));
      CharsFromTrans(Trim(c), c, markdown, [], "• ", "• ");
      Trim(c)
  }

  /** What `trim` keeps of the cleaned text. */
  lemma TrimKeeps(c: string)
    requires '|' !in c && NoBlankAtLineEnd(c) && NoBlankAfterLineTerminator(c)
    ensures '|' !in Trim(c) && NoBlankAtLineEnd(Trim(c)) && NoBlankAfterLineTerminator(Trim(c))
    ensures CharsFrom(Trim(c), c, [])
  {
    TrimmedKeeps(c, Trim(c), |c| - |TrimStart(c)|);
  }

  /** A trimmed stretch of a text keeps only its characters, and when the
      lines of the text have no blanks at their edges, its lines have none
      either. */
  lemma TrimmedKeeps(c: string, r: string, i: nat)
    requires '|' !in c && NoBlankAtLineEnd(c) && NoBlankAfterLineTerminator(c)
    requires i + |r| <= |c| && r == c[i..i + |r|] && IsTrimmed(r)
    ensures '|' !in r && CharsFrom(r, c, [])
    ensures NoBlankAtLineEnd(r) && NoBlankAfterLineTerminator(r)
  {
    CharsFromSlice(c, i, i + |r|);
    assert forall j :: 0 <= j < |r| ==> r[j] == c[i + j];
    forall j | 0 <= j < |r| ensures BlankNotLast(r, j) {
      assert BlankNotLast(c, i + j);
      if IsBlank(r[j]) {
        assert IsSpace(r[j]);
      }
    }
    forall j | 0 < j < |r| ensures NotBlankAfterBreak(r, j) {
      assert NotBlankAfterBreak(c, i + j);
    }
  }

  // ---------------------------------------------------------------------
  // formatChatAnswer

  /** `s.replace(/pattern/g, replacement)` for a literal pattern. */
  function ReplaceAll(s: string, pattern: string, replacement: string): string
    requires pattern != []
    decreases |s|
  {
    if s == [] then []
    else if StartsWith(s, pattern) then replacement + ReplaceAll(s[|pattern|..], pattern, replacement)
    else [s[0]] + ReplaceAll(s[1..], pattern, replacement)
  }

  /** Replacing a pattern by itself changes nothing. */
  lemma {:induction false} ReplaceBySelf(s: string, pattern: string)
    requires pattern != []
    ensures ReplaceAll(s, pattern, pattern) == s
    decreases |s|
  {
    if s != [] {
      if StartsWith(s, pattern) {
        ReplaceBySelf(s[|pattern|..], pattern);
        assert s == s[..|pattern|] + s[|pattern|..];
      } else {
        ReplaceBySelf(s[1..], pattern);
        assert s == [s[0]] + s[1..];
      }
    }
  }

  /** `formatChatAnswer`: its `\n\n` to `\n\n` replacement is the
      identity, so it is `markdownToPlainText`. */
  function FormatChatAnswer(answer: string): (r: string)
    ensures r == MarkdownToPlainText(answer)
  {
    ReplaceBySelf(MarkdownToPlainText(answer), "\n\n");
    ReplaceAll(MarkdownToPlainText(answer), "\n\n", "\n\n")
  }

  // ---------------------------------------------------------------------
  // What single passes do

  /** A complete fenced block, with no backtick before it or inside it, is
      deleted together with its fences and contents. */
  lemma CodeBlockDeleted(a: string, b: string, c: string)
    requires '`' !in a && '`' !in b
    ensures RemoveCodeBlocks(a + "```" + b + "```" + c) == a + RemoveCodeBlocks(c)
  {
    var s := a + "```" + b + "```" + c;
    NotContainsWithoutHead(a, "```");
    assert OccursAt(s, "```", |a|);
    forall j | 0 <= j < |a| ensures !OccursAt(s, "```", j) {
      assert s[j] == a[j];
    }
    assert FindFrom(s, "```", 0) == |a|;
    var close := |a| + 3 + |b|;
    assert OccursAt(s, "```", close);
    forall j | |a| + 3 <= j < close ensures !OccursAt(s, "```", j) {
      assert s[j] == b[j - |a| - 3];
    }
    assert FindFrom(s, "```", |a| + 3) == close;
    assert s[..|a|] == a;
    assert s[close + 3..] == c;
  }

  /** Every character of `delim` is its first one (`**`, `*`, `__`, `_`,
      `~~`). */
  predicate OneCharRepeated(delim: string) {
    forall i :: 0 <= i < |delim| ==> delim[i] == delim[0]
  }

  /** `delim` + x + `delim` with no `delim[0]` in x (and none in the text
      before it) is unwrapped to x: `**x**` becomes x, and so do `*x*`,
      `__x__`, `_x_` and `~~x~~`. */
  lemma Unwrapped(a: string, x: string, c: string, delim: string)
    requires delim != [] && OneCharRepeated(delim)
    requires delim[0] !in a && delim[0] !in x && x != []
    ensures Unwrap(a + delim + x + delim + c, delim) == a + x + Unwrap(c, delim)
  {
    Regroup5(a, delim, x, delim, c);
    UnwrapPrefix(a, delim + x + delim + c, delim);
    UnwrappedAtStart(x, c, delim);
    Regroup3(a, x, Unwrap(c, delim));
  }

  lemma Regroup3(a: string, b: string, c: string)
    ensures a + (b + c) == a + b + c
  {
  }

  lemma Regroup5(a: string, b: string, c: string, d: string, e: string)
    ensures a + b + c + d + e == a + (b + c + d + e)
  {
  }

  /** Text without the delimiter's character is copied as is. */
  lemma {:induction false} UnwrapPrefix(a: string, rest: string, delim: string)
    requires delim != [] && delim[0] !in a
    ensures Unwrap(a + rest, delim) == a + Unwrap(rest, delim)
    decreases |a|
  {
    if a == [] {
      assert a + rest == rest;
    } else {
      HeadOfConcat(a, rest);
      UnwrapSkip(a + rest, delim);
      UnwrapPrefix(a[1..], rest, delim);
    }
  }

  /** Splitting off the first character of `a + rest`. */
  lemma HeadOfConcat(a: string, rest: string)
    requires a != []
    ensures (a + rest)[0] == a[0] && (a + rest)[1..] == a[1..] + rest
    ensures forall y :: [a[0]] + (a[1..] + y) == a + y
  {
    forall y ensures [a[0]] + (a[1..] + y) == a + y {
      assert a == [a[0]] + a[1..];
    }
  }

  lemma UnwrapSkip(s: string, delim: string)
    requires delim != [] && s != [] && s[0] != delim[0]
    ensures Unwrap(s, delim) == [s[0]] + Unwrap(s[1..], delim)
  {
    assert !StartsWith(s, delim);
  }

  lemma UnwrappedAtStart(x: string, c: string, delim: string)
    requires delim != [] && OneCharRepeated(delim)
    requires delim[0] !in x && x != []
    ensures Unwrap(delim + x + delim + c, delim) == x + Unwrap(c, delim)
  {
    var s := delim + x + delim + c;
    var n := |delim|;
    assert s[..n] == delim;
    var k := n + |x|;
    forall j | n <= j < k ensures !OccursAt(s, [delim[0]], j) {
      assert s[j] == x[j - n];
      assert s[j..j + 1] == [s[j]];
    }
    assert s[k..k + n] == delim;
    assert s[k..k + 1] == [delim[0]];
    assert OccursAt(s, [delim[0]], k);
    assert FindFrom(s, [delim[0]], n) == k;
    assert s[n..k] == x;
    assert s[k + n..] == c;
  }

  /** `[t](u)` becomes t when the label has no `]` and the target no `)`. */
  lemma LinkTextKept(a: string, t: string, u: string, c: string)
    requires '[' !in a && t != [] && ']' !in t && u != [] && ')' !in u
    ensures Links(a + "[" + t + "](" + u + ")" + c, '(', ')', 1) == a + t + Links(c, '(', ')', 1)
  {
    LinkRegroup(a, t, '(', u, ')', c);
    LinksPrefix(a, "[" + t + "]" + ['('] + u + [')'] + c, '(', ')', 1);
    LinkAtStart(t, u, c, '(', ')', 1);
    Regroup3(a, t, Links(c, '(', ')', 1));
  }

  /** A link at the start becomes its label. */
  lemma LinkAtStart(t: string, u: string, c: string, targetOpen: char, targetClose: char, minTarget: nat)
    requires t != [] && ']' !in t && |u| >= minTarget && targetClose !in u
    ensures Links("[" + t + "]" + [targetOpen] + u + [targetClose] + c, targetOpen, targetClose, minTarget) ==
      t + Links(c, targetOpen, targetClose, minTarget)
  {
    var s := "[" + t + "]" + [targetOpen] + u + [targetClose] + c;
    LinkMatched(s, t, u, c, targetOpen, targetClose, minTarget);
    var k := 1 + |t|;
    var e := k + 2 + |u|;
    assert Links(s, targetOpen, targetClose, minTarget) == s[1..k] + Links(s[e + 1..], targetOpen, targetClose, minTarget);
  }

  /** The link written with its two brackets as literals, regrouped. */
  lemma LinkRegroup(a: string, t: string, targetOpen: char, u: string, targetClose: char, c: string)
    ensures a + "[" + t + [']', targetOpen] + u + [targetClose] + c ==
      a + ("[" + t + "]" + [targetOpen] + u + [targetClose] + c)
  {
  }

  /** Where a link pass finds the label and the end of `[t]` followed by a
      target `u` between `targetOpen` and `targetClose`. */
  lemma LinkMatched(s: string, t: string, u: string, c: string, targetOpen: char, targetClose: char, minTarget: nat)
    requires t != [] && ']' !in t && |u| >= minTarget && targetClose !in u
    requires s == "[" + t + "]" + [targetOpen] + u + [targetClose] + c
    ensures |s| > 1 && Bracketed(s, 0, 1, targetOpen, targetClose, minTarget) == Some((1 + |t|, 1 + |t| + 2 + |u| + 1))
    ensures s[1..1 + |t|] == t && s[1 + |t| + 2 + |u| + 1..] == c
  {
    var k := 1 + |t|;
    var e := k + 2 + |u|;
    LinkLayout(s, t, u, c, targetOpen, targetClose);
    FindCharAt(s, ']', 1, k);
    FindCharAt(s, targetClose, k + 2, e);
    assert "]" == [']'];
    BracketedFound(s, 0, 1, targetOpen, targetClose, minTarget, k, e);
  }

  /** The characters of `[t]` followed by a bracketed target, position by
      position. */
  lemma LinkLayout(s: string, t: string, u: string, c: string, targetOpen: char, targetClose: char)
    requires s == "[" + t + "]" + [targetOpen] + u + [targetClose] + c
    ensures |s| == |t| + |u| + 4 + |c|
    ensures s[0] == '[' && s[1 + |t|] == ']' && s[2 + |t|] == targetOpen && s[3 + |t| + |u|] == targetClose
    ensures forall j :: 1 <= j < 1 + |t| ==> s[j] == t[j - 1]
    ensures forall j :: 3 + |t| <= j < 3 + |t| + |u| ==> s[j] == u[j - 3 - |t|]
    ensures s[1..1 + |t|] == t && s[4 + |t| + |u|..] == c
  {
    var head := ['['] + t + [']', targetOpen] + u + [targetClose];
    assert s == ['['] + t + ([']', targetOpen] + u + [targetClose] + c);
    assert s == head + c;
    MiddleOf(['['], t, [']', targetOpen] + u + [targetClose] + c);
    SuffixOfConcat(head, c);
  }

  /** `[t][ref]` becomes t when the label has no `]` and the reference, which
      may be empty, has none either. */
  lemma RefLinkTextKept(a: string, t: string, ref: string, c: string)
    requires '[' !in a && t != [] && ']' !in t && ']' !in ref
    ensures Links(a + "[" + t + "][" + ref + "]" + c, '[', ']', 0) == a + t + Links(c, '[', ']', 0)
  {
    LinkRegroup(a, t, '[', ref, ']', c);
    LinksPrefix(a, "[" + t + "]" + ['['] + ref + [']'] + c, '[', ']', 0);
    LinkAtStart(t, ref, c, '[', ']', 0);
    Regroup3(a, t, Links(c, '[', ']', 0));
  }

  /** The match `Bracketed` reports once its two searches are known. */
  lemma BracketedFound(s: string, open: nat, minLabel: nat, targetOpen: char, targetClose: char, minTarget: nat, k: int, e: int)
    requires open < |s| && s[open] == '[' && FindFrom(s, "]", open + 1) == k && k >= open + 1 + minLabel
    requires k + 1 < |s| && s[k + 1] == targetOpen
    requires FindFrom(s, [targetClose], k + 2) == e && e >= k + 2 + minTarget
    ensures Bracketed(s, open, minLabel, targetOpen, targetClose, minTarget) == Some((k, e + 1))
  {
  }

  lemma MiddleOf(x: string, y: string, z: string)
    ensures (x + y + z)[|x|..|x| + |y|] == y
  {
    assert (x + y + z)[|x|..] == y + z;
  }

  /** Text without `[` is copied as is by the link passes. */
  lemma {:induction false} LinksPrefix(a: string, rest: string, targetOpen: char, targetClose: char, minTarget: nat)
    requires '[' !in a
    ensures Links(a + rest, targetOpen, targetClose, minTarget) == a + Links(rest, targetOpen, targetClose, minTarget)
    decreases |a|
  {
    if a == [] {
      assert a + rest == rest;
    } else {
      HeadOfConcat(a, rest);
      assert a[0] != '[';
      LinksPrefix(a[1..], rest, targetOpen, targetClose, minTarget);
    }
  }

  /** Text without `[` passes the link and image passes unchanged. */
  lemma {:induction false} NoBracketUnchanged(s: string, targetOpen: char, targetClose: char, minTarget: nat)
    requires '[' !in s
    ensures Links(s, targetOpen, targetClose, minTarget) == s
    ensures Images(s) == s
    decreases |s|
  {
    if s != [] {
      NoBracketUnchanged(s[1..], targetOpen, targetClose, minTarget);
      assert s == [s[0]] + s[1..];
    }
  }

  /** Because the link pass runs before the image pass, an image
      `![alt](u)` with a non-empty alt text ends up as `!alt`. */
  lemma ImageBecomesBangAlt(alt: string, u: string)
    requires alt != [] && '[' !in alt && ']' !in alt && u != [] && ')' !in u
    ensures Images(Links(Links("!" + "[" + alt + "](" + u + ")", '(', ')', 1), '[', ']', 0)) == "!" + alt
  {
    ImageLinkPass(alt, u);
    NoBracketUnchanged("!" + alt, '[', ']', 0);
  }

  /** The first link pass already turns `![alt](u)` into `!alt`. */
  lemma ImageLinkPass(alt: string, u: string)
    requires alt != [] && ']' !in alt && u != [] && ')' !in u
    ensures Links("!" + "[" + alt + "](" + u + ")", '(', ')', 1) == "!" + alt
  {
    var image := "!" + "[" + alt + "](" + u + ")";
    LinkTextKept("!", alt, u, []);
    assert image + [] == image;
    assert Links([], '(', ')', 1) == [];
    assert "!" + alt + [] == "!" + alt;
  }

  /** Text without `!` is copied as is by the image pass. */
  lemma {:induction false} ImagesPrefix(a: string, rest: string)
    requires '!' !in a
    ensures Images(a + rest) == a + Images(rest)
    decreases |a|
  {
    if a == [] {
      assert a + rest == rest;
    } else {
      HeadOfConcat(a, rest);
      assert a[0] != '!';
      ImagesPrefix(a[1..], rest);
    }
  }

  /** `![alt](u)` becomes its alt text when the alt text has no `]` and the
      target no `)`; an image with an empty alt text, which the link passes
      leave alone, disappears. */
  lemma ImageAltKept(a: string, alt: string, u: string, c: string)
    requires '!' !in a && ']' !in alt && u != [] && ')' !in u
    ensures Images(a + "![" + alt + "](" + u + ")" + c) == a + alt + Images(c)
  {
    Regroup7(a, "![", alt, "](", u, ")", c);
    ImagesPrefix(a, "![" + alt + "](" + u + ")" + c);
    ImageAtStart(alt, u, c);
    Regroup3(a, alt, Images(c));
  }

  lemma Regroup7(a: string, b: string, c: string, d: string, e: string, f: string, g: string)
    ensures a + b + c + d + e + f + g == a + (b + c + d + e + f + g)
  {
  }

  lemma ImageAtStart(alt: string, u: string, c: string)
    requires ']' !in alt && u != [] && ')' !in u
    ensures Images("![" + alt + "](" + u + ")" + c) == alt + Images(c)
  {
    var m := "![" + alt + "](" + u + ")" + c;
    ImageMatched(m, alt, u, c);
    var k := 2 + |alt|;
    var e := k + 2 + |u|;
    assert Images(m) == m[2..k] + Images(m[e + 1..]);
  }

  /** Where the image pass finds the alt text and the end of `![alt](u)`. */
  lemma ImageMatched(m: string, alt: string, u: string, c: string)
    requires ']' !in alt && u != [] && ')' !in u
    requires m == "![" + alt + "](" + u + ")" + c
    ensures |m| >= 2 && m[0] == '!' && Bracketed(m, 1, 0, '(', ')', 1) == Some((2 + |alt|, 2 + |alt| + 2 + |u| + 1))
    ensures m[2..2 + |alt|] == alt && m[2 + |alt| + 2 + |u| + 1..] == c
  {
    var k := 2 + |alt|;
    var e := k + 2 + |u|;
    var head := ['!', '['] + alt + [']', '('] + u + [')'];
    assert m == ['!', '['] + alt + ([']', '('] + u + [')'] + c);
    assert m == head + c;
    assert forall j :: 2 <= j < k ==> m[j] == alt[j - 2];
    assert forall j :: k + 2 <= j < e ==> m[j] == u[j - k - 2];
    FindCharAt(m, ']', 2, k);
    FindCharAt(m, ')', k + 2, e);
    assert "]" == [']'];
    BracketedFound(m, 1, 0, '(', ')', 1, k, e);
    MiddleOf(['!', '['], alt, [']', '('] + u + [')'] + c);
    SuffixOfConcat(head, c);
  }

  /** Inline code `` `x` `` becomes x when x has no backtick (and the text
      before it none either). */
  lemma InlineCodeStripped(a: string, x: string, c: string)
    requires '`' !in a && '`' !in x && x != []
    ensures Unwrap(a + "`" + x + "`" + c, "`") == a + x + Unwrap(c, "`")
  {
    Unwrapped(a, x, c, "`");
  }

  // ---------------------------------------------------------------------
  // What the line-anchored passes do to one line. A line is described by
  // positions in the text: its marker, then its text up to a line feed at
  // `e`.

  /** `s[i..e]` is the rest of a line that ends with a line feed at `e`. */
  predicate LineUpTo(s: string, i: nat, e: nat) {
    i <= e < |s| && s[e] == '\n' && forall k :: i <= k < e ==> !IsLineTerminator(s[k])
  }

  /** Inside a line nothing is anchored: the rest of the line and its line
      feed are copied, and the next line starts after them. */
  lemma {:induction false} CopyLine(s: string, i: nat, e: nat, pattern: LinePattern, replacement: string)
    requires LineUpTo(s, i, e)
    ensures AnchoredPass(s[i..], false, pattern, replacement) ==
      s[i..e + 1] + AnchoredPass(s[e + 1..], true, pattern, replacement)
    decreases e - i
  {
    assert s[i..][0] == s[i] && s[i..][1..] == s[i + 1..];
    if i < e {
      CopyLine(s, i + 1, e, pattern, replacement);
      assert s[i..e + 1] == [s[i]] + s[i + 1..e + 1];
    } else {
      assert s[i..e + 1] == [s[e]];
    }
  }

  /** One step of an anchored pass at a line start where the pattern
      matches `n` characters. */
  lemma AnchoredStep(s: string, pattern: LinePattern, replacement: string, n: nat)
    requires 0 < n <= |s| && LineMatch(s, pattern) == n
    ensures AnchoredPass(s, true, pattern, replacement) ==
      replacement + AnchoredPass(s[n..], StartsLine(s[n - 1]), pattern, replacement)
  {
  }

  /** A line whose marker `s[..m]` the pattern matches exactly: the marker
      is replaced and the rest of the line kept. */
  lemma MarkerReplaced(s: string, m: nat, e: nat, pattern: LinePattern, replacement: string)
    requires 0 < m && LineUpTo(s, m, e) && !IsLineTerminator(s[m - 1])
    requires LineMatch(s, pattern) == m
    ensures AnchoredPass(s, true, pattern, replacement) ==
      replacement + s[m..e + 1] + AnchoredPass(s[e + 1..], true, pattern, replacement)
  {
    AnchoredStep(s, pattern, replacement, m);
    CopyLine(s, m, e, pattern, replacement);
  }

  /** A heading line, one to six `#` and a space before its text, becomes
      its text. */
  lemma HeadingStripped(s: string, h: nat, e: nat)
    requires h + 1 < e && LineUpTo(s, h + 1, e)
    requires 1 <= h <= 6 && forall k :: 0 <= k < h ==> s[k] == '#'
    requires s[h] == ' ' && !IsSpace(s[h + 1])
    ensures AnchoredPass(s, true, Heading, "") == s[h + 1..e + 1] + AnchoredPass(s[e + 1..], true, Heading, "")
  {
    RunIs(s, 0, IsHash, h);
    RunIs(s, h, IsSpace, 1);
    MarkerReplaced(s, h + 1, e, Heading, "");
  }

  /** A quoted line `> t` becomes t. */
  lemma QuoteStripped(s: string, e: nat)
    requires 2 < e && LineUpTo(s, 2, e)
    requires s[0] == '>' && s[1] == ' ' && !IsSpace(s[2])
    ensures AnchoredPass(s, true, Quote, "") == s[2..e + 1] + AnchoredPass(s[e + 1..], true, Quote, "")
  {
    RunIs(s, 1, IsSpace, 1);
    MarkerReplaced(s, 2, e, Quote, "");
  }

  /** A list item `- t`, `* t` or `+ t` becomes `• t`. */
  lemma BulletMarked(s: string, e: nat)
    requires 2 < e && LineUpTo(s, 2, e)
    requires s[0] in "-*+" && s[1] == ' ' && !IsSpace(s[2])
    ensures AnchoredPass(s, true, Bullet, "• ") == "• " + s[2..e + 1] + AnchoredPass(s[e + 1..], true, Bullet, "• ")
  {
    RunIs(s, 0, IsSpace, 0);
    RunIs(s, 1, IsSpace, 1);
    MarkerReplaced(s, 2, e, Bullet, "• ");
  }

  /** A numbered item, digits, a dot and a space before its text, becomes
      its text. */
  lemma NumberedStripped(s: string, d: nat, e: nat)
    requires d + 2 < e && LineUpTo(s, d + 2, e)
    requires 1 <= d && forall k :: 0 <= k < d ==> IsDigit(s[k])
    requires s[d] == '.' && s[d + 1] == ' ' && !IsSpace(s[d + 2])
    ensures AnchoredPass(s, true, Numbered, "") == s[d + 2..e + 1] + AnchoredPass(s[e + 1..], true, Numbered, "")
  {
    RunIs(s, 0, IsSpace, 0);
    RunIs(s, 0, IsDigit, d);
    RunIs(s, d + 1, IsSpace, 1);
    MarkerReplaced(s, d + 2, e, Numbered, "");
  }

  /** A line of three or more `-`, `*` or `_` is emptied; its line feed
      stays. */
  lemma RuleRemoved(s: string, e: nat)
    requires 3 <= e && LineUpTo(s, e, e)
    requires forall k :: 0 <= k < e ==> IsRuleChar(s[k])
    ensures AnchoredPass(s, true, Rule, "") == "\n" + AnchoredPass(s[e + 1..], true, Rule, "")
  {
    RunIs(s, 0, IsRuleChar, e);
    MarkerReplaced(s, e, e, Rule, "");
    assert s[e..e + 1] == "\n";
  }

  /** A table separator line such as `--- | :---:` is emptied, its line
      feed kept, when the next line does not open with a character of its
      class (which would let the match run on into that line). */
  lemma TableRuleRemoved(s: string, e: nat)
    requires 0 < e && LineUpTo(s, 0, e) && e + 1 < |s|
    requires forall k :: 0 <= k < e ==> IsTableRuleChar(s[k])
    requires !IsTableRuleChar(s[e + 1])
    ensures AnchoredPass(s, true, TableRule, "") == "\n" + AnchoredPass(s[e + 1..], true, TableRule, "")
  {
    TableRuleMatched(s, e);
    MarkerReplaced(s, e, e, TableRule, "");
    assert s[e..e + 1] == "\n";
  }

  lemma TableRuleMatched(s: string, e: nat)
    requires 0 < e && LineUpTo(s, 0, e) && e + 1 < |s|
    requires forall k :: 0 <= k < e ==> IsTableRuleChar(s[k])
    requires !IsTableRuleChar(s[e + 1])
    ensures LineMatch(s, TableRule) == e
  {
    RunIs(s, 0, IsTableRuleChar, e + 1);
    NoLineEndBeyond(s, e + 1);
    assert !AtLineEnd(s, e + 1) && AtLineEnd(s, e);
  }

  // ---------------------------------------------------------------------
  // What the spacing passes do to one stretch

  /** The run of a class from `i` stops at or before a character outside
      it. */
  lemma RunStopsAt(s: string, i: nat, inClass: char -> bool, k: nat)
    requires i <= k < |s| && !inClass(s[k])
    ensures Run(s, i, inClass) <= k - i
  {
    RunSpan(s, i, inClass);
  }

  function LineFeeds(n: nat): (r: string)
    ensures |r| == n && forall k :: 0 <= k < n ==> r[k] == '\n'
  {
    seq(n, _ => '\n')
  }

  /** A run of three or more line feeds between two stretches of text
      becomes exactly two. */
  lemma BlankRunCollapsed(a: string, n: nat, c: string)
    requires NoTripleLineFeed(a) && (a == [] || a[|a| - 1] != '\n')
    requires n >= 3 && (c == [] || c[0] != '\n')
    ensures BlankLines(a + LineFeeds(n) + c) == a + "\n\n" + BlankLines(c)
  {
    var m := LineFeeds(n) + c;
    Regroup3(a, LineFeeds(n), c);
    BlankLinesPrefix(a, m);
    RunIs(m, 0, IsLineFeed, n);
    assert m[n..] == c;
    Regroup3(a, "\n\n", BlankLines(c));
  }

  /** Text without three line feeds in a row that does not end in one is
      copied as is, whatever follows it. */
  lemma {:induction false} BlankLinesPrefix(a: string, rest: string)
    requires NoTripleLineFeed(a) && (a == [] || a[|a| - 1] != '\n')
    ensures BlankLines(a + rest) == a + BlankLines(rest)
    decreases |a|
  {
    if a == [] {
      assert a + rest == rest;
    } else {
      var tail := a[1..];
      ShortLineFeedRun(a, rest);
      BlankLinesStep(a + rest);
      NoTripleTail(a);
      BlankLinesPrefix(tail, rest);
      ConsShift(a, rest);
      calc {
        BlankLines(a + rest);
        [a[0]] + BlankLines(tail + rest);
        [a[0]] + (tail + BlankLines(rest));
        { Regroup3([a[0]], tail, BlankLines(rest)); }
        a + BlankLines(rest);
      }
    }
  }

  lemma ConsShift(a: string, rest: string)
    requires a != []
    ensures (a + rest)[1..] == a[1..] + rest && a == [a[0]] + a[1..] && (a + rest)[0] == a[0]
  {
  }

  /** Fewer than three line feeds open the text: the first character is
      copied. */
  lemma BlankLinesStep(s: string)
    requires s != [] && Run(s, 0, IsLineFeed) < 3
    ensures BlankLines(s) == [s[0]] + BlankLines(s[1..])
  {
  }

  lemma ShortLineFeedRun(a: string, rest: string)
    requires NoTripleLineFeed(a) && a != [] && a[|a| - 1] != '\n'
    ensures Run(a + rest, 0, IsLineFeed) < 3
  {
    var s := a + rest;
    var k := if |a| < 3 then |a| - 1 else if a[0] != '\n' then 0 else if a[1] != '\n' then 1 else 2;
    assert |a| >= 3 ==> !TripleLineFeedAt(a, 0);
    assert s[k] == a[k];
    RunStopsAt(s, 0, IsLineFeed, k);
  }

  predicate AllBlank(s: string) {
    forall k :: 0 <= k < |s| ==> IsBlank(s[k])
  }

  /** One line: the blanks around its text go and the text stays, blanks
      inside it included. */
  lemma EdgeBlanksLine(b1: string, t: string, b2: string)
    requires AllBlank(b1) && AllBlank(b2)
    requires t != [] && !IsBlank(t[0]) && !IsBlank(t[|t| - 1])
    requires forall k :: 0 <= k < |t| ==> !IsLineTerminator(t[k])
    ensures EdgeBlanks(b1 + t + b2, true) == t
  {
    var s := b1 + t + b2;
    assert s[|b1|..] == t + b2;
    if b1 == [] {
      assert s == t + b2;
      TextThenBlanks(t, b2, true);
    } else {
      assert s[|b1|] == t[0];
      RunIs(s, 0, IsBlank, |b1|);
      TextThenBlanks(t, b2, false);
    }
  }

  /** Text that ends a line with a non-blank, followed by blanks only. */
  lemma {:induction false} TextThenBlanks(t: string, b: string, atStart: bool)
    requires AllBlank(b)
    requires t != [] && !IsBlank(t[|t| - 1]) && (atStart ==> !IsBlank(t[0]))
    requires forall k :: 0 <= k < |t| ==> !IsLineTerminator(t[k])
    ensures EdgeBlanks(t + b, atStart) == t
    decreases |t|
  {
    var s := t + b;
    assert s[|t| - 1] == t[|t| - 1];
    RunStopsAt(s, 0, IsBlank, |t| - 1);
    RunSpan(s, 0, IsBlank);
    var w := Run(s, 0, IsBlank);
    assert s[w] == t[w];
    assert !(w > 0 && (atStart || AtLineEnd(s, w)));
    if |t| == 1 {
      assert s[1..] == b;
      BlanksVanish(b);
    } else {
      assert s[1..] == t[1..] + b;
      TextThenBlanks(t[1..], b, false);
      assert t == [t[0]] + t[1..];
    }
  }

  /** Blanks alone, away from a line start, run to the end and go. */
  lemma BlanksVanish(b: string)
    requires AllBlank(b)
    ensures EdgeBlanks(b, false) == []
  {
    if b != [] {
      RunIs(b, 0, IsBlank, |b|);
      assert b[|b|..] == [];
    }
  }

  // ---------------------------------------------------------------------
  // Plain text goes through the whole conversion

  /** The characters some pass treats as markup. */
  predicate IsMarkup(c: char) {
    c in "`#*_~[>+-|"
  }

  /** A character that may open a line of text: not white space, and not
      a colon (a line of colons and blanks is a table separator). */
  predicate OpensText(c: char) {
    !IsSpace(c) && c != ':'
  }

  /** The line starting at `p` opens with text, or is one empty line
      before a line that does. */
  predicate LineOpensAt(s: string, p: nat)
    requires p < |s|
  {
    (p == 0 || IsLineTerminator(s[p - 1])) ==>
      OpensText(s[p]) || (s[p] == '\n' && p + 1 < |s| && OpensText(s[p + 1]))
  }

  predicate NoNumberDot(s: string, i: nat)
    requires 0 < i < |s|
  {
    s[i] == '.' ==> !IsDigit(s[i - 1])
  }

  /** Text without Markdown: no markup character, no digit just before a
      dot, every line opens with text (at most one empty line between two
      lines), and no line ends with a blank. */
  predicate PlainText(s: string) {
    && (forall i :: 0 <= i < |s| ==> !IsMarkup(s[i]))
    && (forall i :: 0 < i < |s| ==> NoNumberDot(s, i))
    && (forall p :: 0 <= p < |s| ==> LineOpensAt(s, p))
    && NoBlankAtLineEnd(s)
  }

  /** Plain text comes out of `markdownToPlainText` as `trim` leaves it:
      no pass changes it. */
  lemma PlainTextKept(s: string)
    requires PlainText(s)
    ensures MarkdownToPlainText(s) == Trim(s)
  {
    if s != [] {
      StripInlineKeepsPlain(s);
      StripLineMarksKeepsPlain(s);
      CleanSpacingKeepsPlain(s);
    }
  }

  lemma MarkupAbsent(s: string, c: char)
    requires (forall i :: 0 <= i < |s| ==> !IsMarkup(s[i])) && IsMarkup(c)
    ensures c !in s
  {
  }

  lemma StripInlineKeepsPlain(s: string)
    requires PlainText(s)
    ensures StripInline(s) == s
  {
    MarkupAbsent(s, '`');
    MarkupAbsent(s, '*');
    MarkupAbsent(s, '_');
    MarkupAbsent(s, '~');
    MarkupAbsent(s, '[');
    NotContainsWithoutHead(s, "```");
    UnwrapCopies(s, "`");
    PlainNoLineMatch(s, Heading);
    AnchoredPassCopies(s, true, Heading, "");
    UnwrapCopies(s, "**");
    UnwrapCopies(s, "*");
    UnwrapCopies(s, "__");
    UnwrapCopies(s, "_");
    UnwrapCopies(s, "~~");
    NoBracketUnchanged(s, '(', ')', 1);
    NoBracketUnchanged(s, '[', ']', 0);
  }

  lemma StripLineMarksKeepsPlain(s: string)
    requires PlainText(s)
    ensures StripLineMarks(s) == s
  {
    PlainNoLineMatch(s, Quote);
    AnchoredPassCopies(s, true, Quote, "");
    PlainNoLineMatch(s, Bullet);
    AnchoredPassCopies(s, true, Bullet, "• ");
    PlainNoLineMatch(s, Numbered);
    AnchoredPassCopies(s, true, Numbered, "");
    PlainNoLineMatch(s, Rule);
    AnchoredPassCopies(s, true, Rule, "");
  }

  lemma CleanSpacingKeepsPlain(s: string)
    requires PlainText(s)
    ensures CleanSpacing(s) == s
  {
    MarkupAbsent(s, '|');
    PlainNoLineMatch(s, TableRule);
    AnchoredPassCopies(s, true, TableRule, "");
    PlainLines(s);
  }

  /** Plain text has no three line feeds in a row, and no line of it
      starts or ends with a blank. */
  lemma PlainLines(s: string)
    requires PlainText(s)
    ensures NoTripleLineFeed(s) && CleanEdges(s, true)
  {
    forall i | 0 <= i < |s| - 2 ensures !TripleLineFeedAt(s, i) {
      assert LineOpensAt(s, i + 1);
    }
    forall i | 0 < i < |s| ensures NotBlankAfterBreak(s, i) {
      assert LineOpensAt(s, i);
    }
    if s != [] {
      assert LineOpensAt(s, 0);
    }
  }

  /** Text without the delimiter's first character is unchanged. */
  lemma UnwrapCopies(s: string, delim: string)
    requires delim != [] && delim[0] !in s
    ensures Unwrap(s, delim) == s
  {
    UnwrapPrefix(s, [], delim);
    assert s + [] == s;
  }

  /** The pattern matches at no line start of `s`. */
  predicate NoLineMatch(s: string, atStart: bool, pattern: LinePattern) {
    && (atStart && s != [] ==> LineMatch(s, pattern) == 0)
    && forall p :: 0 < p < |s| && StartsLine(s[p - 1]) ==> LineMatch(s[p..], pattern) == 0
  }

  /** An anchored pass whose pattern matches at no line start copies the
      text. */
  lemma {:induction false} AnchoredPassCopies(s: string, atStart: bool, pattern: LinePattern, replacement: string)
    requires NoLineMatch(s, atStart, pattern)
    ensures AnchoredPass(s, atStart, pattern, replacement) == s
    decreases |s|
  {
    if s != [] {
      var t := s[1..];
      forall p | 0 < p < |t| && StartsLine(t[p - 1]) ensures LineMatch(t[p..], pattern) == 0 {
        assert t[p..] == s[p + 1..] && t[p - 1] == s[p];
      }
      if StartsLine(s[0]) && t != [] {
        assert LineMatch(s[1..], pattern) == 0;
      }
      AnchoredPassCopies(t, StartsLine(s[0]), pattern, replacement);
      assert s == [s[0]] + t;
    }
  }

  lemma PlainNoLineMatch(s: string, pattern: LinePattern)
    requires PlainText(s)
    ensures NoLineMatch(s, true, pattern)
  {
    if s != [] {
      LineStartNoMatch(s, 0, pattern);
      assert s[0..] == s;
    }
    forall p | 0 < p < |s| && StartsLine(s[p - 1]) ensures LineMatch(s[p..], pattern) == 0 {
      LineStartNoMatch(s, p, pattern);
    }
  }

  /** At a line start of plain text no line pattern matches. */
  lemma LineStartNoMatch(s: string, p: nat, pattern: LinePattern)
    requires PlainText(s) && p < |s| && (p == 0 || IsLineTerminator(s[p - 1]))
    ensures LineMatch(s[p..], pattern) == 0
  {
    var t := s[p..];
    assert LineOpensAt(s, p);
    assert t[0] == s[p] && !IsMarkup(s[p]);
    assert |t| > 1 ==> t[1] == s[p + 1] && !IsMarkup(s[p + 1]);
    var w := if OpensText(t[0]) then 0 else 1;
    RunIs(t, 0, IsSpace, w);
    match pattern
    case Heading =>
      RunIs(t, 0, IsHash, 0);
    case Quote =>
    case Bullet =>
    case Numbered =>
      var d := Run(t, w, IsDigit);
      RunSpan(t, w, IsDigit);
      assert d >= 1 && w + d < |t| ==> NoNumberDot(s, p + w + d) && s[p + w + d - 1] == t[w + d - 1];
    case Rule =>
      RunIs(t, 0, IsRuleChar, 0);
    case TableRule =>
      RunIs(t, 0, IsTableRuleChar, w);
  }

  // ---------------------------------------------------------------------
  // No three line feeds in a row survive the whole conversion

  /** `t` opens with a line of blanks only (the `^[-\s|:]+$` pass removes
      such lines). */
  predicate BlankLine(t: string) {
    t != [] && IsBlank(t[0]) && AtLineEnd(t, Run(t, 0, IsBlank))
  }

  /** No line of `s` is made of blanks only; the first line counts when
      the text starts a line. */
  predicate NoBlankLine(s: string, atStart: bool) {
    && (atStart && s != [] ==> !BlankLine(s))
    && forall p :: 0 < p < |s| && StartsLine(s[p - 1]) ==> !BlankLine(s[p..])
  }

  lemma TrimNoTriple(c: string)
    requires NoTripleLineFeed(c)
    ensures NoTripleLineFeed(Trim(c))
  {
    var i := TrimStartsAt(c);
    NoTripleInfix(c, i, i + |Trim(c)|);
  }

  lemma TrimStartsAt(c: string) returns (i: nat)
    ensures i + |Trim(c)| <= |c| && Trim(c) == c[i..i + |Trim(c)|]
  {
    i := |c| - |TrimStart(c)|;
  }

  lemma NoTripleInfix(s: string, i: nat, j: nat)
    requires i <= j <= |s| && NoTripleLineFeed(s)
    ensures NoTripleLineFeed(s[i..j])
  {
    var t := s[i..j];
    forall k | 0 <= k < |t| - 2 ensures !TripleLineFeedAt(t, k) {
      assert !TripleLineFeedAt(s, i + k);
    }
  }

  /** A line start after the first character of `[c] + t` is one of `t`. */
  lemma BlankLineCons(c: char, t: string, atStart: bool)
    requires NoBlankLine(t, StartsLine(c))
    requires atStart ==> !BlankLine([c] + t)
    ensures NoBlankLine([c] + t, atStart)
  {
    var s := [c] + t;
    forall p | 0 < p < |s| && StartsLine(s[p - 1]) ensures !BlankLine(s[p..]) {
      assert s[p..] == t[p - 1..];
      if p == 1 {
        assert t[0..] == t;
      } else {
        assert s[p - 1] == t[p - 2];
      }
    }
  }

  lemma NoBlankLineSuffix(s: string, atStart: bool, k: nat)
    requires NoBlankLine(s, atStart) && 0 < k <= |s|
    ensures NoBlankLine(s[k..], StartsLine(s[k - 1]))
  {
    var t := s[k..];
    forall p | 0 < p < |t| && StartsLine(t[p - 1]) ensures !BlankLine(t[p..]) {
      assert t[p..] == s[k + p..] && t[p - 1] == s[k + p - 1];
    }
  }

  /** The table-rule pass leaves no line of blanks only. */
  lemma {:induction false} TableRuleClears(s: string, atStart: bool)
    ensures NoBlankLine(AnchoredPass(s, atStart, TableRule, ""), atStart)
    decreases |s|, 1
  {
    if s != [] {
      if atStart {
        TableRuleClearsAtStart(s);
      } else {
        TableRuleClears(s[1..], StartsLine(s[0]));
        BlankLineCons(s[0], AnchoredPass(s[1..], StartsLine(s[0]), TableRule, ""), false);
      }
    }
  }

  lemma {:induction false} TableRuleClearsAtStart(s: string)
    requires s != []
    ensures NoBlankLine(FromLineStart(s, TableRule, ""), true)
    decreases |s|, 0
  {
    var n := LineMatch(s, TableRule);
    if n > 0 {
      var r := AnchoredPass(s[n..], StartsLine(s[n - 1]), TableRule, "");
      TableRuleClears(s[n..], StartsLine(s[n - 1]));
      assert FromLineStart(s, TableRule, "") == r;
      if !StartsLine(s[n - 1]) && n < |s| {
        assert r[0] == s[n];
      }
    } else {
      var r := AnchoredPass(s[1..], StartsLine(s[0]), TableRule, "");
      TableRuleClears(s[1..], StartsLine(s[0]));
      if IsBlank(s[0]) {
        UnmatchedBlanksKept(s);
      }
      BlankLineCons(s[0], r, true);
    }
  }

  /** Blanks opening a line the table-rule pattern does not match are
      followed, within the line, by something else. */
  lemma UnmatchedBlanksKept(s: string)
    requires s != [] && IsBlank(s[0]) && LineMatch(s, TableRule) == 0
    ensures !BlankLine([s[0]] + AnchoredPass(s[1..], false, TableRule, ""))
  {
    var b := BlankLineEnd(s);
    RunSpan(s, 0, IsBlank);
    assert forall k :: 0 <= k < b ==> s[1..][k] == s[k + 1];
    PassCopiesLine(s[1..], b - 1, TableRule, "");
    var tail := AnchoredPass(s[1..], false, TableRule, "");
    var r := [s[0]] + tail;
    assert forall k :: 0 < k <= b ==> r[k] == tail[k - 1];
    RunIs(r, 0, IsBlank, b);
  }

  /** Where the blanks opening an unmatched line stop: at a character that
      is neither blank nor a line terminator. */
  lemma BlankLineEnd(s: string) returns (b: nat)
    requires s != [] && IsBlank(s[0]) && LineMatch(s, TableRule) == 0
    ensures b == Run(s, 0, IsBlank) && 0 < b < |s|
    ensures !IsBlank(s[b]) && !IsLineTerminator(s[b])
  {
    b := Run(s, 0, IsBlank);
    RunSpan(s, 0, IsBlank);
    assert forall k :: 0 <= k < b ==> IsTableRuleChar(s[k]);
    var limit := Run(s, 0, IsTableRuleChar);
    RunAtLeast(s, 0, IsTableRuleChar, b);
    assert LongestToLineEnd(s, limit) == 0;
    NoLineEndBeyond(s, limit);
    assert !AtLineEnd(s, b);
  }

  lemma {:induction false} RunAtLeast(s: string, i: nat, inClass: char -> bool, m: nat)
    requires i + m <= |s| && forall k :: i <= k < i + m ==> inClass(s[k])
    ensures Run(s, i, inClass) >= m
    decreases m
  {
    if m > 0 {
      RunAtLeast(s, i + 1, inClass, m - 1);
    }
  }

  /** Away from a line start an anchored pass copies up to and including
      the next line terminator. */
  lemma {:induction false} PassCopiesLine(t: string, m: nat, pattern: LinePattern, replacement: string)
    requires m < |t| && forall k :: 0 <= k < m ==> !IsLineTerminator(t[k])
    ensures |AnchoredPass(t, false, pattern, replacement)| > m
    ensures forall k :: 0 <= k <= m ==> AnchoredPass(t, false, pattern, replacement)[k] == t[k]
    decreases m
  {
    var rest := AnchoredPass(t[1..], StartsLine(t[0]), pattern, replacement);
    assert AnchoredPass(t, false, pattern, replacement) == [t[0]] + rest;
    if m > 0 {
      PassCopiesLine(t[1..], m - 1, pattern, replacement);
    }
  }

  /** The blank-line pass keeps every line of blanks away. */
  lemma {:induction false} BlankLinesKeepLines(s: string, atStart: bool)
    requires NoBlankLine(s, atStart)
    ensures NoBlankLine(BlankLines(s), atStart)
    decreases |s|
  {
    if s != [] {
      var n := Run(s, 0, IsLineFeed);
      RunSpan(s, 0, IsLineFeed);
      if n >= 3 {
        var t := BlankLines(s[n..]);
        NoBlankLineSuffix(s, atStart, n);
        BlankLinesKeepLines(s[n..], true);
        BlankLineCons('\n', t, true);
        BlankLineCons('\n', ['\n'] + t, atStart);
        assert BlankLines(s) == ['\n'] + (['\n'] + t);
      } else {
        var t := BlankLines(s[1..]);
        NoBlankLineSuffix(s, atStart, 1);
        BlankLinesKeepLines(s[1..], StartsLine(s[0]));
        if atStart && IsBlank(s[0]) {
          BlankOpenKept(s);
        }
        assert BlankLines(s) == [s[0]] + t;
        BlankLineCons(s[0], t, atStart);
      }
    }
  }

  /** A line opening with blanks but holding more keeps its first line. */
  lemma BlankOpenKept(s: string)
    requires s != [] && IsBlank(s[0]) && !BlankLine(s)
    ensures !BlankLine([s[0]] + BlankLines(s[1..]))
  {
    var b := Run(s, 0, IsBlank);
    RunSpan(s, 0, IsBlank);
    assert forall k :: 0 <= k < b ==> s[1..][k] == s[k + 1];
    BlankLinesKeepsHead(s[1..], b);
    var r := [s[0]] + BlankLines(s[1..]);
    assert forall k :: 0 < k <= b ==> r[k] == BlankLines(s[1..])[k - 1];
    RunIs(r, 0, IsBlank, b);
  }

  /** The blank-line pass copies an opening stretch without line feeds. */
  lemma BlankLinesKeepsHead(x: string, m: nat)
    requires m <= |x| && forall k :: 0 <= k < m ==> x[k] != '\n'
    ensures |BlankLines(x)| >= m && forall k :: 0 <= k < m ==> BlankLines(x)[k] == x[k]
  {
    var a := x[..m];
    NoTripleIn(a);
    BlankLinesPrefix(a, x[m..]);
    assert x == a + x[m..];
  }

  lemma NoTripleIn(a: string)
    requires forall k :: 0 <= k < |a| ==> a[k] != '\n'
    ensures NoTripleLineFeed(a)
  {
  }

  /** Removing blanks at the line edges of a text without lines of blanks
      joins no line feeds: three in a row in the result were three in a
      row before. */
  lemma {:induction false} EdgeBlanksNoTriple(s: string, atStart: bool)
    requires NoTripleLineFeed(s) && NoBlankLine(s, atStart)
    ensures NoTripleLineFeed(EdgeBlanks(s, atStart))
    ensures atStart && EdgeBlanks(s, atStart) != [] && EdgeBlanks(s, atStart)[0] == '\n' ==> s[0] == '\n'
    ensures atStart && TwoLineFeeds(EdgeBlanks(s, atStart)) ==> TwoLineFeeds(s)
    decreases |s|
  {
    if s != [] {
      var w := Run(s, 0, IsBlank);
      RunSpan(s, 0, IsBlank);
      if w > 0 && (atStart || AtLineEnd(s, w)) {
        NoBlankLineSuffix(s, atStart, w);
        NoTripleInfix(s, w, |s|);
        assert s[w..|s|] == s[w..];
        EdgeBlanksNoTriple(s[w..], false);
        if atStart {
          RunIs(s[w..], 0, IsBlank, 0);
        }
      } else {
        var t := EdgeBlanks(s[1..], StartsLine(s[0]));
        NoBlankLineSuffix(s, atStart, 1);
        NoTripleTail(s);
        EdgeBlanksNoTriple(s[1..], StartsLine(s[0]));
        assert |s| > 2 ==> !TripleLineFeedAt(s, 0);
        NoTripleCons(s[0], t);
      }
    }
  }
}
