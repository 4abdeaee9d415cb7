/**
 * The JavaScript string operations the core relies on: `startsWith`,
 * `includes`, `indexOf`, first-occurrence `replace` with a literal
 * pattern, `split` on one character, `trim` and `toLowerCase`.
 */
module Strings {
  import opened Wrappers

  predicate StartsWith(s: string, prefix: string) {
    |prefix| <= |s| && s[..|prefix|] == prefix
  }

  lemma PrefixChar(s: string, prefix: string, k: nat)
    ensures StartsWith(s, prefix) && k < |prefix| ==> k < |s| && s[k] == prefix[k]
  {
    if StartsWith(s, prefix) && k < |prefix| {
      assert s[k] == s[..|prefix|][k];
    }
  }

  lemma StartsWithConcat(s: string, p: string, r: string)
    ensures StartsWith(s, p + r) <==> StartsWith(s, p) && StartsWith(s[|p|..], r)
  {
    if StartsWith(s, p + r) {
      assert s[..|p|] == (p + r)[..|p|];
      assert s[|p|..][..|r|] == s[|p|..|p| + |r|] == (p + r)[|p|..];
    }
    if StartsWith(s, p) && StartsWith(s[|p|..], r) {
      assert s[..|p| + |r|] == s[..|p|] + s[|p|..][..|r|];
    }
  }

  predicate EndsWith(s: string, suffix: string) {
    |suffix| <= |s| && s[|s| - |suffix|..] == suffix
  }

  /** `sub` occurs in `s` starting at index `i`. */
  predicate OccursAt(s: string, sub: string, i: nat) {
    i + |sub| <= |s| && s[i..i + |sub|] == sub
  }

  /** The first index at or after `from` where `sub` occurs. */
  function IndexFrom(s: string, sub: string, from: nat): (r: Option<nat>)
    requires from <= |s|
    ensures r.Some? ==> from <= r.value && OccursAt(s, sub, r.value)
    ensures r.Some? ==> forall j :: from <= j < r.value ==> !OccursAt(s, sub, j)
    ensures r.None? ==> forall j :: from <= j ==> !OccursAt(s, sub, j)
    decreases |s| - from
  {
    if OccursAt(s, sub, from) then Some(from)
    else if from == |s| then None
    else IndexFrom(s, sub, from + 1)
  }

  /** JavaScript `s.indexOf(sub)`: the first occurrence (an empty `sub` occurs at 0). */
  function IndexOf(s: string, sub: string): (r: Option<nat>)
    ensures r.Some? ==> OccursAt(s, sub, r.value)
    ensures r.Some? ==> forall j :: 0 <= j < r.value ==> !OccursAt(s, sub, j)
    ensures r.None? <==> forall j :: 0 <= j ==> !OccursAt(s, sub, j)
  {
    IndexFrom(s, sub, 0)
  }

  /** JavaScript `s.includes(sub)`. */
  predicate Contains(s: string, sub: string) {
    IndexOf(s, sub).Some?
  }

  /** A pattern holding a character that `s` lacks does not occur in `s`. */
  lemma ContainedChars(s: string, sub: string, k: nat)
    ensures k < |sub| && Contains(s, sub) ==> sub[k] in s
  {
    if k < |sub| && Contains(s, sub) {
      var i := IndexOf(s, sub).value;
      assert s[i + k] == s[i..i + |sub|][k] == sub[k];
    }
  }

  /**
   * JavaScript `s.replace(pattern, replacement)` for a string pattern:
   * only the first occurrence of `pattern` is replaced.
   */
  function ReplaceFirst(s: string, pattern: string, replacement: string): (r: string)
    ensures (forall j :: 0 <= j ==> !OccursAt(s, pattern, j)) ==> r == s
    ensures forall i: nat ::
              OccursAt(s, pattern, i) && (forall j :: 0 <= j < i ==> !OccursAt(s, pattern, j)) ==>
                r == s[..i] + replacement + s[i + |pattern|..]
  {
    match IndexOf(s, pattern)
    case None => s
    case Some(i) =>
      FirstOccurrence(s, pattern, i);
      s[..i] + replacement + s[i + |pattern|..]
  }

  /** Only one index can be the first occurrence. */
  lemma FirstOccurrence(s: string, pattern: string, i: nat)
    requires OccursAt(s, pattern, i) && forall j :: 0 <= j < i ==> !OccursAt(s, pattern, j)
    ensures forall k: nat :: OccursAt(s, pattern, k) && (forall j :: 0 <= j < k ==> !OccursAt(s, pattern, j)) ==> k == i
  {
  }

  /** Replacing a whole string by itself as the pattern gives the replacement. */
  lemma ReplaceWhole(s: string, replacement: string)
    ensures ReplaceFirst(s, s, replacement) == replacement
  {
    assert OccursAt(s, s, 0);
    assert s[..0] + replacement + s[|s|..] == replacement;
  }

  /** An empty pattern matches at index 0, so the replacement is prepended. */
  lemma ReplaceEmptyPattern(s: string, replacement: string)
    ensures ReplaceFirst(s, "", replacement) == replacement + s
  {
    assert OccursAt(s, "", 0);
    assert s[..0] + replacement + s[0..] == replacement + s;
  }

  /** Without an occurrence of the pattern the text is unchanged. */
  lemma ReplaceAbsent(s: string, pattern: string, replacement: string)
    requires !Contains(s, pattern)
    ensures ReplaceFirst(s, pattern, replacement) == s
  {
  }

  /** Only the first occurrence is replaced: the text before it and after it is kept. */
  lemma ReplaceOnlyFirst()
    ensures ReplaceFirst("aXaXa", "a", "b") == "bXaXa"
  {
    assert OccursAt("aXaXa", "a", 0);
    assert "aXaXa"[..0] + "b" + "aXaXa"[1..] == "bXaXa";
  }

  /** The index of the first `c` in `s`. */
  function IndexOfChar(s: string, c: char): (i: nat)
    requires c in s
    ensures i < |s| && s[i] == c && c !in s[..i]
  {
    if s[0] == c then 0 else 1 + IndexOfChar(s[1..], c)
  }

  /** JavaScript `s.split(c)` for a one-character separator. */
  function Split(s: string, c: char): (pieces: seq<string>)
    ensures |pieces| >= 1
    ensures forall k :: 0 <= k < |pieces| ==> c !in pieces[k]
    decreases |s|
  {
    if c !in s then [s]
    else
      var i := IndexOfChar(s, c);
      [s[..i]] + Split(s[i + 1..], c)
  }

  /** JavaScript `pieces.join(c)`: the inverse of `Split`. */
  function JoinWith(pieces: seq<string>, c: char): string
    requires |pieces| >= 1
  {
    if |pieces| == 1 then pieces[0] else pieces[0] + [c] + JoinWith(pieces[1..], c)
  }

  /** Splitting at the first separator: the piece before it, then the split of the rest. */
  lemma SplitAt(s: string, c: char, i: nat)
    requires i < |s| && s[i] == c && c !in s[..i]
    ensures Split(s, c) == [s[..i]] + Split(s[i + 1..], c)
  {
    var j := IndexOfChar(s, c);
    assert forall k :: 0 <= k < i ==> s[..i][k] == s[k];
    assert forall k :: 0 <= k < j ==> s[..j][k] == s[k];
    assert j == i;
  }

  /**
   * The last piece of a split is the text after the last separator: a
   * suffix of `s`, preceded by the separator when `s` holds one.
   */
  lemma {:induction false} SplitLast(s: string, c: char)
    ensures var l := LastPiece(s, c);
      |l| <= |s| && s[|s| - |l|..] == l && (c in s ==> |l| < |s| && s[|s| - |l| - 1] == c)
    decreases |s|
  {
    if c in s {
      var i := IndexOfChar(s, c);
      var t := s[i + 1..];
      SplitLast(t, c);
      var l := LastPiece(t, c);
      SplitLastStep(s, c, i);
      assert LastPiece(s, c) == l;
      SuffixOfSuffix(s, i + 1, |l|);
      if c !in t {
        assert l == t;
      }
    }
  }

  /** The last piece of a split. */
  function LastPiece(s: string, c: char): string {
    var pieces := Split(s, c);
    pieces[|pieces| - 1]
  }

  /** Past the first separator, the last piece is that of the rest. */
  lemma SplitLastStep(s: string, c: char, i: nat)
    requires c in s && i == IndexOfChar(s, c)
    ensures LastPiece(s, c) == LastPiece(s[i + 1..], c)
  {
    var rest := Split(s[i + 1..], c);
    assert Split(s, c) == [s[..i]] + rest;
    assert ([s[..i]] + rest)[|rest|] == rest[|rest| - 1];
  }

  /** A suffix of a suffix of `s` is a suffix of `s`. */
  lemma SuffixOfSuffix(s: string, j: nat, n: nat)
    requires j <= |s| && n <= |s| - j
    ensures s[j..][|s| - j - n..] == s[|s| - n..]
    ensures n < |s| - j ==> s[j..][|s| - j - n - 1] == s[|s| - n - 1]
  {
  }

  lemma {:induction false} JoinSplit(s: string, c: char)
    ensures JoinWith(Split(s, c), c) == s
    decreases |s|
  {
    if c in s {
      var i := IndexOfChar(s, c);
      var rest := Split(s[i + 1..], c);
      assert Split(s, c) == [s[..i]] + rest;
      JoinSplit(s[i + 1..], c);
      assert JoinWith(Split(s, c), c) == s[..i] + [c] + JoinWith(rest, c);
      assert s == s[..i] + [c] + s[i + 1..];
    }
  }

  /** Joining separator-free pieces and splitting again gives the pieces back. */
  lemma {:induction false} SplitJoin(pieces: seq<string>, c: char)
    requires |pieces| >= 1 && forall k :: 0 <= k < |pieces| ==> c !in pieces[k]
    ensures Split(JoinWith(pieces, c), c) == pieces
    decreases |pieces|
  {
    if |pieces| > 1 {
      var s := JoinWith(pieces, c);
      var i := |pieces[0]|;
      assert s == pieces[0] + [c] + JoinWith(pieces[1..], c);
      assert s[..i] == pieces[0];
      assert s[i + 1..] == JoinWith(pieces[1..], c);
      SplitAt(s, c, i);
      SplitJoin(pieces[1..], c);
    }
  }

  lemma {:induction false} SplitSingleIff(s: string, c: char)
    ensures |Split(s, c)| == 1 <==> c !in s
  {
    if c in s {
      var i := IndexOfChar(s, c);
      assert |Split(s, c)| == 1 + |Split(s[i + 1..], c)|;
    }
  }

  /** The characters JavaScript's `String.prototype.trim` removes. */
  predicate IsWhitespace(ch: char) {
    || ch == ' ' || ch == '\t' || ch == '\n' || ch == '\r'
    || ch == '\U{000B}' || ch == '\U{000C}' || ch == '\U{00A0}' || ch == '\U{1680}'
    || ('\U{2000}' <= ch <= '\U{200A}')
    || ch == '\U{2028}' || ch == '\U{2029}' || ch == '\U{202F}' || ch == '\U{205F}'
    || ch == '\U{3000}' || ch == '\U{FEFF}'
  }

  function TrimStart(s: string): (r: string)
    ensures |r| <= |s| && r == s[|s| - |r|..]
    ensures forall k :: 0 <= k < |s| - |r| ==> IsWhitespace(s[k])
    ensures r != [] ==> !IsWhitespace(r[0])
  {
    if s != [] && IsWhitespace(s[0]) then TrimStart(s[1..]) else s
  }

  function TrimEnd(s: string): (r: string)
    ensures |r| <= |s| && r == s[..|r|]
    ensures forall k :: |r| <= k < |s| ==> IsWhitespace(s[k])
    ensures r != [] ==> !IsWhitespace(r[|r| - 1])
  {
    if s != [] && IsWhitespace(s[|s| - 1]) then TrimEnd(s[..|s| - 1]) else s
  }

  /** JavaScript `s.trim()`. */
  function Trim(s: string): string {
    TrimEnd(TrimStart(s))
  }

  function LowerChar(ch: char): char {
    if 'A' <= ch <= 'Z' then (ch as int - 'A' as int + 'a' as int) as char else ch
  }

  /** JavaScript `s.toLowerCase()`, on the ASCII letters. */
  function ToLower(s: string): (r: string)
    ensures |r| == |s|
    ensures forall k :: 0 <= k < |s| ==> r[k] == LowerChar(s[k])
  {
    seq(|s|, k requires 0 <= k < |s| => LowerChar(s[k]))
  }
}
