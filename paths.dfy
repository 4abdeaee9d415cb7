/**
 * Paths of the virtual store: leading-separator normalisation, the
 * dirname/basename split of a "/"-separated path, `path.join`, the
 * rewriting `recordFiles` applies, and the dot-based tests the source uses
 * to tell files from directories and to find a file's extension.
 */
module Paths {
  import opened Strings

  /** Prefix "/" unless the path already starts with it (writeFile, editFile, fileExists). */
  function Normalize(p: string): (q: string)
    ensures StartsWith(q, "/") && |q| > 0 && q[0] == '/'
    ensures StartsWith(p, "/") ==> q == p
    ensures !StartsWith(p, "/") ==> q == "/" + p
  {
    if StartsWith(p, "/") then p else "/" + p
  }

  /** Normalising is idempotent, and a bare path behaves as its rooted form. */
  lemma NormalizeRootedForm(p: string)
    ensures Normalize(Normalize(p)) == Normalize(p)
    ensures !StartsWith(p, "/") ==> Normalize(p) == Normalize("/" + p)
  {
  }

  /** The index of the last `c` in `s`. */
  function LastIndexOfChar(s: string, c: char): (i: nat)
    requires c in s
    ensures i < |s| && s[i] == c && c !in s[i + 1..]
  {
    if s[|s| - 1] == c then |s| - 1
    else
      assert s[..|s| - 1][|s[..|s| - 1]| - 1..] == s[|s| - 2..|s| - 1];
      LastIndexOfChar(s[..|s| - 1], c)
  }

  /** `path.dirname` of a path holding a "/". */
  function Dirname(q: string): string
    requires '/' in q
  {
    var i := LastIndexOfChar(q, '/');
    if i == 0 then "/" else q[..i]
  }

  /** `path.basename` of a path holding a "/": what follows the last "/". */
  function Basename(q: string): (b: string)
    requires '/' in q
    ensures '/' !in b
  {
    q[LastIndexOfChar(q, '/') + 1..]
  }

  /** `path.join(dir, name)` on "/"-separated paths, without "." or ".." resolution. */
  function Join(dir: string, name: string): (r: string)
    ensures |r| <= |dir| + 1 + |name|
    ensures name != "" ==> |dir| < |r|
  {
    if dir == "" then name
    else if EndsWith(dir, "/") then dir + name
    else dir + "/" + name
  }

  /** How `recordFiles` rewrites a collected path before storing it. */
  function RecordPath(p: string): (r: string)
    ensures StartsWith(r, "/")
    ensures StartsWith(p, "/") ==> r == p
    ensures !StartsWith(p, "/") && StartsWith(p, "./") ==> r == "/" + p[2..]
    ensures !StartsWith(p, "/") && !StartsWith(p, "./") ==> r == "/" + p
  {
    if StartsWith(p, "/") then p
    else if StartsWith(p, "./") then
      assert OccursAt(p, "./", 0);
      ReplaceFirst(p, "./", "/")
    else "/" + p
  }

  /** `isDir`: a name is taken for a directory when splitting it on "." yields one piece. */
  predicate IsDir(name: string) {
    |Split(name, '.')| == 1
  }

  lemma IsDirIff(name: string)
    ensures IsDir(name) <==> '.' !in name
  {
    SplitSingleIff(name, '.');
  }

  /** `"." + p.split(".").at(-1)`: the extension `getFilesInDir` classifies by. */
  function LastExtension(p: string): (e: string)
    ensures StartsWith(e, ".") && '.' !in e[1..]
    ensures '.' !in p ==> e == "." + p
    ensures '.' in p ==> |e| <= |p| && p[|p| - |e|..] == e
  {
    SplitLast(p, '.');
    var l := LastPiece(p, '.');
    assert '.' in p ==> p[|p| - |l| - 1..] == [p[|p| - |l| - 1]] + p[|p| - |l|..];
    "." + l
  }

  /**
   * `"." + p.split(".").at(1)`: the extension the confirmation hooks test.
   * `at(1)` is `undefined` when the path holds no ".", and the template
   * string then reads ".undefined".
   */
  function SecondPieceExtension(p: string): (e: string)
    ensures '.' !in p ==> e == ".undefined"
  {
    var pieces := Split(p, '.');
    if |pieces| > 1 then "." + pieces[1]
    else
      SplitSingleIff(p, '.');
      ".undefined"
  }

  /**
   * The piece after the first ".": a path made of a dot-free `a`, ".", a
   * dot-free `b` and a rest that is empty or starts with "." tests "." + b,
   * whatever the rest holds.
   */
  lemma SecondPiece(a: string, b: string, r: string)
    requires '.' !in a && '.' !in b && (r == "" || r[0] == '.')
    ensures SecondPieceExtension(a + "." + b + r) == "." + b
  {
    var p := a + "." + b + r;
    assert p[..|a|] == a && p[|a|] == '.';
    assert p[|a| + 1..] == b + r;
    SplitAt(p, '.', |a|);
    if r != "" {
      assert (b + r)[..|b|] == b && (b + r)[|b|] == '.';
      SplitAt(b + r, '.', |b|);
    } else {
      assert b + r == b;
    }
  }

  /** The first "/"-separated segment of a relative path. */
  function FirstSegment(r: string): (s: string)
    ensures '/' !in s && StartsWith(r, s)
  {
    if '/' in r then r[..IndexOfChar(r, '/')] else r
  }

  lemma FirstSegmentIs(r: string, b: string)
    requires b != "" && '/' !in b
    ensures FirstSegment(r) == b <==> r == b || StartsWith(r, b + "/")
  {
    if '/' in r {
      var i := IndexOfChar(r, '/');
      assert r != b;
      if StartsWith(r, b + "/") {
        assert r[|b|] == '/';
        assert forall k :: 0 <= k < i ==> r[k] != '/' by {
          forall k | 0 <= k < i ensures r[k] != '/' { assert r[k] == r[..i][k]; }
        }
        assert forall k :: 0 <= k < |b| ==> r[k] != '/' by {
          forall k | 0 <= k < |b| ensures r[k] != '/' { assert r[k] == (b + "/")[k] == b[k]; }
        }
        assert i == |b|;
        assert r[..i] == b;
      }
      if FirstSegment(r) == b {
        assert |b| == i && r[i] == '/';
        assert (b + "/") == r[..i + 1];
      }
    } else {
      PrefixChar(r, b + "/", |b|);
    }
  }
}
