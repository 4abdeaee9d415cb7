/**
 * The virtual file store as a value: a finite map from path to content
 * together with the order in which paths were first created, the
 * directory listing derived from the paths, and the pure queries of the
 * adapter (`readFile`, `fileExists`) and the listing `listFiles` builds.
 */
module Store {
  import opened Wrappers
  import opened Strings
  import opened Paths

  /** Key `k` lies below directory prefix `pre` and its first segment there is `c`. */
  predicate NamesChild(k: string, pre: string, c: string) {
    StartsWith(k, pre) && c != "" && FirstSegment(k[|pre|..]) == c
  }

  /** The names listed for the directory whose prefix is `pre`, each once, in order of first creation. */
  function Children(keys: seq<string>, pre: string): (names: seq<string>)
    ensures |names| <= |keys|
    ensures forall i, j :: 0 <= i < j < |names| ==> names[i] != names[j]
  {
    if keys == [] then []
    else
      var rest := Children(keys[..|keys| - 1], pre);
      var k := keys[|keys| - 1];
      if StartsWith(k, pre) && FirstSegment(k[|pre|..]) != "" && FirstSegment(k[|pre|..]) !in rest
      then rest + [FirstSegment(k[|pre|..])]
      else rest
  }

  /** A name is listed exactly when some key lies below `pre` with that first segment. */
  lemma {:induction false} ChildrenIff(keys: seq<string>, pre: string, c: string)
    ensures c in Children(keys, pre) <==> exists k :: k in keys && NamesChild(k, pre, c)
    decreases |keys|
  {
    if keys != [] {
      var init := keys[..|keys| - 1];
      var k := keys[|keys| - 1];
      assert keys == init + [k];
      ChildrenIff(init, pre, c);
      if NamesChild(k, pre, c) {
        assert c in Children(keys, pre);
      }
      if c in Children(keys, pre) && c !in Children(init, pre) {
        assert NamesChild(k, pre, c);
      }
      if exists k' :: k' in keys && NamesChild(k', pre, c) {
        var k' :| k' in keys && NamesChild(k', pre, c);
        if k' != k { assert k' in init; }
      }
    }
  }

  /** A directory is any path some stored key lies below. */
  predicate IsDirectory(keys: seq<string>, d: string) {
    exists k | k in keys :: StartsWith(k, d + "/")
  }

  function DirPrefix(d: string): string {
    if d == "/" then "/" else d + "/"
  }

  /**
   * `readdir(d)`: the child names of `d`; it fails when the store fails
   * (`fault`) or when `d` is neither the root nor a directory.
   */
  function ReadDir(keys: seq<string>, d: string, fault: bool): (r: Option<seq<string>>)
    ensures r.Some? <==> !fault && (d == "/" || IsDirectory(keys, d))
    ensures r.Some? ==> r.value == Children(keys, DirPrefix(d))
  {
    if fault then None
    else if d == "/" || IsDirectory(keys, d) then Some(Children(keys, DirPrefix(d)))
    else None
  }

  datatype Store = Store(files: map<string, string>, order: seq<string>) {

    /** `order` lists every stored path exactly once. */
    ghost predicate Valid() {
      && (forall i, j :: 0 <= i < j < |order| ==> order[i] != order[j])
      && (forall k :: k in files <==> k in order)
    }

    /** The store after the engine writes `content` at `path`. */
    function Put(path: string, content: string): (s: Store)
      ensures Valid() ==> s.Valid()
      ensures s.files == files[path := content]
      ensures Valid() ==> forall k :: k in s.order <==> k in order || k == path
      ensures path in files ==> s.order == order
      ensures path !in files ==> s.order == order + [path]
    {
      Store(files[path := content], if path in files then order else order + [path])
    }

    /** `readFile`: the content at exactly `path`; null when absent or when the store fails. */
    function ReadFile(path: string, fault: bool): (r: Option<string>)
      ensures r.Some? <==> !fault && path in files
      ensures r.Some? ==> r.value == files[path]
    {
      if fault || path !in files then None else Some(files[path])
    }

    /**
     * `fileExists`: list the parent of the normalised path and look for the
     * full path or its basename; false when the listing fails.
     */
    function FileExists(path: string, fault: bool): bool {
      var q := Normalize(path);
      assert q[0] in q;
      match ReadDir(order, Dirname(q), fault)
      case None => false
      case Some(names) => exists f | f in names :: f == q || f == Basename(q)
    }
  }

  const Header := "AVAILABLE FILES:\n"

  /** The longest stored path: every name the listing visits is shorter. */
  function MaxLen(keys: seq<string>): (n: nat)
    ensures forall k :: k in keys ==> |k| <= n
  {
    if keys == [] then 0
    else
      var m := MaxLen(keys[1..]);
      assert forall k :: k in keys ==> k == keys[0] || k in keys[1..];
      if |keys[0]| > m then |keys[0]| else m
  }

  /** Names still to visit are non-empty and shorter than every bound on the keys. */
  ghost predicate PendingOk(keys: seq<string>, pending: seq<string>) {
    forall x :: x in pending ==> x != "" && |x| < MaxLen(keys)
  }

  function Pow(b: nat, e: nat): (p: nat)
    ensures b >= 1 ==> p >= 1
  {
    if e == 0 then 1 else b * Pow(b, e - 1)
  }

  /** A name can be replaced by at most |keys| longer names, each weighing a factor |keys| + 1 less. */
  ghost function ItemWeight(keys: seq<string>, x: string): nat
    requires |x| < MaxLen(keys)
  {
    Pow(|keys| + 1, MaxLen(keys) - 1 - |x|)
  }

  /** Termination measure of the work list. */
  ghost function Weight(keys: seq<string>, pending: seq<string>): nat
    requires PendingOk(keys, pending)
  {
    if pending == [] then 0
    else ItemWeight(keys, pending[0]) + Weight(keys, pending[1..])
  }

  function JoinAll(dir: string, names: seq<string>): (r: seq<string>)
    ensures |r| == |names|
    ensures forall i :: 0 <= i < |names| ==> r[i] == Join(dir, names[i])
  {
    seq(|names|, i requires 0 <= i < |names| => Join(dir, names[i]))
  }

  lemma {:induction false} PowMono(b: nat, e1: nat, e2: nat)
    requires b >= 1 && e1 <= e2
    ensures Pow(b, e1) <= Pow(b, e2)
    decreases e2
  {
    if e1 < e2 {
      PowMono(b, e1, e2 - 1);
      MulAtLeast(b, Pow(b, e2 - 1));
    }
  }

  lemma MulAtLeast(b: nat, x: nat)
    requires b >= 1
    ensures x <= b * x
  {
    assert b * x == x + (b - 1) * x;
  }

  lemma {:induction false} WeightAppend(keys: seq<string>, a: seq<string>, b: seq<string>)
    requires PendingOk(keys, a) && PendingOk(keys, b)
    ensures PendingOk(keys, a + b)
    ensures Weight(keys, a + b) == Weight(keys, a) + Weight(keys, b)
    decreases |a|
  {
    if a != [] {
      assert (a + b)[1..] == a[1..] + b;
      WeightAppend(keys, a[1..], b);
    } else {
      assert a + b == b;
    }
  }

  lemma {:induction false} WeightBound(keys: seq<string>, kids: seq<string>, p: nat)
    requires PendingOk(keys, kids)
    requires forall x :: x in kids ==> ItemWeight(keys, x) <= p
    ensures Weight(keys, kids) <= |kids| * p
    decreases |kids|
  {
    if kids != [] {
      assert forall x :: x in kids[1..] ==> x in kids;
      WeightBound(keys, kids[1..], p);
      AddMul(|kids|, p, ItemWeight(keys, kids[0]), Weight(keys, kids[1..]));
    }
  }

  lemma AddMul(n: nat, p: nat, a: nat, r: nat)
    requires n >= 1 && a <= p && r <= (n - 1) * p
    ensures a + r <= n * p
  {
    assert (n - 1) * p + p == n * p;
  }

  lemma MulMono(a: nat, b: nat, p: nat)
    requires a <= b
    ensures a * p <= b * p
  {
  }

  /** The children joined onto a pending directory name are longer than it and shorter than every key. */
  lemma KidsShape(keys: seq<string>, x: string, names: seq<string>)
    requires x != ""
    requires names == Children(keys, DirPrefix(Join("/", x)))
    ensures forall y :: y in JoinAll(x, names) ==> y != "" && |x| < |y| < MaxLen(keys)
  {
    var kids := JoinAll(x, names);
    var pre := "/" + x + "/";
    assert Join("/", x) == "/" + x;
    assert DirPrefix(Join("/", x)) == pre;
    forall y | y in kids
      ensures y != "" && |x| < |y| < MaxLen(keys)
    {
      var i :| 0 <= i < |kids| && kids[i] == y;
      var c := names[i];
      ChildrenIff(keys, pre, c);
      var k :| k in keys && NamesChild(k, pre, c);
      assert StartsWith(k[|pre|..], c);
      assert |pre| + |c| <= |k|;
    }
  }

  /** The children of a pending directory weigh less together than the directory. */
  lemma KidsWeight(keys: seq<string>, x: string, names: seq<string>)
    requires x != "" && |x| < MaxLen(keys)
    requires names == Children(keys, DirPrefix(Join("/", x)))
    ensures PendingOk(keys, JoinAll(x, names))
    ensures Weight(keys, JoinAll(x, names)) < ItemWeight(keys, x)
  {
    var kids := JoinAll(x, names);
    KidsShape(keys, x, names);
    if kids != [] {
      assert |x| < |kids[0]| < MaxLen(keys);
      var p := Pow(|keys| + 1, MaxLen(keys) - 2 - |x|);
      forall y | y in kids
        ensures ItemWeight(keys, y) <= p
      {
        DeeperWeighsLess(keys, x, y);
      }
      WeightBound(keys, kids, p);
      ItemWeightSplit(keys, x);
      assert |kids| == |names| <= |keys|;
      var wk := Weight(keys, kids);
      BelowNextPower(wk, |kids|, |keys| + 1, p);
    }
  }

  lemma DeeperWeighsLess(keys: seq<string>, x: string, y: string)
    requires |x| < |y| < MaxLen(keys)
    ensures ItemWeight(keys, y) <= Pow(|keys| + 1, MaxLen(keys) - 2 - |x|)
  {
    var b := |keys| + 1;
    var e1: nat := MaxLen(keys) - 1 - |y|;
    var e2: nat := MaxLen(keys) - 2 - |x|;
    assert ItemWeight(keys, y) == Pow(b, e1);
    assert Pow(b, e1) <= Pow(b, e2) by {
      PowMono(b, e1, e2);
    }
  }

  lemma ItemWeightSplit(keys: seq<string>, x: string)
    requires |x| + 1 < MaxLen(keys)
    ensures ItemWeight(keys, x) == (|keys| + 1) * Pow(|keys| + 1, MaxLen(keys) - 2 - |x|)
  {
    PowSucc(|keys| + 1, MaxLen(keys) - 2 - |x|);
  }

  /** Replacing a directory by its children lowers the measure. */
  lemma ExpandDecreases(keys: seq<string>, pending: seq<string>, names: seq<string>)
    requires pending != [] && PendingOk(keys, pending)
    requires names == Children(keys, DirPrefix(Join("/", pending[0])))
    ensures PendingOk(keys, pending[1..] + JoinAll(pending[0], names))
    ensures Weight(keys, pending[1..] + JoinAll(pending[0], names)) < Weight(keys, pending)
  {
    var kids := JoinAll(pending[0], names);
    KidsWeight(keys, pending[0], names);
    WeightCons(keys, pending);
    WeightAppend(keys, pending[1..], kids);
  }

  lemma WeightCons(keys: seq<string>, pending: seq<string>)
    requires pending != [] && PendingOk(keys, pending)
    ensures PendingOk(keys, pending[1..])
    ensures Weight(keys, pending) == ItemWeight(keys, pending[0]) + Weight(keys, pending[1..])
  {
  }

  lemma PowSucc(b: nat, e: nat)
    ensures Pow(b, e + 1) == b * Pow(b, e)
  {
  }

  lemma BelowNextPower(w: nat, n: nat, b: nat, p: nat)
    requires w <= n * p && n < b && p >= 1
    ensures w < b * p
  {
    MulMono(n + 1, b, p);
  }

  /**
   * `listFiles` from the point where `pending` remain on the work list:
   * files are appended to `acc` followed by ", "; a directory is replaced
   * by its children; a listing that fails returns `acc` untrimmed; `call`
   * numbers the readdir calls, and `faults` says which of them fail.
   */
  function ListFrom(keys: seq<string>, faults: set<nat>, pending: seq<string>, acc: string, call: nat): string
    requires PendingOk(keys, pending)
    decreases Weight(keys, pending)
  {
    if pending == [] then Trim(acc)
    else
      var x := pending[0];
      assert PendingOk(keys, pending[1..]);
      if !IsDir(x) then ListFrom(keys, faults, pending[1..], acc + x + ", ", call)
      else
        match ReadDir(keys, Join("/", x), call in faults)
        case None => acc
        case Some(names) =>
          ExpandDecreases(keys, pending, names);
          ListFrom(keys, faults, pending[1..] + JoinAll(x, names), acc, call + 1)
  }

  lemma TopLevelOk(keys: seq<string>)
    ensures PendingOk(keys, Children(keys, "/"))
  {
    forall c | c in Children(keys, "/")
      ensures c != "" && |c| < MaxLen(keys)
    {
      ChildrenIff(keys, "/", c);
      var k :| k in keys && NamesChild(k, "/", c);
      assert StartsWith(k[1..], c);
    }
  }

  /** `listFiles`: the top-level readdir is call 0. */
  function Listing(keys: seq<string>, faults: set<nat>): string {
    match ReadDir(keys, "/", 0 in faults)
    case None => ""
    case Some(top) =>
      TopLevelOk(keys);
      ListFrom(keys, faults, top, Header, 1)
  }
}

/** What the listing and the existence test promise about the store. */
module StoreFacts {
  import opened Wrappers
  import opened Strings
  import opened Paths
  import opened Store

  /** The listing starts with the header whenever it starts at all. */
  lemma {:induction false} ListFromKeepsHeader(keys: seq<string>, faults: set<nat>, pending: seq<string>, acc: string, call: nat)
    requires PendingOk(keys, pending) && StartsWith(acc, Header)
    ensures StartsWith(ListFrom(keys, faults, pending, acc, call), "AVAILABLE FILES:")
    decreases Weight(keys, pending)
  {
    if pending == [] {
      TrimKeepsHeader(acc);
    } else {
      var x := pending[0];
      assert PendingOk(keys, pending[1..]);
      if !IsDir(x) {
        assert (acc + x + ", ")[..|Header|] == acc[..|Header|];
        ListFromKeepsHeader(keys, faults, pending[1..], acc + x + ", ", call);
      } else {
        match ReadDir(keys, Join("/", x), call in faults)
        case None =>
          assert Header[..16] == "AVAILABLE FILES:";
          assert acc[..16] == "AVAILABLE FILES:";
        case Some(names) =>
          ExpandDecreases(keys, pending, names);
          ListFromKeepsHeader(keys, faults, pending[1..] + JoinAll(x, names), acc, call + 1);
      }
    }
  }

  /** Trimming keeps a prefix that starts and ends in text. */
  lemma TrimKeepsPrefix(s: string, h: string)
    requires StartsWith(s, h) && h != [] && !IsWhitespace(h[0]) && !IsWhitespace(h[|h| - 1])
    ensures StartsWith(Trim(s), h)
  {
    assert s[0] == h[0];
    assert TrimStart(s) == s;
    var r := TrimEnd(s);
    assert s[|h| - 1] == h[|h| - 1];
    assert |h| <= |r|;
    assert r[..|h|] == s[..|h|];
  }

  lemma TrimKeepsHeader(acc: string)
    requires StartsWith(acc, Header)
    ensures StartsWith(Trim(acc), "AVAILABLE FILES:")
  {
    var h := "AVAILABLE FILES:";
    assert h[0] == 'A' && h[|h| - 1] == ':';
    assert acc[..|h|] == Header[..|h|] == h;
    TrimKeepsPrefix(acc, h);
  }

  /** `listFiles` yields the empty string exactly when its top-level readdir fails. */
  lemma ListingEmptyIff(keys: seq<string>, faults: set<nat>)
    ensures Listing(keys, faults) == "" <==> 0 in faults
  {
    if 0 !in faults {
      TopLevelOk(keys);
      ListFromKeepsHeader(keys, faults, Children(keys, "/"), Header, 1);
    }
  }

  /** Each file name printed, followed by ", ". */
  function Rendered(names: seq<string>): string {
    if names == [] then "" else names[0] + ", " + Rendered(names[1..])
  }

  /** A file name at the head of the work list is printed and dropped. */
  lemma ListFromFileStep(keys: seq<string>, faults: set<nat>, pending: seq<string>, acc: string, call: nat)
    requires PendingOk(keys, pending) && pending != [] && !IsDir(pending[0])
    ensures PendingOk(keys, pending[1..])
    ensures ListFrom(keys, faults, pending, acc, call) == ListFrom(keys, faults, pending[1..], acc + pending[0] + ", ", call)
  {
    assert PendingOk(keys, pending[1..]);
  }

  /** A directory-like name at the head is replaced by its children, or ends the walk when its readdir fails. */
  lemma ListFromDirStep(keys: seq<string>, faults: set<nat>, pending: seq<string>, acc: string, call: nat)
    requires PendingOk(keys, pending) && pending != [] && IsDir(pending[0])
    ensures ReadDir(keys, Join("/", pending[0]), call in faults).None? ==> ListFrom(keys, faults, pending, acc, call) == acc
    ensures ReadDir(keys, Join("/", pending[0]), call in faults).Some? ==>
      var kids := JoinAll(pending[0], ReadDir(keys, Join("/", pending[0]), call in faults).value);
      && PendingOk(keys, pending[1..] + kids)
      && Weight(keys, pending[1..] + kids) < Weight(keys, pending)
      && ListFrom(keys, faults, pending, acc, call) == ListFrom(keys, faults, pending[1..] + kids, acc, call + 1)
  {
    match ReadDir(keys, Join("/", pending[0]), call in faults)
    case None =>
    case Some(names) =>
      ExpandDecreases(keys, pending, names);
  }

  /** A work list of file names only is printed in order, whatever fails later. */
  lemma {:induction false} ListFromFilesRest(keys: seq<string>, faults: set<nat>, pending: seq<string>, acc: string, call: nat)
    requires PendingOk(keys, pending)
    requires forall x :: x in pending ==> !IsDir(x)
    ensures ListFrom(keys, faults, pending, acc, call) == ListFrom(keys, faults, [], acc + Rendered(pending), call)
    decreases |pending|
  {
    if pending != [] {
      ListFromFileStep(keys, faults, pending, acc, call);
      assert forall x :: x in pending[1..] ==> x in pending;
      ListFromFilesRest(keys, faults, pending[1..], acc + pending[0] + ", ", call);
      RenderedCons(acc, pending);
    } else {
      assert acc + Rendered(pending) == acc;
    }
  }

  lemma RenderedCons(acc: string, names: seq<string>)
    requires names != []
    ensures acc + names[0] + ", " + Rendered(names[1..]) == acc + Rendered(names)
  {
  }

  /** ... and then trimmed. */
  lemma ListFromFiles(keys: seq<string>, faults: set<nat>, pending: seq<string>, acc: string, call: nat)
    requires PendingOk(keys, pending)
    requires forall x :: x in pending ==> !IsDir(x)
    ensures ListFrom(keys, faults, pending, acc, call) == Trim(acc + Rendered(pending))
  {
    ListFromFilesRest(keys, faults, pending, acc, call);
  }

  lemma RenderedOne(x: string)
    ensures Rendered([x]) == x + ", "
  {
    assert [x][1..] == [];
  }

  /** Trimming a string that starts and ends in text, with one trailing space. */
  lemma TrimTrailingSpace(s: string)
    requires s != [] && !IsWhitespace(s[0]) && !IsWhitespace(s[|s| - 1])
    ensures Trim(s + " ") == s
  {
    var t := s + " ";
    assert TrimStart(t) == t;
    assert t[..|t| - 1] == s;
  }

  /** A store holding one top-level path lists exactly that name at the root. */
  lemma OneNameChildren(n: string)
    requires n != "" && '/' !in n
    ensures ReadDir(["/" + n], "/", false) == Some([n])
  {
    var k := "/" + n;
    assert k[1..] == n;
    FirstSegmentIs(n, n);
    assert Children([k][..0], "/") == [];
    assert Children([k], "/") == [n];
  }

  /** A store holding one top-level file lists it after the header, trimmed. */
  lemma OneFileListing(n: string)
    requires n != "" && '/' !in n && '.' in n
    ensures Listing(["/" + n], {}) == Trim(Header + Rendered([n]))
  {
    var keys := ["/" + n];
    OneNameChildren(n);
    TopLevelOk(keys);
    IsDirIff(n);
    assert forall x :: x in [n] ==> !IsDir(x);
    ListFromFiles(keys, {}, [n], Header, 1);
  }

  lemma SingleFileText()
    ensures Trim(Header + Rendered(["test.md"])) == "AVAILABLE FILES:\ntest.md,"
  {
    var s := Header + "test.md,";
    assert s == "AVAILABLE FILES:\ntest.md,";
    RenderedOne("test.md");
    assert Header + Rendered(["test.md"]) == s + " ";
    TrimTrailingSpace(s);
  }

  /** The store of the repository's listing test: one file "/test.md". */
  lemma SingleFileListing()
    ensures Listing(["/test.md"], {}) == "AVAILABLE FILES:\ntest.md,"
  {
    var n := "test.md";
    assert n[4] == '.' && '/' !in n;
    assert "/" + n == "/test.md";
    OneFileListing(n);
    SingleFileText();
  }

  /** The accumulated listing still carries its separator: it was not trimmed. */
  predicate EndsInSpace(s: string) {
    s != [] && IsWhitespace(s[|s| - 1])
  }

  /**
   * An extensionless name that is not a directory (a file such as "Makefile")
   * makes its readdir fail once the walk reaches it, so the listing comes back
   * untrimmed.
   */
  lemma {:induction false} ListFromStalls(keys: seq<string>, faults: set<nat>, pending: seq<string>, acc: string, call: nat, m: string)
    requires PendingOk(keys, pending) && EndsInSpace(acc)
    requires m in pending && '.' !in m && !IsDirectory(keys, "/" + m)
    ensures EndsInSpace(ListFrom(keys, faults, pending, acc, call))
    decreases Weight(keys, pending)
  {
    var x := pending[0];
    assert PendingOk(keys, pending[1..]);
    if !IsDir(x) {
      IsDirIff(x);
      IsDirIff(m);
      assert m in pending[1..];
      ListFromFileStep(keys, faults, pending, acc, call);
      var acc' := acc + x + ", ";
      assert acc'[|acc'| - 1] == ' ';
      ListFromStalls(keys, faults, pending[1..], acc', call, m);
    } else {
      match ReadDir(keys, Join("/", x), call in faults)
      case None =>
      case Some(names) =>
        assert x != m by {
          assert Join("/", m) == "/" + m;
        }
        assert m in pending[1..];
        ExpandDecreases(keys, pending, names);
        ListFromStalls(keys, faults, pending[1..] + JoinAll(x, names), acc, call + 1, m);
    }
  }

  /** A top-level extensionless file leaves the whole listing untrimmed. */
  lemma ExtensionlessFileStalls(keys: seq<string>, faults: set<nat>, m: string)
    requires 0 !in faults
    requires m != "" && '.' !in m && '/' !in m && "/" + m in keys
    requires !IsDirectory(keys, "/" + m)
    ensures EndsInSpace(Listing(keys, faults))
  {
    TopLevelOk(keys);
    assert FirstSegment(("/" + m)[1..]) == m by { assert ("/" + m)[1..] == m; }
    assert NamesChild("/" + m, "/", m);
    ChildrenIff(keys, "/", m);
    var h := Header;
    assert h[|h| - 1] == '\n';
    ListFromStalls(keys, faults, Children(keys, "/"), Header, 1, m);
  }

  /** A rooted path splits into its parent's listing prefix and its basename. */
  lemma ParentSplit(q: string)
    requires StartsWith(q, "/") && !EndsWith(q, "/") && !StartsWith(q, "//")
    ensures q == DirPrefix(Dirname(q)) + Basename(q)
    ensures Basename(q) != ""
    ensures Dirname(q) != "/" ==> DirPrefix(Dirname(q)) == Dirname(q) + "/"
  {
    assert q[0] == '/';
    var i := LastIndexOfChar(q, '/');
    assert q[|q| - 1..] == [q[|q| - 1]];
    var d := Dirname(q);
    if i != 0 {
      assert d == q[..i];
      assert q[..2] == [q[0], q[1]];
    }
  }

  /** A key names basename `b` in the listing of `pre` exactly when it is `pre + b` or lies below it. */
  lemma ChildKeyIff(k: string, pre: string, b: string)
    requires b != "" && '/' !in b
    ensures NamesChild(k, pre, b) <==> k == pre + b || StartsWith(k, pre + b + "/")
  {
    if |pre| <= |k| { FirstSegmentIs(k[|pre|..], b); }
    StartsWithConcat(k, pre, b + "/");
    assert pre + (b + "/") == pre + b + "/";
    if StartsWith(k, pre) && k[|pre|..] == b {
      assert k == k[..|pre|] + k[|pre|..];
    }
    if k == pre + b || StartsWith(k, pre + b + "/") {
      StartsWithConcat(k, pre, b);
    }
  }

  /**
   * `fileExists` on a normalised path with no trailing "/" and no empty first
   * segment: true exactly when the path is stored or lies above a stored path,
   * and false whenever the store fails.
   */
  lemma FileExistsIff(s: Store, path: string)
    requires s.Valid()
    requires !EndsWith(Normalize(path), "/") && !StartsWith(Normalize(path), "//")
    ensures !s.FileExists(path, true)
    ensures s.FileExists(path, false) <==>
      Normalize(path) in s.files || exists k :: k in s.files && StartsWith(k, Normalize(path) + "/")
  {
    var q := Normalize(path);
    ParentSplit(q);
    BasenameListedIff(s.order, q);
    ParentListed(s.order, q);
    NoChildIsPath(s.order, q);
    var stored := exists k :: k in s.files && StartsWith(k, q + "/");
    if s.FileExists(path, false) {
      assert q in s.files || stored;
    }
    if q in s.files || stored {
      assert s.FileExists(path, false);
    }
  }

  /** The last segment of `q` is listed under its parent exactly when `q` or a path below it is stored. */
  lemma BasenameListedIff(keys: seq<string>, q: string)
    requires StartsWith(q, "/") && !EndsWith(q, "/") && !StartsWith(q, "//")
    ensures Basename(q) in Children(keys, DirPrefix(Dirname(q)))
            <==> exists k :: k in keys && (k == q || StartsWith(k, q + "/"))
  {
    ParentSplit(q);
    var pre, b := DirPrefix(Dirname(q)), Basename(q);
    forall k | true
      ensures NamesChild(k, pre, b) <==> k == q || StartsWith(k, q + "/")
    {
      ChildKeyIff(k, pre, b);
    }
    ChildrenIff(keys, pre, b);
  }

  /** A stored path at or below `q` makes the parent of `q` a directory. */
  lemma ParentListed(keys: seq<string>, q: string)
    requires StartsWith(q, "/") && !EndsWith(q, "/") && !StartsWith(q, "//")
    ensures (exists k :: k in keys && (k == q || StartsWith(k, q + "/")))
            ==> Dirname(q) == "/" || IsDirectory(keys, Dirname(q))
  {
    ParentSplit(q);
    var d, pre, b := Dirname(q), DirPrefix(Dirname(q)), Basename(q);
    forall k | k in keys && (k == q || StartsWith(k, q + "/")) && d != "/"
      ensures StartsWith(k, d + "/")
    {
      ChildKeyIff(k, pre, b);
    }
  }

  /** Under its parent, `q` itself is never a listed name: names carry no "/". */
  lemma NoChildIsPath(keys: seq<string>, q: string)
    requires q != [] && q[0] == '/'
    ensures forall f :: f in Children(keys, DirPrefix(Dirname(q))) ==> f != q
  {
    forall f | f in Children(keys, DirPrefix(Dirname(q)))
      ensures f != q
    {
      ChildrenIff(keys, DirPrefix(Dirname(q)), f);
    }
  }
}
