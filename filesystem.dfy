/**
 * The store adapter: an AgentFS store whose methods write, edit, list and
 * ingest files. The store engine's own failures are injected as flags
 * (`fault`) or as sets of failing call indices (`faults`).
 */
module FileSystem {
  import opened Wrappers
  import opened Strings
  import opened Paths
  import opened Store
  import opened StoreFacts
  import opened Ingest

  /** The index of the first failing call among `n` calls, or `n` when none fails. */
  function FirstFault(faults: set<nat>, n: nat, from: nat): (w: nat)
    requires from <= n
    ensures from <= w <= n
    ensures forall j :: from <= j < w ==> j !in faults
    ensures w < n ==> w in faults
    decreases n - from
  {
    if from == n then n
    else if from in faults then from
    else FirstFault(faults, n, from + 1)
  }

  /** The store after `recordFiles` writes each collected file at its rewritten path. */
  function StoreAll(s: Store, fs: seq<FileWithContent>): (r: Store)
    ensures s.Valid() ==> r.Valid()
    ensures forall k :: k in r.files ==> k in s.files || StartsWith(k, "/")
    ensures forall k :: k in s.files ==> k in r.files
    decreases |fs|
  {
    if fs == [] then s
    else StoreAll(s.Put(RecordPath(fs[0].filePath), fs[0].content), fs[1..])
  }

  /** Every collected file is stored at its rewritten path, the last write of a path winning. */
  lemma {:induction false} StoreAllStores(s: Store, fs: seq<FileWithContent>, i: nat)
    requires i < |fs|
    requires forall j :: i < j < |fs| ==> RecordPath(fs[j].filePath) != RecordPath(fs[i].filePath)
    ensures RecordPath(fs[i].filePath) in StoreAll(s, fs).files
    ensures StoreAll(s, fs).files[RecordPath(fs[i].filePath)] == fs[i].content
    decreases |fs|
  {
    var p := RecordPath(fs[0].filePath);
    var s' := s.Put(p, fs[0].content);
    var rest := fs[1..];
    assert forall j :: 0 <= j < |rest| ==> rest[j] == fs[j + 1];
    assert StoreAll(s, fs) == StoreAll(s', rest);
    if i == 0 {
      assert p in s'.files && s'.files[p] == fs[0].content;
      StoreAllKeeps(s', rest, p);
    } else {
      StoreAllStores(s', rest, i - 1);
    }
  }

  /** A key that no later file rewrites to keeps its content. */
  lemma {:induction false} StoreAllKeeps(s: Store, fs: seq<FileWithContent>, k: string)
    requires k in s.files
    requires forall j :: 0 <= j < |fs| ==> RecordPath(fs[j].filePath) != k
    ensures k in StoreAll(s, fs).files && StoreAll(s, fs).files[k] == s.files[k]
    decreases |fs|
  {
    if fs != [] {
      StoreAllKeeps(s.Put(RecordPath(fs[0].filePath), fs[0].content), fs[1..], k);
    }
  }

  class AgentFs {
    /** Content by path. */
    var files: map<string, string>
    /** The stored paths in order of first creation: the order `readdir` reports. */
    var order: seq<string>

    function State(): Store
      reads this
    {
      Store(files, order)
    }

    ghost predicate Valid()
      reads this
    {
      State().Valid()
    }

    /** A freshly created store: `getAgentFS` on a database that did not exist. */
    constructor ()
      ensures Valid() && files == map[] && order == []
    {
      files := map[];
      order := [];
    }

    /** The engine's `writeFile` at exactly `p`, creating the entry when it is new. */
    method Put(p: string, content: string)
      requires Valid()
      modifies this
      ensures State() == old(State()).Put(p, content)
    {
      if p !in files {
        order := order + [p];
      }
      files := files[p := content];
    }

    /**
     * `writeFile`: root the path, then write; true on success, false (and
     * nothing written) when the store fails.
     */
    method WriteFile(filePath: string, fileContent: string, fault: bool) returns (ok: bool)
      requires Valid()
      modifies this
      ensures Valid()
      ensures ok == !fault
      ensures ok ==> State() == old(State()).Put(Normalize(filePath), fileContent)
      ensures !ok ==> State() == old(State())
    {
      var p := filePath;
      if !StartsWith(p, "/") {
        p := "/" + p;
      }
      if fault {
        return false;
      }
      Put(p, fileContent);
      return true;
    }

    /**
     * `editFile`: root the path, read it, replace the first occurrence of
     * `oldString` and write the result back. A failed read gives None and
     * changes nothing; a failed write still returns the edited text.
     */
    method EditFile(filePath: string, oldString: string, newString: string, readFault: bool, writeFault: bool)
      returns (edited: Option<string>)
      requires Valid()
      modifies this
      ensures Valid()
      ensures edited.Some? <==> !readFault && Normalize(filePath) in old(files)
      ensures edited.Some? ==> edited.value == ReplaceFirst(old(files)[Normalize(filePath)], oldString, newString)
      ensures edited.Some? && !writeFault ==> State() == old(State()).Put(Normalize(filePath), edited.value)
      ensures edited.None? || writeFault ==> State() == old(State())
    {
      var p := filePath;
      if !StartsWith(p, "/") {
        p := "/" + p;
      }
      edited := None;
      var content := State().ReadFile(p, readFault);
      if content.None? {
        return;
      }
      var replaced := ReplaceFirst(content.value, oldString, newString);
      edited := Some(replaced);
      if writeFault {
        return;
      }
      Put(p, replaced);
    }

    /**
     * `listFiles`: walk the work list that starts as the root listing, print
     * each file name and append the children of each directory-like name to
     * the list being walked. Readdir call `c` fails when `c in faults`.
     */
    method ListFiles(faults: set<nat>) returns (listing: string)
      ensures listing == Listing(order, faults)
    {
      var availableFiles := "";
      var top := ReadDir(order, "/", 0 in faults);
      if top.None? {
        return availableFiles;
      }
      var work := top.value;
      TopLevelOk(order);
      availableFiles := availableFiles + Header;
      ghost var goal := Listing(order, faults);
      assert availableFiles == Header && work[0..] == work;
      var i := 0;
      var call := 1;
      while i < |work|
        invariant 0 <= i <= |work|
        invariant PendingOk(order, work[i..])
        invariant ListFrom(order, faults, work[i..], availableFiles, call) == goal
        decreases Weight(order, work[i..])
      {
        var file := work[i];
        assert work[i..][1..] == work[i + 1..];
        if IsDir(file) {
          ListFromDirStep(order, faults, work[i..], availableFiles, call);
          var sub := ReadDir(order, Join("/", file), call in faults);
          if sub.None? {
            return availableFiles;
          }
          ghost var before := work;
          work := PushJoined(work, file, sub.value);
          SuffixAppend(before, i, JoinAll(file, sub.value));
          call := call + 1;
        } else {
          ListFromFileStep(order, faults, work[i..], availableFiles, call);
          availableFiles := availableFiles + file + ", ";
        }
        i := i + 1;
      }
      assert work[i..] == [];
      return Trim(availableFiles);
    }

    /** The inner loop of `listFiles`: push `path.join(dir, name)` for each child name. */
    static method PushJoined(work: seq<string>, dir: string, names: seq<string>) returns (r: seq<string>)
      ensures r == work + JoinAll(dir, names)
    {
      r := work;
      var j := 0;
      while j < |names|
        invariant 0 <= j <= |names|
        invariant r == work + JoinAll(dir, names)[..j]
      {
        assert JoinAll(dir, names)[..j + 1] == JoinAll(dir, names)[..j] + [Join(dir, names[j])];
        r := r + [Join(dir, names[j])];
        j := j + 1;
      }
      assert JoinAll(dir, names)[..j] == JoinAll(dir, names);
    }

    /**
     * `recordFiles`: collect the files of the real tree `root` at `dirPath`,
     * then write each at its rewritten path, stopping with false at the first
     * failing write (write `j` fails when `j in writeFaults`); earlier writes
     * stay.
     */
    method RecordFiles(root: Dir, dirPath: string, toIgnore: seq<string>,
                       isTextMime: string -> bool, parse: string -> string, writeFaults: set<nat>)
      returns (ok: bool)
      requires Valid()
      modifies this
      ensures Valid()
      ensures var collected := FilesInDir(dirPath, toIgnore, root, isTextMime, parse);
        ok <==> FirstFault(writeFaults, |collected|, 0) == |collected|
      ensures var collected := FilesInDir(dirPath, toIgnore, root, isTextMime, parse);
        State() == StoreAll(old(State()), collected[..FirstFault(writeFaults, |collected|, 0)])
    {
      var collected := GetFilesInDir(dirPath, toIgnore, root, isTextMime, parse);
      ghost var start := State();
      ghost var n := |collected|;
      var i := 0;
      while i < |collected|
        invariant 0 <= i <= n
        invariant FirstFault(writeFaults, n, 0) == FirstFault(writeFaults, n, i)
        invariant Valid()
        invariant StoreAll(start, collected[..i]) == State()
      {
        var fp := RewritePath(collected[i].filePath);
        if i in writeFaults {
          return false;
        }
        StoreAllStep(start, collected, i);
        Put(fp, collected[i].content);
        i := i + 1;
      }
      assert collected[..i] == collected;
      return true;
    }

    /**
     * The statements by which `recordFiles` reassigns `file.filePath` in
     * place before writing it (src/filesystem.ts:95-104), proved to compute
     * `RecordPath`.
     */
    static method RewritePath(filePath: string) returns (fp: string)
      ensures fp == RecordPath(filePath)
    {
      fp := filePath;
      if !StartsWith(fp, "/") {
        if StartsWith(fp, "./") {
          assert OccursAt(fp, "./", 0);
          fp := ReplaceFirst(fp, "./", "/");
        } else {
          fp := "/" + fp;
        }
      }
    }
  }

  lemma SuffixAppend(work: seq<string>, i: nat, kids: seq<string>)
    requires i < |work|
    ensures (work + kids)[i + 1..] == work[i + 1..] + kids
  {
  }

  lemma StoreAllStep(s: Store, fs: seq<FileWithContent>, i: nat)
    requires i < |fs|
    ensures StoreAll(s, fs[..i + 1]) == StoreAll(s, fs[..i]).Put(RecordPath(fs[i].filePath), fs[i].content)
  {
    assert fs[..i + 1] == fs[..i] + [fs[i]];
    StoreAllSnoc(s, fs[..i], fs[i]);
  }

  lemma {:induction false} StoreAllSnoc(s: Store, fs: seq<FileWithContent>, f: FileWithContent)
    ensures StoreAll(s, fs + [f]) == StoreAll(s, fs).Put(RecordPath(f.filePath), f.content)
    decreases |fs|
  {
    if fs == [] {
      assert [f][1..] == [];
    } else {
      assert (fs + [f])[1..] == fs[1..] + [f];
      StoreAllSnoc(s.Put(RecordPath(fs[0].filePath), fs[0].content), fs[1..], f);
    }
  }

  /**
   * Write then read: reading the rooted path after a write gives the written
   * content, and every other path reads as before.
   */
  lemma WriteReadRoundTrip(s: Store, path: string, content: string)
    ensures s.Put(Normalize(path), content).ReadFile(Normalize(path), false) == Some(content)
    ensures forall q :: q != Normalize(path) ==>
      s.Put(Normalize(path), content).ReadFile(q, false) == s.ReadFile(q, false)
  {
  }

  /** A written path exists afterwards. */
  lemma ExistsAfterWrite(s: Store, path: string, content: string)
    requires s.Valid()
    requires !EndsWith(Normalize(path), "/") && !StartsWith(Normalize(path), "//")
    ensures s.Put(Normalize(path), content).FileExists(path, false)
  {
    FileExistsIff(s.Put(Normalize(path), content), path);
  }

  /** `fileExists` on the store holding only "/test.md": the stored path exists... */
  lemma SingleFilePresent(content: string)
    ensures Store(map["/test.md" := content], ["/test.md"]).FileExists("/test.md", false)
  {
    assert "/test.md"[|"/test.md"| - 1..] == "d";
    assert "/test.md"[..2] == "/t";
    FileExistsIff(Store(map["/test.md" := content], ["/test.md"]), "/test.md");
  }

  /** ... and a path that was never written does not. */
  lemma SingleFileAbsent(content: string)
    ensures !Store(map["/test.md" := content], ["/test.md"]).FileExists("/tests.md", false)
  {
    assert "/tests.md"[|"/tests.md"| - 1..] == "d";
    assert "/tests.md"[..2] == "/t";
    assert !StartsWith("/test.md", "/tests.md/");
    FileExistsIff(Store(map["/test.md" := content], ["/test.md"]), "/tests.md");
  }

  /**
   * The adapter's test sequence on a fresh store: write "/test.md", read it
   * back, list, test existence of it and of "/tests.md", then edit it.
   */
  method RepositoryTests() returns (read: Option<string>, listing: string, present: bool, absent: bool, edited: Option<string>)
    ensures read == Some("this is a test.")
    ensures listing == "AVAILABLE FILES:\ntest.md,"
    ensures present && !absent
    ensures edited == Some("this is a test file.")
  {
    var fs := new AgentFs();
    var ok := fs.WriteFile("/test.md", "this is a test.", false);
    assert fs.State() == Store(map["/test.md" := "this is a test."], ["/test.md"]);
    read := fs.State().ReadFile("/test.md", false);
    SingleFileListing();
    listing := fs.ListFiles({});
    SingleFilePresent("this is a test.");
    SingleFileAbsent("this is a test.");
    present := fs.State().FileExists("/test.md", false);
    absent := fs.State().FileExists("/tests.md", false);
    ReplaceWhole("this is a test.", "this is a test file.");
    edited := fs.EditFile("/test.md", "this is a test.", "this is a test file.", false, false);
  }
}
