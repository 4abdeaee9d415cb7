/**
 * Ingestion of a real directory tree (`getFilesInDir`): which paths are
 * skipped, how files are classified, and what a reading error at one level
 * discards. The tree is a value; the MIME lookup and the document
 * parser are parameters.
 */
module Ingest {
  import opened Wrappers
  import opened Strings
  import opened Paths

  datatype FileWithContent = FileWithContent(filePath: string, content: string)

  /** A real directory: `readable` is false when `readdir` on it throws. */
  datatype Dir = Dir(readable: bool, entries: seq<Entry>)

  /** A directory entry; a file's `readable` is false when reading it throws. */
  datatype Entry =
    | FileEntry(name: string, readable: bool, content: string)
    | SubDir(name: string, dir: Dir)

  /** What `getFilesInDir` does with a file once it is not skipped. */
  datatype Kind = Text | Parsed | Dropped

  const CodeExtensions: seq<string> := [
    ".py", ".js", ".ts", ".c", ".cpp", ".rs", ".go", ".java", ".cs", ".json", ".yaml",
    ".sql", ".zig", ".tsx", ".jsx", ".html", ".css", ".pl", ".php", ".rb", ".r"
  ]

  const FilesToParse: seq<string> := [".pdf", ".docx", ".doc", ".pptx", ".xlsx"]

  const DefaultIgnore: seq<string> := ["node_modules", "dist", "pnpm-lock.yaml", ".git"]

  /**
   * `path.join(dirPath, name)`: a leading "./" start directory disappears
   * (node's normalisation of the default "./"); otherwise "/"-joining.
   */
  function EntryPath(dirPath: string, name: string): (pt: string)
    ensures dirPath == "./" ==> pt == name
    ensures dirPath != "./" && dirPath != "" && !EndsWith(dirPath, "/") ==> pt == dirPath + "/" + name
  {
    if dirPath == "./" then name else Join(dirPath, name)
  }

  /** A path is skipped when it contains any ignore entry as a substring. */
  predicate Skipped(pt: string, toIgnore: seq<string>) {
    exists t | t in toIgnore :: Contains(pt, t)
  }

  /**
   * Text when the MIME type is "text/..." (`isTextMime`) or the last
   * extension is a code extension; otherwise parsed when it is a document
   * extension; otherwise dropped.
   */
  function Classify(pt: string, isTextMime: string -> bool): (k: Kind)
    ensures k == Text <==> isTextMime(pt) || LastExtension(pt) in CodeExtensions
    ensures k == Parsed <==> !isTextMime(pt) && LastExtension(pt) !in CodeExtensions && LastExtension(pt) in FilesToParse
  {
    var ext := LastExtension(pt);
    if isTextMime(pt) || ext in CodeExtensions then Text
    else if ext in FilesToParse then Parsed
    else Dropped
  }

  /**
   * The files `getFilesInDir` returns for directory `d` at `dirPath`: an
   * unreadable directory yields nothing; subdirectories are walked with the
   * default ignore list and swallow their own errors; a text file that
   * cannot be read ends the walk of this level with what it has collected
   * so far. The document parser never fails: on an error it yields the text
   * gathered so far, which is part of what `parse` returns.
   */
  function FilesInDir(dirPath: string, toIgnore: seq<string>, d: Dir,
                      isTextMime: string -> bool, parse: string -> string): seq<FileWithContent>
    decreases d, |d.entries| + 1
  {
    if !d.readable then [] else EntriesFrom(dirPath, toIgnore, d, 0, isTextMime, parse)
  }

  /** Entry `i` is an unskipped text file whose read throws: the level stops there. */
  predicate Fails(dirPath: string, toIgnore: seq<string>, d: Dir, i: nat, isTextMime: string -> bool)
    requires i < |d.entries|
  {
    var pt := EntryPath(dirPath, d.entries[i].name);
    && d.entries[i].FileEntry?
    && !d.entries[i].readable
    && !Skipped(pt, toIgnore)
    && Classify(pt, isTextMime) == Text
  }

  /** The files entry `i` of `d` adds when it does not fail. */
  function Contribution(dirPath: string, toIgnore: seq<string>, d: Dir, i: nat,
                        isTextMime: string -> bool, parse: string -> string): seq<FileWithContent>
    requires i < |d.entries|
    decreases d, 0
  {
    var e := d.entries[i];
    var pt := EntryPath(dirPath, e.name);
    if Skipped(pt, toIgnore) then []
    else
      match e
      case SubDir(_, sub) => FilesInDir(pt, DefaultIgnore, sub, isTextMime, parse)
      case FileEntry(_, readable, content) =>
        match Classify(pt, isTextMime)
        case Text => if readable then [FileWithContent(pt, content)] else []
        case Parsed => [FileWithContent(pt, parse(pt))]
        case Dropped => []
  }

  /** The files collected from entry `i` of `d` onwards. */
  function EntriesFrom(dirPath: string, toIgnore: seq<string>, d: Dir, i: nat,
                       isTextMime: string -> bool, parse: string -> string): seq<FileWithContent>
    requires i <= |d.entries|
    decreases d, |d.entries| - i
  {
    if i == |d.entries| then []
    else if Fails(dirPath, toIgnore, d, i, isTextMime) then []
    else
      Contribution(dirPath, toIgnore, d, i, isTextMime, parse)
        + EntriesFrom(dirPath, toIgnore, d, i + 1, isTextMime, parse)
  }

  /** A collected file passed the ignore test of its level and was not dropped. */
  predicate Admitted(f: FileWithContent, toIgnore: seq<string>, isTextMime: string -> bool) {
    !Skipped(f.filePath, toIgnore) && Classify(f.filePath, isTextMime) != Dropped
  }

  /**
   * `f` is what entry `j` of `d` yields: the entry's path passes the
   * caller's list; a file entry gives its own path with its content (the
   * read text, or the parser's text for a document) and is not dropped; a
   * subdirectory gives a file of its own walk, admitted by the default list.
   */
  predicate ComesFrom(f: FileWithContent, dirPath: string, toIgnore: seq<string>, d: Dir, j: nat,
                      isTextMime: string -> bool, parse: string -> string)
    requires j < |d.entries|
  {
    var pt := EntryPath(dirPath, d.entries[j].name);
    && !Skipped(pt, toIgnore)
    && match d.entries[j]
       case FileEntry(_, _, content) =>
         && Classify(pt, isTextMime) != Dropped
         && f == FileWithContent(pt, if Classify(pt, isTextMime) == Text then content else parse(pt))
       case SubDir(_, sub) =>
         f in FilesInDir(pt, DefaultIgnore, sub, isTextMime, parse) && Admitted(f, DefaultIgnore, isTextMime)
  }

  /**
   * Below the top level only the default list applies, so under the default
   * list every collected file is admitted by it.
   */
  lemma {:induction false} DefaultWalkAdmitted(dirPath: string, d: Dir, isTextMime: string -> bool, parse: string -> string)
    ensures forall f :: f in FilesInDir(dirPath, DefaultIgnore, d, isTextMime, parse) ==> Admitted(f, DefaultIgnore, isTextMime)
    decreases d, |d.entries| + 1
  {
    if d.readable {
      EntriesAdmitted(dirPath, DefaultIgnore, d, 0, isTextMime, parse);
      forall f | f in FilesInDir(dirPath, DefaultIgnore, d, isTextMime, parse)
        ensures Admitted(f, DefaultIgnore, isTextMime)
      {
        assert f in EntriesFrom(dirPath, DefaultIgnore, d, 0, isTextMime, parse);
        var j :| 0 <= j < |d.entries| && CollectedFrom(f, dirPath, DefaultIgnore, d, 0, j, isTextMime, parse);
        if d.entries[j].FileEntry? {
          assert f.filePath == EntryPath(dirPath, d.entries[j].name);
        }
      }
    }
  }

  /**
   * `f` comes from entry `j`, and no entry from `i` to `j` is a text file
   * whose read fails.
   */
  predicate CollectedFrom(f: FileWithContent, dirPath: string, toIgnore: seq<string>, d: Dir, i: nat, j: nat,
                          isTextMime: string -> bool, parse: string -> string)
    requires i <= j < |d.entries|
  {
    && ComesFrom(f, dirPath, toIgnore, d, j, isTextMime, parse)
    && forall k | i <= k <= j :: !Fails(dirPath, toIgnore, d, k, isTextMime)
  }

  /**
   * Soundness: every file collected from entry `i` onwards comes from one
   * of those entries, and neither that entry nor any entry before it (from
   * `i` on) is a text file whose read fails, so nothing after a failed read
   * is collected and a collected text file was readable. A file of this
   * level passes the caller's own ignore list, a file of a subdirectory the
   * default list.
   */
  lemma {:induction false} EntriesAdmitted(dirPath: string, toIgnore: seq<string>, d: Dir, i: nat,
                                           isTextMime: string -> bool, parse: string -> string)
    requires i <= |d.entries|
    ensures forall f :: f in EntriesFrom(dirPath, toIgnore, d, i, isTextMime, parse) ==>
      exists j | i <= j < |d.entries| :: CollectedFrom(f, dirPath, toIgnore, d, i, j, isTextMime, parse)
    decreases d, |d.entries| - i
  {
    if i < |d.entries| && !Fails(dirPath, toIgnore, d, i, isTextMime) {
      var e := d.entries[i];
      var pt := EntryPath(dirPath, e.name);
      EntriesAdmitted(dirPath, toIgnore, d, i + 1, isTextMime, parse);
      if !Skipped(pt, toIgnore) && e.SubDir? {
        DefaultWalkAdmitted(pt, e.dir, isTextMime, parse);
      }
      forall f | f in EntriesFrom(dirPath, toIgnore, d, i, isTextMime, parse)
        ensures exists j | i <= j < |d.entries| :: CollectedFrom(f, dirPath, toIgnore, d, i, j, isTextMime, parse)
      {
        if f in Contribution(dirPath, toIgnore, d, i, isTextMime, parse) {
          assert ComesFrom(f, dirPath, toIgnore, d, i, isTextMime, parse);
          assert CollectedFrom(f, dirPath, toIgnore, d, i, i, isTextMime, parse);
        } else {
          assert f in EntriesFrom(dirPath, toIgnore, d, i + 1, isTextMime, parse);
          var j :| i + 1 <= j < |d.entries| && CollectedFrom(f, dirPath, toIgnore, d, i + 1, j, isTextMime, parse);
          CollectedFromEarlier(f, dirPath, toIgnore, d, i, j, isTextMime, parse);
        }
      }
    }
  }

  /** A file collected from entry `i + 1` on is collected from `i` on when entry `i` does not fail. */
  lemma CollectedFromEarlier(f: FileWithContent, dirPath: string, toIgnore: seq<string>, d: Dir, i: nat, j: nat,
                             isTextMime: string -> bool, parse: string -> string)
    requires i < j < |d.entries| && !Fails(dirPath, toIgnore, d, i, isTextMime)
    requires CollectedFrom(f, dirPath, toIgnore, d, i + 1, j, isTextMime, parse)
    ensures CollectedFrom(f, dirPath, toIgnore, d, i, j, isTextMime, parse)
  {
  }

  /** A top-level file of the walk passes the caller's ignore list, whatever the default list says. */
  lemma TopLevelFileAdmitted(dirPath: string, toIgnore: seq<string>, d: Dir, j: nat, f: FileWithContent,
                             isTextMime: string -> bool, parse: string -> string)
    requires j < |d.entries| && d.entries[j].FileEntry?
    requires ComesFrom(f, dirPath, toIgnore, d, j, isTextMime, parse)
    ensures Admitted(f, toIgnore, isTextMime)
    ensures f.filePath == EntryPath(dirPath, d.entries[j].name)
  {
  }

  /**
   * Completeness: when the directory is readable and no entry up to and
   * including `i` fails, what entry `i` contributes is collected: an
   * admitted file with its content (a text file being readable, since it
   * does not fail), or every file of an admitted subdirectory's walk.
   */
  lemma FilesInDirComplete(dirPath: string, toIgnore: seq<string>, d: Dir, i: nat,
                           isTextMime: string -> bool, parse: string -> string)
    requires d.readable && i < |d.entries|
    requires forall j | 0 <= j <= i :: !Fails(dirPath, toIgnore, d, j, isTextMime)
    ensures var e, pt := d.entries[i], EntryPath(dirPath, d.entries[i].name);
      e.FileEntry? && !Skipped(pt, toIgnore) && Classify(pt, isTextMime) != Dropped ==>
        FileWithContent(pt, if Classify(pt, isTextMime) == Text then e.content else parse(pt))
          in FilesInDir(dirPath, toIgnore, d, isTextMime, parse)
    ensures var e, pt := d.entries[i], EntryPath(dirPath, d.entries[i].name);
      e.SubDir? && !Skipped(pt, toIgnore) ==>
        forall f :: f in FilesInDir(pt, DefaultIgnore, e.dir, isTextMime, parse) ==>
          f in FilesInDir(dirPath, toIgnore, d, isTextMime, parse)
  {
    var e, pt := d.entries[i], EntryPath(dirPath, d.entries[i].name);
    ContributionCollected(dirPath, toIgnore, d, 0, i, isTextMime, parse);
    assert FilesInDir(dirPath, toIgnore, d, isTextMime, parse) == EntriesFrom(dirPath, toIgnore, d, 0, isTextMime, parse);
    if e.FileEntry? && !Skipped(pt, toIgnore) && Classify(pt, isTextMime) != Dropped {
      assert !Fails(dirPath, toIgnore, d, i, isTextMime);
      assert FileWithContent(pt, if Classify(pt, isTextMime) == Text then e.content else parse(pt))
        in Contribution(dirPath, toIgnore, d, i, isTextMime, parse);
    }
  }

  /** What entry `i` contributes lies in the files collected from any earlier start `k` with no failure between. */
  lemma {:induction false} ContributionCollected(dirPath: string, toIgnore: seq<string>, d: Dir, k: nat, i: nat,
                                                 isTextMime: string -> bool, parse: string -> string)
    requires k <= i < |d.entries|
    requires forall j | k <= j <= i :: !Fails(dirPath, toIgnore, d, j, isTextMime)
    ensures forall f :: f in Contribution(dirPath, toIgnore, d, i, isTextMime, parse) ==>
      f in EntriesFrom(dirPath, toIgnore, d, k, isTextMime, parse)
    decreases i - k
  {
    assert !Fails(dirPath, toIgnore, d, k, isTextMime);
    if k < i {
      ContributionCollected(dirPath, toIgnore, d, k + 1, i, isTextMime, parse);
    }
  }

  /** `includes` is a substring test: "dist" filters out "distance.ts" as well as "dist". */
  lemma SubstringIgnore()
    ensures Skipped("distance.ts", DefaultIgnore)
    ensures FilesInDir("./", DefaultIgnore, Dir(true, [FileEntry("distance.ts", true, "x")]), _ => false, _ => "") == []
  {
    assert OccursAt("distance.ts", "dist", 0);
    assert Contains("distance.ts", "dist");
  }

  lemma NestedDirKept()
    ensures !Skipped("docs", ["notes"])
  {
    ContainedChars("docs", "notes", 0);
  }

  lemma NestedFileKept()
    ensures !Skipped("docs/notes.md", DefaultIgnore)
  {
    var pt := "docs/notes.md";
    assert '_' !in pt && 'i' !in pt && 'p' !in pt;
    DefaultIgnoreMissing(pt);
  }

  /** A path lacking '_', 'i' and 'p' holds none of the default ignore entries. */
  lemma DefaultIgnoreMissing(pt: string)
    requires '_' !in pt && 'i' !in pt && 'p' !in pt
    ensures !Skipped(pt, DefaultIgnore)
  {
    ContainedChars(pt, "node_modules", 4);
    ContainedChars(pt, "dist", 1);
    ContainedChars(pt, "pnpm-lock.yaml", 0);
    ContainedChars(pt, ".git", 2);
    assert DefaultIgnore == ["node_modules", "dist", "pnpm-lock.yaml", ".git"];
  }

  /**
   * A subdirectory is walked with the default list, not the caller's: asking
   * to ignore "notes" at the top still collects "docs/notes.md".
   */
  lemma NestedIgnoresDefaultOnly()
    ensures FilesInDir("./", ["notes"],
                       Dir(true, [SubDir("docs", Dir(true, [FileEntry("notes.md", true, "n")]))]),
                       p => EndsWith(p, ".md"), _ => "")
         == [FileWithContent("docs/notes.md", "n")]
  {
    var isText: string -> bool := p => EndsWith(p, ".md");
    var parse: string -> string := _ => "";
    var file := FileEntry("notes.md", true, "n");
    var sub := Dir(true, [file]);
    var top := Dir(true, [SubDir("docs", sub)]);
    var pt := "docs/notes.md";
    NestedDirKept();
    NestedFileKept();
    assert EntryPath("docs", "notes.md") == pt;
    assert EndsWith(pt, ".md");
    assert Classify(pt, isText) == Text;
    assert !Fails("docs", DefaultIgnore, sub, 0, isText);
    assert Contribution("docs", DefaultIgnore, sub, 0, isText, parse) == [FileWithContent(pt, "n")];
    assert EntriesFrom("docs", DefaultIgnore, sub, 1, isText, parse) == [];
    assert FilesInDir("docs", DefaultIgnore, sub, isText, parse) == [FileWithContent(pt, "n")];
    assert EntriesFrom("./", ["notes"], top, 1, isText, parse) == [];
  }

  /** The inner loop of `getFilesInDir`: does `pt` include any ignore entry? */
  method IsSkipped(pt: string, toIgnore: seq<string>) returns (toSkip: bool)
    ensures toSkip == Skipped(pt, toIgnore)
  {
    toSkip := false;
    var j := 0;
    while j < |toIgnore|
      invariant 0 <= j <= |toIgnore|
      invariant toSkip <==> exists t | t in toIgnore[..j] :: Contains(pt, t)
    {
      if Contains(pt, toIgnore[j]) {
        toSkip := true;
      }
      assert toIgnore[..j + 1] == toIgnore[..j] + [toIgnore[j]];
      j := j + 1;
    }
    assert toIgnore[..j] == toIgnore;
  }

  /**
   * One turn of the entry loop of `getFilesInDir`: the files entry `i`
   * contributes, and whether a failed read ends the walk of this level there.
   */
  method VisitEntry(dirPath: string, toIgnore: seq<string>, d: Dir, i: nat,
                    isTextMime: string -> bool, parse: string -> string)
    returns (got: seq<FileWithContent>, stop: bool)
    requires i < |d.entries|
    ensures stop <==> Fails(dirPath, toIgnore, d, i, isTextMime)
    ensures stop ==> got == [] && EntriesFrom(dirPath, toIgnore, d, i, isTextMime, parse) == []
    ensures !stop ==> EntriesFrom(dirPath, toIgnore, d, i, isTextMime, parse)
                      == got + EntriesFrom(dirPath, toIgnore, d, i + 1, isTextMime, parse)
    decreases d, 0
  {
    got, stop := [], false;
    var entry := d.entries[i];
    var pt := EntryPath(dirPath, entry.name);
    var toSkip := IsSkipped(pt, toIgnore);
    if toSkip {
      return;
    }
    match entry
    case SubDir(_, sub) =>
      got := GetFilesInDir(pt, DefaultIgnore, sub, isTextMime, parse);
    case FileEntry(_, readable, content) =>
      match Classify(pt, isTextMime)
      case Text =>
        if readable {
          got := [FileWithContent(pt, content)];
        } else {
          stop := true;
        }
      case Parsed =>
        got := [FileWithContent(pt, parse(pt))];
      case Dropped =>
  }

  /**
   * `getFilesInDir`: walk the entries in order, test each joined path
   * against every ignore entry, recurse into subdirectories with the default
   * list, and stop this level on the first failed read.
   */
  method GetFilesInDir(dirPath: string, toIgnore: seq<string>, d: Dir,
                       isTextMime: string -> bool, parse: string -> string)
    returns (files: seq<FileWithContent>)
    ensures files == FilesInDir(dirPath, toIgnore, d, isTextMime, parse)
    decreases d, 1
  {
    files := [];
    if !d.readable {
      return;
    }
    var i := 0;
    while i < |d.entries|
      invariant 0 <= i <= |d.entries|
      invariant files + EntriesFrom(dirPath, toIgnore, d, i, isTextMime, parse) == FilesInDir(dirPath, toIgnore, d, isTextMime, parse)
    {
      var got, stop := VisitEntry(dirPath, toIgnore, d, i, isTextMime, parse);
      if stop {
        assert files + [] == files;
        return;
      }
      assert files + got + EntriesFrom(dirPath, toIgnore, d, i + 1, isTextMime, parse)
          == files + (got + EntriesFrom(dirPath, toIgnore, d, i + 1, isTextMime, parse));
      files := files + got;
      i := i + 1;
    }
  }
}
