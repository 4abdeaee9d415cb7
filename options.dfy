/**
 * The agent's permission and confirmation gates: the hook that denies the
 * native file tools, the hooks that offer to replay a virtual write or edit
 * on the real file system, the hooks table, and the tool lists of the
 * shared query options.
 */
module Options {
  import opened Wrappers
  import opened Strings
  import opened Paths
  import opened Ingest
  import opened Mcp

  /** A hook's `tool_input`: not a non-null object, or an object with string fields. */
  datatype ToolInput = NonObject | Object(fields: map<string, string>)

  /** A field of the tool input, "" when absent or when the input is not an object. */
  function Field(input: ToolInput, name: string): (v: string)
    ensures input.Object? && name in input.fields ==> v == input.fields[name]
    ensures input.NonObject? || name !in input.fields ==> v == ""
  {
    match input
    case Object(fields) => if name in fields then fields[name] else ""
    case NonObject => ""
  }

  /** The JSON a hook returns. */
  datatype HookOutput =
    | Decision(async: bool, permissionDecision: string, permissionDecisionReason: string, hookEventName: string)
    | Proceed(async: bool, continues: bool)

  const DenyReason := "You cannot use standard file system tools, you should use the ones from the filesystem MCP server."

  /** `denyFileSystemToolsHook`: ignores its arguments and denies. */
  function DenyFileSystemToolsHook(input: ToolInput, toolUseId: Option<string>): (r: HookOutput)
    ensures r.Decision? && r.async
    ensures r.permissionDecision == "deny" && r.hookEventName == "PreToolUse"
    ensures r.permissionDecisionReason == DenyReason
  {
    Decision(true, "deny", DenyReason, "PreToolUse")
  }

  /** The deny hook answers every call alike. */
  lemma DenyIgnoresInput(a: ToolInput, b: ToolInput, ida: Option<string>, idb: Option<string>)
    ensures DenyFileSystemToolsHook(a, ida) == DenyFileSystemToolsHook(b, idb)
  {
  }

  /**
   * `askToPersistFileWrite` offers the replay when the path and the content
   * are non-empty and the path's second dot-piece does not name a document
   * format.
   */
  predicate WriteReplayOffered(input: ToolInput) {
    && Field(input, "filePath") != ""
    && Field(input, "fileContent") != ""
    && SecondPieceExtension(Field(input, "filePath")) !in FilesToParse
  }

  /** `askToPersistFileEdit` also needs a non-empty old and new string. */
  predicate EditReplayOffered(input: ToolInput) {
    && Field(input, "filePath") != ""
    && Field(input, "oldString") != ""
    && Field(input, "newString") != ""
    && SecondPieceExtension(Field(input, "filePath")) !in FilesToParse
  }

  /**
   * The test reads the second dot-piece, not the last one: for "a.b.c"
   * the offer depends on ".b" alone, so "notes.pdf.txt" is not offered and
   * "notes.txt.pdf" is.
   */
  lemma SecondPieceNotLast(a: string, b: string, c: string, fileContent: string)
    requires '.' !in a && '.' !in b && '.' !in c && fileContent != ""
    ensures WriteReplayOffered(Object(map["filePath" := a + "." + b + "." + c, "fileContent" := fileContent]))
            <==> "." + b !in FilesToParse
  {
    ThreePieces(a, b, c);
  }

  lemma ThreePieces(a: string, b: string, c: string)
    requires '.' !in a && '.' !in b && '.' !in c
    ensures SecondPieceExtension(a + "." + b + "." + c) == "." + b
  {
    assert a + "." + b + "." + c == a + "." + b + ("." + c);
    SecondPiece(a, b, "." + c);
  }

  /** The ordinary "name.ext" path is offered exactly when ".ext" is not a document format. */
  lemma TwoPieces(a: string, b: string, fileContent: string)
    requires '.' !in a && '.' !in b && fileContent != ""
    ensures WriteReplayOffered(Object(map["filePath" := a + "." + b, "fileContent" := fileContent]))
            <==> "." + b !in FilesToParse
  {
    assert a + "." + b + "" == a + "." + b;
    SecondPiece(a, b, "");
  }

  /** A path without a dot tests ".undefined", which is never a document format. */
  lemma DotlessPathOffered(filePath: string, fileContent: string)
    requires filePath != "" && fileContent != "" && '.' !in filePath
    ensures WriteReplayOffered(Object(map["filePath" := filePath, "fileContent" := fileContent]))
  {
  }

  /** An edit that deletes text (empty new string) is never offered. */
  lemma DeletionNeverOffered(input: ToolInput)
    requires Field(input, "newString") == ""
    ensures !EditReplayOffered(input)
  {
  }

  /** An edit is offered only when the write test on its path would pass. */
  lemma EditOfferNeedsWriteTest(input: ToolInput)
    ensures EditReplayOffered(input) ==> Field(input, "filePath") != "" && SecondPieceExtension(Field(input, "filePath")) !in FilesToParse
  {
  }

  const Affirmative: seq<string> := ["y", "yes", "yse"]

  /** The hooks' test of the operator's answer: lowercased, then trimmed. */
  predicate IsApproval(answer: string) {
    Trim(ToLower(answer)) in Affirmative
  }

  /** Lowercasing keeps a character's whitespace status. */
  lemma LowerWhitespace(ch: char)
    ensures IsWhitespace(LowerChar(ch)) <==> IsWhitespace(ch)
    ensures IsWhitespace(ch) ==> LowerChar(ch) == ch
  {
  }

  /** Trimming and lowercasing commute, so both orders used in the program agree. */
  lemma {:induction false} TrimStartLower(s: string)
    ensures TrimStart(ToLower(s)) == ToLower(TrimStart(s))
    decreases |s|
  {
    if s != [] {
      LowerWhitespace(s[0]);
      assert ToLower(s)[1..] == ToLower(s[1..]);
      if IsWhitespace(s[0]) {
        TrimStartLower(s[1..]);
      }
    }
  }

  lemma {:induction false} TrimEndLower(s: string)
    ensures TrimEnd(ToLower(s)) == ToLower(TrimEnd(s))
    decreases |s|
  {
    if s != [] {
      LowerWhitespace(s[|s| - 1]);
      assert ToLower(s)[..|s| - 1] == ToLower(s[..|s| - 1]);
      if IsWhitespace(s[|s| - 1]) {
        TrimEndLower(s[..|s| - 1]);
      }
    }
  }

  lemma TrimLowerCommute(s: string)
    ensures Trim(ToLower(s)) == ToLower(Trim(s))
  {
    TrimStartLower(s);
    TrimEndLower(TrimStart(s));
  }

  predicate AllWhitespace(w: string) {
    forall k :: 0 <= k < |w| ==> IsWhitespace(w[k])
  }

  lemma LowerConcat(a: string, b: string)
    ensures ToLower(a + b) == ToLower(a) + ToLower(b)
  {
  }

  lemma {:induction false} TrimStartPad(w: string, x: string)
    requires AllWhitespace(w) && x != [] && !IsWhitespace(x[0])
    ensures TrimStart(w + x) == x
    decreases |w|
  {
    if w == [] {
      assert w + x == x;
    } else {
      assert (w + x)[0] == w[0];
      assert (w + x)[1..] == w[1..] + x;
      TrimStartPad(w[1..], x);
    }
  }

  lemma {:induction false} TrimEndPad(x: string, w: string)
    requires AllWhitespace(w) && x != [] && !IsWhitespace(x[|x| - 1])
    ensures TrimEnd(x + w) == x
    decreases |w|
  {
    if w == [] {
      assert x + w == x;
    } else {
      var n := |x + w|;
      assert (x + w)[n - 1] == w[|w| - 1];
      assert (x + w)[..n - 1] == x + w[..|w| - 1];
      TrimEndPad(x, w[..|w| - 1]);
    }
  }

  /** Any casing of "y", "yes" or "yse", padded with any whitespace, approves. */
  lemma ApprovesPadded(lead: string, word: string, trail: string)
    requires AllWhitespace(lead) && AllWhitespace(trail) && ToLower(word) in Affirmative
    ensures IsApproval(lead + word + trail)
  {
    var lw := ToLower(word);
    var lo, tr := ToLower(lead), ToLower(trail);
    LowerConcat(lead + word, trail);
    LowerConcat(lead, word);
    assert ToLower(lead + word + trail) == lo + (lw + tr);
    LowerAllWhitespace(lead);
    LowerAllWhitespace(trail);
    AffirmativeEnds(lw);
    TrimStartPad(lo, lw + tr);
    TrimEndPad(lw, tr);
    assert Trim(ToLower(lead + word + trail)) == lw;
  }

  lemma LowerAllWhitespace(w: string)
    requires AllWhitespace(w)
    ensures AllWhitespace(ToLower(w))
  {
    forall k | 0 <= k < |w|
      ensures IsWhitespace(ToLower(w)[k])
    {
      LowerWhitespace(w[k]);
    }
  }

  lemma AffirmativeEnds(a: string)
    requires a in Affirmative
    ensures a != [] && !IsWhitespace(a[0]) && !IsWhitespace(a[|a| - 1])
  {
    assert a == "y" || a == "yes" || a == "yse";
  }

  /** An answer whose first character is neither a space nor a "y" is refused. */
  lemma RefusesOtherAnswers(answer: string)
    requires answer != [] && !IsWhitespace(answer[0]) && LowerChar(answer[0]) != 'y'
    ensures !IsApproval(answer)
  {
    var l := ToLower(answer);
    LowerWhitespace(answer[0]);
    assert TrimStart(l) == l;
    assert forall a :: a in Affirmative ==> a[0] == 'y';
    var r := TrimEnd(l);
    assert r != [] ==> r[0] == l[0];
  }

  /** What a post hook gives back to the agent: its output, or an exception. */
  datatype HookOutcome = Returned(output: HookOutput) | Thrown

  /** The real file system, as a map from path to content. */
  class RealFs {
    var files: map<string, string>

    constructor (files: map<string, string>)
      ensures this.files == files
    {
      this.files := files;
    }

    /**
     * `askToPersistFileWrite`: when the replay is offered and `answer`
     * approves it, write the content at the path (`writeFault`: the real
     * write throws). Every other path changes nothing and continues.
     */
    method AskToPersistFileWrite(input: ToolInput, answer: string, writeFault: bool) returns (r: HookOutcome)
      modifies this
      ensures r.Thrown? <==> WriteReplayOffered(input) && IsApproval(answer) && writeFault
      ensures r.Returned? ==> r.output == Proceed(true, true)
      ensures WriteReplayOffered(input) && IsApproval(answer) && !writeFault
              ==> files == old(files)[Field(input, "filePath") := Field(input, "fileContent")]
      ensures !(WriteReplayOffered(input) && IsApproval(answer) && !writeFault) ==> files == old(files)
    {
      var filePath := Field(input, "filePath");
      var fileContent := Field(input, "fileContent");
      if filePath != "" && fileContent != "" && SecondPieceExtension(filePath) !in FilesToParse {
        if Trim(ToLower(answer)) in Affirmative {
          if writeFault {
            return Thrown;
          }
          files := files[filePath := fileContent];
          return Returned(Proceed(true, true));
        } else {
          return Returned(Proceed(true, true));
        }
      }
      return Returned(Proceed(true, true));
    }

    /**
     * `askToPersistFileEdit`: when the replay is offered and approved, read
     * the real file (its absence throws), replace the first occurrence of
     * the old string and write it back.
     */
    method AskToPersistFileEdit(input: ToolInput, answer: string, writeFault: bool) returns (r: HookOutcome)
      modifies this
      ensures var go := EditReplayOffered(input) && IsApproval(answer);
        r.Thrown? <==> go && (Field(input, "filePath") !in old(files) || writeFault)
      ensures r.Returned? ==> r.output == Proceed(true, true)
      ensures var p := Field(input, "filePath");
        EditReplayOffered(input) && IsApproval(answer) && p in old(files) && !writeFault
        ==> files == old(files)[p := ReplaceFirst(old(files)[p], Field(input, "oldString"), Field(input, "newString"))]
      ensures r.Returned? && !(EditReplayOffered(input) && IsApproval(answer)) ==> files == old(files)
      ensures r.Thrown? ==> files == old(files)
    {
      var filePath := Field(input, "filePath");
      var oldString := Field(input, "oldString");
      var newString := Field(input, "newString");
      if filePath != "" && oldString != "" && newString != "" && SecondPieceExtension(filePath) !in FilesToParse {
        if Trim(ToLower(answer)) in Affirmative {
          if filePath !in files {
            return Thrown;
          }
          var content := files[filePath];
          var editedContent := ReplaceFirst(content, oldString, newString);
          if writeFault {
            return Thrown;
          }
          files := files[filePath := editedContent];
          return Returned(Proceed(true, true));
        } else {
          return Returned(Proceed(true, true));
        }
      }
      return Returned(Proceed(true, true));
    }
  }

  /** The hooks a matcher runs. */
  datatype HookName = DenyFileSystemTools | PersistFileWrite | PersistFileEdit

  /** A hook matcher: tool names separated by "|", and the hooks to run. */
  datatype HookMatcher = HookMatcher(matcher: string, hooks: seq<HookName>)

  const PreToolUseHooks: seq<HookMatcher> := [HookMatcher("Read|Write|Edit|Glob", [DenyFileSystemTools])]

  const PostToolUseHooks: seq<HookMatcher> := [
    HookMatcher("mcp__filesystem__write_file", [PersistFileWrite]),
    HookMatcher("mcp__filesystem__edit_file", [PersistFileEdit])
  ]

  /** A matcher selects a tool named as one of its "|"-separated alternatives. */
  predicate Matches(m: HookMatcher, toolName: string) {
    toolName in Split(m.matcher, '|')
  }

  const DisallowedTools: seq<string> := ["Read", "Write", "Edit", "Glob"]

  const AllowedTools: seq<string> := [
    "mcp__filesystem__list_files",
    "mcp__filesystem__write_file",
    "mcp__filesystem__edit_file",
    "mcp__filesystem__read_file",
    "mcp__filesystem__file_exists"
  ]

  /** The name under which the agent sees a tool of the "filesystem" server. */
  function ServerToolName(name: string): string {
    "mcp__filesystem__" + name
  }

  /** The deny hook fires for exactly the disallowed native tools. */
  lemma DenyMatcherIsDisallowed(toolName: string)
    ensures Split(PreToolUseHooks[0].matcher, '|') == DisallowedTools
    ensures Matches(PreToolUseHooks[0], toolName) <==> toolName in DisallowedTools
  {
    assert JoinWith(DisallowedTools, '|') == PreToolUseHooks[0].matcher;
    SplitJoin(DisallowedTools, '|');
  }

  /** The allowed tools are exactly the five registered tools under the server's prefix. */
  lemma AllowedIsRegistry()
    ensures |AllowedTools| == |Tools|
    ensures forall i :: 0 <= i < |Tools| ==> ServerToolName(Tools[i].name) in AllowedTools
    ensures forall t :: t in AllowedTools ==> exists i :: 0 <= i < |Tools| && t == ServerToolName(Tools[i].name)
  {
    assert AllowedTools[0] == ServerToolName(Tools[2].name);
    assert AllowedTools[1] == ServerToolName(Tools[1].name);
    assert AllowedTools[2] == ServerToolName(Tools[3].name);
    assert AllowedTools[3] == ServerToolName(Tools[0].name);
    assert AllowedTools[4] == ServerToolName(Tools[4].name);
  }

  /** The replay hooks listen on the write and edit tools, both of them allowed. */
  lemma ReplayHooksOnAllowedTools()
    ensures forall m :: m in PostToolUseHooks ==> m.matcher in AllowedTools
    ensures PostToolUseHooks[0].matcher == ServerToolName(Tools[1].name)
    ensures PostToolUseHooks[1].matcher == ServerToolName(Tools[3].name)
  {
  }

  /**
   * The query options the agent starts from; an Agent overwrites `resume`
   * and `permissionMode`. The system prompt's text is not modelled.
   */
  class QueryOptions {
    var preToolUse: seq<HookMatcher>
    var postToolUse: seq<HookMatcher>
    var disallowedTools: seq<string>
    var allowedTools: seq<string>
    var permissionMode: string
    var mcpServers: seq<string>
    var resume: Option<string>

    /** `queryOptions` as the module defines it. */
    constructor ()
      ensures preToolUse == PreToolUseHooks && postToolUse == PostToolUseHooks
      ensures disallowedTools == DisallowedTools && allowedTools == AllowedTools
      ensures permissionMode == "default" && mcpServers == ["filesystem"] && resume == None
    {
      preToolUse := PreToolUseHooks;
      postToolUse := PostToolUseHooks;
      disallowedTools := DisallowedTools;
      allowedTools := AllowedTools;
      permissionMode := "default";
      mcpServers := ["filesystem"];
      resume := None;
    }

    /** Every field but the two an agent sets. */
    ghost function Fixed(): (seq<HookMatcher>, seq<HookMatcher>, seq<string>, seq<string>, seq<string>)
      reads this
    {
      (preToolUse, postToolUse, disallowedTools, allowedTools, mcpServers)
    }
  }
}
