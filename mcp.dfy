/**
 * The filesystem tool server: the store path `getAgentFS` opens, the
 * result envelope each tool builds from its adapter's answer, and the
 * registry of the five tools.
 */
module Mcp {
  import opened Wrappers
  import opened Strings
  import opened Store
  import opened StoreFacts

  /** `getAgentFS`: a missing or empty path means "fs.db". */
  function StorePath(filePath: Option<string>): (p: string)
    ensures p != ""
    ensures filePath.None? || filePath.value == "" ==> p == "fs.db"
    ensures filePath.Some? && filePath.value != "" ==> p == filePath.value
  {
    match filePath
    case Some(q) => if q == "" then "fs.db" else q
    case None => "fs.db"
  }

  /**
   * A `CallToolResult`: its text blocks, and `isError` (false when the
   * source leaves the flag out).
   */
  datatype CallToolResult = CallToolResult(content: seq<string>, isError: bool)

  /** `readTool` on the adapter's answer: the content, or an error naming the path. */
  function ReadResult(filePath: string, content: Option<string>): (r: CallToolResult)
    ensures |r.content| == 1
    ensures r.isError <==> content.None?
    ensures content.Some? ==> r.content[0] == content.value
  {
    match content
    case Some(c) => CallToolResult([c], false)
    case None =>
      CallToolResult(["Could not read " + filePath
                      + ". Please check that the file exists and submit the request again."], true)
  }

  /** `fileExistsTool`: never an error; the text depends on the answer only. */
  function ExistsResult(filePath: string, found: bool): (r: CallToolResult)
    ensures |r.content| == 1 && !r.isError
  {
    if found then CallToolResult(["File " + filePath + " exists"], false)
    else CallToolResult(["File " + filePath + " does not exist."], false)
  }

  const WritePrefix := " successfully written with content:\n\n'''\n"
  const EditPrefix := ". New content:\n\n'''\n"
  const Fence := "\n'''"

  /** `writeFileTool`: echo the content on success; a failure is reported in the text only. */
  function WriteResult(filePath: string, fileContent: string, success: bool): (r: CallToolResult)
    ensures |r.content| == 1 && !r.isError
  {
    if success then CallToolResult(["File " + filePath + WritePrefix + fileContent + Fence], false)
    else CallToolResult(["There was an error while writing file " + filePath], false)
  }

  /** `editFileTool`: echo the edited content, or an error naming the path. */
  function EditResult(filePath: string, edited: Option<string>): (r: CallToolResult)
    ensures |r.content| == 1
    ensures r.isError <==> edited.None?
  {
    match edited
    case Some(c) => CallToolResult(["Successfully edited " + filePath + EditPrefix + c + Fence], false)
    case None =>
      CallToolResult(["Could not edit " + filePath
                      + ". Please check that the file exists and submit the request again."], true)
  }

  /** `listFilesTool`: the listing verbatim, or an error when it is empty. */
  function ListResult(files: string): (r: CallToolResult)
    ensures |r.content| == 1
    ensures r.isError <==> files == ""
    ensures files != "" ==> r.content[0] == files
  {
    if files != "" then CallToolResult([files], false)
    else CallToolResult(["Could not list files. Please report this failure to the user"], true)
  }

  /** The text between a known head and the closing fence: how a reader recovers an echoed body. */
  function Between(text: string, head: string, tail: string): Option<string> {
    if |head| + |tail| <= |text| && StartsWith(text, head) && EndsWith(text, tail)
    then Some(text[|head|..|text| - |tail|])
    else None
  }

  lemma BetweenConcat(head: string, body: string, tail: string)
    ensures Between(head + body + tail, head, tail) == Some(body)
  {
    var text := head + body + tail;
    assert text[..|head|] == head;
    assert text[|text| - |tail|..] == tail;
    assert text[|head|..|text| - |tail|] == body;
  }

  /** The write echo carries the written content, which can be read back out of it. */
  lemma WriteEchoRoundTrip(filePath: string, fileContent: string)
    ensures Between(WriteResult(filePath, fileContent, true).content[0], "File " + filePath + WritePrefix, Fence)
            == Some(fileContent)
  {
    BetweenConcat("File " + filePath + WritePrefix, fileContent, Fence);
  }

  /** The edit echo carries the edited content, which can be read back out of it. */
  lemma EditEchoRoundTrip(filePath: string, edited: string)
    ensures Between(EditResult(filePath, Some(edited)).content[0], "Successfully edited " + filePath + EditPrefix, Fence)
            == Some(edited)
  {
    BetweenConcat("Successfully edited " + filePath + EditPrefix, edited, Fence);
  }

  /** Without an error flag, a write's success and failure still read differently. */
  lemma WriteOutcomesDiffer(filePath: string, fileContent: string)
    ensures WriteResult(filePath, fileContent, true) != WriteResult(filePath, fileContent, false)
  {
    assert WriteResult(filePath, fileContent, true).content[0][0] == 'F';
    assert WriteResult(filePath, fileContent, false).content[0][0] == 'T';
  }

  /** The two existence answers read differently for every path. */
  lemma ExistsOutcomesDiffer(filePath: string)
    ensures ExistsResult(filePath, true) != ExistsResult(filePath, false)
  {
    assert |ExistsResult(filePath, true).content[0]| == |filePath| + 12;
    assert |ExistsResult(filePath, false).content[0]| == |filePath| + 21;
  }

  /** `readTool` on a store: an error exactly when the read fails, the stored content otherwise. */
  lemma ReadToolOnStore(s: Store, filePath: string, fault: bool)
    ensures ReadResult(filePath, s.ReadFile(filePath, fault)).isError <==> fault || filePath !in s.files
    ensures !fault && filePath in s.files ==> ReadResult(filePath, s.ReadFile(filePath, fault)).content == [s.files[filePath]]
  {
  }

  /** `listFilesTool` on a store flags an error exactly when the root listing fails. */
  lemma ListToolErrorIff(keys: seq<string>, faults: set<nat>)
    ensures ListResult(Listing(keys, faults)).isError <==> 0 in faults
  {
    ListingEmptyIff(keys, faults);
  }

  /** A registered tool: its name, description and input fields. */
  datatype Tool = Tool(name: string, description: string, fields: seq<string>)

  const ServerName := "filesystem-mcp"
  const ServerVersion := "1.0.0"

  /** The tools, in the order the server registers them. */
  const Tools: seq<Tool> := [
    Tool("read_file", "Read a file by passing its path.", ["filePath"]),
    Tool("write_file", "Write a file by passing its path and content.", ["filePath", "fileContent"]),
    Tool("list_files", "List all the available files", []),
    Tool("edit_file", "Edit a file by passing its path, the old string and the new string.", ["filePath", "oldString", "newString"]),
    Tool("file_exists", "Check whether a file exists or not by passing its path.", ["filePath"])
  ]

  function ToolNames(): (names: seq<string>)
    ensures |names| == |Tools|
    ensures forall i :: 0 <= i < |Tools| ==> names[i] == Tools[i].name
  {
    seq(|Tools|, i requires 0 <= i < |Tools| => Tools[i].name)
  }

  /** Exactly five tools, with distinct names. */
  lemma RegistryShape()
    ensures |Tools| == 5
    ensures forall i, j :: 0 <= i < j < |Tools| ==> Tools[i].name != Tools[j].name
    ensures (set n | n in ToolNames()) == {"read_file", "write_file", "list_files", "edit_file", "file_exists"}
  {
    var names := ToolNames();
    assert names == ["read_file", "write_file", "list_files", "edit_file", "file_exists"];
  }
}
