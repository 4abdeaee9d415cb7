/**
 * The command-line workflow: five events, the handlers that turn one event
 * into the next, the driver that feeds a stream until it sees a given
 * event, and the main sequence (ingest, ask the operator, run the agent).
 */
module Workflow {
  import opened Wrappers
  import opened Strings
  import opened Paths
  import opened Store
  import opened Ingest
  import opened FileSystem
  import opened Options
  import opened Claude

  datatype Event =
    | Start(workingDirectory: Option<string>)
    | FilesRegistered
    | RequestPrompt
    | Prompt(prompt: string, resume: Option<string>, plan: bool)
    | Stop(success: bool, error: Option<string>)

  const RegisterError :=
    "Could not register the files within the AgentFS file system: check writing permissions in the current directory"

  /**
   * What the handlers meet outside the program: the tree at the working
   * directory, the MIME test and parser `recordFiles` uses, which store
   * writes fail, and the error the agent run throws (already stringified),
   * if any.
   */
  datatype World = World(tree: Dir, isTextMime: string -> bool, parse: string -> string,
                         writeFaults: set<nat>, runError: Option<string>)

  /** The directory the start handler ingests: "./" when none is given. */
  function DirPathOf(workingDirectory: Option<string>): (p: string)
    ensures workingDirectory.Some? ==> p == workingDirectory.value
    ensures workingDirectory.None? ==> p == "./"
  {
    workingDirectory.GetOr("./")
  }

  /** The files `recordFiles` collects from the working directory. */
  function Collected(w: World, dirPath: string): seq<FileWithContent> {
    FilesInDir(dirPath, DefaultIgnore, w.tree, w.isTextMime, w.parse)
  }

  /** `recordFiles` reports success: no write of a collected file fails. */
  predicate IngestOk(w: World, dirPath: string) {
    FirstFault(w.writeFaults, |Collected(w, dirPath)|, 0) == |Collected(w, dirPath)|
  }

  /** The event a handler returns, or None for the events no handler takes. */
  function Next(ev: Event, dbExists: bool, w: World): Option<Event> {
    match ev
    case Start(wd) =>
      if dbExists || IngestOk(w, DirPathOf(wd)) then Some(FilesRegistered)
      else Some(Stop(false, Some(RegisterError)))
    case FilesRegistered => Some(RequestPrompt)
    case Prompt(_, _, _) => Some(Stop(w.runError.None?, w.runError))
    case RequestPrompt => None
    case Stop(_, _) => None
  }

  /** The store after a handler: only a start on a missing database ingests. */
  function NextStore(ev: Event, dbExists: bool, w: World, s: Store): Store {
    if ev.Start? && !dbExists then
      var collected := Collected(w, DirPathOf(ev.workingDirectory));
      StoreAll(s, collected[..FirstFault(w.writeFaults, |collected|, 0)])
    else s
  }

  /** How far an event is from the end of the chain. */
  function Rank(ev: Event): nat {
    match ev
    case Start(_) => 4
    case FilesRegistered => 3
    case RequestPrompt => 2
    case Prompt(_, _, _) => 1
    case Stop(_, _) => 0
  }

  /** Every handler moves the chain forward, and none starts a run or prompts. */
  lemma NextAdvances(ev: Event, dbExists: bool, w: World)
    ensures Next(ev, dbExists, w).Some? ==> Rank(Next(ev, dbExists, w).value) < Rank(ev)
    ensures Next(ev, dbExists, w).Some? ==> !Next(ev, dbExists, w).value.Start? && !Next(ev, dbExists, w).value.Prompt?
    ensures Next(ev, dbExists, w).None? <==> ev.RequestPrompt? || ev.Stop?
  {
  }

  /** Every stop a handler returns carries an error exactly when it reports failure. */
  lemma StopErrorIff(ev: Event, dbExists: bool, w: World)
    ensures var n := Next(ev, dbExists, w);
      n.Some? && n.value.Stop? ==> (n.value.success <==> n.value.error.None?)
  {
  }

  /** The events `stream.until` waits for. */
  datatype Target = UntilRequestPrompt | UntilStop

  predicate IsTarget(ev: Event, t: Target) {
    match t
    case UntilRequestPrompt => ev.RequestPrompt?
    case UntilStop => ev.Stop?
  }

  /** The events the stream carries from `ev` up to the target or the end of the chain. */
  function Trace(ev: Event, t: Target, dbExists: bool, w: World): (tr: seq<Event>)
    ensures |tr| >= 1 && tr[0] == ev
    decreases Rank(ev)
  {
    if IsTarget(ev, t) then [ev]
    else match Next(ev, dbExists, w)
      case None => [ev]
      case Some(n) =>
        NextAdvances(ev, dbExists, w);
        [ev] + Trace(n, t, dbExists, w)
  }

  /** The store after the handlers of a trace have run. */
  function TraceStore(ev: Event, t: Target, dbExists: bool, w: World, s: Store): Store
    decreases Rank(ev)
  {
    if IsTarget(ev, t) then s
    else match Next(ev, dbExists, w)
      case None => s
      case Some(n) =>
        NextAdvances(ev, dbExists, w);
        TraceStore(n, t, dbExists, w, NextStore(ev, dbExists, w, s))
  }

  /** The stream shows the target: `stream.until` returns instead of waiting forever. */
  predicate Reached(ev: Event, t: Target, dbExists: bool, w: World) {
    var tr := Trace(ev, t, dbExists, w);
    IsTarget(tr[|tr| - 1], t)
  }

  /** A start with the database present registers nothing and asks for the prompt. */
  lemma StartWithDatabase(wd: Option<string>, w: World, s: Store)
    ensures Trace(Start(wd), UntilRequestPrompt, true, w) == [Start(wd), FilesRegistered, RequestPrompt]
    ensures Reached(Start(wd), UntilRequestPrompt, true, w)
    ensures TraceStore(Start(wd), UntilRequestPrompt, true, w, s) == s
  {
  }

  /** A start without the database ingests the working directory. */
  lemma StartWithoutDatabase(wd: Option<string>, w: World, s: Store)
    ensures var collected := Collected(w, DirPathOf(wd));
      TraceStore(Start(wd), UntilRequestPrompt, false, w, s)
      == StoreAll(s, collected[..FirstFault(w.writeFaults, |collected|, 0)])
    ensures IngestOk(w, DirPathOf(wd)) ==>
      Trace(Start(wd), UntilRequestPrompt, false, w) == [Start(wd), FilesRegistered, RequestPrompt]
    ensures !IngestOk(w, DirPathOf(wd)) ==>
      Trace(Start(wd), UntilRequestPrompt, false, w) == [Start(wd), Stop(false, Some(RegisterError))]
  {
    var t := UntilRequestPrompt;
    var s1 := NextStore(Start(wd), false, w, s);
    TraceMove(Start(wd), t, false, w, s);
    if IngestOk(w, DirPathOf(wd)) {
      TraceMove(FilesRegistered, t, false, w, s1);
      TraceEnd(RequestPrompt, t, false, w, s1);
    } else {
      TraceEnd(Stop(false, Some(RegisterError)), t, false, w, s1);
    }
  }

  /** A failed ingestion ends the chain without the event the main sequence waits for. */
  lemma FailedIngestStalls(wd: Option<string>, w: World)
    ensures Reached(Start(wd), UntilRequestPrompt, false, w) <==> IngestOk(w, DirPathOf(wd))
  {
    StartWithoutDatabase(wd, w, Store(map[], []));
  }

  /** A prompt always ends in a stop, successful exactly when the run threw nothing. */
  lemma PromptEndsInStop(p: string, resume: Option<string>, plan: bool, dbExists: bool, w: World, s: Store)
    ensures Trace(Prompt(p, resume, plan), UntilStop, dbExists, w)
            == [Prompt(p, resume, plan), Stop(w.runError.None?, w.runError)]
    ensures Reached(Prompt(p, resume, plan), UntilStop, dbExists, w)
    ensures TraceStore(Prompt(p, resume, plan), UntilStop, dbExists, w, s) == s
  {
  }

  /** The session to resume: the answer itself, unless it is blank. */
  function SessionIdOf(answer: string): (id: Option<string>)
    ensures id.Some? <==> Trim(answer) != ""
    ensures id.Some? ==> id.value == answer
  {
    if Trim(answer) != "" then Some(answer) else None
  }

  const PlanAnswers: seq<string> := ["yes", "y", "yse"]

  /** The plan-mode test: trimmed, then lowercased. */
  predicate PlanRequested(answer: string) {
    ToLower(Trim(answer)) in PlanAnswers
  }

  /** The plan-mode question accepts exactly the answers the replay hooks accept. */
  lemma PlanAgreesWithApproval(answer: string)
    ensures PlanRequested(answer) <==> IsApproval(answer)
  {
    TrimLowerCommute(answer);
    assert forall a :: a in PlanAnswers <==> a in Affirmative;
  }

  /** The operator's three answers. */
  datatype Answers = Answers(prompt: string, resume: string, plan: string)

  /** The prompt event the main sequence sends for the operator's answers. */
  function PromptFor(a: Answers): (ev: Event)
    ensures ev.Prompt? && ev.prompt == a.prompt
    ensures ev.resume == SessionIdOf(a.resume) && (ev.plan <==> PlanRequested(a.plan))
  {
    Prompt(a.prompt, SessionIdOf(a.resume), PlanRequested(a.plan))
  }

  /** What the main sequence ends with. */
  datatype Outcome =
    | Stalled(first: seq<Event>)
    | Finished(first: seq<Event>, second: seq<Event>)

  /** A running program: whether "fs.db" is on disk, its store, and the shared query options. */
  class Session {
    var dbOnDisk: bool
    const store: AgentFs
    const options: QueryOptions

    ghost predicate Valid()
      reads this, store
    {
      store.Valid()
    }

    constructor (dbOnDisk: bool, store: AgentFs, options: QueryOptions)
      requires store.Valid()
      ensures Valid() && this.dbOnDisk == dbOnDisk && this.store == store && this.options == options
    {
      this.dbOnDisk := dbOnDisk;
      this.store := store;
      this.options := options;
    }

    /**
     * `getAgentFS({})`: with no path the store opened is `StorePath(None)`,
     * that is "fs.db", and opening it creates the file when it is missing.
     */
    method OpenStore()
      modifies this
      ensures dbOnDisk
    {
      dbOnDisk := true;
    }

    /**
     * The handler of `ev` (none for a prompt request or a stop), with
     * `dbExists` the answer the existence test gives.
     */
    method Handle(ev: Event, dbExists: bool, w: World) returns (next: Option<Event>)
      requires Valid()
      modifies store, options
      ensures Valid()
      ensures next == Next(ev, dbExists, w)
      ensures store.State() == NextStore(ev, dbExists, w, old(store.State()))
      ensures ev.Prompt? ==> options.resume == ev.resume && options.permissionMode == PermissionMode(ev.plan)
      ensures !ev.Prompt? ==> options.resume == old(options.resume) && options.permissionMode == old(options.permissionMode)
      ensures options.Fixed() == old(options.Fixed())
    {
      match ev {
        case Start(wd) =>
          if dbExists {
            return Some(FilesRegistered);
          }
          var dirPath := "./";
          if wd.Some? {
            dirPath := wd.value;
          }
          var success := store.RecordFiles(w.tree, dirPath, DefaultIgnore, w.isTextMime, w.parse, w.writeFaults);
          if !success {
            return Some(Stop(false, Some(RegisterError)));
          }
          return Some(FilesRegistered);
        case FilesRegistered =>
          return Some(RequestPrompt);
        case Prompt(_, resume, plan) =>
          var agent := new Agent(options, resume, plan);
          if w.runError.Some? {
            return Some(Stop(false, w.runError));
          }
          return Some(Stop(true, None));
        case RequestPrompt =>
          return None;
        case Stop(_, _) =>
          return None;
      }
    }

    /**
     * `sendEvent(ev)` then `stream.until(t).toArray()`: the engine hands
     * each event to its handler and dispatches the event it returns, until
     * the target shows up or no handler takes the last event. `dbExists`
     * is the existence test the start handler sees.
     */
    method RunUntil(ev: Event, t: Target, dbExists: bool, w: World) returns (events: seq<Event>, reached: bool)
      requires Valid()
      modifies store, options
      ensures Valid()
      ensures events == Trace(ev, t, dbExists, w)
      ensures reached == Reached(ev, t, dbExists, w)
      ensures store.State() == TraceStore(ev, t, dbExists, w, old(store.State()))
      ensures ev.Prompt? && !IsTarget(ev, t) ==> options.resume == ev.resume && options.permissionMode == PermissionMode(ev.plan)
      ensures !ev.Prompt? ==> options.resume == old(options.resume) && options.permissionMode == old(options.permissionMode)
      ensures options.Fixed() == old(options.Fixed())
      decreases Rank(ev)
    {
      if IsTarget(ev, t) {
        TraceEnd(ev, t, dbExists, w, store.State());
        return [ev], true;
      }
      ghost var before := store.State();
      var next := Handle(ev, dbExists, w);
      NextAdvances(ev, dbExists, w);
      if next.None? {
        TraceEnd(ev, t, dbExists, w, before);
        return [ev], false;
      }
      TraceMove(ev, t, dbExists, w, before);
      var rest;
      rest, reached := RunUntil(next.value, t, dbExists, w);
      events := [ev] + rest;
    }
  }

  /** A trace ends at a target or at an event no handler takes. */
  lemma TraceEnd(ev: Event, t: Target, dbExists: bool, w: World, s: Store)
    requires IsTarget(ev, t) || Next(ev, dbExists, w).None?
    ensures Trace(ev, t, dbExists, w) == [ev]
    ensures TraceStore(ev, t, dbExists, w, s) == s
    ensures Reached(ev, t, dbExists, w) <==> IsTarget(ev, t)
  {
  }

  /** Otherwise it moves on to the event the handler returns. */
  lemma TraceMove(ev: Event, t: Target, dbExists: bool, w: World, s: Store)
    requires !IsTarget(ev, t) && Next(ev, dbExists, w).Some?
    ensures var n := Next(ev, dbExists, w).value;
      && Trace(ev, t, dbExists, w) == [ev] + Trace(n, t, dbExists, w)
      && TraceStore(ev, t, dbExists, w, s) == TraceStore(n, t, dbExists, w, NextStore(ev, dbExists, w, s))
      && Reached(ev, t, dbExists, w) == Reached(n, t, dbExists, w)
  {
  }

  /** The trace of a started session whose store is already on disk. */
  const RegisteredTrace: seq<Event> := [Start(Some("./")), FilesRegistered, RequestPrompt]

  /**
   * `main` as written: it opens the store first, which creates "fs.db", so
   * the start handler's existence test always succeeds and the working
   * directory is never ingested, whether or not a database existed.
   */
  method MainAsWritten(session: Session, w: World, a: Answers) returns (outcome: Outcome)
    requires session.Valid()
    modifies session, session.store, session.options
    ensures session.Valid() && session.dbOnDisk
    ensures outcome == Finished(RegisteredTrace, [PromptFor(a), Stop(w.runError.None?, w.runError)])
    ensures session.store.State() == old(session.store.State())
    ensures session.options.resume == SessionIdOf(a.resume)
    ensures session.options.permissionMode == PermissionMode(PlanRequested(a.plan))
    ensures session.options.Fixed() == old(session.options.Fixed())
  {
    session.OpenStore();
    StartWithDatabase(Some("./"), w, session.store.State());
    var first, reached := session.RunUntil(Start(Some("./")), UntilRequestPrompt, session.dbOnDisk, w);
    if !reached {
      return Stalled(first);
    }
    outcome := Ask(session, w, a, first);
  }

  /**
   * `main` with the existence test taken before the store is opened: a
   * missing database leads to ingesting the working directory.
   */
  method MainCorrected(session: Session, w: World, a: Answers) returns (outcome: Outcome)
    requires session.Valid()
    modifies session, session.store, session.options
    ensures session.Valid() && session.dbOnDisk
    ensures old(session.dbOnDisk) ==> session.store.State() == old(session.store.State())
    ensures var collected := Collected(w, "./");
      !old(session.dbOnDisk) ==>
      session.store.State() == StoreAll(old(session.store.State()), collected[..FirstFault(w.writeFaults, |collected|, 0)])
    ensures old(session.dbOnDisk) || IngestOk(w, "./") ==>
      outcome == Finished(RegisteredTrace, [PromptFor(a), Stop(w.runError.None?, w.runError)])
    ensures !old(session.dbOnDisk) && !IngestOk(w, "./") ==>
      outcome == Stalled([Start(Some("./")), Stop(false, Some(RegisterError))])
    ensures old(session.dbOnDisk) || IngestOk(w, "./") ==>
      session.options.resume == SessionIdOf(a.resume) && session.options.permissionMode == PermissionMode(PlanRequested(a.plan))
    ensures session.options.Fixed() == old(session.options.Fixed())
  {
    var existed := session.dbOnDisk;
    session.OpenStore();
    StartWithDatabase(Some("./"), w, session.store.State());
    StartWithoutDatabase(Some("./"), w, session.store.State());
    var first, reached := session.RunUntil(Start(Some("./")), UntilRequestPrompt, existed, w);
    if !reached {
      return Stalled(first);
    }
    outcome := Ask(session, w, a, first);
  }

  /** The operator's answers, then the resumed run of the prompt. */
  method Ask(session: Session, w: World, a: Answers, first: seq<Event>) returns (outcome: Outcome)
    requires session.Valid()
    modifies session.store, session.options
    ensures session.Valid()
    ensures outcome == Finished(first, [PromptFor(a), Stop(w.runError.None?, w.runError)])
    ensures session.store.State() == old(session.store.State())
    ensures session.options.resume == SessionIdOf(a.resume)
    ensures session.options.permissionMode == PermissionMode(PlanRequested(a.plan))
    ensures session.options.Fixed() == old(session.options.Fixed())
  {
    var sessionId := SessionIdOf(a.resume);
    var planMode := PlanRequested(a.plan);
    var ev := Prompt(a.prompt, sessionId, planMode);
    PromptEndsInStop(a.prompt, sessionId, planMode, session.dbOnDisk, w, session.store.State());
    var second, _ := session.RunUntil(ev, UntilStop, session.dbOnDisk, w);
    return Finished(first, second);
  }

  /**
   * After the corrected start on a missing database, the last collected
   * file is in the store with its content; as written the store stays as
   * it was.
   */
  lemma CorrectedIngestStores(w: World, s: Store)
    requires IngestOk(w, "./") && |Collected(w, "./")| > 0
    ensures var c := Collected(w, "./"); var f := c[|c| - 1];
      var after := TraceStore(Start(Some("./")), UntilRequestPrompt, false, w, s);
      RecordPath(f.filePath) in after.files && after.files[RecordPath(f.filePath)] == f.content
    ensures TraceStore(Start(Some("./")), UntilRequestPrompt, true, w, s) == s
  {
    var c := Collected(w, "./");
    StartWithoutDatabase(Some("./"), w, s);
    assert c[..FirstFault(w.writeFaults, |c|, 0)] == c;
    StoreAllStores(s, c, |c| - 1);
  }

  /** A working directory holding one text file, "notes.md", and no database. */
  function OneFileWorld(): World {
    World(Dir(true, [FileEntry("notes.md", true, "n")]), _ => true, _ => "", {}, None)
  }

  lemma OneFileCollected()
    ensures Collected(OneFileWorld(), "./") == [FileWithContent("notes.md", "n")]
  {
    var w := OneFileWorld();
    var pt := "notes.md";
    assert EntryPath("./", "notes.md") == pt;
    assert 'i' !in pt && '_' !in pt && 'p' !in pt;
    DefaultIgnoreMissing(pt);
    assert EntriesFrom("./", DefaultIgnore, w.tree, 1, w.isTextMime, w.parse) == [];
  }

  /** On that directory the corrected start stores "/notes.md"; as written nothing is stored. */
  lemma OneFileIngestDiffers(s: Store)
    ensures "/notes.md" in TraceStore(Start(Some("./")), UntilRequestPrompt, false, OneFileWorld(), s).files
    ensures TraceStore(Start(Some("./")), UntilRequestPrompt, true, OneFileWorld(), s) == s
  {
    OneFileCollected();
    var pt := "notes.md";
    assert !StartsWith(pt, "/") && !StartsWith(pt, "./") by {
      assert pt[0] == 'n';
    }
    assert "/" + pt == "/notes.md";
    CorrectedIngestStores(OneFileWorld(), s);
  }
}
