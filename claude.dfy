/**
 * The agent wrapper: its constructor stores the query options it is given
 * (the very object, not a copy) and overwrites their session and
 * permission-mode settings in place.
 */
module Claude {
  import opened Wrappers
  import opened Options

  /** The permission mode an agent asks for. */
  function PermissionMode(plan: bool): (m: string)
    ensures m == "plan" <==> plan
    ensures m == "default" <==> !plan
  {
    if plan then "plan" else "default"
  }

  class Agent {
    const options: QueryOptions

    /** `new Agent(options, {resume, plan})`. */
    constructor (options: QueryOptions, resume: Option<string>, plan: bool)
      modifies options
      ensures this.options == options
      ensures options.resume == resume && options.permissionMode == PermissionMode(plan)
      ensures options.Fixed() == old(options.Fixed())
    {
      this.options := options;
      options.resume := resume;
      if plan {
        options.permissionMode := "plan";
      } else {
        options.permissionMode := "default";
      }
    }
  }

  /**
   * Two agents built on the same options object: the second one's settings
   * are what the first one now sees, because the options are shared.
   */
  method SharedOptions() returns (firstMode: string, firstResume: Option<string>, tools: seq<string>)
    ensures firstMode == "default" && firstResume == None
    ensures tools == AllowedTools
  {
    var shared := new QueryOptions();
    var first := new Agent(shared, Some("session-1"), true);
    var second := new Agent(shared, None, false);
    firstMode := first.options.permissionMode;
    firstResume := first.options.resume;
    tools := first.options.allowedTools;
  }
}
