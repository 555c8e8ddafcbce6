/** `run_command` and `list_resources` (base_gen_deletion_script.py:8-35):
    the `gcloud ... list` command a listing sends, and how its output becomes
    one identifier per line. */
module Listing {
  import opened Wrappers
  import opened PyString

  /** The external tools, as seen by the generator: the standard output a
      command's tokens produce. Within one run the same command is taken to
      produce the same output. */
  type Runner = seq<string> -> string

  /** `run_command`: the command's standard output with surrounding white
      space stripped. */
  function RunCommand(run: Runner, command: seq<string>): (out: string)
    ensures Trimmed(out)
  {
    Strip(run(command))
  }

  const UriFlag := "--uri"
  const TableFormat := "--format=table[no-heading](name)"

  /** What a listing asks for. */
  datatype ListRequest = ListRequest(component: string, resourceType: string, useUri: bool, filter: string)

  /** The tokens of the list command: `gcloud`, the component, the resource
      type unless it is empty, `list`, `--filter` and the filter unless it is
      empty, then the output mode. */
  function ListCommand(req: ListRequest): (cmd: seq<string>)
    ensures |cmd| == 4 + (if req.resourceType != "" then 1 else 0) + (if req.filter != "" then 2 else 0)
    ensures cmd[..2] == ["gcloud", req.component]
    ensures cmd[|cmd| - 1] == UriFlag <==> req.useUri
  {
    ["gcloud", req.component]
    + (if req.resourceType != "" then [req.resourceType] else [])
    + ["list"]
    + (if req.filter != "" then ["--filter", req.filter] else [])
    + [if req.useUri then UriFlag else TableFormat]
  }

  /** Reads a list command back into the request it was built from. The
      token count says which of the optional parts are present. */
  function ParseListCommand(cmd: seq<string>): Option<ListRequest> {
    if |cmd| < 4 || 7 < |cmd| || cmd[0] != "gcloud" then None
    else
      var hasType := |cmd| == 5 || |cmd| == 7;
      var verb := if hasType then 3 else 2;
      var mode := cmd[|cmd| - 1];
      if cmd[verb] != "list" || (hasType && cmd[2] == "") then None
      else if |cmd| >= 6 && (cmd[verb + 1] != "--filter" || cmd[verb + 2] == "") then None
      else if mode != UriFlag && mode != TableFormat then None
      else
        Some(ListRequest(cmd[1], if hasType then cmd[2] else "", mode == UriFlag,
                         if |cmd| >= 6 then cmd[verb + 2] else ""))
  }

  /** Every request is recovered from its command: an empty resource type
      and an empty filter are exactly the parts the command leaves out. */
  lemma ListCommandRoundTrip(req: ListRequest)
    ensures ParseListCommand(ListCommand(req)) == Some(req)
  {
  }

  /** Every well-formed list command is the command of the request read from it. */
  lemma ParseListCommandSound(cmd: seq<string>)
    requires ParseListCommand(cmd).Some?
    ensures ListCommand(ParseListCommand(cmd).value) == cmd
  {
  }

  /** `list_resources`: the lines of the stripped output of the list
      command; no lines when that output is empty. */
  function ListResources(run: Runner, component: string, resourceType: string, useUri: bool, filter: string)
    : (resources: seq<string>)
    ensures resources == [] <==> RunCommand(run, ListCommand(ListRequest(component, resourceType, useUri, filter))) == []
  {
    var output := RunCommand(run, ListCommand(ListRequest(component, resourceType, useUri, filter)));
    if output != [] then SplitLines(output) else []
  }

  /** No identifiers exactly when the stripped output is empty; none holds a
      line boundary, and neither the first nor the last is blank at its
      outer end. */
  lemma ListResourcesShape(run: Runner, component: string, resourceType: string, useUri: bool, filter: string)
    ensures var resources := ListResources(run, component, resourceType, useUri, filter);
            && (resources == [] <==> RunCommand(run, ListCommand(ListRequest(component, resourceType, useUri, filter))) == [])
            && LinesOfTrimmed(resources)
  {
    var out := RunCommand(run, ListCommand(ListRequest(component, resourceType, useUri, filter)));
    SplitLinesOfTrimmed(out);
  }

  /** The identifiers are the listed text itself: when the tool separates
      them with `\n`, joining them back with `\n` gives its stripped output. */
  lemma ListResourcesJoin(run: Runner, component: string, resourceType: string, useUri: bool, filter: string)
    requires OnlyNewlines(RunCommand(run, ListCommand(ListRequest(component, resourceType, useUri, filter))))
    ensures Join(ListResources(run, component, resourceType, useUri, filter), "\n")
            == RunCommand(run, ListCommand(ListRequest(component, resourceType, useUri, filter)))
  {
    var out := RunCommand(run, ListCommand(ListRequest(component, resourceType, useUri, filter)));
    JoinSplitLines(out);
  }
}
