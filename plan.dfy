/** `main` (base_gen_deletion_script.py:77-103): the script is `set -x`,
    then the gcloud deletion lines of six fixed steps in a fixed order, then
    the bucket deletion lines. */
module Plan {
  import opened Wrappers
  import opened PyString
  import opened Listing
  import opened GcloudDeletion
  import opened Buckets
  import opened Output

  /** The compute resource types, deleted in this order. */
  const ComputeResourceTypes: seq<string> := [
    "instances", "addresses", "target-http-proxies", "target-https-proxies", "target-grpc-proxies",
    "url-maps", "backend-services", "firewall-rules", "forwarding-rules", "health-checks",
    "http-health-checks", "https-health-checks", "instance-templates", "networks", "routes",
    "routers", "target-pools", "target-tcp-proxies"
  ]

  /** The compute step lists 18 types and none of them is empty, so every
      compute list command names its type. */
  lemma ComputeResourceTypesNamed()
    ensures |ComputeResourceTypes| == 18
    ensures forall i :: 0 <= i < |ComputeResourceTypes| ==> ComputeResourceTypes[i] != ""
  {
  }

  /** The first line of every script, so that running it traces each command. */
  const SetX := "set -x"

  /** The lines one `create_deletion_code` call prints. */
  function ComponentLines(run: Runner, component: string, resourceTypes: seq<string>, useUri: bool,
                          projectId: string, filter: string, asyncMode: bool): seq<string> {
    DeletionLines(ListingsOf(run, component, useUri, filter), component, resourceTypes, projectId, asyncMode)
  }

  /** Every gcloud deletion line of the script: container clusters, the
      compute resources, Cloud SQL instances, App Engine services and
      firewall rules, Pub/Sub subscriptions, topics and snapshots, and
      finally functions, listed with an empty resource type. */
  function GcloudLines(run: Runner, projectId: string, filter: string, asyncMode: bool): seq<string> {
    ComponentLines(run, "container", ["clusters"], true, projectId, filter, asyncMode)
    + ComponentLines(run, "compute", ComputeResourceTypes, true, projectId, filter, asyncMode)
    + ComponentLines(run, "sql", ["instances"], false, projectId, filter, asyncMode)
    + ComponentLines(run, "app", ["services", "firewall-rules"], true, projectId, filter, asyncMode)
    + ComponentLines(run, "pubsub", ["subscriptions", "topics", "snapshots"], true, projectId, filter, asyncMode)
    + FunctionsLines(run, projectId, filter, asyncMode)
  }

  /** The lines of the functions step. */
  function FunctionsLines(run: Runner, projectId: string, filter: string, asyncMode: bool): seq<string> {
    ComponentLines(run, "functions", [""], false, projectId, filter, asyncMode)
  }

  /** The script lines `main` prints; its standard output also carries the
      debug prints of `run_command` and `list_resources`. When listing the
      buckets fails the script stops after the gcloud lines. */
  function ScriptLines(run: Runner, projectId: string, filter: string, background: bool): seq<string> {
    [SetX] + GcloudLines(run, projectId, filter, background) + BucketDeletionLines(run, filter, background)
  }

  /** A line that starts with `gcloud <component> ` starts with `gcloud `. */
  lemma AllStartWithShorter(lines: seq<string>, prefix: string, more: string)
    requires AllStartWith(lines, prefix + more)
    ensures AllStartWith(lines, prefix)
  {
    forall j | 0 <= j < |lines| ensures StartsWith(lines[j], prefix) {
      assert lines[j][..|prefix|] == (lines[j][..|prefix + more|])[..|prefix|];
    }
  }

  /** Two blocks of lines that start with `prefix` make one. */
  lemma AllStartWithConcat(a: seq<string>, b: seq<string>, prefix: string)
    requires AllStartWith(a, prefix) && AllStartWith(b, prefix)
    ensures AllStartWith(a + b, prefix)
  {
    forall j | 0 <= j < |a + b| ensures StartsWith((a + b)[j], prefix) {
      if j < |a| {
        assert (a + b)[j] == a[j];
      } else {
        assert (a + b)[j] == b[j - |a|];
      }
    }
  }

  /** Every line of one step is a gcloud command. */
  lemma ComponentLinesAreGcloud(run: Runner, component: string, resourceTypes: seq<string>, useUri: bool,
                                projectId: string, filter: string, asyncMode: bool)
    ensures AllStartWith(ComponentLines(run, component, resourceTypes, useUri, projectId, filter, asyncMode), "gcloud ")
  {
    DeletionLinesAreGcloud(ListingsOf(run, component, useUri, filter), component, resourceTypes, projectId, asyncMode);
    var lines := ComponentLines(run, component, resourceTypes, useUri, projectId, filter, asyncMode);
    AllStartWithShorter(lines, "gcloud " + component, " ");
    AllStartWithShorter(lines, "gcloud ", component);
  }

  /** Every gcloud line of the script is a gcloud command. */
  lemma GcloudLinesAreGcloud(run: Runner, projectId: string, filter: string, asyncMode: bool)
    ensures AllStartWith(GcloudLines(run, projectId, filter, asyncMode), "gcloud ")
  {
    var l1 := ComponentLines(run, "container", ["clusters"], true, projectId, filter, asyncMode);
    var l2 := ComponentLines(run, "compute", ComputeResourceTypes, true, projectId, filter, asyncMode);
    var l3 := ComponentLines(run, "sql", ["instances"], false, projectId, filter, asyncMode);
    var l4 := ComponentLines(run, "app", ["services", "firewall-rules"], true, projectId, filter, asyncMode);
    var l5 := ComponentLines(run, "pubsub", ["subscriptions", "topics", "snapshots"], true, projectId, filter, asyncMode);
    var l6 := FunctionsLines(run, projectId, filter, asyncMode);
    ComponentLinesAreGcloud(run, "container", ["clusters"], true, projectId, filter, asyncMode);
    ComponentLinesAreGcloud(run, "compute", ComputeResourceTypes, true, projectId, filter, asyncMode);
    ComponentLinesAreGcloud(run, "sql", ["instances"], false, projectId, filter, asyncMode);
    ComponentLinesAreGcloud(run, "app", ["services", "firewall-rules"], true, projectId, filter, asyncMode);
    ComponentLinesAreGcloud(run, "pubsub", ["subscriptions", "topics", "snapshots"], true, projectId, filter, asyncMode);
    ComponentLinesAreGcloud(run, "functions", [""], false, projectId, filter, asyncMode);
    AllStartWithConcat(l1, l2, "gcloud ");
    AllStartWithConcat(l1 + l2, l3, "gcloud ");
    AllStartWithConcat(l1 + l2 + l3, l4, "gcloud ");
    AllStartWithConcat(l1 + l2 + l3 + l4, l5, "gcloud ");
    AllStartWithConcat(l1 + l2 + l3 + l4 + l5, l6, "gcloud ");
  }

  /** The script opens with `set -x`, then holds only gcloud commands, and
      ends with the `gsutil rm -r` commands. */
  lemma ScriptShape(run: Runner, projectId: string, filter: string, background: bool)
    ensures var script, gcloud := ScriptLines(run, projectId, filter, background), GcloudLines(run, projectId, filter, background);
            script[0] == SetX
            && AllStartWith(script[1..1 + |gcloud|], "gcloud ")
            && AllStartWith(script[1 + |gcloud|..], "gsutil rm -r ")
  {
    GcloudLinesAreGcloud(run, projectId, filter, background);
    BucketDeletionLinesAreGsutil(run, filter, background);
    ScriptParts(GcloudLines(run, projectId, filter, background), BucketDeletionLines(run, filter, background));
  }

  /** The parts of a script are read back from it by position. */
  lemma ScriptParts(gcloud: seq<string>, buckets: seq<string>)
    ensures var script := [SetX] + gcloud + buckets;
            script[0] == SetX && script[1..1 + |gcloud|] == gcloud && script[1 + |gcloud|..] == buckets
  {
  }

  /** A gcloud command is not a gsutil command. */
  lemma GcloudIsNotGsutil(line: string)
    requires StartsWith(line, "gcloud ")
    ensures !StartsWith(line, "gsutil ")
  {
    assert line[1] == "gcloud "[1];
  }

  /** A bucket removal is not a gcloud command. */
  lemma GsutilIsNotGcloud(line: string)
    requires StartsWith(line, "gsutil rm -r ")
    ensures !StartsWith(line, "gcloud ")
  {
    assert line[1] == "gsutil rm -r "[1];
  }

  /** In `set -x`, then gcloud commands, then bucket removals, no gcloud
      command follows a gsutil command. */
  lemma {:induction false} GsutilAfterGcloud(gcloud: seq<string>, buckets: seq<string>, i: nat, j: nat)
    requires AllStartWith(gcloud, "gcloud ") && AllStartWith(buckets, "gsutil rm -r ")
    requires i < j < |[SetX] + gcloud + buckets| && StartsWith(([SetX] + gcloud + buckets)[i], "gsutil ")
    ensures !StartsWith(([SetX] + gcloud + buckets)[j], "gcloud ")
  {
    var script := [SetX] + gcloud + buckets;
    forall k | 0 <= k <= |gcloud| ensures !StartsWith(script[k], "gsutil ") {
      if k == 0 {
        assert script[k] == SetX;
        assert SetX[1] != "gsutil "[1];
      } else {
        assert script[k] == gcloud[k - 1];
        GcloudIsNotGsutil(script[k]);
      }
    }
    assert |gcloud| < i;
    assert script[j] == buckets[j - 1 - |gcloud|];
    GsutilIsNotGcloud(script[j]);
  }

  /** No gcloud command of the script follows a bucket removal. */
  lemma BucketsLast(run: Runner, projectId: string, filter: string, background: bool, i: nat, j: nat)
    requires var script := ScriptLines(run, projectId, filter, background);
             i < j < |script| && StartsWith(script[i], "gsutil ")
    ensures !StartsWith(ScriptLines(run, projectId, filter, background)[j], "gcloud ")
  {
    GcloudLinesAreGcloud(run, projectId, filter, background);
    BucketDeletionLinesAreGsutil(run, filter, background);
    GsutilAfterGcloud(GcloudLines(run, projectId, filter, background), BucketDeletionLines(run, filter, background), i, j);
  }

  /** The functions step keeps its empty resource type in the delete line,
      which therefore has two spaces after `functions`. */
  lemma FunctionsLineText(projectId: string, resource: string, asyncMode: bool)
    ensures DeleteLine(DeleteRequest("functions", "", projectId, resource, asyncMode))
            == "gcloud functions  delete --project " + projectId + " -q " + resource + (if asyncMode then " --async" else "")
  {
    DeleteLineText(DeleteRequest("functions", "", projectId, resource, asyncMode));
    var head := "gcloud" + " " + "functions" + " " + "" + " " + "delete" + " " + "--project" + " ";
    assert head == "gcloud functions  delete --project ";
    ConcatAssoc(head + projectId, " " + "-q", " ");
    ConcatAssoc(head + projectId, " ", "-q");
  }

  /** Line `k` of the functions step deletes the `k`-th function listed. */
  lemma FunctionsStepLines(run: Runner, projectId: string, filter: string, asyncMode: bool, k: nat)
    requires k < |ListResources(run, "functions", "", false, filter)|
    ensures FunctionsLines(run, projectId, filter, asyncMode)[k]
            == "gcloud functions  delete --project " + projectId + " -q "
               + ListResources(run, "functions", "", false, filter)[k] + (if asyncMode then " --async" else "")
  {
    var listed := ListingsOf(run, "functions", false, filter);
    assert listed("") == ListResources(run, "functions", "", false, filter);
    assert [""][..0] == [];
    DeletionLinesAt(listed, "functions", [""], projectId, asyncMode, 0, k);
    FunctionsLineText(projectId, listed("")[k], asyncMode);
  }

  /** `main` after the login: print `set -x`, run the six gcloud steps in
      order, then the bucket step, whose error ends the run. */
  method GenerateScript(out: Script, run: Runner, projectId: string, filter: string, background: bool)
    returns (outcome: Outcome<Error>)
    modifies out
    ensures out.lines == old(out.lines) + ScriptLines(run, projectId, filter, background)
    ensures outcome.Fail? <==> ListBuckets(run, filter).Failure?
    ensures outcome.Fail? ==> outcome.error == ListBuckets(run, filter).error
  {
    ghost var head := out.lines + [SetX];
    out.Emit(SetX);
    ghost var l1 := ComponentLines(run, "container", ["clusters"], true, projectId, filter, background);
    ghost var l2 := ComponentLines(run, "compute", ComputeResourceTypes, true, projectId, filter, background);
    ghost var l3 := ComponentLines(run, "sql", ["instances"], false, projectId, filter, background);
    ghost var l4 := ComponentLines(run, "app", ["services", "firewall-rules"], true, projectId, filter, background);
    ghost var l5 := ComponentLines(run, "pubsub", ["subscriptions", "topics", "snapshots"], true, projectId, filter, background);
    ghost var l6 := FunctionsLines(run, projectId, filter, background);
    CreateDeletionCode(out, run, "container", ["clusters"], true, projectId, filter, background);
    CreateDeletionCode(out, run, "compute", ComputeResourceTypes, true, projectId, filter, background);
    ConcatAssoc(head, l1, l2);
    CreateDeletionCode(out, run, "sql", ["instances"], false, projectId, filter, background);
    ConcatAssoc(head, l1 + l2, l3);
    CreateDeletionCode(out, run, "app", ["services", "firewall-rules"], true, projectId, filter, background);
    ConcatAssoc(head, l1 + l2 + l3, l4);
    CreateDeletionCode(out, run, "pubsub", ["subscriptions", "topics", "snapshots"], true, projectId, filter, background);
    ConcatAssoc(head, l1 + l2 + l3 + l4, l5);
    CreateDeletionCode(out, run, "functions", [""], false, projectId, filter, background);
    ConcatAssoc(head, l1 + l2 + l3 + l4 + l5, l6);
    ghost var gcloud := GcloudLines(run, projectId, filter, background);
    assert out.lines == head + gcloud;
    outcome := CreateBucketDeletionCode(out, run, filter, background);
    ghost var buckets := BucketDeletionLines(run, filter, background);
    ConcatAssoc(head, gcloud, buckets);
    ConcatAssoc(old(out.lines), [SetX], gcloud + buckets);
    ConcatAssoc([SetX], gcloud, buckets);
  }
}
