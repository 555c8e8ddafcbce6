/** `create_deletion_code` (base_gen_deletion_script.py:38-50): one
    `gcloud <component> <type> delete` line per listed resource, resource
    types in the caller's order, resources in listing order. */
module GcloudDeletion {
  import opened Wrappers
  import opened PyString
  import opened Listing
  import opened Output

  /** What one delete line asks for. */
  datatype DeleteRequest = DeleteRequest(component: string, resourceType: string, projectId: string,
                                         resource: string, asyncMode: bool)

  /** The tokens of the delete command. The resource type is kept even when
      it is empty; `--async` is the ninth token exactly in async mode. */
  function DeleteTokens(req: DeleteRequest): (tokens: seq<string>)
    ensures |tokens| == (if req.asyncMode then 9 else 8)
  {
    ["gcloud", req.component, req.resourceType, "delete", "--project", req.projectId, "-q", req.resource]
    + (if req.asyncMode then ["--async"] else [])
  }

  /** Reads delete tokens back into the request they were built from. */
  function ParseDeleteTokens(tokens: seq<string>): Option<DeleteRequest> {
    if (|tokens| == 8 || (|tokens| == 9 && tokens[8] == "--async"))
       && tokens[0] == "gcloud" && tokens[3] == "delete" && tokens[4] == "--project" && tokens[6] == "-q"
    then Some(DeleteRequest(tokens[1], tokens[2], tokens[5], tokens[7], |tokens| == 9))
    else None
  }

  /** `' '.join(delete_command)`. */
  function DeleteLine(req: DeleteRequest): string {
    Join(DeleteTokens(req), " ")
  }

  predicate NoSpace(s: string) {
    ' ' !in s
  }

  /** The line determines the request: split on single spaces, it gives back
      the tokens, an empty resource type as an empty token, as long as no
      field contains a space (the generator quotes nothing). */
  lemma DeleteLineRoundTrip(req: DeleteRequest)
    requires NoSpace(req.component) && NoSpace(req.resourceType)
    requires NoSpace(req.projectId) && NoSpace(req.resource)
    ensures Split(DeleteLine(req), ' ') == DeleteTokens(req)
    ensures ParseDeleteTokens(Split(DeleteLine(req), ' ')) == Some(req)
  {
    var tokens := DeleteTokens(req);
    assert forall k :: 0 <= k < |tokens| ==> NoSpace(tokens[k]) by {
      assert NoSpace("gcloud") && NoSpace("delete") && NoSpace("--project") && NoSpace("-q") && NoSpace("--async");
    }
    SplitJoin(tokens, ' ');
    DeleteTokensRoundTrip(req);
  }

  /** The tokens determine the request. */
  lemma DeleteTokensRoundTrip(req: DeleteRequest)
    ensures ParseDeleteTokens(DeleteTokens(req)) == Some(req)
  {
  }

  /** The line as text: the tokens with one space after each but the last,
      so an empty resource type leaves two spaces in a row between the
      component and `delete`. */
  lemma DeleteLineText(req: DeleteRequest)
    ensures DeleteLine(req)
            == "gcloud" + " " + req.component + " " + req.resourceType + " " + "delete" + " " + "--project"
               + " " + req.projectId + " " + "-q" + " " + req.resource
               + (if req.asyncMode then " " + "--async" else "")
  {
    var c, rt, p, id := req.component, req.resourceType, req.projectId, req.resource;
    var t1 := ["gcloud"];
    var t2 := t1 + [c];
    var t3 := t2 + [rt];
    var t4 := t3 + ["delete"];
    var t5 := t4 + ["--project"];
    var t6 := t5 + [p];
    var t7 := t6 + ["-q"];
    var t8 := t7 + [id];
    JoinSnoc(t1, c, " ");
    JoinSnoc(t2, rt, " ");
    JoinSnoc(t3, "delete", " ");
    JoinSnoc(t4, "--project", " ");
    JoinSnoc(t5, p, " ");
    JoinSnoc(t6, "-q", " ");
    JoinSnoc(t7, id, " ");
    if req.asyncMode {
      assert DeleteTokens(req) == t8 + ["--async"];
      JoinSnoc(t8, "--async", " ");
    } else {
      assert DeleteTokens(req) == t8;
    }
  }

  /** Every delete line starts with `gcloud`, the component and a space. */
  lemma DeleteLineIsGcloud(req: DeleteRequest)
    ensures StartsWith(DeleteLine(req), "gcloud " + req.component + " ")
  {
    var t1 := [req.component, req.resourceType, "delete", "--project", req.projectId, "-q", req.resource]
              + (if req.asyncMode then ["--async"] else []);
    var t2 := t1[1..];
    assert DeleteTokens(req) == ["gcloud"] + t1;
    assert t1 == [req.component] + t2;
    JoinCons("gcloud", t1, " ");
    JoinCons(req.component, t2, " ");
    var head := "gcloud " + req.component + " ";
    assert DeleteLine(req) == head + Join(t2, " ");
  }

  /** The delete lines for the resources of one type, in listing order. */
  function DeleteLines(component: string, resourceType: string, projectId: string,
                       resources: seq<string>, asyncMode: bool): (lines: seq<string>)
    ensures |lines| == |resources|
  {
    if resources == [] then []
    else
      DeleteLines(component, resourceType, projectId, resources[..|resources| - 1], asyncMode)
      + [DeleteLine(DeleteRequest(component, resourceType, projectId, resources[|resources| - 1], asyncMode))]
  }

  /** Line `k` deletes the `k`-th listed resource. */
  lemma {:induction false} DeleteLinesAt(component: string, resourceType: string, projectId: string,
                                         resources: seq<string>, asyncMode: bool, k: nat)
    requires k < |resources|
    ensures DeleteLines(component, resourceType, projectId, resources, asyncMode)[k]
            == DeleteLine(DeleteRequest(component, resourceType, projectId, resources[k], asyncMode))
  {
    if k < |resources| - 1 {
      var init := resources[..|resources| - 1];
      DeleteLinesAt(component, resourceType, projectId, init, asyncMode, k);
      assert init[k] == resources[k];
    }
  }

  /** The identifiers listed for each resource type of one component. */
  type Listings = string -> seq<string>

  /** The listings `list_resources` gives for one component, output mode and
      filter. */
  function ListingsOf(run: Runner, component: string, useUri: bool, filter: string): Listings {
    resourceType => ListResources(run, component, resourceType, useUri, filter)
  }

  /** How many resources are listed over all the given types. */
  function ListedCount(listed: Listings, resourceTypes: seq<string>): nat {
    if resourceTypes == [] then 0
    else
      ListedCount(listed, resourceTypes[..|resourceTypes| - 1])
      + |listed(resourceTypes[|resourceTypes| - 1])|
  }

  /** Every line `create_deletion_code` prints, in order. */
  function DeletionLines(listed: Listings, component: string, resourceTypes: seq<string>,
                         projectId: string, asyncMode: bool): (lines: seq<string>)
    ensures |lines| == ListedCount(listed, resourceTypes)
  {
    if resourceTypes == [] then []
    else
      var rt := resourceTypes[|resourceTypes| - 1];
      DeletionLines(listed, component, resourceTypes[..|resourceTypes| - 1], projectId, asyncMode)
      + DeleteLines(component, rt, projectId, listed(rt), asyncMode)
  }

  /** One more resource type adds its lines at the end. */
  lemma DeletionLinesStep(listed: Listings, component: string, resourceTypes: seq<string>, i: nat,
                          projectId: string, asyncMode: bool)
    requires i < |resourceTypes|
    ensures DeletionLines(listed, component, resourceTypes[..i + 1], projectId, asyncMode)
            == DeletionLines(listed, component, resourceTypes[..i], projectId, asyncMode)
               + DeleteLines(component, resourceTypes[i], projectId, listed(resourceTypes[i]), asyncMode)
  {
    assert resourceTypes[..i + 1][..i] == resourceTypes[..i];
  }

  /** The lines for a list of types are the lines for its first part
      followed by the lines for the rest: types keep the caller's order. */
  lemma {:induction false} DeletionLinesAppend(listed: Listings, component: string, front: seq<string>, back: seq<string>,
                                               projectId: string, asyncMode: bool)
    ensures DeletionLines(listed, component, front + back, projectId, asyncMode)
            == DeletionLines(listed, component, front, projectId, asyncMode)
               + DeletionLines(listed, component, back, projectId, asyncMode)
  {
    if back == [] {
      assert front + back == front;
    } else {
      var init, last := back[..|back| - 1], back[|back| - 1];
      var lastLines := DeleteLines(component, last, projectId, listed(last), asyncMode);
      assert DeletionLines(listed, component, front + back, projectId, asyncMode)
             == DeletionLines(listed, component, front + init, projectId, asyncMode) + lastLines by {
        assert (front + back)[..|front + back| - 1] == front + init;
      }
      DeletionLinesAppend(listed, component, front, init, projectId, asyncMode);
    }
  }

  /** Where each line is: the `k`-th resource listed for the `i`-th type is
      deleted by the line that follows all the lines of the earlier types
      and the first `k` lines of its own type. */
  lemma DeletionLinesAt(listed: Listings, component: string, resourceTypes: seq<string>,
                        projectId: string, asyncMode: bool, i: nat, k: nat)
    requires i < |resourceTypes|
    requires k < |listed(resourceTypes[i])|
    ensures var lines := DeletionLines(listed, component, resourceTypes, projectId, asyncMode);
            var at := ListedCount(listed, resourceTypes[..i]) + k;
            at < |lines|
            && lines[at] == DeleteLine(DeleteRequest(component, resourceTypes[i], projectId,
                                                     listed(resourceTypes[i])[k], asyncMode))
  {
    var rt := resourceTypes[i];
    var front, back := resourceTypes[..i + 1], resourceTypes[i + 1..];
    var before := DeletionLines(listed, component, resourceTypes[..i], projectId, asyncMode);
    var own := DeleteLines(component, rt, projectId, listed(rt), asyncMode);
    var after := DeletionLines(listed, component, back, projectId, asyncMode);
    var lines := DeletionLines(listed, component, resourceTypes, projectId, asyncMode);
    assert lines == before + own + after by {
      assert resourceTypes == front + back;
      DeletionLinesAppend(listed, component, front, back, projectId, asyncMode);
      DeletionLinesStep(listed, component, resourceTypes, i, projectId, asyncMode);
    }
    assert lines[|before| + k] == own[k];
    DeleteLinesAt(component, rt, projectId, listed(rt), asyncMode, k);
  }

  /** Every line starts with `gcloud`, the component and a space. */
  lemma {:induction false} DeletionLinesAreGcloud(listed: Listings, component: string, resourceTypes: seq<string>,
                                                  projectId: string, asyncMode: bool)
    ensures AllStartWith(DeletionLines(listed, component, resourceTypes, projectId, asyncMode), "gcloud " + component + " ")
  {
    if resourceTypes != [] {
      var rt := resourceTypes[|resourceTypes| - 1];
      var resources := listed(rt);
      var head := "gcloud " + component + " ";
      var prev := DeletionLines(listed, component, resourceTypes[..|resourceTypes| - 1], projectId, asyncMode);
      var cur := DeleteLines(component, rt, projectId, resources, asyncMode);
      forall k | 0 <= k < |cur| ensures StartsWith(cur[k], head) {
        DeleteLinesAt(component, rt, projectId, resources, asyncMode, k);
        DeleteLineIsGcloud(DeleteRequest(component, rt, projectId, resources[k], asyncMode));
      }
      var lines := DeletionLines(listed, component, resourceTypes, projectId, asyncMode);
      assert lines == prev + cur;
      forall j | 0 <= j < |lines| ensures StartsWith(lines[j], head) {
        if j >= |prev| {
          assert lines[j] == cur[j - |prev|];
        } else {
          DeletionLinesAreGcloud(listed, component, resourceTypes[..|resourceTypes| - 1], projectId, asyncMode);
          assert lines[j] == prev[j];
        }
      }
    }
  }

  /** The inner loop of `create_deletion_code`: one delete line per
      resource, in listing order. */
  method EmitDeleteLines(out: Script, component: string, resourceType: string, projectId: string,
                         resources: seq<string>, asyncMode: bool)
    modifies out
    ensures out.lines == old(out.lines) + DeleteLines(component, resourceType, projectId, resources, asyncMode)
  {
    for j := 0 to |resources|
      invariant out.lines == old(out.lines) + DeleteLines(component, resourceType, projectId, resources[..j], asyncMode)
    {
      var deleteCommand := ["gcloud", component, resourceType, "delete", "--project", projectId, "-q", resources[j]];
      if asyncMode {
        deleteCommand := deleteCommand + ["--async"];
      }
      assert deleteCommand == DeleteTokens(DeleteRequest(component, resourceType, projectId, resources[j], asyncMode));
      out.Emit(Join(deleteCommand, " "));
      assert resources[..j + 1][..j] == resources[..j];
    }
    assert resources[..|resources|] == resources;
  }

  /** `create_deletion_code`: for each resource type in order, list its
      resources and print one delete line per resource. */
  method CreateDeletionCode(out: Script, run: Runner, component: string, resourceTypes: seq<string>,
                            useUri: bool, projectId: string, filter: string, asyncMode: bool)
    modifies out
    ensures out.lines == old(out.lines)
                         + DeletionLines(ListingsOf(run, component, useUri, filter), component, resourceTypes, projectId, asyncMode)
  {
    ghost var listed := ListingsOf(run, component, useUri, filter);
    for i := 0 to |resourceTypes|
      invariant out.lines == old(out.lines) + DeletionLines(listed, component, resourceTypes[..i], projectId, asyncMode)
    {
      var resourceType := resourceTypes[i];
      var resources := ListResources(run, component, resourceType, useUri, filter);
      assert resources == listed(resourceType);
      ghost var before := out.lines;
      EmitDeleteLines(out, component, resourceType, projectId, resources, asyncMode);
      ConcatAssoc(old(out.lines), DeletionLines(listed, component, resourceTypes[..i], projectId, asyncMode),
                  DeleteLines(component, resourceType, projectId, resources, asyncMode));
      DeletionLinesStep(listed, component, resourceTypes, i, projectId, asyncMode);
    }
    assert resourceTypes[..|resourceTypes|] == resourceTypes;
  }
}
