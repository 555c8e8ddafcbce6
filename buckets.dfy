/** `list_buckets` and `create_bucket_deletion_code`
    (base_gen_deletion_script.py:53-74): the buckets `gsutil ls` lists,
    narrowed by a `labels.<key>=<value>` filter, and one
    `gsutil rm -r <bucket>` line per bucket. */
module Buckets {
  import opened Wrappers
  import opened PyString
  import opened Listing
  import opened Output

  const LabelsPrefix := "labels."

  /** A filter of the form `labels.<key>=<value>`. */
  datatype LabelFilter = LabelFilter(key: string, value: string)

  /** The `ValueError` that unpacking `split("=", 1)` raises when a
      `labels.` filter holds no `=`. */
  datatype Error = MissingEquals(filter: string)

  /** How `list_buckets` reads the filter: no label filter without the
      `labels.` prefix; otherwise the key runs to the first `=` and the value
      is everything after it. */
  function ParseLabelFilter(filter: string): (r: Result<Option<LabelFilter>, Error>)
    ensures r == Success(None) <==> !StartsWith(filter, LabelsPrefix)
    ensures r.Failure? <==> StartsWith(filter, LabelsPrefix) && '=' !in filter[|LabelsPrefix|..]
    ensures r.Failure? ==> r.error == MissingEquals(filter)
    ensures r.Success? && r.value.Some? ==>
              filter == LabelsPrefix + r.value.value.key + "=" + r.value.value.value && '=' !in r.value.value.key
  {
    if !StartsWith(filter, LabelsPrefix) then Success(None)
    else
      var parts := SplitFirst(filter[|LabelsPrefix|..], '=');
      if |parts| != 2 then Failure(MissingEquals(filter))
      else
        assert filter == filter[..|LabelsPrefix|] + filter[|LabelsPrefix|..];
        Success(Some(LabelFilter(parts[0], parts[1])))
  }

  /** Every label filter is read back from its text; an `=` in the value
      stays in the value. */
  lemma ParseLabelFilterRoundTrip(key: string, value: string)
    requires '=' !in key
    ensures ParseLabelFilter(LabelsPrefix + key + "=" + value) == Success(Some(LabelFilter(key, value)))
  {
    var filter := LabelsPrefix + key + "=" + value;
    assert StartsWith(filter, LabelsPrefix);
    assert filter[|LabelsPrefix|..] == key + ['='] + value;
    SplitFirstOf(key, value, '=');
  }

  /** The stripped output of `gsutil label get <bucket>`. */
  function LabelOutput(run: Runner, bucket: string): string {
    RunCommand(run, ["gsutil", "label", "get", bucket])
  }

  /** The test `val in run_command(["gsutil", "label", "get", bucket])`. */
  predicate HasLabelValue(run: Runner, bucket: string, value: string) {
    Contains(LabelOutput(run, bucket), value)
  }

  /** The buckets whose label output contains `value`, in their order. */
  function KeepLabelled(run: Runner, buckets: seq<string>, value: string): (kept: seq<string>)
    ensures |kept| <= |buckets|
  {
    if buckets == [] then []
    else
      var init, last := buckets[..|buckets| - 1], buckets[|buckets| - 1];
      assert buckets == init + [last];
      KeepLabelled(run, init, value) + (if HasLabelValue(run, last, value) then [last] else [])
  }

  /** A bucket is kept exactly when it is listed and its label output
      contains the value. */
  lemma {:induction false} KeepLabelledMembers(run: Runner, buckets: seq<string>, value: string)
    ensures forall b :: b in KeepLabelled(run, buckets, value) <==> b in buckets && HasLabelValue(run, b, value)
  {
    if buckets != [] {
      var init, last := buckets[..|buckets| - 1], buckets[|buckets| - 1];
      assert buckets == init + [last];
      KeepLabelledMembers(run, init, value);
    }
  }

  /** Filtering keeps order: the buckets kept from a concatenation are those
      kept from its first part followed by those kept from the rest. */
  lemma {:induction false} KeepLabelledAppend(run: Runner, front: seq<string>, back: seq<string>, value: string)
    ensures KeepLabelled(run, front + back, value) == KeepLabelled(run, front, value) + KeepLabelled(run, back, value)
  {
    if back == [] {
      assert front + back == front;
    } else {
      var init, last := back[..|back| - 1], back[|back| - 1];
      assert (front + back)[..|front + back| - 1] == front + init;
      KeepLabelledAppend(run, front, init, value);
    }
  }

  /** When every bucket matches, none is dropped. */
  lemma {:induction false} KeepLabelledAll(run: Runner, buckets: seq<string>, value: string)
    requires forall b :: b in buckets ==> HasLabelValue(run, b, value)
    ensures KeepLabelled(run, buckets, value) == buckets
  {
    if buckets != [] {
      var init, last := buckets[..|buckets| - 1], buckets[|buckets| - 1];
      assert buckets == init + [last];
      assert last in buckets;
      KeepLabelledAll(run, init, value);
    }
  }

  /** An empty value (`labels.<key>=`) keeps every bucket: the empty string
      is in every string. */
  lemma EmptyValueKeepsAll(run: Runner, buckets: seq<string>)
    ensures KeepLabelled(run, buckets, "") == buckets
  {
    forall b | b in buckets ensures HasLabelValue(run, b, "") {
      assert OccursAt(LabelOutput(run, b), "", 0);
    }
    KeepLabelledAll(run, buckets, "");
  }

  /** The lines of the stripped output of `gsutil ls`. Without the guard
      `list_resources` has, an empty output still gives no buckets. */
  function AllBuckets(run: Runner): (buckets: seq<string>)
    ensures buckets == [] <==> RunCommand(run, ["gsutil", "ls"]) == []
  {
    SplitLines(RunCommand(run, ["gsutil", "ls"]))
  }

  /** `list_buckets`: every bucket without a label filter, the matching
      buckets with one, and the error of a `labels.` filter without `=`. */
  function ListBuckets(run: Runner, filter: string): (r: Result<seq<string>, Error>)
    ensures r.Failure? <==> StartsWith(filter, LabelsPrefix) && '=' !in filter[|LabelsPrefix|..]
    ensures !StartsWith(filter, LabelsPrefix) ==> r == Success(AllBuckets(run))
  {
    match ParseLabelFilter(filter)
    case Failure(e) => Failure(e)
    case Success(None) => Success(AllBuckets(run))
    case Success(Some(labelFilter)) => Success(KeepLabelled(run, AllBuckets(run), labelFilter.value))
  }

  /** A label filter keeps exactly the listed buckets whose label output
      contains its value. */
  lemma ListBucketsLabelled(run: Runner, key: string, value: string)
    requires '=' !in key
    ensures var r := ListBuckets(run, LabelsPrefix + key + "=" + value);
            r.Success? && (forall b :: b in r.value <==> b in AllBuckets(run) && HasLabelValue(run, b, value))
  {
    ParseLabelFilterRoundTrip(key, value);
    KeepLabelledMembers(run, AllBuckets(run), value);
  }

  /** The key of a label filter is never consulted. */
  lemma ListBucketsIgnoresKey(run: Runner, key1: string, key2: string, value: string)
    requires '=' !in key1 && '=' !in key2
    ensures ListBuckets(run, LabelsPrefix + key1 + "=" + value) == ListBuckets(run, LabelsPrefix + key2 + "=" + value)
  {
    ParseLabelFilterRoundTrip(key1, value);
    ParseLabelFilterRoundTrip(key2, value);
  }

  /** `' '.join(command)` for `gsutil rm -r <bucket>`, with `&` at the end
      in async mode. */
  function BucketLine(bucket: string, asyncMode: bool): string {
    Join(["gsutil", "rm", "-r", bucket] + (if asyncMode then ["&"] else []), " ")
  }

  /** The bucket line as text. */
  lemma BucketLineText(bucket: string, asyncMode: bool)
    ensures BucketLine(bucket, asyncMode)
            == "gsutil" + " " + "rm" + " " + "-r" + " " + bucket + (if asyncMode then " " + "&" else "")
  {
    var t1 := ["gsutil"];
    var t2 := t1 + ["rm"];
    var t3 := t2 + ["-r"];
    var t4 := t3 + [bucket];
    JoinSnoc(t1, "rm", " ");
    JoinSnoc(t2, "-r", " ");
    JoinSnoc(t3, bucket, " ");
    if asyncMode {
      assert ["gsutil", "rm", "-r", bucket] + ["&"] == t4 + ["&"];
      JoinSnoc(t4, "&", " ");
    } else {
      assert ["gsutil", "rm", "-r", bucket] + [] == t4;
    }
  }

  /** Every bucket line starts with `gsutil rm -r `. */
  lemma BucketLineIsGsutil(bucket: string, asyncMode: bool)
    ensures StartsWith(BucketLine(bucket, asyncMode), "gsutil rm -r ")
  {
    var rest := [bucket] + (if asyncMode then ["&"] else []);
    assert ["gsutil", "rm", "-r", bucket] + (if asyncMode then ["&"] else []) == ["gsutil"] + (["rm"] + (["-r"] + rest));
    JoinCons("gsutil", ["rm"] + (["-r"] + rest), " ");
    JoinCons("rm", ["-r"] + rest, " ");
    JoinCons("-r", rest, " ");
    assert BucketLine(bucket, asyncMode) == "gsutil rm -r " + Join(rest, " ");
  }

  /** One line per bucket, in order. */
  function BucketLines(buckets: seq<string>, asyncMode: bool): (lines: seq<string>)
    ensures |lines| == |buckets|
  {
    if buckets == [] then []
    else BucketLines(buckets[..|buckets| - 1], asyncMode) + [BucketLine(buckets[|buckets| - 1], asyncMode)]
  }

  /** Line `k` removes the `k`-th bucket. */
  lemma {:induction false} BucketLinesAt(buckets: seq<string>, asyncMode: bool, k: nat)
    requires k < |buckets|
    ensures BucketLines(buckets, asyncMode)[k] == BucketLine(buckets[k], asyncMode)
  {
    if k < |buckets| - 1 {
      var init := buckets[..|buckets| - 1];
      BucketLinesAt(init, asyncMode, k);
      assert init[k] == buckets[k];
    }
  }

  /** The lines of one more bucket. */
  lemma BucketLinesStep(buckets: seq<string>, asyncMode: bool, i: nat)
    requires i < |buckets|
    ensures BucketLines(buckets[..i + 1], asyncMode) == BucketLines(buckets[..i], asyncMode) + [BucketLine(buckets[i], asyncMode)]
  {
    assert buckets[..i + 1][..i] == buckets[..i];
  }

  /** Every line `create_bucket_deletion_code` prints: none when listing the
      buckets raised. */
  function BucketDeletionLines(run: Runner, filter: string, asyncMode: bool): seq<string> {
    match ListBuckets(run, filter)
    case Success(buckets) => BucketLines(buckets, asyncMode)
    case Failure(_) => []
  }

  /** Every bucket line starts with `gsutil rm -r `. */
  lemma BucketDeletionLinesAreGsutil(run: Runner, filter: string, asyncMode: bool)
    ensures AllStartWith(BucketDeletionLines(run, filter, asyncMode), "gsutil rm -r ")
  {
    var r := ListBuckets(run, filter);
    if r.Success? {
      forall k | 0 <= k < |r.value| ensures StartsWith(BucketLines(r.value, asyncMode)[k], "gsutil rm -r ") {
        BucketLinesAt(r.value, asyncMode, k);
        BucketLineIsGsutil(r.value[k], asyncMode);
      }
    }
  }

  /** `create_bucket_deletion_code`: list the buckets (failing as
      `list_buckets` does) and print one line per bucket. */
  method CreateBucketDeletionCode(out: Script, run: Runner, filter: string, asyncMode: bool)
    returns (outcome: Outcome<Error>)
    modifies out
    ensures outcome.Fail? <==> ListBuckets(run, filter).Failure?
    ensures outcome.Fail? ==> outcome.error == ListBuckets(run, filter).error
    ensures out.lines == old(out.lines) + BucketDeletionLines(run, filter, asyncMode)
  {
    var listed := ListBuckets(run, filter);
    if listed.Failure? {
      return Fail(listed.error);
    }
    var buckets := listed.value;
    for i := 0 to |buckets|
      invariant out.lines == old(out.lines) + BucketLines(buckets[..i], asyncMode)
    {
      var command := ["gsutil", "rm", "-r", buckets[i]];
      if asyncMode {
        command := command + ["&"];
      }
      assert command == ["gsutil", "rm", "-r", buckets[i]] + (if asyncMode then ["&"] else []);
      out.Emit(Join(command, " "));
      BucketLinesStep(buckets, asyncMode, i);
      ConcatAssoc(old(out.lines), BucketLines(buckets[..i], asyncMode), [BucketLine(buckets[i], asyncMode)]);
    }
    assert buckets[..|buckets|] == buckets;
    assert BucketDeletionLines(run, filter, asyncMode) == BucketLines(buckets, asyncMode);
    outcome := Pass;
  }
}
