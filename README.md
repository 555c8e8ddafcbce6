# GCP deletion-script generator, modelled in Dafny

`base_gen_deletion_script.py` writes a shell script to standard output. Running that script deletes the resources of a Google Cloud project. The generator:

1. prints `set -x`;
2. for six gcloud components in a fixed order (container, compute, sql, app, pubsub, functions), lists each resource type with `gcloud <component> [<type>] list [--filter F] (--uri | --format=table[no-heading](name))`;
3. prints one `gcloud <component> <type> delete --project P -q <id>` line per listed identifier, with `--async` in background mode;
4. lists the Cloud Storage buckets with `gsutil ls`, narrowed by a `labels.<key>=<value>` filter when one is given;
5. prints one `gsutil rm -r <bucket>` line per bucket, with `&` in background mode.

This project models that generator and proves its command shapes, line counts, ordering and its one error path.

The external tools are a parameter: `Listing.Runner` maps a command's tokens to its standard output. The lines the generator prints as the script collect in an `Output.Script` object.

Modules, one per part of the program:

- `PyString` (`py_string.dfy`): the Python string operations the generator relies on.
  - `str.strip()`, using Python's 29 white-space characters.
  - `str.splitlines()`, using Python's line boundaries, with `\r\n` counted as one boundary.
  - `' '.join`, `str.startswith`, `str.split(sep, 1)` and substring `in`.
  - Each is paired with its inverse or with a characterisation.
- `Listing` (`listing.dfy`): `run_command` and `list_resources`.
  - The list command's tokens, and a parser that reads them back.
  - How the stripped output becomes identifiers.
- `GcloudDeletion` (`gcloud_deletion.dfy`): the delete line and `create_deletion_code`.
  - A specification function gives every line in order.
  - Two methods with loop invariants are proved against it: `CreateDeletionCode` and its inner loop `EmitDeleteLines`.
- `Buckets` (`buckets.dfy`): `list_buckets` and `create_bucket_deletion_code`.
  - The label filter and its error.
  - The order-preserving substring filter and the `gsutil rm -r` lines.
- `Plan` (`plan.dfy`): `main` after login and argument parsing.
  - The fixed component table and the emission order.
  - `GenerateScript`, proved against `ScriptLines`.
- `Output` (`output.dfy`): the printed script, as a class whose `Emit` appends one line.
- `Wrappers` (`wrappers.dfy`): `Option`, `Result` and `Outcome`.

The model follows the code. `base_gen_deletion_script.py` neither parses tools' help text nor discovers child resources recursively, so neither is modelled.

## Model

| member | source | states |
|---|---|---|
| PyString.Strip | base_gen_deletion_script.py:18 | The result neither starts nor ends with white space. The input is white space, then the result, then white space. |
| PyString.StripFramed | base_gen_deletion_script.py:18 | Any text that neither starts nor ends with white space and is framed by white space in `s` is `s.strip()`. This characterises strip uniquely. |
| PyString.StripIdempotent | base_gen_deletion_script.py:18 | Stripping twice gives the same result as stripping once. |
| PyString.SplitLines | base_gen_deletion_script.py:35 | `splitlines()` gives no lines exactly for the empty text. No line contains a line boundary. |
| PyString.SplitLinesOfTrimmed | base_gen_deletion_script.py:35 | The lines of stripped text are empty only when the text is empty. Otherwise the first line does not start with white space and the last does not end with it, so neither is blank. |
| PyString.JoinSplitLines | base_gen_deletion_script.py:35 | If the only boundary in a text is `\n` and the text does not end with one, joining its lines with `\n` gives the text back. |
| PyString.SplitLinesJoin | base_gen_deletion_script.py:35 | Lines without boundaries, whose last line is non-empty, come back from `splitlines()` of their `\n`-join. |
| PyString.SplitFirst | base_gen_deletion_script.py:58 | `split("=", 1)` gives one part exactly when there is no `=`. Otherwise it gives the text before the first `=` (which holds no `=`) and everything after it. |
| PyString.SplitFirstOf | base_gen_deletion_script.py:58 | If `a` holds no `=`, splitting `a + "=" + b` once gives back `a` and `b`, even when `b` contains `=`. |
| PyString.Contains | base_gen_deletion_script.py:59 | `sub in s` holds exactly when `sub` occurs in `s` at some index. |
| PyString.Join | base_gen_deletion_script.py:50 | `' '.join` (also at line 74); its properties are the rows `JoinSnoc`, `SplitJoin` and `JoinSplit` below, and `DeleteLineText` and `BucketLineText` give the joined lines. |
| PyString.StartsWith | base_gen_deletion_script.py:57 | `str.startswith`; the `labels.` test is stated by `ParseLabelFilter` below. |
| PyString.JoinSnoc | base_gen_deletion_script.py:50 | Joining one more token appends the separator and the token. |
| PyString.SplitJoin | base_gen_deletion_script.py:50 | If no token contains the separator, splitting the `' '.join` of the tokens gives back the tokens, empty ones included. |
| PyString.JoinSplit | base_gen_deletion_script.py:50 | Joining the parts of a split with the separator gives back the text. |
| Listing.RunCommand | base_gen_deletion_script.py:8-18 | `run_command` returns the standard output with surrounding white space removed. |
| Listing.ListCommand | base_gen_deletion_script.py:26-32 | The list command has 4 tokens, plus one for a non-empty resource type, plus two for a non-empty filter. It starts with `gcloud` and the component. Its last token is `--uri` exactly when `use_uri` holds. |
| Listing.ListCommandRoundTrip | base_gen_deletion_script.py:26-32 | Every request is read back from its command. The empty type and the empty filter are exactly the parts left out. |
| Listing.ParseListCommandSound | base_gen_deletion_script.py:26-32 | Any command the parser accepts is the command of the request it reads, so the token order is exactly: gcloud, component, [type], list, [--filter, f], mode. |
| Listing.ListResources | base_gen_deletion_script.py:25-35 | `list_resources` returns no identifiers exactly when the stripped output of its list command is empty. Its other properties are the rows `ListResourcesShape` and `ListResourcesJoin`. |
| Listing.ListResourcesShape | base_gen_deletion_script.py:33-35 | There are no identifiers exactly when the stripped output is empty. No identifier holds a line boundary. The first and last identifiers are not blank. |
| Listing.ListResourcesJoin | base_gen_deletion_script.py:33-35 | If the tool separates identifiers with `\n`, the identifiers joined with `\n` are its stripped output. |
| GcloudDeletion.DeleteTokens | base_gen_deletion_script.py:47-49 | The delete command has 9 tokens in async mode and 8 otherwise. |
| GcloudDeletion.DeleteTokensRoundTrip | base_gen_deletion_script.py:47-49 | The tokens determine the request: gcloud, component, type, delete, --project, P, -q, id, then `--async` exactly in async mode. |
| GcloudDeletion.DeleteLineRoundTrip | base_gen_deletion_script.py:47-50 | If no field holds a space, splitting the printed line on spaces gives back the tokens (an empty type as an empty token) and the request. |
| GcloudDeletion.DeleteLine | base_gen_deletion_script.py:47-50 | `' '.join(delete_command)`; its text, prefix and read-back are the rows `DeleteLineText`, `DeleteLineIsGcloud` and `DeleteLineRoundTrip`, and `DeleteLinesAt` places it. |
| GcloudDeletion.DeleteLineText | base_gen_deletion_script.py:47-50 | The line is the eight tokens separated by single spaces, followed by ` --async` exactly in async mode, and nothing else. |
| GcloudDeletion.DeleteLineIsGcloud | base_gen_deletion_script.py:47-50 | Every delete line starts with `gcloud <component> `. |
| GcloudDeletion.DeleteLines | base_gen_deletion_script.py:46-50 | One line per resource of a type. |
| GcloudDeletion.DeleteLinesAt | base_gen_deletion_script.py:46-50 | Line `k` deletes the `k`-th listed resource. |
| GcloudDeletion.DeletionLines | base_gen_deletion_script.py:39-50 | There are as many lines as resources listed over all the types. |
| GcloudDeletion.DeletionLinesAppend | base_gen_deletion_script.py:39-41 | The lines for a concatenation of type lists are the lines for the first list followed by those for the second: types keep the caller's order. |
| GcloudDeletion.DeletionLinesAt | base_gen_deletion_script.py:39-50 | The `k`-th resource of the `i`-th type is deleted by the line that follows all lines of the earlier types and the first `k` lines of its own type. |
| GcloudDeletion.DeletionLinesAreGcloud | base_gen_deletion_script.py:39-50 | Every printed line starts with `gcloud <component> `. |
| GcloudDeletion.EmitDeleteLines | base_gen_deletion_script.py:46-50 | The inner loop appends exactly the delete lines of one type, in listing order. |
| GcloudDeletion.CreateDeletionCode | base_gen_deletion_script.py:38-50 | `create_deletion_code` lists each type with the list command and appends exactly `DeletionLines` of what was listed. |
| Buckets.ParseLabelFilter | base_gen_deletion_script.py:57-58 | There is no label filter exactly when the filter lacks the `labels.` prefix. A prefixed filter with no `=` after the prefix is the error. Otherwise the filter is `labels.` + key + `=` + value, and the key holds no `=`. |
| Buckets.ParseLabelFilterRoundTrip | base_gen_deletion_script.py:57-58 | `labels.<key>=<value>` is read as that key and value. An `=` inside the value stays in the value. |
| Buckets.LabelOutput | base_gen_deletion_script.py:59 | The stripped output of `gsutil label get <bucket>`; the rows `KeepLabelledMembers` and `ListBucketsLabelled` state how it decides what is kept. |
| Buckets.HasLabelValue | base_gen_deletion_script.py:59 | `val in run_command([...])`; the row `Contains` states what `in` means and `KeepLabelledMembers` that it decides what is kept. |
| Buckets.KeepLabelledMembers | base_gen_deletion_script.py:59 | A bucket is kept exactly when it is listed and its label output contains the value. |
| Buckets.KeepLabelled | base_gen_deletion_script.py:59 | Filtering never adds buckets. |
| Buckets.KeepLabelledAppend | base_gen_deletion_script.py:59 | Filtering preserves order: filtering a concatenation is concatenating the filtered parts. |
| Buckets.KeepLabelledAll | base_gen_deletion_script.py:59 | When every bucket matches, the list is returned unchanged. |
| Buckets.EmptyValueKeepsAll | base_gen_deletion_script.py:59 | An empty value (`labels.<key>=`) keeps every bucket. |
| Buckets.AllBuckets | base_gen_deletion_script.py:54-55 | The lines of `gsutil ls`. Although `list_buckets` has no empty-output guard, an empty output still gives no buckets, and only then. |
| Buckets.ListBuckets | base_gen_deletion_script.py:53-62 | `list_buckets` fails exactly for a `labels.` filter without `=`. Without the prefix it returns the `gsutil ls` lines unchanged. |
| Buckets.ListBucketsLabelled | base_gen_deletion_script.py:54-60 | A label filter returns exactly the listed buckets whose label output contains its value. |
| Buckets.ListBucketsIgnoresKey | base_gen_deletion_script.py:58-59 | The key of a label filter never changes the result. |
| Buckets.BucketLine | base_gen_deletion_script.py:71-74 | `' '.join(command)`; its text and prefix are the rows `BucketLineText` and `BucketLineIsGsutil`. |
| Buckets.BucketLineText | base_gen_deletion_script.py:71-74 | A bucket line is `gsutil rm -r <bucket>`, followed by ` &` exactly in async mode. |
| Buckets.BucketLineIsGsutil | base_gen_deletion_script.py:71-74 | Every bucket line starts with `gsutil rm -r `. |
| Buckets.BucketLines | base_gen_deletion_script.py:70-74 | One line per bucket. |
| Buckets.BucketLinesAt | base_gen_deletion_script.py:70-74 | Line `k` removes the `k`-th bucket. |
| Buckets.BucketLinesStep | base_gen_deletion_script.py:70-74 | One more bucket adds its line at the end. |
| Buckets.BucketDeletionLines | base_gen_deletion_script.py:65-74 | Everything `create_bucket_deletion_code` prints; the rows `CreateBucketDeletionCode`, `BucketLinesAt` and `BucketDeletionLinesAreGsutil` state its lines, their order and their prefix. |
| Buckets.BucketDeletionLinesAreGsutil | base_gen_deletion_script.py:66-74 | Every line of the bucket step starts with `gsutil rm -r `. |
| Buckets.CreateBucketDeletionCode | base_gen_deletion_script.py:65-74 | Fails exactly when `list_buckets` fails, with its error. Otherwise appends one bucket line per listed bucket, in order, and nothing on failure. |
| Output.Script.Emit | base_gen_deletion_script.py:50 | Each `print` (here and at lines 74 and 95) of a script line appends exactly that line to the printed script, and changes nothing else. |
| Plan.ComputeResourceTypes | base_gen_deletion_script.py:88-93 | The 18 compute types in source order; the row `ComputeResourceTypesNamed` states their count and that none is empty. |
| Plan.ComputeResourceTypesNamed | base_gen_deletion_script.py:88-93 | There are 18 compute types and none is empty, so each compute list command names its type. |
| Plan.ComponentLines | base_gen_deletion_script.py:96-101 | The lines of one `create_deletion_code` call; the row `ComponentLinesAreGcloud` states their prefix, and `DeletionLinesAt` their order. |
| Plan.FunctionsLines | base_gen_deletion_script.py:101 | The functions step, listed with an empty type; the rows `FunctionsLineText` and `FunctionsStepLines` state its lines. |
| Plan.GcloudLines | base_gen_deletion_script.py:96-101 | The six gcloud steps in source order; the rows `GcloudLinesAreGcloud` and `GenerateScript` state their prefix and that `main` prints them in this order. |
| Plan.ScriptLines | base_gen_deletion_script.py:95-103 | The script `main` prints; the rows `GenerateScript`, `ScriptShape` and `BucketsLast` state that it is emitted exactly and its layout. |
| Plan.ComponentLinesAreGcloud | base_gen_deletion_script.py:96-101 | Every line of a gcloud step starts with `gcloud `. |
| Plan.GcloudLinesAreGcloud | base_gen_deletion_script.py:96-101 | Every line of the six gcloud steps starts with `gcloud `. |
| Plan.ScriptShape | base_gen_deletion_script.py:95-103 | The script opens with `set -x`, then holds only gcloud commands, then only `gsutil rm -r` commands. |
| Plan.GsutilAfterGcloud | base_gen_deletion_script.py:95-103 | In `set -x` followed by gcloud commands followed by bucket removals, no gcloud command comes after a gsutil command. |
| Plan.BucketsLast | base_gen_deletion_script.py:95-103 | No gcloud command of the script comes after a bucket removal. |
| Plan.FunctionsLineText | base_gen_deletion_script.py:101 | The functions step keeps its empty resource type, so its line reads `gcloud functions  delete --project P -q <id>`, with two spaces. |
| Plan.FunctionsStepLines | base_gen_deletion_script.py:101 | Line `k` of the functions step deletes the `k`-th function listed without a resource type, and has that double space. |
| Plan.GenerateScript | base_gen_deletion_script.py:95-103 | `main` appends `set -x`, then the six gcloud steps in order, then the bucket lines. It fails exactly when `list_buckets` fails, with its error, and then the gcloud lines have already been printed. |

## Left out

- Process execution (base_gen_deletion_script.py:8-17): the command runner is a parameter that maps tokens to standard output. Return codes and stderr are not modelled; the source only prints them, and a failing command still returns its output. The runner is a function, so it assumes one command gives one output within a run; the generator runs each command once.
- Debug prints (base_gen_deletion_script.py:12-17, 34): these go to standard output too, so the program's real standard output holds more than commands. `Output.Script` holds only the lines the generator prints as the script.
- Progress messages on stderr (base_gen_deletion_script.py:40, 44, 68): they are diagnostics with no effect on the script.
- `login` and argument parsing (base_gen_deletion_script.py:20-22, 78-86): the project, the filter and the background flag are parameters of `GenerateScript`.
- The unused `json` import: label output is an opaque string.
- Decoding: the output of the tools is taken as already-decoded text, a sequence of `char`.
- Shell quoting: the source quotes nothing, and neither does the model. `DeleteLineRoundTrip` therefore requires fields without spaces.
- The traceback and exit status when `list_buckets` raises: `GenerateScript` returns `Fail` with the error instead, after the same lines were emitted.
