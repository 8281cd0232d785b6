# Spec decomposer and task-output router of the CML API agents

This project models two deterministic parts of the CML API agent system in Dafny.

**The spec decomposer** (`parse_for_manager.py`) turns a Swagger document into small per-bucket path files and an index for the manager agent:
- `remove_unecessary_keys` deletes a fixed list of keys from every dictionary of the document, recursively;
- `bucketer` partitions the Paths Object into buckets named after normalised path segments, with a collision counter `threshold` shared by the whole pass;
- the metadata loop of `API_SpecificationParser` maps every path to its method summaries and the file of its bucket.

**The task-output router** (`panel_utils.py`) is the chat callback pair `on_chain_start` / `on_chain_end` with `send_event`. It is a state machine over:
- the handler's `agent_name`;
- the spinner's value and visibility;
- the reload button;
- the active diagram;
- the selected specification file;
- the chat log.

It is driven by string tests on the agent's `repr` and on the task output. The configuration tables `diagrams` and `avatar_images` (`config.py`) are transcribed as constants. They decide which lookups raise KeyError.

Layout, one module per file:
- `wrappers.dfy`: `Option` and `Result`.
- `strings.dfy`: the Python `str` operations used (`in`, `find`, `split`, `join`, `strip`, `lower`, `replace`).
- `json.dfy`: JSON values. A Python `dict` is an insertion-ordered sequence of pairs; `json.dfy` also defines its `get`, `d[k] = v` and `del`.
- `key_removal.dfy`, `bucketing.dfy`, `manifest.dfy`, `decomposer.dfy`: the decomposer, each as a specification function, the imperative method proved equal to it, and the lemmas about the function.
- `bucketing_examples.dfy`: the two worked bucketing examples.
- `config.dfy`: the two configuration tables.
- `router_text.dfy`: the router's pure string decisions.
- `router.dfy`: the router.
  - Its state changes are functions on a `View` of the state.
  - The classes `ChatInterface`, `Configuration`, `PanelCallbackHandler` and `PanelSidebarHandler` hold that state in fields; each method is proved to update them exactly as its function says.
  - The lemmas state what the callbacks do in the system's own terms.

Python exceptions are results: `Err(KeyError(k))`, `IndexError`, `TypeError`, `AttributeError` in the decomposer, and an `Option<Raised>` beside the new state in the router. The router keeps the state changes made before the exception.

Two error paths, as the code has them:
- A document without `paths` raises `KeyError("paths")`.
- `on_chain_end` tests for the phrase "this output contains the appropriate API Specification metadata file to use for the task at hand", capitals included, in the lower-cased output. That test never holds, so the handler as written never sets the selected file and never raises AttributeError (see "## Findings"). `Router.ChainEndStep` takes the file trigger as a parameter: `AsWritten` is the handler, `Intended` the corrected one. With the corrected trigger, an announced file without a `file_name` match raises AttributeError and no later step runs.

## Model

| member | source | states |
|---|---|---|
| JsonValues.Get | old_AgentLiteBasedAgents/CMLAutonomousAgent/cdsw_api_spec/parse_for_manager.py:27 | a dictionary lookup finds a value exactly when the key is among the dictionary's keys |
| JsonValues.GetIndex | old_AgentLiteBasedAgents/CMLAutonomousAgent/cdsw_api_spec/parse_for_manager.py:27 | the value a lookup returns is paired with its key at some position of the dictionary |
| JsonValues.GetDistinct | old_AgentLiteBasedAgents/CMLAutonomousAgent/cdsw_api_spec/parse_for_manager.py:27 | with distinct keys, looking up the key at position i returns the value at position i |
| JsonValues.GetAppend | old_AgentLiteBasedAgents/CMLAutonomousAgent/cdsw_api_spec/parse_for_manager.py:51 | a key is in a concatenation iff it is in either part, and the left part wins a lookup |
| JsonValues.Set | old_AgentLiteBasedAgents/CMLAutonomousAgent/cdsw_api_spec/parse_for_manager.py:49-51 | `d[k] = v`: a new key is appended at the end; an existing key keeps its position with the new value; every other key reads as before |
| JsonValues.SetDistinct | old_AgentLiteBasedAgents/CMLAutonomousAgent/cdsw_api_spec/parse_for_manager.py:49-51 | assignment keeps the keys of a dictionary distinct |
| JsonValues.Delete | old_AgentLiteBasedAgents/CMLAutonomousAgent/cdsw_api_spec/parse_for_manager.py:13 | `del d[k]`: exactly the entries with other keys remain, and `k` is gone |
| JsonValues.DeleteAbsent | old_AgentLiteBasedAgents/CMLAutonomousAgent/cdsw_api_spec/parse_for_manager.py:13 | deleting a key the dictionary lacks leaves it exactly as it was |
| JsonValues.DeleteAt | old_AgentLiteBasedAgents/CMLAutonomousAgent/cdsw_api_spec/parse_for_manager.py:13 | with distinct keys, deleting the key at position `i` removes that one entry and keeps the others in their order |
| JsonValues.DeleteDistinct | old_AgentLiteBasedAgents/CMLAutonomousAgent/cdsw_api_spec/parse_for_manager.py:66 | deletion keeps the keys of a dictionary distinct |
| Strings.Split | old_AgentLiteBasedAgents/CMLAutonomousAgent/cdsw_api_spec/parse_for_manager.py:28 | `split` gives at least one piece; joining the pieces back gives the string; no piece holds the separator; there are several pieces iff the separator occurs |
| Strings.SplitJoin | old_AgentLiteBasedAgents/CMLAutonomousAgent/cdsw_api_spec/parse_for_manager.py:28 | splitting a join of separator-free pieces gives the pieces back |
| Strings.SplitHead | aiagents/panel_utils/panel_utils.py:59 | the first piece of a split is the text before the first separator, or the whole text |
| Strings.SplitSecond | aiagents/panel_utils/panel_utils.py:59 | the second piece is the text after the first separator, cut at the next one |
| Strings.LStrip | old_AgentLiteBasedAgents/CMLAutonomousAgent/cdsw_api_spec/parse_for_manager.py:30 | `lstrip(c)` removes exactly the leading run of `c` |
| Strings.RStrip | old_AgentLiteBasedAgents/CMLAutonomousAgent/cdsw_api_spec/parse_for_manager.py:30 | `rstrip(c)` removes exactly the trailing run of `c` |
| Strings.Lower | aiagents/panel_utils/panel_utils.py:84 | `lower()` keeps the length and lowers every character |
| Strings.ReplaceAbsent | aiagents/panel_utils/panel_utils.py:87 | `replace` leaves a string without the pattern unchanged |
| Strings.ReplaceLeading | aiagents/panel_utils/panel_utils.py:87 | removing every `_metadata` from a text that starts with it equals removing every one from the rest |
| KeyRemoval.RemoveUnnecessaryKeys | old_AgentLiteBasedAgents/CMLAutonomousAgent/cdsw_api_spec/parse_for_manager.py:5-18 | the loops over a snapshot of each dictionary's entries and over each list leave exactly the cleaned tree |
| KeyRemoval.KeptMembers | old_AgentLiteBasedAgents/CMLAutonomousAgent/cdsw_api_spec/parse_for_manager.py:11-13 | an entry of a dictionary survives iff its key is not in the useless list |
| KeyRemoval.KeptAppend | old_AgentLiteBasedAgents/CMLAutonomousAgent/cdsw_api_spec/parse_for_manager.py:11-13 | entry by entry removal: the survivors of a concatenation are the survivors of each part, in order |
| KeyRemoval.KeptAllWhenFree | old_AgentLiteBasedAgents/CMLAutonomousAgent/cdsw_api_spec/parse_for_manager.py:11-13 | a dictionary without useless keys keeps every entry |
| KeyRemoval.KeptDistinct | old_AgentLiteBasedAgents/CMLAutonomousAgent/cdsw_api_spec/parse_for_manager.py:11-13 | removal keeps the remaining keys distinct |
| KeyRemoval.CleanedIsFree | old_AgentLiteBasedAgents/CMLAutonomousAgent/cdsw_api_spec/parse_for_manager.py:5-18 | afterwards no dictionary anywhere in the tree has a useless key |
| KeyRemoval.CleanedKeepsFree | old_AgentLiteBasedAgents/CMLAutonomousAgent/cdsw_api_spec/parse_for_manager.py:5-18 | a tree with no useless key anywhere is left as it was |
| KeyRemoval.Idempotent | old_AgentLiteBasedAgents/CMLAutonomousAgent/cdsw_api_spec/parse_for_manager.py:5-18 | a second call changes nothing |
| KeyRemoval.UnchangedIff | old_AgentLiteBasedAgents/CMLAutonomousAgent/cdsw_api_spec/parse_for_manager.py:5-18 | the call changes the tree iff some dictionary in it has a useless key |
| KeyRemoval.CleanedShape | old_AgentLiteBasedAgents/CMLAutonomousAgent/cdsw_api_spec/parse_for_manager.py:10-18 | every other key is kept with its value cleaned, and every surviving entry comes from such a key; lists keep their length and order with each element cleaned; scalars are unchanged |
| KeyRemoval.CleanedWellFormed | old_AgentLiteBasedAgents/CMLAutonomousAgent/cdsw_api_spec/parse_for_manager.py:5-18 | every dictionary of a cleaned document still has distinct keys |
| Bucketing.StripBraces | old_AgentLiteBasedAgents/CMLAutonomousAgent/cdsw_api_spec/parse_for_manager.py:30 | the stripped piece is no longer, its characters come from the piece, and it neither starts with `{` nor ends with `}` |
| Bucketing.StripBracesFixed | old_AgentLiteBasedAgents/CMLAutonomousAgent/cdsw_api_spec/parse_for_manager.py:30 | stripping leaves a piece unchanged iff it has no brace at either end |
| Bucketing.NormaliseNoColon | old_AgentLiteBasedAgents/CMLAutonomousAgent/cdsw_api_spec/parse_for_manager.py:29-33 | a segment without a colon only loses its braces, and gains no colon |
| Bucketing.NormaliseColon | old_AgentLiteBasedAgents/CMLAutonomousAgent/cdsw_api_spec/parse_for_manager.py:29-33 | with its first colon at `i`, only the part before the colon loses its braces; the colon and everything after it are kept |
| Bucketing.NormaliseIdempotent | old_AgentLiteBasedAgents/CMLAutonomousAgent/cdsw_api_spec/parse_for_manager.py:29-33 | normalising a normalised segment changes nothing |
| Bucketing.NormaliseTemplate | old_AgentLiteBasedAgents/CMLAutonomousAgent/cdsw_api_spec/parse_for_manager.py:29-33 | `{id}` becomes `id` |
| Bucketing.NormaliseCustomMethod | old_AgentLiteBasedAgents/CMLAutonomousAgent/cdsw_api_spec/parse_for_manager.py:29-33 | `{name}:cancel` becomes `name:cancel` |
| Bucketing.GetWithinTotal | old_AgentLiteBasedAgents/CMLAutonomousAgent/cdsw_api_spec/parse_for_manager.py:40 | no bucket holds more than the total number of placed entries, which bounds how often the collision loop can turn |
| Bucketing.Resolve | old_AgentLiteBasedAgents/CMLAutonomousAgent/cdsw_api_spec/parse_for_manager.py:40-46 | the collision loop terminates. It stops at a threshold no smaller than the one it started from; there the named bucket is missing or holds fewer entries than the threshold; at every threshold it passed, the bucket was full |
| Bucketing.ResolveNext | old_AgentLiteBasedAgents/CMLAutonomousAgent/cdsw_api_spec/parse_for_manager.py:40-46 | one more turn of the loop does not change where it stops |
| Bucketing.ResolveStop | old_AgentLiteBasedAgents/CMLAutonomousAgent/cdsw_api_spec/parse_for_manager.py:40 | a false guard stops the loop at once |
| Bucketing.Insert | old_AgentLiteBasedAgents/CMLAutonomousAgent/cdsw_api_spec/parse_for_manager.py:48-51 | the chosen bucket (fetched, or new and appended) gets `path` assigned to `methods`; every other bucket is unchanged |
| Bucketing.InsertDistinct | old_AgentLiteBasedAgents/CMLAutonomousAgent/cdsw_api_spec/parse_for_manager.py:48-51 | bucket names stay distinct |
| Bucketing.Step | old_AgentLiteBasedAgents/CMLAutonomousAgent/cdsw_api_spec/parse_for_manager.py:28-51 | one path raises IndexError iff it has at most three `/`-separated parts; otherwise the threshold does not decrease |
| Bucketing.BucketFrom | old_AgentLiteBasedAgents/CMLAutonomousAgent/cdsw_api_spec/parse_for_manager.py:27-52 | the pass only ever raises IndexError, and the threshold only grows over it |
| Bucketing.BucketFromPlaced | old_AgentLiteBasedAgents/CMLAutonomousAgent/cdsw_api_spec/parse_for_manager.py:27-51 | the pass places the first path where the collision loop stops, with the threshold the loop left, then goes on |
| Bucketing.BucketFromFails | old_AgentLiteBasedAgents/CMLAutonomousAgent/cdsw_api_spec/parse_for_manager.py:35-39 | the pass raises iff some path has at most three `/`-separated parts |
| Bucketing.PathsOf | old_AgentLiteBasedAgents/CMLAutonomousAgent/cdsw_api_spec/parse_for_manager.py:27 | `API_Specification["paths"].items()` succeeds iff the document is a dictionary whose `paths` is a dictionary; a missing `paths` raises `KeyError("paths")` |
| Bucketing.StepSizes | old_AgentLiteBasedAgents/CMLAutonomousAgent/cdsw_api_spec/parse_for_manager.py:40-51 | placing one path keeps every bucket within the threshold the loop leaves |
| Bucketing.BucketFromSizes | old_AgentLiteBasedAgents/CMLAutonomousAgent/cdsw_api_spec/parse_for_manager.py:40-51 | the size invariant holds after every insertion of the pass |
| Bucketing.ResolveRaisesOnce | old_AgentLiteBasedAgents/CMLAutonomousAgent/cdsw_api_spec/parse_for_manager.py:40-46 | while every bucket is within a positive threshold, the collision loop raises it by at most one |
| Bucketing.BucketFromThreshold | old_AgentLiteBasedAgents/CMLAutonomousAgent/cdsw_api_spec/parse_for_manager.py:40-46 | each path raises the shared threshold by at most one |
| Bucketing.PassBounds | old_AgentLiteBasedAgents/CMLAutonomousAgent/cdsw_api_spec/parse_for_manager.py:21-52 | from a positive start, the final threshold lies between the start and the start plus the number of paths, and no bucket holds more entries than it |
| Bucketing.InsertMembers | old_AgentLiteBasedAgents/CMLAutonomousAgent/cdsw_api_spec/parse_for_manager.py:48-51 | after an insertion, a bucket holds a path iff it did before or it is the inserted one; the new path carries its methods and all others keep theirs |
| Bucketing.InsertProper | old_AgentLiteBasedAgents/CMLAutonomousAgent/cdsw_api_spec/parse_for_manager.py:48-51 | every bucket stays non-empty with distinct paths |
| Bucketing.InsertEntries | old_AgentLiteBasedAgents/CMLAutonomousAgent/cdsw_api_spec/parse_for_manager.py:48-51 | every bucket entry stays the original entry of its path |
| Bucketing.InsertCovers | old_AgentLiteBasedAgents/CMLAutonomousAgent/cdsw_api_spec/parse_for_manager.py:48-51 | every placed path stays in some bucket |
| Bucketing.InsertUnique | old_AgentLiteBasedAgents/CMLAutonomousAgent/cdsw_api_spec/parse_for_manager.py:48-51 | no path ends up in two buckets |
| Bucketing.InsertPartitions | old_AgentLiteBasedAgents/CMLAutonomousAgent/cdsw_api_spec/parse_for_manager.py:48-51 | placing a new path extends a partition of the placed paths by that path |
| Bucketing.NextIsNew | old_AgentLiteBasedAgents/CMLAutonomousAgent/cdsw_api_spec/parse_for_manager.py:27 | with distinct paths, the next path is not among those already placed |
| Bucketing.BucketFromPartitions | old_AgentLiteBasedAgents/CMLAutonomousAgent/cdsw_api_spec/parse_for_manager.py:27-52 | the rest of the pass extends a partition of the placed paths to all of them |
| Bucketing.BucketedPartitions | old_AgentLiteBasedAgents/CMLAutonomousAgent/cdsw_api_spec/parse_for_manager.py:21-52 | every path lands in exactly one bucket with its methods value unchanged; every bucket entry is such a path; bucket names are distinct and no bucket is empty |
| Bucketing.Place | old_AgentLiteBasedAgents/CMLAutonomousAgent/cdsw_api_spec/parse_for_manager.py:35-51 | the `while` loop and the insertion give the buckets and threshold of one step of the pass |
| Bucketing.Bucketer | old_AgentLiteBasedAgents/CMLAutonomousAgent/cdsw_api_spec/parse_for_manager.py:21-52 | the `for` loop returns the buckets of the pass, or the exception it raises |
| BucketingExamples.SegmentsOfJoin | old_AgentLiteBasedAgents/CMLAutonomousAgent/cdsw_api_spec/parse_for_manager.py:28-33 | a path joined from slash-free pieces has those pieces, normalised, as its segments |
| BucketingExamples.PlainSegments | old_AgentLiteBasedAgents/CMLAutonomousAgent/cdsw_api_spec/parse_for_manager.py:28-33 | a path joined from plain pieces has exactly those segments |
| BucketingExamples.UserIdNormalised | old_AgentLiteBasedAgents/CMLAutonomousAgent/cdsw_api_spec/parse_for_manager.py:29-33 | the pieces of `/api/v1/users/{id}` normalise to `""`, `api`, `v1`, `users`, `id` |
| BucketingExamples.UserIdSegments | old_AgentLiteBasedAgents/CMLAutonomousAgent/cdsw_api_spec/parse_for_manager.py:28-33 | `/api/v1/users/{id}` has the segments `""`, `api`, `v1`, `users`, `id` |
| BucketingExamples.UserIdName | old_AgentLiteBasedAgents/CMLAutonomousAgent/cdsw_api_spec/parse_for_manager.py:35-39 | with threshold 2 that path's bucket name is `users_id` |
| BucketingExamples.NoCollision | old_AgentLiteBasedAgents/CMLAutonomousAgent/cdsw_api_spec/parse_for_manager.py:21-52 | with threshold 2, `/api/v1/users`, `/api/v1/users/{id}` and `/api/v1/orders` go to `users`, `users_id` and `orders`, one each, and the threshold stays 2 |
| BucketingExamples.CollisionPass | old_AgentLiteBasedAgents/CMLAutonomousAgent/cdsw_api_spec/parse_for_manager.py:40-51 | two paths fill a bucket, the third of that name raises the threshold to 3 and moves to the wider name, and a fourth path is named with 3 segments |
| BucketingExamples.WithCollision | old_AgentLiteBasedAgents/CMLAutonomousAgent/cdsw_api_spec/parse_for_manager.py:21-52 | `/api/v1/a/b` and `/api/v1/a/b/c` fill `a_b`; `/api/v1/a/b/d` raises the threshold to 3 and goes to `a_b_d`; `/api/v1/x/y/z` then goes to `x_y_z` |
| Manifest.Summary | old_AgentLiteBasedAgents/CMLAutonomousAgent/cdsw_api_spec/parse_for_manager.py:91 | `value["summary"]` succeeds iff the value is a dictionary with a summary; otherwise it raises `KeyError("summary")` or TypeError |
| Manifest.SummariesFails | old_AgentLiteBasedAgents/CMLAutonomousAgent/cdsw_api_spec/parse_for_manager.py:90-91 | the loop over a dictionary of methods raises iff some method has no summary, and then with that method's exception |
| Manifest.Summarised | old_AgentLiteBasedAgents/CMLAutonomousAgent/cdsw_api_spec/parse_for_manager.py:90-91 | each method paired with its summary, position by position |
| Manifest.SummariesShape | old_AgentLiteBasedAgents/CMLAutonomousAgent/cdsw_api_spec/parse_for_manager.py:90-91 | on distinct method keys, the loop appends each method with its summary, in order |
| Manifest.ObjSummaries | old_AgentLiteBasedAgents/CMLAutonomousAgent/cdsw_api_spec/parse_for_manager.py:87-91 | `metadata[p]["methods"]` has exactly the path's method keys, in order, each mapped to that method's summary |
| Manifest.ObjSummariesFail | old_AgentLiteBasedAgents/CMLAutonomousAgent/cdsw_api_spec/parse_for_manager.py:91 | summarising methods that are all dictionaries fails exactly with `KeyError("summary")` |
| Manifest.ListRaises | old_AgentLiteBasedAgents/CMLAutonomousAgent/cdsw_api_spec/parse_for_manager.py:90-91 | a list of methods is summarised iff it is empty; iterating a non-empty list always raises |
| Manifest.PathsFails | old_AgentLiteBasedAgents/CMLAutonomousAgent/cdsw_api_spec/parse_for_manager.py:85-91 | one bucket's loop raises iff some path's methods cannot be summarised |
| Manifest.PathsKeys | old_AgentLiteBasedAgents/CMLAutonomousAgent/cdsw_api_spec/parse_for_manager.py:85-88 | one bucket adds exactly its paths as keys |
| Manifest.PathsGetOther | old_AgentLiteBasedAgents/CMLAutonomousAgent/cdsw_api_spec/parse_for_manager.py:85-88 | a key that is not a path of the bucket keeps its entry |
| Manifest.PathsGetOwn | old_AgentLiteBasedAgents/CMLAutonomousAgent/cdsw_api_spec/parse_for_manager.py:85-91 | each path of the bucket maps to its summaries and the bucket's name plus `.json` |
| Manifest.BucketsFails | old_AgentLiteBasedAgents/CMLAutonomousAgent/cdsw_api_spec/parse_for_manager.py:83-91 | the outer loop raises iff some bucket's loop does |
| Manifest.BucketsKeys | old_AgentLiteBasedAgents/CMLAutonomousAgent/cdsw_api_spec/parse_for_manager.py:83-88 | the metadata gains exactly the paths held by some bucket |
| Manifest.BucketsGetOther | old_AgentLiteBasedAgents/CMLAutonomousAgent/cdsw_api_spec/parse_for_manager.py:83-88 | a key in no bucket keeps its entry |
| Manifest.BucketsGetOwn | old_AgentLiteBasedAgents/CMLAutonomousAgent/cdsw_api_spec/parse_for_manager.py:83-91 | a path held by one bucket only maps to its summaries and that bucket's file |
| Manifest.BucketAt | old_AgentLiteBasedAgents/CMLAutonomousAgent/cdsw_api_spec/parse_for_manager.py:83 | with distinct bucket names, the bucket at position c is the one its name looks up |
| Manifest.BucketOf | old_AgentLiteBasedAgents/CMLAutonomousAgent/cdsw_api_spec/parse_for_manager.py:83 | a bucket that holds a path sits at some position of the buckets |
| Manifest.ManifestOfPartition | old_AgentLiteBasedAgents/CMLAutonomousAgent/cdsw_api_spec/parse_for_manager.py:83-91 | for buckets that partition the paths: the metadata exists iff every path's methods have summaries; its keys are exactly the paths; each path in bucket `b` maps to its method summaries and `b + ".json"` |
| Manifest.ManifestFails | old_AgentLiteBasedAgents/CMLAutonomousAgent/cdsw_api_spec/parse_for_manager.py:83-91 | building the metadata raises iff some path's methods cannot be summarised |
| Manifest.ManifestKeys | old_AgentLiteBasedAgents/CMLAutonomousAgent/cdsw_api_spec/parse_for_manager.py:83-88 | the metadata's keys are exactly the bucketed paths |
| Manifest.ManifestGet | old_AgentLiteBasedAgents/CMLAutonomousAgent/cdsw_api_spec/parse_for_manager.py:83-91 | a path in bucket `b` maps to its summaries and `b + ".json"` |
| Manifest.Summaries | old_AgentLiteBasedAgents/CMLAutonomousAgent/cdsw_api_spec/parse_for_manager.py:90-91 | the inner loop returns the summaries of one path's methods, or the exception it raises |
| Manifest.AddBucket | old_AgentLiteBasedAgents/CMLAutonomousAgent/cdsw_api_spec/parse_for_manager.py:85-91 | the loop over one bucket's paths adds their entries, or raises |
| Manifest.BuildManifest | old_AgentLiteBasedAgents/CMLAutonomousAgent/cdsw_api_spec/parse_for_manager.py:83-91 | the loop over the buckets builds the whole metadata, or raises |
| Decomposer.WithoutDefinitions | old_AgentLiteBasedAgents/CMLAutonomousAgent/cdsw_api_spec/parse_for_manager.py:66 | `del API_Specification["definitions"]` succeeds iff the document is a dictionary holding the key (KeyError or TypeError otherwise) and removes exactly that entry |
| Decomposer.WithoutDefinitionsWellFormed | old_AgentLiteBasedAgents/CMLAutonomousAgent/cdsw_api_spec/parse_for_manager.py:62-66 | a loaded document stays well-formed once its definitions are removed |
| Decomposer.PathsDistinct | old_AgentLiteBasedAgents/CMLAutonomousAgent/cdsw_api_spec/parse_for_manager.py:27 | the paths of a loaded document are distinct |
| Decomposer.PreparedPathsDistinct | old_AgentLiteBasedAgents/CMLAutonomousAgent/cdsw_api_spec/parse_for_manager.py:62-79 | they stay distinct after definitions and useless keys are removed |
| Decomposer.DecomposeFails | old_AgentLiteBasedAgents/CMLAutonomousAgent/cdsw_api_spec/parse_for_manager.py:62-91 | the parser succeeds iff: (1) the document has definitions and a dictionary of paths; (2) every path has more than three parts; (3) every path's methods can be summarised |
| Decomposer.DecomposeOutput | old_AgentLiteBasedAgents/CMLAutonomousAgent/cdsw_api_spec/parse_for_manager.py:62-91 | a successful run writes buckets that partition the cleaned paths. The metadata has exactly those paths as keys; each maps to its summaries and its bucket's file |
| Decomposer.ParseSpecification | old_AgentLiteBasedAgents/CMLAutonomousAgent/cdsw_api_spec/parse_for_manager.py:66-91 | the parser's steps in order give the decomposition or its first exception |
| Config.InitialDiagram | aiagents/config/config.py:61-64 | the first active diagram is `diagram_path + "/" + diagrams["full"]` |
| Config.DiagramKeys | aiagents/config/config.py:14-25 | the names `diagrams` lists, in order |
| Config.AvatarKeys | aiagents/config/config.py:65-73 | `avatar_images` lists exactly the four crew agents, for any diagram directory |
| Config.AgentTables | aiagents/config/config.py:65-73 | a name has an avatar iff it is one of the four agents; each of them also has a diagram |
| RouterText.RoleFromRepr | aiagents/panel_utils/panel_utils.py:59 | parsing the role raises IndexError iff the `repr` has no `role=`; a parsed role contains neither `,` nor `role=` |
| RouterText.RoleOfRepr | aiagents/panel_utils/panel_utils.py:59 | for `pre + "role=" + name + "," + rest`, with no `role=` in `pre` and neither `,` nor `role=` in `name`, the parsed role is `name` |
| RouterText.SecondPiece | aiagents/panel_utils/panel_utils.py:59 | the piece after the first `role=` is the text up to the next one |
| RouterText.NameBeforeComma | aiagents/panel_utils/panel_utils.py:59 | cutting `name + "," + rest` at `role=` and then at `,` gives `name` |
| RouterText.PossibleRolesHaveTables | aiagents/panel_utils/panel_utils.py:75-80 | every accepted label has an avatar and a diagram |
| RouterText.StripQuotesLabel | aiagents/panel_utils/panel_utils.py:83 | stripping quotes leaves an accepted label unchanged |
| RouterText.RoleAttribution | aiagents/panel_utils/panel_utils.py:82-83 | an accepted label becomes the agent name and any other answer keeps it, so only listed labels are ever attributed |
| RouterText.NoneKeepsRole | aiagents/panel_utils/panel_utils.py:82-83 | the fallback answer `"None"` keeps the previous agent name |
| RouterText.RetryMessage | aiagents/panel_utils/panel_utils.py:90 | the warning starts with the whole output and adds a suffix |
| RouterText.FileMarkerNeverFires | aiagents/panel_utils/panel_utils.py:84 | the trigger as written is false on every output |
| RouterText.FileMarkerFires | aiagents/panel_utils/panel_utils.py:84 | the corrected trigger holds on any output that contains, in any letter case, the handler's phrase or the announcement the task matcher is told to write |
| RouterText.CaseFixMissesTask | aiagents/cml_agents/tasks.py:84 | lower-casing the handler's phrase alone is not enough: that trigger is false on the task matcher's announcement "This output contains the appropriate swagger metadata file to use for the task at hand" |
| RouterText.SkipSpaces | aiagents/panel_utils/panel_utils.py:86 | `\s*` runs over a maximal stretch of whitespace |
| RouterText.QuoteEnd | aiagents/panel_utils/panel_utils.py:86 | `[^"]+` runs up to the first quote |
| RouterText.MatchAtSound | aiagents/panel_utils/panel_utils.py:85-86 | a match `MatchAt` finds is a match of `"file_name":\s*"([^"]+)"` with that group |
| RouterText.MatchAtComplete | aiagents/panel_utils/panel_utils.py:85-86 | every match of the pattern at an index is the one `MatchAt` finds, with the same group |
| RouterText.SearchFrom | aiagents/panel_utils/panel_utils.py:85-86 | `re.search` returns the leftmost index where the pattern matches, or nothing when it matches nowhere |
| RouterText.SelectedFile | aiagents/panel_utils/panel_utils.py:85-87 | extraction raises AttributeError iff the pattern matches nowhere |
| RouterText.SelectedFileOfMatch | aiagents/panel_utils/panel_utils.py:85-87 | the file is the leftmost match's group with every `_metadata` removed, and the group itself when it holds none |
| RouterText.HeaderColour | aiagents/panel_utils/panel_utils.py:136-158 | a card's header colour is the user's entry in `color`, defaulting to `#ffe5f1` for other users and for `None` |
| Router.SendEventEffect | aiagents/panel_utils/panel_utils.py:114-175 | `send_event` raises `KeyError(user)` iff the user has no avatar, leaving the spinner off and the log as it was. Otherwise it appends one card (step, message, user, header colour, avatar) and turns the spinner on. Nothing else changes |
| Router.SendEventRaises | aiagents/panel_utils/panel_utils.py:171 | with the configured avatars, `send_event` raises iff the user is not one of the four agents |
| Router.CrewColours | aiagents/panel_utils/panel_utils.py:136-144 | every accepted agent has its own colour in the table |
| Router.ChainStartEffect | aiagents/panel_utils/panel_utils.py:56-70 | when the `repr` names an agent of the crew and `inputs` has an input, `on_chain_start` names the agent and shows its diagram. It posts one "Started Task" card with the input, leaves the spinner on and enables the reload button |
| Router.ChainStartFails | aiagents/panel_utils/panel_utils.py:56-70 | the exceptions of `on_chain_start` and the state each leaves:<br>- no `repr`: KeyError("repr"), nothing changed;<br>- no `role=`: IndexError, nothing changed;<br>- a role without a diagram: KeyError for it, after naming the agent;<br>- no input: KeyError("input"), after the diagram is shown;<br>- a role without an avatar: KeyError for it, with the spinner off.<br>It raises iff the `repr` is missing, has no `role=`, the input is missing, or the role is not a crew agent |
| Router.ChainStartAsFails | aiagents/panel_utils/panel_utils.py:60-70 | once the role is read, `on_chain_start` raises iff the input is missing or the role is not a crew agent, with the states listed above |
| Router.ReportEffect | aiagents/panel_utils/panel_utils.py:89-100 | a limit marker posts one retry warning and no card. Otherwise one "Ended Task" card is posted for the current agent. Only the card can raise, and only the card turns the spinner on |
| Router.FileStepEffect | aiagents/panel_utils/panel_utils.py:84-88 | the file step raises AttributeError iff its trigger fires and no `file_name` matches. When it fires and matches, the extracted file is selected; nothing else changes |
| Router.FinishEffect | aiagents/panel_utils/panel_utils.py:101-112 | the end of `on_chain_end` posts the reload note and stops the spinner iff the output asks for a reload, and enables the reload button |
| Router.ChainEndEffect | aiagents/panel_utils/panel_utils.py:72-112 | after a call that raises nothing, for either trigger:<br>- the output was present;<br>- the agent name is the attributed one;<br>- the selected file is set when the trigger fires;<br>- the log gains the warning or the card, then the reload note when the output asks for a reload;<br>- the spinner is off after a reload request, on after a card, and untouched otherwise;<br>- the reload button is enabled and the diagram is unchanged |
| Router.ChainEndOutputEffect | aiagents/panel_utils/panel_utils.py:82-112 | `ChainEndEffect` once the output has been read |
| Router.ChainEndAsWritten | aiagents/panel_utils/panel_utils.py:84-88 | the handler as written never changes the selected file and never raises AttributeError |
| Router.ChainEndFails | aiagents/panel_utils/panel_utils.py:72-100 | the handler as written raises iff the output is missing, or no limit was hit and the attributed name is not a crew agent |
| Router.ChainEndIntendedFails | aiagents/panel_utils/panel_utils.py:72-100 | with the corrected trigger, `on_chain_end` raises iff one of three holds: the output is missing; an announced file has no `file_name` match; or no limit was hit and the attributed name is not a crew agent |
| Router.CrewReportsSafely | aiagents/panel_utils/panel_utils.py:75-100 | once the classifier names a crew agent, the handler as written raises iff the output is missing |
| Router.ChatInterface.Send | aiagents/panel_utils/panel_utils.py:167-172 | sending appends the message to the chat log |
| Router.Configuration.constructor | aiagents/config/config.py:61-73 | the configuration starts with the tables, the full-crew diagram and no selected file |
| Router.PanelCallbackHandler.constructor | aiagents/panel_utils/panel_utils.py:47-54 | a new handler drives the given interface and has no agent name |
| Router.PanelCallbackHandler.SendEvent | aiagents/panel_utils/panel_utils.py:114-175 | the method updates the spinner and the log exactly as `send_event` does, within the handler's state |
| Router.PanelCallbackHandler.OnChainStart | aiagents/panel_utils/panel_utils.py:56-70 | the method updates the agent name, diagram, log, spinner and reload button exactly as `on_chain_start` does, raising where it raises |
| Router.PanelCallbackHandler.OnChainEnd | aiagents/panel_utils/panel_utils.py:72-112 | the method updates the state exactly as `on_chain_end` as written does, raising where it raises |
| Router.PanelCallbackHandler.PickFile | aiagents/panel_utils/panel_utils.py:84-88 | the method is the file step with the trigger as written: when the trigger fires, the matched file becomes the selected file and a missing match raises AttributeError. By `ChainEndAsWritten` it never fires |
| Router.PanelCallbackHandler.Report | aiagents/panel_utils/panel_utils.py:89-100 | posts the retry warning or the "Ended Task" card |
| Router.PanelCallbackHandler.Finish | aiagents/panel_utils/panel_utils.py:101-112 | a reload request stops the spinner and posts the reload note; the reload button is enabled |
| Router.PanelSidebarHandler.constructor | aiagents/panel_utils/panel_utils.py:179-186 | a new sidebar handler has no agent name |
| Router.PanelSidebarHandler.OnChainStart | aiagents/panel_utils/panel_utils.py:188-192 | the sidebar handler takes the parsed role as its agent name. A missing `repr` raises KeyError and a `repr` without `role=` raises IndexError; in both cases the name is unchanged |

## Left out

- `output_formatter`: an LLM call. Its answer is the `role` input of `on_chain_end`.
- I/O and timing details are left out:
  - `print`, `dumps(outputs)`, `time.sleep(1)`;
  - the Card, Markdown and Alert styling, stylesheets, `respond=False`.

  A card is the step, the message, the user, its header colour and its avatar.
- Panel widgets are fields: the spinner, the reload button, the active diagram and the chat interface. Their rendering is not modelled.
- `jsonref.load` and `$ref` resolution are not modelled. The decomposer takes the loaded document as a value.
- The `json.dump` writes are not modelled. The decomposer returns the buckets and the metadata that would be written.
- `aiagents/crew/crew.py` and `aiagents/cml_agents/tasks.py` are not part of this model. They are crew orchestration, threads and prompt text. The one exception is the announcement `tasks.py` tells the task matcher to write, which the corrected file trigger recognises.
- The rest of `config.py` (environment and widget set-up) is not part of this model, apart from the two tables and the initial diagram.
- Python's wider input types are not modelled:
  - JSON numbers are integers: a float used as a list index, which raises TypeError, is not distinguished;
  - `threshold` is a natural number, so a negative threshold's slice is not modelled;
  - callback outputs and inputs are dictionaries of strings, so a non-string output is not modelled.
- Strings.Lower: only ASCII letters are lowered, so the reload and file triggers ignore non-ASCII case mappings.
- KeyRemoval.RemoveUnnecessaryKeys: returns the cleaned tree instead of mutating it in place. Two dictionaries that alias one object are not modelled; removal is idempotent, so each would end up cleaned the same way.
- JsonValues.Delete: removes every entry with the key. This is the same as `del` on a dictionary, whose keys are distinct.
- Router.PanelCallbackHandler.OnChainEnd: runs its file, report and reload parts as the helper methods `PickFile`, `Report` and `Finish`, in the source's order.
- Router.ChainStartEffect: covers a `repr` of the form `pre + "role=" + agent + "," + rest`, with no `role=` in `pre` and neither `,` nor `role=` in `agent`. Other `repr` shapes are covered by `ChainStartFails` and `RoleFromRepr`.
- Router.SendEventEffect: the log does not record that the spinner is off at the moment the card is sent. It states the spinner off on the raising path and on after a card.
- `CustomPanelSidebarHandler.on_chain_end` only prints, so it is not modelled.
- The selected file is an `Option` that starts as `None`. `config.py` initialises a differently named attribute, `selected_swagger_file`.

## Findings

| source | as written | input that shows it | evidently intended | confidence | as-written member | corrected member |
|---|---|---|---|---|---|---|
| aiagents/panel_utils/panel_utils.py:84 | the file trigger searches the lower-cased output for a phrase that holds the capitals of "API Specification" | an output containing exactly "this output contains the appropriate API Specification metadata file to use for the task at hand" | the branch fires when the output announces the file, in any letter case, and then selects the file or raises | not executed | RouterText.FileMarkerNeverFires | Router.ChainEndIntendedFails |
| aiagents/cml_agents/tasks.py:84 | the task matcher is told to announce its choice with "This output contains the appropriate swagger metadata file to use for the task at hand", which is not the handler's phrase in any letter case | an output containing exactly that sentence | the handler's trigger also fires on the task matcher's announcement | not executed | RouterText.CaseFixMissesTask | RouterText.FileMarkerFires |

`RouterText.FileMarkerAsWritten` is the trigger as written. `FileMarkerNeverFires` proves it false on every output, because a lower-cased text has no capital letter. The handler and its class model use it: `Router.ChainEndStep(AsWritten, …)`, `PanelCallbackHandler.OnChainEnd` and `PickFile`; `Router.ChainEndAsWritten` draws the consequence. The corrected trigger `RouterText.FileMarkerFound` lower-cases the phrase too and also accepts the task matcher's announcement. `Router.ChainEndStep(Intended, …)` is the handler with it, described by `ChainEndEffect` and `ChainEndIntendedFails`.
