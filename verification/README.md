# skippy-daemon labelling cycle, in Dafny

The skippy daemon runs on every node of a Kubernetes cluster. Once an hour it
works out a set of node labels: the CUDA major version, whether `nvidia-smi` is
installed, a default `edge` locality type, and whether a MinIO storage pod runs on
the node. When that set differs from the one it last applied, it patches the node.
This project models one iteration of that loop and proves properties of it and of
finite runs of iterations.

- `Outcomes` (outcomes.dfy): the shared values. These are `Option`, the Python
  exception classes that can reach the loop, what one labelling function returns
  (abstain, a `(key, value-or-None)` tuple, or an exception), and the label dict.
- `CudaPattern` (cuda_pattern.dfy): the single regular expression
  `^CUDA Version ([0-9]+).[0-9]+.[0-9]+`, written as a prefix matcher. It gives
  `re.search`'s group 1, including the greedy group's backtracking, the
  unescaped dots, and `^` anchoring at the start of the text only.
- `Detectors` (detectors.dfy): the four labelling functions. They are decisions
  over observations (file content, search-path lookup, node labels, pod count),
  and the observations are inputs.
- `Aggregation` (aggregation.dfy): the fold that fills the dict. `Aggregate` is
  its specification and `BuildLabels` is the in-place loop proved against it.
- `Patch` (patch.dfy): the `{"metadata": {"labels": ...}}` body and the exception
  `set_labels` raises for each answer of `patch_node`.
- `Reconcile` (reconcile.dfy): the loop state (`old_labels`, `node_name`) as the
  class `Daemon` with a `Cycle` method and a bounded `RunFor` loop. `Step` and
  `RunCycles` are their value-level specifications, and lemmas about them cover
  whole runs.
- `Labelling` (labelling.dfy): the loop run over the daemon's own four detectors.

The model follows the code as written, including where it departs from what
the daemon is meant to do:

- A `(key, None)` tuple is inserted into the dict as `key -> None`, not dropped.
  In the merge-patch body it becomes `null`, which removes the label from the node.
- A version file the pattern does not match makes `re.search` return `None`, and
  `.groups()` then raises `AttributeError`. The file is not treated as "no CUDA".
- The loop catches `KeyError` only. An exception from a labelling function or from
  `set_labels` leaves `main` unless it is a `KeyError`. It is not logged and
  swallowed.
- A rejected patch whose error body has no `message` key raises a `KeyError`
  inside `set_labels`' handler. That `KeyError` replaces the `ApiException`, so the
  loop swallows it and retries in the next iteration.

## Model

| member | source | states |
|---|---|---|
| CudaPattern.DigitRun | skippy-daemon.py:20 | the run of ASCII digits starting at a position: all digits, and not followed by another digit (the most `[0-9]+` can take) |
| CudaPattern.TryTail | skippy-daemon.py:20 | true exactly when `.[0-9]+.[0-9]+` matches at the position with a first digit run of some length up to the bound |
| CudaPattern.TailMatch | skippy-daemon.py:20 | true exactly when `.[0-9]+.[0-9]+` matches at the position for some length of its first digit run (`.` is any character but a newline) |
| CudaPattern.TryGroup | skippy-daemon.py:20 | greedy backtracking of `([0-9]+)`: the length it returns admits a whole match, and no longer length up to the digit run does |
| CudaPattern.SearchVersion | skippy-daemon.py:20 | `None` exactly when no group length makes the pattern match at the start of the text; otherwise group 1 is the longest matching digit run right after `CUDA Version `, a non-empty string of ASCII digits |
| CudaPattern.VersionOfThreePartRelease | skippy-daemon.py:17-24 | `CUDA Version 11.4.0\n` gives `11` |
| CudaPattern.UnescapedDotsMatchDigits | skippy-daemon.py:20 | the unescaped dots match digits: `CUDA Version 12345` gives `1` |
| CudaPattern.TooFewCharactersDoNotMatch | skippy-daemon.py:20-21 | `CUDA Version 1234` does not match |
| CudaPattern.VersionOnSecondLineNotFound | skippy-daemon.py:20-21 | `^` without MULTILINE: a version line after a newline is not found |
| Detectors.GetCudaVersion | skippy-daemon.py:15-30 | a missing file gives `(cuda key, None)`; an unreadable file raises `OSError`; content raises `AttributeError` exactly when the pattern cannot match, and otherwise gives the label; its value is group 1 of the match, the longest digit run after `CUDA Version ` for which the pattern matches; never abstains |
| Detectors.CheckNvidiaGpu | skippy-daemon.py:33-40 | always the GPU key; the value is present exactly when `nvidia-smi` is found, and then it is `''` |
| Detectors.EdgeLabel | skippy-daemon.py:43-52 | abstains exactly when the node's labels contain the locality key, whatever its value; labels without it always give `(locality key, 'edge')`; a failed `read_node` raises `ApiException` and labels that are `None` raise `TypeError` |
| Detectors.StorageNodeLabel | skippy-daemon.py:55-65 | raises only when the pod query fails; otherwise the storage key, present as `''` exactly when at least one pod matches |
| Detectors.Detect | skippy-daemon.py:68 | one outcome per entry of `labelling_functions`, four in all |
| Detectors.DetectorKeysDistinct | skippy-daemon.py:33-68 | no two labelling functions propose the same key; only `edge_label` proposes the locality key |
| Aggregation.Aggregate | skippy-daemon.py:122-126 | the fold of the dict: an exception it ends with is one a labelling function raised, and every key in the dict was returned by some labelling function |
| Aggregation.AggregateRaisesFirstError | skippy-daemon.py:122-126 | the fold ends in an exception exactly when some labelling function raised, and it is the first one's |
| Aggregation.AggregateLastWriterWins | skippy-daemon.py:122-126 | without an exception, a key is in the dict exactly when some function returned a tuple with it; its value is the last such tuple's, `None` included; abstentions add nothing |
| Aggregation.NoneValueIsStored | skippy-daemon.py:124-126 | a `(key, None)` tuple with no later writer leaves `key -> None` in the dict |
| Aggregation.RaisedPrefixRaisesAll | skippy-daemon.py:123-124 | once a labelling function has raised, the outcomes of the later ones make no difference |
| Aggregation.BuildLabels | skippy-daemon.py:122-126 | the in-place `for` loop computes the fold `Aggregate` |
| Patch.PatchBody | skippy-daemon.py:74-78 | the body's only key is `metadata`, whose only key is `labels`, an object with exactly the dict's keys, `null` exactly for `None` values |
| Patch.PatchBodyRoundTrip | skippy-daemon.py:74-79 | reading the labels back out of the body gives the dict it was built from |
| Patch.PatchBodyInjective | skippy-daemon.py:74-79 | different dicts give different bodies |
| Patch.SetLabelsRaises | skippy-daemon.py:71-84 | returns normally exactly when the patch is accepted; a rejection re-raises `ApiException`, or raises `KeyError` when the error body has no message, or `JSONDecodeError` when it is not JSON |
| Reconcile.Handle | skippy-daemon.py:135-137 | an iteration continues after an exception exactly when it is a `KeyError`; any other exception escapes unchanged |
| Reconcile.Step | skippy-daemon.py:116-141 | missing `NODE_NAME` changes and sends nothing; the name is read only while unknown; a patch is sent only for a dict that differs from `old_labels`; `old_labels` changes only to the sent dict, after an accepted patch; a labelling function's exception sends nothing, keeps `old_labels` and escapes unless it is a `KeyError`; a `KeyError` never escapes |
| Reconcile.ChangedLabelsArePatched | skippy-daemon.py:115-132 | with a known node name, a dict that differs from `old_labels` (always so on the first iteration) is sent exactly once as it is, and becomes `old_labels` exactly when the patch is accepted |
| Reconcile.UnchangedLabelsAreNotPatched | skippy-daemon.py:129-134 | a dict equal to `old_labels` sends nothing and leaves `old_labels` as it was |
| Reconcile.RunCycles | skippy-daemon.py:116-141 | a run uses every iteration unless one escapes, which is never a `KeyError`; it sends at most one patch per iteration |
| Reconcile.RunEscapesOnlyFromAnIteration | skippy-daemon.py:116-141 | a run that ends escaped ran at least one iteration, and the exception is the one its last iteration raised, from a labelling function or from `set_labels`; with no labelling function raising and every patch accepted or failing with `KeyError`, the loop goes on through every iteration |
| Reconcile.NodeNameIsStable | skippy-daemon.py:118-119 | once resolved, the node name never changes and every patch of the run goes to that node |
| Reconcile.MissingNodeNameRetries | skippy-daemon.py:118-137 | while `NODE_NAME` stays missing, every iteration is skipped, nothing is sent, the state is unchanged and the loop goes on |
| Reconcile.SteadyLabelsPatchAtMostOnce | skippy-daemon.py:115-134 | iterations that compute the same dict, and whose patches are not rejected without a message, send at most one patch: none when it is already `old_labels`, exactly one when the name is known and it is not; with every patch accepted the loop goes on |
| Reconcile.FailedPatchIsRetried | skippy-daemon.py:129-137 | a patch whose error body lacks `message` is swallowed and leaves the state unchanged, so the next iteration with the same dict patches again |
| Reconcile.Daemon.constructor | skippy-daemon.py:98-115 | the loop starts with `old_labels` unset and the node name from the command line, if given |
| Reconcile.Daemon.Cycle | skippy-daemon.py:117-137 | one iteration, updating `old_labels` and `node_name` in place, produces exactly the transition `Step` gives |
| Reconcile.Daemon.RunFor | skippy-daemon.py:116-141 | the loop over a finite list of iterations, stopping when an exception escapes, produces exactly `RunCycles` |
| Labelling.DetectedKeys | skippy-daemon.py:68-126 | without an exception, the dict holds the CUDA, GPU and storage keys, and the locality key exactly when `edge_label` does not abstain, and nothing else |
| Labelling.LocalityIsNotOverridden | skippy-daemon.py:43-52 | a locality type already on the node never enters the dict, so the patch leaves it alone |
| Labelling.MissingVersionFileRemovesLabel | skippy-daemon.py:25-30 | without a version file the dict holds the CUDA key with `None` |
| Labelling.DetectorErrorEscapes | skippy-daemon.py:117-137 | with the node name known, the exception of the first labelling function that raises leaves the loop unchanged, with nothing sent and `old_labels` kept |
| Labelling.MalformedVersionFileEscapes | skippy-daemon.py:20-21 | version content the pattern does not match makes the iteration end with `AttributeError` escaping, with nothing sent and `old_labels` unchanged |

## Left out

- Command-line parsing, log-level setup and every `logging` call: they configure the process or only produce output.
- Loading the Kubernetes configuration and building the client. The calls `read_node`, `list_pod_for_all_namespaces` and `patch_node` come from a foreign library. Their results are inputs: node labels, a pod count, an accepted or rejected patch. The field and label selector strings are not modelled.
- Opening the version file and `shutil.which`: the file's content (or missing, or unreadable) and the found bit are inputs. Content that cannot be decoded as text (`UnicodeDecodeError`) is not told apart from an unreadable file.
- The `re` engine in general: only the one pattern is modelled, as a prefix matcher.
- `json.loads` of the error body is reduced to three cases: message present, message missing, not JSON. A `None` body (a `TypeError`) and a JSON body that is not an object are not told apart from "not JSON".
- A failure of `patch_node`, `read_node` or `list_pod_for_all_namespaces` that is not an `ApiException`, such as a connection error, is not modelled. The model treats every failed `read_node` or pod listing as an `ApiException`, and every failed `patch_node` as a rejection. Such an exception would escape the loop like any exception other than `KeyError`, so the loop behaves the same.
- `time.sleep(3600)` and the endless `while True`: the model has one iteration and finite lists of iterations. What the process does after an exception escapes (it exits) is outside the model.
- The `len(version_re.groups()) == 1` test is always true for a pattern with one group. So after a successful read, the fall-through to `(key, None)` cannot be reached, and the model does not include it.
- The labelling functions are called lazily: after one raises, the later ones, and their API calls, never run. The model takes all four outcomes as inputs, and the fold ignores the ones after an exception.
- Detectors.Detect: its contract states only the length of the list. What each element holds is stated by the detectors' own contracts and the `Labelling` lemmas.
