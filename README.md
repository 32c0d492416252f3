# Experiment recorder and cluster decomposition, modelled in Dafny

This project models two pieces of an iterative text-clustering system.

- **The run recorder** (`experiment_recorder.py`): an `ExperimentRecorder`
  holds a problem (its texts), optional ground truth, an output directory and
  an iteration counter. Each stage of a clustering iteration (propose, assign,
  select) writes its artifacts under `{output_dir}/iteration-{iteration}/`.
  The select stage also masks out the unmatched texts (prediction `-1`) before
  scoring against the ground truth, groups descriptions by the true class they
  map to, and writes a cluster summary: per description a count, a percentage
  of the population and up to three randomly sampled member texts, a header
  with the unmatched count, and a pie chart.
- **The decomposition tool** (`sub_cluster.py`): from a finished run's
  descriptions and per-text predictions, it shows each cluster with its
  truncated percentage. For each cluster index the operator chooses, it then
  writes a child sub-problem (a goal naming the parent cluster, the member
  texts in order, no example descriptions) to
  `{data_path}/subcluster_{index}/data.json`, creates the child's data and run
  directories, and collects one launch command per index.

Files:

- `wrappers.dfy`: `Option`, `Outcome` and the Python errors the model raises.
- `paths.dfy`: `os.path.join` on POSIX and the decimal text of an integer,
  with the lemmas that make artifact paths unique.
- `selection.dfy`: `Counter` counts, order-preserving comprehensions,
  `random.sample` as a choice of distinct positions.
- `recorder.dfy`: the recorder class, the select-stage masking and mapping,
  and the cluster summary.
- `subcluster.dfy`: the cluster menu and the extraction loop.

The file system is a `map` from path to artifact held by the recorder (or
returned by the decomposition loop), so writing an existing path replaces its
content. Directories are a `set` of paths.

Behaviours of the code worth knowing, all modelled as written:

- **The unmatched share.** The summary header prints the unmatched share as
  `count / n` followed by a `%` sign, without the factor 100 (one unmatched
  text in five prints `0.20%`). The division has no guard for `n == 0`: with
  an empty population the report stops after its title line with a
  `ZeroDivisionError`, although the per-description percentages are guarded
  to 0.
- **The operator menu.** The menu lists only the described clusters, not the
  unmatched bucket.
- **Negative indices.** A negative chosen index such as `-1` passes Python's
  list indexing. It takes the last description as the goal's context, but it
  collects the texts predicted `-1`, that is the unmatched texts.
- **Report and chart.** The report and the chart are written one after the
  other in a single call. A failure in the report stops the chart.

## Model

| member | source | states |
|---|---|---|
| Recorder.ExperimentRecorder.constructor | experiment_recorder.py:11-17 | a new recorder keeps the problem and ground truth, has no output directory, iteration 0, and has made no directory or file |
| Recorder.ExperimentRecorder.SetOutputDir | experiment_recorder.py:195-199 | sets the output directory and creates the current iteration's directory under it, nothing else |
| Recorder.ExperimentRecorder.NextIteration | experiment_recorder.py:189-193 | the counter rises by one in every case; without an output directory the call fails with no directory made, otherwise the new iteration's directory is created |
| Recorder.ExperimentRecorder.RecordPropose | experiment_recorder.py:19-29 | without an output directory it fails and writes nothing; otherwise exactly one file changes: `{name}.json` of the current iteration now holds the descriptions |
| Recorder.ExperimentRecorder.RecordAssign | experiment_recorder.py:31-58 | same failure case; otherwise only `{name}.json` changes and holds the descriptions and the matching matrix |
| Recorder.ExperimentRecorder.RecordSelect | experiment_recorder.py:60-137 | a ground-truth label list whose length differs from the predictions fails (boolean mask) with no file written; otherwise the results file (only with ground truth, computed on the matched texts), then `{name}.json`, then the summary files are written in that order, the summary is `SummaryOf` the inputs and the outcome is the summary's |
| Recorder.ExperimentRecorder.GenerateClusterSummary | experiment_recorder.py:141-187 | the cluster entries satisfy `SummaryOf`; with no output directory nothing is written; with an empty population the report holds only its title and the call fails with a division by zero; otherwise the report carries the header (unmatched count, `count / n`, `n`) and the entries, and the chart gets the percentages labelled by the descriptions |
| Recorder.SummarizeClusters | experiment_recorder.py:151-163 | one entry per description, in order, with its text, its `Counter` count, its percentage of the population, and `min(3, count)` examples that form a sub-multiset of that cluster's texts |
| Paths.Join | experiment_recorder.py:20-23 | reference definition of `os.path.join(a, b)` on POSIX: an absolute `b` replaces `a`; otherwise one `/` is put between them unless `a` is empty or already ends with `/` |
| Recorder.IterationDir | experiment_recorder.py:191-192 | reference definition of `{output_dir}/iteration-{iteration}` |
| Recorder.ArtifactPath | experiment_recorder.py:20-23 | reference definition of a file's path inside an iteration directory; its uniqueness is `ArtifactPathKeyed` |
| Recorder.StageFile | experiment_recorder.py:21 | reference definition of `{name}.json` |
| Recorder.ResultsFile | experiment_recorder.py:108 | reference definition of `{name}_results.json` |
| Recorder.InfoFile | experiment_recorder.py:165 | reference definition of `{name}_cluster_info.txt` |
| Recorder.ArtifactPathKeyed | experiment_recorder.py:20-23 | two artifact path strings are equal only for the same iteration and the same file name; for stage names that are plain file names (no `/`), iterations never overwrite each other |
| Recorder.ResultsShadowedByStage | experiment_recorder.py:106-128 | the results file of stage `x` is the stage file of a stage named `x_results`, so the later write replaces the earlier |
| Recorder.Percent | experiment_recorder.py:153 | a zero population gives 0; a count within the population gives a value in [0, 100] |
| Recorder.UnmatchedShare | experiment_recorder.py:169 | the printed share is one hundredth of the unmatched percentage and lies in [0, 1] |
| Recorder.MatchedPositions | experiment_recorder.py:69 | reference definition of the positions the mask `~(cluster_predictions == -1)` keeps |
| Recorder.MaskedPredictions | experiment_recorder.py:76 | reference definition of `cluster_predictions[~unmatched_text_indices]`; its properties are `MaskingExact` and `MaskKeepsCount` |
| Recorder.MaskedLabels | experiment_recorder.py:75 | reference definition of `labels[~unmatched_text_indices]`; its properties are `MaskingExact` |
| Recorder.MaskingExact | experiment_recorder.py:69-76 | the masked labels and predictions stay parallel, have `n - num_unmatched` entries, keep order, contain no `-1`, and keep every other prediction's count |
| Recorder.MaskKeepsCount | experiment_recorder.py:75-76 | masking keeps the number of occurrences of every prediction other than `-1` |
| Recorder.MaskSnoc | experiment_recorder.py:69-76 | masking one more prediction appends it exactly when it is not `-1` |
| Recorder.MappedFor | experiment_recorder.py:93-97 | reference definition of list `i` of `mapped_descriptions` |
| Recorder.MappedDescriptions | experiment_recorder.py:90-98 | reference definition of `mapped_descriptions`, one list per true class; the loop is `BuildMappedDescriptions` |
| Recorder.Results | experiment_recorder.py:106-123 | reference definition of the results artifact: metrics and label mapping computed on the masked labels and predictions, the mapped descriptions, and the count of `-1` predictions |
| Recorder.MappedPositions | experiment_recorder.py:91-98 | a description position is listed for true class `i` exactly when the mapping sends it to `i`; the list is increasing and in range |
| Recorder.BuildMappedDescriptions | experiment_recorder.py:90-98 | the loop produces one list per true class, list `i` holding the descriptions mapped to `i` in their order |
| Recorder.MappedListsDisjoint | experiment_recorder.py:93-97 | no description position appears in the lists of two classes |
| Recorder.InjectiveMappingSingletons | experiment_recorder.py:86-98 | under an injective mapping every true class gets at most one description |
| Recorder.MappedTotal | experiment_recorder.py:90-98 | the mapped lists and the unmapped descriptions together never exceed the number of descriptions |
| Recorder.MappedSumIsCountSum | experiment_recorder.py:90-98 | the total length of the mapped lists equals the number of positions mapped into a true class |
| Recorder.PercentAdd | experiment_recorder.py:153 | percentages of disjoint counts add up |
| Recorder.PercentSum | experiment_recorder.py:151-157 | the sum of the per-description percentages is the percentage of the described texts |
| Recorder.Percentages | experiment_recorder.py:157 | reference definition of `cluster_percentage`, the chart's values |
| Recorder.SummaryPercentagesAre | experiment_recorder.py:157-161 | the chart's values are the summary's per-description percentages |
| Recorder.SummaryPercentagesTotal | experiment_recorder.py:151-169 | the summary's percentages total at most 100; with one prediction per text, all in `-1 .. k-1`, they plus 100 times the unmatched share total exactly 100 |
| Recorder.PercentagesTotal | experiment_recorder.py:151-169 | the same totals for any list of bucket percentages |
| Recorder.PercentWhole | experiment_recorder.py:153 | the whole population is 100 percent |
| Recorder.FiveTextCounts | experiment_recorder.py:144 | predictions `[0, 0, -1, 1, 1]` count 2, 2 and 1 unmatched |
| Recorder.FiveTextSummary | experiment_recorder.py:151-169 | for five texts with predictions `[0, 0, -1, 1, 1]` each cluster has count 2, 40 percent and two examples, and the unmatched share is 0.2 |
| Selection.Count | experiment_recorder.py:144 | a `Counter` count never exceeds the length |
| Selection.Positions | experiment_recorder.py:154 | the positions whose value equals (or differs from) `v`: in range, strictly increasing, complete, and as many as the count says |
| Selection.Members | experiment_recorder.py:154 | a cluster's member texts: as many as its count, in prediction order |
| Selection.CountsPartition | experiment_recorder.py:62-65 | the described buckets plus the unmatched bucket hold at most all predictions, and exactly all when every prediction is in `-1 .. k-1` |
| Selection.CountSnoc | experiment_recorder.py:144 | appending a prediction raises only its own count, by one |
| Selection.CountSumSnoc | experiment_recorder.py:144 | appending a prediction raises the described total exactly when it is a described index |
| Selection.CountSumEmpty | experiment_recorder.py:144 | no predictions means no described texts |
| Selection.Sample | experiment_recorder.py:155 | a draw of `k` distinct positions out of `m`, one unused position at a time |
| Selection.UndrawnExists | experiment_recorder.py:155 | fewer than `m` distinct positions below `m` always leave one undrawn, so each draw of the sample succeeds |
| Selection.GatherDistinctSubmultiset | experiment_recorder.py:155 | values at distinct positions are a sub-multiset of the whole: a sample without replacement repeats no text more often than it occurs |
| Selection.MapSeq | sub_cluster.py:63 | one result per input, in order |
| Paths.NatToString | experiment_recorder.py:21 | the decimal text of a natural number is non-empty and all digits |
| Paths.IntToString | sub_cluster.py:46 | the text of an int has no slash and starts with `-` exactly for a negative |
| Paths.NatToStringInjective | experiment_recorder.py:21 | distinct iterations have distinct directory names |
| Paths.IntToStringInjective | sub_cluster.py:46 | distinct cluster indices, negatives included, have distinct names |
| Paths.JoinBelow | experiment_recorder.py:21 | joining a file below a joined directory puts exactly one slash between them |
| Paths.ComponentDetermined | experiment_recorder.py:21 | a slash-free path component is determined by the path |
| Paths.NestedJoinKeyed | sub_cluster.py:49 | a file path below `dir/{prefix}{x}` determines `x` and the file name |
| Paths.JoinKeyed | sub_cluster.py:53 | a directory path `dir/{prefix}{x}` determines `x` |
| SubCluster.TruncatedPercent | sub_cluster.py:18 | the menu percentage is in [0, 100], and is 100 for a cluster holding every prediction |
| SubCluster.ShowClusters | sub_cluster.py:16-19 | one menu line per description with its index, text and truncated percentage; with no predictions and at least one description the menu fails on the first line with a division by zero |
| SubCluster.PyIndex | sub_cluster.py:41 | Python list indexing succeeds exactly for indices in `[-len, len)` and agrees with plain indexing on non-negative ones |
| SubCluster.IndicesToExtract | sub_cluster.py:35 | exactly the positions predicted `index`, increasing, as many as its count |
| SubCluster.Goal | sub_cluster.py:40-41 | the goal is the fixed instruction followed by the parent description |
| SubCluster.SubProblemFor | sub_cluster.py:35-44 | the sub-problem exists exactly when the description index is valid; it holds the goal for that description, no example descriptions, and the member texts in order |
| SubCluster.SecondClusterCount | sub_cluster.py:35 | predictions `[0, 0, 1, 1, 2]` hold cluster 1 twice |
| SubCluster.SecondClusterTexts | sub_cluster.py:35-36 | for predictions `[0, 0, 1, 1, 2]` the sub-problem of cluster 1 holds the third and fourth texts |
| SubCluster.SubclusterNameShape | sub_cluster.py:46 | `subcluster_{index}` is a single relative path component |
| SubCluster.SubsetDir | sub_cluster.py:46 | reference definition of `subset_dir_path`, `{data_path}/subcluster_{index}` |
| SubCluster.SubsetDataPath | sub_cluster.py:49 | reference definition of `subset_data_path`, `{subset_dir_path}/data.json` |
| SubCluster.ExpDir | sub_cluster.py:53 | reference definition of `new_exp_dir`, `{run_dir}/subcluster_{index}` |
| SubCluster.LaunchFor | sub_cluster.py:57-58 | reference definition of the two directories a command names for an index |
| SubCluster.CommandLine | sub_cluster.py:57-61 | reference definition of the command text: the fixed configuration with the data and run directories filled in |
| SubCluster.DataPathKeyed | sub_cluster.py:46-50 | distinct indices write distinct sub-problem files |
| SubCluster.ExpDirKeyed | sub_cluster.py:53-54 | distinct indices get distinct child run directories |
| SubCluster.Handled | sub_cluster.py:34-41 | the loop handles the chosen indices up to the first invalid one |
| SubCluster.Commands | sub_cluster.py:56-63 | one launch per chosen index, in order, with that index's data and run directories |
| SubCluster.Written | sub_cluster.py:49-51 | reference definition of the sub-problem files after handling the chosen indices in order, each write replacing its path's content; its properties are `WrittenFiles`, `WrittenHolds` and `RepeatedIndex` |
| SubCluster.MadeDirs | sub_cluster.py:46-54 | reference definition of the directories `os.makedirs` creates, two per handled index; what it is, is `MadeDirsAre` |
| SubCluster.MadeDirsAre | sub_cluster.py:46-54 | the directories made are exactly the data directories plus the run directories of the chosen indices |
| SubCluster.DataDirsSnoc | sub_cluster.py:46-47 | one more index adds exactly its data directory |
| SubCluster.RunDirsSnoc | sub_cluster.py:53-54 | one more index adds exactly its run directory |
| SubCluster.WrittenStep | sub_cluster.py:49-51 | one more handled index adds or replaces exactly its own file |
| SubCluster.Decompose | sub_cluster.py:34-63 | files and directories are those of the indices handled before the first invalid one; the run fails exactly when some index is invalid, and then outputs no command; otherwise it outputs one launch per chosen index in order |
| SubCluster.HandledStopsAt | sub_cluster.py:34-41 | an invalid index after valid ones stops the loop right there |
| SubCluster.HandledAll | sub_cluster.py:34-41 | with all indices valid, the loop handles all of them |
| SubCluster.IndexableInit | sub_cluster.py:34-41 | a prefix of valid indices is valid |
| SubCluster.WrittenFiles | sub_cluster.py:49-51 | the written files are exactly the data files of the chosen indices |
| SubCluster.WrittenHolds | sub_cluster.py:49-51 | each chosen index's file holds that index's sub-problem at the end, whatever came after it |
| SubCluster.OtherFileKept | sub_cluster.py:49-51 | writing one index's file leaves every other index's file unchanged |
| SubCluster.RepeatedIndex | sub_cluster.py:46-54 | choosing an index twice in a row leaves the same files as choosing it once |
| SubCluster.MinusOneSelectsUnmatched | sub_cluster.py:35-41 | index `-1` is accepted: its goal names the last description but its texts are the unmatched ones |

## Left out

- File contents are modelled as values, not serialised: JSON encoding, text formatting of the report (`:.2f`, dashes, bullets) and PNG rendering are not modelled.
- The chart is reduced to its data (percentages and labels); `plt.figure`, `plt.pie`, `plt.savefig` and the blocking `plt.show` are not modelled.
- Console output (`print`) in every stage and the final printing of the commands are left out; the commands are returned instead of printed. `Decompose` returns launches (data and run directory); `CommandLine` renders one as the fixed command text, which is not reasoned about.
- `get_descriptions_performance` only feeds console output and is not modelled. `get_cluster_performance` and `assign_labels` are opaque functions passed to `RecordSelect`; their internals belong to another file and are not part of this model.
- The interactive parts of the decomposition tool (`input`, parsing the chosen indices with `int`, reading `final.json`, `args.json` and `data.json`) are inputs to `Decompose` and `ShowClusters`; a malformed index string, a missing file or key, and the `'../args.json'` lookup are not modelled.
- `random.sample` is modelled as an unspecified choice of distinct positions; which texts are drawn is not modelled.
- Reals stand for Python floats: rounding is not modelled.
- SubCluster.TruncatedPercent: computes `int((count / total) * 100)` on exact reals; with floats, some exact percentages land just below the integer and truncate one lower (29 of 100 gives 28).
- Recorder.Percent: exact real arithmetic; float rounding of `count / n * 100` is not modelled.
- Recorder.ExperimentRecorder.GenerateClusterSummary: requires at most one prediction per text; the source raises `IndexError` only when a prediction beyond the last text names a described cluster.
- Recorder.ExperimentRecorder.RecordSelect: the same requirement, since it ends by calling the summary.
- Recorder.SummarizeClusters: the same requirement.
- SubCluster.SubProblemFor: requires at most one prediction per text; the source raises `IndexError` only when a position beyond the last text is extracted.
- SubCluster.Decompose: the same requirement.
- Recorder.ExperimentRecorder.SetOutputDir: takes a string; calling `set_output_dir(None)` (which raises at the join) is not modelled.
- The recorder keeps only the problem's texts; the rest of the problem object is not read by the modelled code.
- Predictions are assumed to be a numpy array, as the `.tolist()` call implies; a plain list would make `cluster_predictions == -1` a single boolean, which is not modelled.
- Recorder.ArtifactPathKeyed: paths are compared as strings, not resolved against the file system. The lemma excludes names that start with `/` (an absolute name would discard the iteration directory in `os.path.join`). Its conclusion about iterations holds on disk only for stage names that are plain file names with no `/`: a name like `../iteration-0/propose` reaches another iteration's file on disk but is a different key in the model.
- Failures of `open` and `os.makedirs` are not modelled: every write in the model succeeds. A stage name with a `/` whose directory was never created, or a permission error, would raise in the source.
- Parent directories are not tracked: the directory set holds the paths passed to `os.makedirs`, not the missing parents it also creates (such as a new output directory in `set_output_dir`).
