/** The run recorder: an `ExperimentRecorder` owns the output directory and
    the iteration counter of one clustering run and writes each stage's
    artifacts under `{output_dir}/iteration-{iteration}/`. Files are an
    abstract map from path to artifact, so a write to an existing path
    replaces what was there. */
module Recorder {
  import opened Wrappers
  import opened Paths
  import opened Selection

  /** The population under clustering; the recorder only reads its texts. */
  datatype Problem = Problem(texts: seq<string>)

  /** Ground truth: a class id per text and a description per class. */
  datatype Label = Label(labels: seq<int>, classDescriptions: seq<string>)

  /** What `get_cluster_performance` returns. */
  datatype Metrics = Metrics(normalizedMutualInfo: real, adjustedRandIndex: real, macroF1: real)

  /** One entry of `cluster_info` in the summary. */
  datatype ClusterInfo = ClusterInfo(description: string, count: nat, percentage: real, examples: seq<string>)

  /** The summary's second line: unmatched count, its printed share and the data size. */
  datatype Header = Header(unmatchedCount: nat, unmatchedShare: real, dataSize: nat)

  /** The content of each file the recorder writes. `ClusterInfoTxt` with no
      header is a report cut short after its title line. */
  datatype Artifact =
    | ProposeJson(descriptions: seq<string>)
    | AssignJson(descriptions: seq<string>, textDescriptionsMatching: seq<seq<real>>)
    | SelectJson(descriptions: seq<string>, clusterPredictions: seq<int>)
    | ResultsJson(metrics: Metrics, mappedDescriptions: seq<seq<string>>, numUnmatchedTextIndices: nat)
    | ClusterInfoTxt(header: Option<Header>, clusters: seq<ClusterInfo>)
    | PlotPng(percentages: seq<real>, labels: seq<string>)

  // ---------------------------------------------------------------------------
  // Artifact paths

  function IterationDir(dir: string, iteration: nat): string {
    Join(dir, "iteration-" + NatToString(iteration))
  }

  function ArtifactPath(dir: string, iteration: nat, file: string): string {
    Join(IterationDir(dir, iteration), file)
  }

  function StageFile(name: string): string { name + ".json" }
  function ResultsFile(name: string): string { name + "_results.json" }
  function InfoFile(name: string): string { name + "_cluster_info.txt" }
  const PlotFile: string := "plot.png"

  /** An artifact path determines its iteration and its file name: two
      iterations of one run never share a file, and within an iteration each
      file name has its own path. */
  lemma ArtifactPathKeyed(dir: string, i: nat, j: nat, f: string, g: string)
    requires !StartsWithSlash(f) && !StartsWithSlash(g)
    requires ArtifactPath(dir, i, f) == ArtifactPath(dir, j, g)
    ensures i == j && f == g
  {
    NatToStringNoSlash(i);
    NatToStringNoSlash(j);
    NestedJoinKeyed(dir, "iteration-", NatToString(i), NatToString(j), f, g);
    NatToStringInjective(i, j);
  }

  /** A stage named `x_results` and the results of a stage named `x` share a
      path: recording the first overwrites the second. */
  lemma ResultsShadowedByStage(name: string)
    ensures StageFile(name + "_results") == ResultsFile(name)
  {
    assert name + "_results" + ".json" == name + "_results.json";
  }

  // ---------------------------------------------------------------------------
  // Select-stage bookkeeping

  /** `(count / n) * 100 if n != 0 else 0`. */
  function Percent(count: nat, n: nat): (p: real)
    ensures n == 0 ==> p == 0.0
    ensures count <= n ==> 0.0 <= p <= 100.0
  {
    if n != 0 then PercentBound(count, n); (count as real / n as real) * 100.0 else 0.0
  }

  lemma PercentBound(count: nat, n: nat)
    requires n != 0
    ensures 0.0 <= (count as real / n as real) * 100.0
    ensures count <= n ==> (count as real / n as real) * 100.0 <= 100.0
  {
    var q := count as real / n as real;
    assert q * (n as real) == count as real;
  }

  /** The unmatched share the summary header prints: `count / n`, with no
      factor 100 although a `%` sign follows it. */
  function UnmatchedShare(count: nat, n: nat): (r: real)
    requires n != 0
    ensures 100.0 * r == Percent(count, n)
    ensures count <= n ==> 0.0 <= r <= 1.0
  {
    count as real / n as real
  }

  /** The positions a numpy mask `cluster_predictions != -1` keeps. */
  function MatchedPositions(preds: seq<int>): seq<nat> {
    Positions(preds, -1, false)
  }

  /** `cluster_predictions[~unmatched_text_indices]`. */
  function MaskedPredictions(preds: seq<int>): seq<int> {
    Gather(preds, MatchedPositions(preds))
  }

  /** `labels[~unmatched_text_indices]`. */
  function MaskedLabels(labels: seq<int>, preds: seq<int>): seq<int>
    requires |labels| == |preds|
  {
    Gather(labels, MatchedPositions(preds))
  }

  /** Masking drops exactly the texts predicted `-1`: the two masked sequences
      stay parallel, have `n - num_unmatched` elements, keep their order, hold
      no `-1` prediction and keep every other prediction as often as before. */
  lemma {:induction false} MaskingExact(labels: seq<int>, preds: seq<int>)
    requires |labels| == |preds|
    ensures |MaskedLabels(labels, preds)| == |MaskedPredictions(preds)| == |preds| - Count(preds, -1)
    ensures forall k :: 0 <= k < |MaskedPredictions(preds)| ==>
      MaskedPredictions(preds)[k] != -1 &&
      MaskedPredictions(preds)[k] == preds[MatchedPositions(preds)[k]] &&
      MaskedLabels(labels, preds)[k] == labels[MatchedPositions(preds)[k]]
    ensures forall v :: v != -1 ==> Count(MaskedPredictions(preds), v) == Count(preds, v)
  {
    forall v | v != -1
      ensures Count(MaskedPredictions(preds), v) == Count(preds, v)
    {
      MaskKeepsCount(preds, v);
    }
  }

  lemma {:induction false} MaskKeepsCount(preds: seq<int>, v: int)
    requires v != -1
    ensures Count(MaskedPredictions(preds), v) == Count(preds, v)
  {
    if preds != [] {
      var init, x := preds[..|preds| - 1], preds[|preds| - 1];
      assert preds == init + [x];
      MaskKeepsCount(init, v);
      CountSnoc(init, x, v);
      MaskSnoc(init, x);
      if x != -1 {
        CountSnoc(MaskedPredictions(init), x, v);
      }
    }
  }

  /** Masking one more prediction appends it unless it is `-1`. */
  lemma MaskSnoc(init: seq<int>, x: int)
    ensures x != -1 ==> MaskedPredictions(init + [x]) == MaskedPredictions(init) + [x]
    ensures x == -1 ==> MaskedPredictions(init + [x]) == MaskedPredictions(init)
  {
    var preds, ps := init + [x], MatchedPositions(init);
    assert preds[..|init|] == init;
    assert Gather(preds, ps) == MaskedPredictions(init);
    if x != -1 {
      assert MatchedPositions(preds) == ps + [|init|];
    }
  }

  /** `mapping.get(p, -1)` for every description position `p`. */
  function MappingKeys(mapping: map<int, int>, k: nat): seq<int> {
    seq(k, p => if p in mapping then mapping[p] else -1)
  }

  /** The description positions mapped to true class `i`, in increasing order:
      exactly those `p` with `mapping.get(p, -1) == i`. */
  function MappedPositions(mapping: map<int, int>, k: nat, i: nat): (ps: seq<nat>)
    ensures forall p :: 0 <= p < k ==> (p in ps <==> p in mapping && mapping[p] == i)
    ensures forall a, b :: 0 <= a < b < |ps| ==> ps[a] < ps[b]
    ensures InRange(ps, k)
  {
    Positions(MappingKeys(mapping, k), i, true)
  }

  /** List `i` of `mapped_descriptions`. */
  function MappedFor(descs: seq<string>, mapping: map<int, int>, i: nat): seq<string> {
    Gather(descs, MappedPositions(mapping, |descs|, i))
  }

  /** `mapped_descriptions`: one list per true class. */
  function MappedDescriptions(descs: seq<string>, mapping: map<int, int>, numClasses: nat): seq<seq<string>> {
    seq(numClasses, i requires 0 <= i < numClasses => MappedFor(descs, mapping, i))
  }

  /** The loop that appends one list per true class (the results artifact's
      `mapped_descriptions`). */
  method BuildMappedDescriptions(descs: seq<string>, mapping: map<int, int>, numClasses: nat)
    returns (mapped: seq<seq<string>>)
    ensures mapped == MappedDescriptions(descs, mapping, numClasses)
  {
    mapped := [];
    var i := 0;
    while i < numClasses
      invariant 0 <= i <= numClasses
      invariant |mapped| == i
      invariant forall c :: 0 <= c < i ==> mapped[c] == MappedFor(descs, mapping, c)
    {
      mapped := mapped + [MappedFor(descs, mapping, i)];
      i := i + 1;
    }
  }

  /** No description position lands in two lists. */
  lemma MappedListsDisjoint(mapping: map<int, int>, k: nat, i: nat, j: nat, p: nat)
    requires i != j && p < k
    ensures !(p in MappedPositions(mapping, k, i) && p in MappedPositions(mapping, k, j))
  {
  }

  predicate InjectiveOn(mapping: map<int, int>, k: nat) {
    forall p, q :: 0 <= p < q < k && p in mapping && q in mapping ==> mapping[p] != mapping[q]
  }

  /** When the predicted-to-true mapping is injective, as an optimal
      assignment is, every true class gets at most one description. */
  lemma InjectiveMappingSingletons(descs: seq<string>, mapping: map<int, int>, i: nat)
    requires InjectiveOn(mapping, |descs|)
    ensures |MappedFor(descs, mapping, i)| <= 1
  {
    var ps := MappedPositions(mapping, |descs|, i);
    FirstTwo(ps);
  }

  lemma FirstTwo(ps: seq<nat>)
    ensures |ps| >= 2 ==> ps[0] in ps && ps[1] in ps
  {
  }

  function SumLengths(lists: seq<seq<string>>): nat {
    if lists == [] then 0 else SumLengths(lists[..|lists| - 1]) + |lists[|lists| - 1]|
  }

  /** The lists hold at most every description once; the unmapped ones
      (`mapping.get(p, -1) == -1`) are in none of them. */
  lemma MappedTotal(descs: seq<string>, mapping: map<int, int>, numClasses: nat)
    ensures SumLengths(MappedDescriptions(descs, mapping, numClasses))
      + Count(MappingKeys(mapping, |descs|), -1) <= |descs|
  {
    var keys := MappingKeys(mapping, |descs|);
    MappedSumIsCountSum(descs, mapping, numClasses);
    CountsPartition(keys, numClasses);
  }

  lemma {:induction false} MappedSumIsCountSum(descs: seq<string>, mapping: map<int, int>, numClasses: nat)
    ensures SumLengths(MappedDescriptions(descs, mapping, numClasses))
      == CountSum(MappingKeys(mapping, |descs|), numClasses)
  {
    if numClasses > 0 {
      var m := MappedDescriptions(descs, mapping, numClasses);
      assert m[..numClasses - 1] == MappedDescriptions(descs, mapping, numClasses - 1);
      MappedSumIsCountSum(descs, mapping, numClasses - 1);
    }
  }

  // ---------------------------------------------------------------------------
  // Cluster summary

  /** `info` is the summary of description `i`: its text, its count, its
      percentage of the `|texts|` population and a sample without replacement
      of `min(3, count)` of its member texts. */
  ghost predicate DescribesCluster(info: ClusterInfo, i: nat, texts: seq<string>, descs: seq<string>, preds: seq<int>)
    requires i < |descs| && |preds| <= |texts|
  {
    var members := Members(texts, preds, i);
    && info.description == descs[i]
    && info.count == Count(preds, i)
    && info.percentage == Percent(info.count, |texts|)
    && |info.examples| == Min(3, |members|)
    && multiset(info.examples) <= multiset(members)
  }

  ghost predicate SummaryOf(infos: seq<ClusterInfo>, texts: seq<string>, descs: seq<string>, preds: seq<int>)
    requires |preds| <= |texts|
  {
    |infos| == |descs| &&
    forall i :: 0 <= i < |descs| ==> DescribesCluster(infos[i], i, texts, descs, preds)
  }

  /** The loop of `generate_cluster_summary` that builds `cluster_info`. */
  method SummarizeClusters(texts: seq<string>, descs: seq<string>, preds: seq<int>)
    returns (infos: seq<ClusterInfo>)
    requires |preds| <= |texts|
    ensures SummaryOf(infos, texts, descs, preds)
  {
    infos := [];
    var i := 0;
    while i < |descs|
      invariant 0 <= i <= |descs|
      invariant |infos| == i
      invariant forall c :: 0 <= c < i ==> DescribesCluster(infos[c], c, texts, descs, preds)
    {
      var count := Count(preds, i);
      var percentage := Percent(count, |texts|);
      var members := Members(texts, preds, i);
      var picks := Sample(|members|, Min(3, |members|));
      var examples := Gather(members, picks);
      GatherDistinctSubmultiset(members, picks);
      infos := infos + [ClusterInfo(descs[i], count, percentage, examples)];
      i := i + 1;
    }
  }

  function Percentages(infos: seq<ClusterInfo>): seq<real> {
    seq(|infos|, i requires 0 <= i < |infos| => infos[i].percentage)
  }

  function SumReals(xs: seq<real>): real {
    if xs == [] then 0.0 else SumReals(xs[..|xs| - 1]) + xs[|xs| - 1]
  }

  lemma PercentAdd(a: nat, b: nat, n: nat)
    requires n != 0
    ensures Percent(a + b, n) == Percent(a, n) + Percent(b, n)
  {
    var r := 1.0 / n as real;
    assert a as real / n as real == a as real * r;
    assert b as real / n as real == b as real * r;
    assert (a + b) as real / n as real == (a + b) as real * r;
  }

  lemma {:induction false} PercentSum(xs: seq<real>, preds: seq<int>, n: nat)
    requires n != 0
    requires forall i :: 0 <= i < |xs| ==> xs[i] == Percent(Count(preds, i), n)
    ensures SumReals(xs) == Percent(CountSum(preds, |xs|), n)
  {
    if xs != [] {
      var k := |xs|;
      PercentSum(xs[..k - 1], preds, n);
      PercentAdd(CountSum(preds, k - 1), Count(preds, k - 1), n);
    }
  }

  /** The per-description percentages never exceed 100 in total; with one
      prediction per text, all of them in `{-1, ..., k-1}`, they and the
      unmatched share (times 100) add up to exactly 100. */
  lemma SummaryPercentagesTotal(infos: seq<ClusterInfo>, texts: seq<string>, descs: seq<string>, preds: seq<int>)
    requires |preds| <= |texts| && |texts| != 0
    requires SummaryOf(infos, texts, descs, preds)
    ensures SumReals(Percentages(infos)) <= 100.0
    ensures |preds| == |texts| && (forall j :: 0 <= j < |preds| ==> -1 <= preds[j] < |descs|) ==>
      SumReals(Percentages(infos)) + 100.0 * UnmatchedShare(Count(preds, -1), |texts|) == 100.0
  {
    SummaryPercentagesAre(infos, texts, descs, preds);
    PercentagesTotal(Percentages(infos), preds, |texts|);
  }

  /** The same totals for any list of bucket percentages `0 .. k-1`. */
  lemma PercentagesTotal(xs: seq<real>, preds: seq<int>, n: nat)
    requires |preds| <= n && n != 0
    requires forall i :: 0 <= i < |xs| ==> xs[i] == Percent(Count(preds, i), n)
    ensures SumReals(xs) <= 100.0
    ensures |preds| == n && (forall j :: 0 <= j < |preds| ==> -1 <= preds[j] < |xs|) ==>
      SumReals(xs) + 100.0 * UnmatchedShare(Count(preds, -1), n) == 100.0
  {
    var cs, u := CountSum(preds, |xs|), Count(preds, -1);
    PercentSum(xs, preds, n);
    CountsPartition(preds, |xs|);
    PercentAdd(cs, u, n);
    if cs + u == n {
      PercentWhole(n);
    }
  }

  /** Five texts, two descriptions, predictions `[0, 0, -1, 1, 1]`: each
      description holds two texts (40%), one text is unmatched (share 0.2),
      and each cluster shows two examples. */
  lemma FiveTextSummary(infos: seq<ClusterInfo>, texts: seq<string>, descs: seq<string>)
    requires |texts| == 5 && |descs| == 2
    requires SummaryOf(infos, texts, descs, [0, 0, -1, 1, 1])
    ensures infos[0].count == 2 && infos[0].percentage == 40.0 && |infos[0].examples| == 2
    ensures infos[1].count == 2 && infos[1].percentage == 40.0 && |infos[1].examples| == 2
    ensures Count([0, 0, -1, 1, 1], -1) == 1 && UnmatchedShare(1, 5) == 0.2
  {
    var preds := [0, 0, -1, 1, 1];
    FiveTextCounts();
    assert DescribesCluster(infos[0], 0, texts, descs, preds);
    assert DescribesCluster(infos[1], 1, texts, descs, preds);
  }

  lemma FiveTextCounts()
    ensures Count([0, 0, -1, 1, 1], 0) == 2
    ensures Count([0, 0, -1, 1, 1], 1) == 2
    ensures Count([0, 0, -1, 1, 1], -1) == 1
  {
    var preds := [0, 0, -1, 1, 1];
    assert preds[..4] == [0, 0, -1, 1];
    assert preds[..4][..3] == [0, 0, -1];
    assert preds[..4][..3][..2] == [0, 0];
    assert preds[..4][..3][..2][..1] == [0];
    assert Count([0], 0) == 1 && Count([0], 1) == 0 && Count([0], -1) == 0;
    assert Count([0, 0], 0) == 2 && Count([0, 0], 1) == 0 && Count([0, 0], -1) == 0;
    assert Count([0, 0, -1], 0) == 2 && Count([0, 0, -1], 1) == 0 && Count([0, 0, -1], -1) == 1;
    assert Count([0, 0, -1, 1], 0) == 2 && Count([0, 0, -1, 1], 1) == 1 && Count([0, 0, -1, 1], -1) == 1;
  }

  lemma PercentWhole(n: nat)
    requires n != 0
    ensures Percent(n, n) == 100.0
  {
    assert n as real / n as real == 1.0;
  }

  lemma SummaryPercentagesAre(infos: seq<ClusterInfo>, texts: seq<string>, descs: seq<string>, preds: seq<int>)
    requires |preds| <= |texts|
    requires SummaryOf(infos, texts, descs, preds)
    ensures forall i :: 0 <= i < |infos| ==> Percentages(infos)[i] == Percent(Count(preds, i), |texts|)
  {
    forall i | 0 <= i < |infos|
      ensures Percentages(infos)[i] == Percent(Count(preds, i), |texts|)
    {
      assert DescribesCluster(infos[i], i, texts, descs, preds);
    }
  }

  // ---------------------------------------------------------------------------
  // The recorder

  class ExperimentRecorder {
    const problem: Problem
    const groundTruth: Option<Label>
    const n: nat := |problem.texts|

    var outputDir: Option<string>
    var iteration: nat
    /** Directories ensured to exist so far: the paths passed to
        `os.makedirs(..., exist_ok=True)`, without the parents it also creates. */
    var dirs: set<string>
    /** Files written so far, keyed by path string (paths are not resolved). */
    var files: map<string, Artifact>

    constructor (problem: Problem, groundTruth: Option<Label>)
      ensures this.problem == problem && this.groundTruth == groundTruth
      ensures outputDir == None && iteration == 0
      ensures dirs == {} && files == map[]
    {
      this.problem := problem;
      this.groundTruth := groundTruth;
      outputDir := None;
      iteration := 0;
      dirs := {};
      files := map[];
    }

    /** The path of `file` in the current iteration's directory. */
    function PathOf(file: string): string
      reads this
      requires outputDir.Some?
    {
      ArtifactPath(outputDir.value, iteration, file)
    }

    method SetOutputDir(dir: string)
      modifies this`outputDir, this`dirs
      ensures outputDir == Some(dir)
      ensures dirs == old(dirs) + {IterationDir(dir, iteration)}
    {
      outputDir := Some(dir);
      dirs := dirs + {IterationDir(dir, iteration)};
    }

    /** The counter rises by one even when the directory cannot be made
        because no output directory is set. */
    method NextIteration() returns (o: Outcome<Error>)
      modifies this`iteration, this`dirs
      ensures iteration == old(iteration) + 1
      ensures outputDir.None? ==> o == Fail(OutputDirNotSet) && dirs == old(dirs)
      ensures outputDir.Some? ==> o == Pass && dirs == old(dirs) + {IterationDir(outputDir.value, iteration)}
    {
      iteration := iteration + 1;
      if outputDir.None? {
        return Fail(OutputDirNotSet);
      }
      dirs := dirs + {IterationDir(outputDir.value, iteration)};
      o := Pass;
    }

    method RecordPropose(descs: seq<string>, name: string) returns (o: Outcome<Error>)
      modifies this`files
      ensures outputDir.None? ==> o == Fail(OutputDirNotSet) && files == old(files)
      ensures outputDir.Some? ==> o == Pass && files == old(files)[PathOf(StageFile(name)) := ProposeJson(descs)]
    {
      if outputDir.None? {
        return Fail(OutputDirNotSet);
      }
      files := files[PathOf(StageFile(name)) := ProposeJson(descs)];
      o := Pass;
    }

    method RecordAssign(descs: seq<string>, matching: seq<seq<real>>, name: string) returns (o: Outcome<Error>)
      modifies this`files
      ensures outputDir.None? ==> o == Fail(OutputDirNotSet) && files == old(files)
      ensures outputDir.Some? ==> o == Pass && files == old(files)[PathOf(StageFile(name)) := AssignJson(descs, matching)]
    {
      if outputDir.None? {
        return Fail(OutputDirNotSet);
      }
      files := files[PathOf(StageFile(name)) := AssignJson(descs, matching)];
      o := Pass;
    }

    /** `generate_cluster_summary`: the report file and the chart. With an
        empty population the report stops after its title line, because the
        unmatched share divides by zero. */
    method GenerateClusterSummary(descs: seq<string>, preds: seq<int>, name: string)
      returns (o: Outcome<Error>, infos: seq<ClusterInfo>)
      requires |preds| <= n
      modifies this`files
      ensures SummaryOf(infos, problem.texts, descs, preds)
      ensures outputDir.None? ==> o == Fail(OutputDirNotSet) && files == old(files)
      ensures outputDir.Some? && n == 0 ==>
        o == Fail(ZeroDivision) && files == old(files)[PathOf(InfoFile(name)) := ClusterInfoTxt(None, [])]
      ensures outputDir.Some? && n != 0 ==>
        var unmatched := Count(preds, -1);
        var header := Header(unmatched, UnmatchedShare(unmatched, n), n);
        o == Pass &&
        files == old(files)[PathOf(InfoFile(name)) := ClusterInfoTxt(Some(header), infos)]
                           [PathOf(PlotFile) := PlotPng(Percentages(infos), descs)]
    {
      infos := SummarizeClusters(problem.texts, descs, preds);
      if outputDir.None? {
        return Fail(OutputDirNotSet), infos;
      }
      var path := PathOf(InfoFile(name));
      if n == 0 {
        files := files[path := ClusterInfoTxt(None, [])];
        return Fail(ZeroDivision), infos;
      }
      var unmatched := Count(preds, -1);
      files := files[path := ClusterInfoTxt(Some(Header(unmatched, UnmatchedShare(unmatched, n), n)), infos)];
      files := files[PathOf(PlotFile) := PlotPng(Percentages(infos), descs)];
      o := Pass;
    }

    /** `record_select`. The metrics and the label assignment are the
        uninterpreted `clusterPerformance` and `assignLabels`, applied to the
        matched texts only. */
    method RecordSelect(descs: seq<string>, preds: seq<int>, name: string,
                        clusterPerformance: (seq<int>, seq<int>) -> Metrics,
                        assignLabels: (seq<int>, seq<int>) -> map<int, int>)
      returns (o: Outcome<Error>, infos: seq<ClusterInfo>)
      requires |preds| <= n
      modifies this`files
      ensures groundTruth.Some? && |groundTruth.value.labels| != |preds| ==>
        o == Fail(MaskLengthMismatch) && files == old(files)
      ensures (groundTruth.None? || |groundTruth.value.labels| == |preds|) && outputDir.None? ==>
        o == Fail(OutputDirNotSet) && files == old(files)
      ensures (groundTruth.None? || |groundTruth.value.labels| == |preds|) && outputDir.Some? ==>
        SummaryOf(infos, problem.texts, descs, preds) &&
        var withResults := if groundTruth.None? then old(files) else
          old(files)[PathOf(ResultsFile(name)) := Results(groundTruth.value, descs, preds, clusterPerformance, assignLabels)];
        var withSelect := withResults[PathOf(StageFile(name)) := SelectJson(descs, preds)];
        var unmatched := Count(preds, -1);
        if n == 0 then
          o == Fail(ZeroDivision) && files == withSelect[PathOf(InfoFile(name)) := ClusterInfoTxt(None, [])]
        else
          o == Pass &&
          files == withSelect[PathOf(InfoFile(name)) := ClusterInfoTxt(Some(Header(unmatched, UnmatchedShare(unmatched, n), n)), infos)]
                             [PathOf(PlotFile) := PlotPng(Percentages(infos), descs)]
    {
      infos := [];
      if groundTruth.Some? {
        var labels := groundTruth.value.labels;
        if |labels| != |preds| {
          return Fail(MaskLengthMismatch), infos;
        }
        var keptLabels := MaskedLabels(labels, preds);
        var keptPreds := MaskedPredictions(preds);
        var metrics := clusterPerformance(keptLabels, keptPreds);
        var mapping := assignLabels(keptLabels, keptPreds);
        var mapped := BuildMappedDescriptions(descs, mapping, |groundTruth.value.classDescriptions|);
        if outputDir.None? {
          return Fail(OutputDirNotSet), infos;
        }
        files := files[PathOf(ResultsFile(name)) := ResultsJson(metrics, mapped, Count(preds, -1))];
      }
      if outputDir.None? {
        return Fail(OutputDirNotSet), infos;
      }
      files := files[PathOf(StageFile(name)) := SelectJson(descs, preds)];
      o, infos := GenerateClusterSummary(descs, preds, name);
    }
  }

  /** The results artifact of a select stage with ground truth. */
  function Results(truth: Label, descs: seq<string>, preds: seq<int>,
                   clusterPerformance: (seq<int>, seq<int>) -> Metrics,
                   assignLabels: (seq<int>, seq<int>) -> map<int, int>): Artifact
    requires |truth.labels| == |preds|
  {
    var keptLabels := MaskedLabels(truth.labels, preds);
    var keptPreds := MaskedPredictions(preds);
    ResultsJson(clusterPerformance(keptLabels, keptPreds),
                MappedDescriptions(descs, assignLabels(keptLabels, keptPreds), |truth.classDescriptions|),
                Count(preds, -1))
  }
}
