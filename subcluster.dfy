/** The decomposition tool: from a finished run's descriptions and cluster
    predictions, carve out the texts of each chosen cluster, write a
    sub-problem for them under `{data_path}/subcluster_{index}/data.json`,
    and produce the command that launches a child run into
    `{run_dir}/subcluster_{index}`. */
module SubCluster {
  import opened Wrappers
  import opened Paths
  import opened Selection

  /** The sub-problem file: `{goal, texts, example_descriptions}`. */
  datatype SubProblem = SubProblem(goal: string, texts: seq<string>, exampleDescriptions: seq<string>)

  /** One line of the cluster menu shown to the operator. */
  datatype MenuLine = MenuLine(index: nat, description: string, percentage: int)

  // ---------------------------------------------------------------------------
  // The cluster menu

  /** `int((count / total) * 100)`: the percentage truncated toward zero. */
  function TruncatedPercent(count: nat, total: nat): (p: int)
    requires total != 0
    ensures count <= total ==> 0 <= p <= 100
    ensures count == total ==> p == 100
  {
    var q := count as real / total as real;
    assert q * total as real == count as real;
    (q * 100.0).Floor
  }

  /** The loop that shows each description with its share of the
      predictions. Dividing by an empty prediction list fails on the first
      description, before anything is shown. */
  method ShowClusters(descs: seq<string>, assignments: seq<int>) returns (o: Outcome<Error>, lines: seq<MenuLine>)
    ensures o.Fail? <==> |assignments| == 0 && |descs| > 0
    ensures o.Fail? ==> o.error == ZeroDivision && lines == []
    ensures o.Pass? ==> |lines| == |descs|
    ensures o.Pass? ==> forall i :: 0 <= i < |lines| ==>
      lines[i].index == i && lines[i].description == descs[i] &&
      lines[i].percentage == TruncatedPercent(Count(assignments, i), |assignments|) &&
      0 <= lines[i].percentage <= 100
  {
    lines := [];
    var i := 0;
    while i < |descs|
      invariant 0 <= i <= |descs|
      invariant |lines| == i
      invariant i > 0 ==> |assignments| != 0
      invariant forall c :: 0 <= c < i ==>
        lines[c].index == c && lines[c].description == descs[c] &&
        lines[c].percentage == TruncatedPercent(Count(assignments, c), |assignments|) &&
        0 <= lines[c].percentage <= 100
    {
      if |assignments| == 0 {
        return Fail(ZeroDivision), [];
      }
      lines := lines + [MenuLine(i, descs[i], TruncatedPercent(Count(assignments, i), |assignments|))];
      i := i + 1;
    }
    o := Pass;
  }

  // ---------------------------------------------------------------------------
  // Extraction

  /** `descriptions[index]` with Python's list indexing: a negative index
      counts from the end; anything outside `[-len, len)` raises. */
  function PyIndex<T>(xs: seq<T>, index: int): (r: Option<T>)
    ensures r.Some? <==> -|xs| <= index < |xs|
    ensures 0 <= index < |xs| ==> r == Some(xs[index])
  {
    if 0 <= index < |xs| then Some(xs[index])
    else if -|xs| <= index < 0 then Some(xs[|xs| + index])
    else None
  }

  /** `indices_to_extract`: every position predicted `index`, in order. */
  function IndicesToExtract(assignments: seq<int>, index: int): (ps: seq<nat>)
    ensures forall j :: 0 <= j < |assignments| ==> (j in ps <==> assignments[j] == index)
    ensures forall a, b :: 0 <= a < b < |ps| ==> ps[a] < ps[b]
    ensures InRange(ps, |assignments|)
    ensures |ps| == Count(assignments, index)
  {
    Positions(assignments, index, true)
  }

  const GoalPrefix: string :=
    "I would like to cluster them based on topics; each cluster should have a description of '<topic>'. "
    + "            Keep in mind that all these texts are already part of a broader cluster of: "

  /** The child's goal: a fixed instruction that ends with the parent
      cluster's description. */
  function Goal(description: string): (g: string)
    ensures |g| == |GoalPrefix| + |description|
    ensures g[..|GoalPrefix|] == GoalPrefix && g[|GoalPrefix|..] == description
  {
    GoalPrefix + description
  }

  /** The sub-problem written for one chosen index, or `None` when
      `descriptions[index]` raises. */
  function SubProblemFor(descs: seq<string>, assignments: seq<int>, texts: seq<string>, index: int): (r: Option<SubProblem>)
    requires |assignments| <= |texts|
    ensures r.Some? <==> PyIndex(descs, index).Some?
    ensures r.Some? ==>
      && r.value.goal == Goal(PyIndex(descs, index).value)
      && r.value.exampleDescriptions == []
      && |r.value.texts| == Count(assignments, index)
      && forall k :: 0 <= k < |r.value.texts| ==>
           r.value.texts[k] == texts[IndicesToExtract(assignments, index)[k]]
  {
    match PyIndex(descs, index)
    case None => None
    case Some(d) => Some(SubProblem(Goal(d), Gather(texts, IndicesToExtract(assignments, index)), []))
  }

  /** Predictions `[0, 0, 1, 1, 2]`, index 1: the sub-problem holds the third
      and fourth texts, in order. */
  lemma SecondClusterTexts(descs: seq<string>, texts: seq<string>)
    requires |descs| == 3 && |texts| == 5
    ensures SubProblemFor(descs, [0, 0, 1, 1, 2], texts, 1).Some?
    ensures SubProblemFor(descs, [0, 0, 1, 1, 2], texts, 1).value.texts == [texts[2], texts[3]]
  {
    var preds := [0, 0, 1, 1, 2];
    SecondClusterCount();
    var ps := IndicesToExtract(preds, 1);
    assert 2 in ps && 3 in ps;
    assert ps == [2, 3];
  }

  lemma SecondClusterCount()
    ensures Count([0, 0, 1, 1, 2], 1) == 2
  {
    var preds := [0, 0, 1, 1, 2];
    assert preds[..4] == [0, 0, 1, 1];
    assert preds[..4][..3] == [0, 0, 1];
    assert preds[..4][..3][..2] == [0, 0];
    assert preds[..4][..3][..2][..1] == [0];
    assert Count([0], 1) == 0 && Count([0, 0], 1) == 0 && Count([0, 0, 1], 1) == 1;
    assert Count([0, 0, 1, 1], 1) == 2;
  }

  // ---------------------------------------------------------------------------
  // Locations and commands

  function SubclusterName(index: int): string {
    "subcluster_" + IntToString(index)
  }

  /** `subset_dir_path`: the child's data directory. */
  function SubsetDir(dataRoot: string, index: int): string {
    Join(dataRoot, SubclusterName(index))
  }

  /** `subset_data_path`: the child's sub-problem file. */
  function SubsetDataPath(dataRoot: string, index: int): string {
    Join(SubsetDir(dataRoot, index), "data.json")
  }

  /** `new_exp_dir`: the child's run directory. */
  function ExpDir(runDir: string, index: int): string {
    Join(runDir, SubclusterName(index))
  }

  const CommandHead: string := "CUDA_VISIBLE_DEVICES=2 python src/iterative_cluster.py --data_path "
  const CommandTail: string :=
    " --proposer_model gpt-4 --assigner_name google/flan-t5-xl "
    + "--proposer_num_descriptions_to_propose 20 --assigner_for_final_assignment_template templates/t5_multi_assigner_one_output.txt "
    + "--cluster_num_clusters 5 --cluster_overlap_penalty 0.2 --cluster_not_cover_penalty 1.0 "
    + "--iterative_max_rounds 1 --verbose"

  /** The launch of one child run: its data directory and its run
      directory; everything else on the command line is the parent's fixed
      configuration. */
  datatype Launch = Launch(dataPath: string, expDir: string)

  function LaunchFor(dataRoot: string, runDir: string, index: int): Launch {
    Launch(SubsetDir(dataRoot, index), ExpDir(runDir, index))
  }

  /** The command line a launch is printed as. */
  function CommandLine(l: Launch): string {
    CommandHead + l.dataPath + " --exp_dir " + l.expDir + CommandTail
  }

  lemma SubclusterNameShape(index: int)
    ensures NoSlash(SubclusterName(index))
    ensures !StartsWithSlash(SubclusterName(index))
    ensures SubclusterName(index)[|SubclusterName(index)| - 1] != '/'
  {
    var s := IntToString(index);
    assert SubclusterName(index)[|SubclusterName(index)| - 1] == s[|s| - 1];
  }

  /** Distinct indices get distinct sub-problem files. */
  lemma DataPathKeyed(dataRoot: string, i: int, j: int)
    requires SubsetDataPath(dataRoot, i) == SubsetDataPath(dataRoot, j)
    ensures i == j
  {
    NestedJoinKeyed(dataRoot, "subcluster_", IntToString(i), IntToString(j), "data.json", "data.json");
    IntToStringInjective(i, j);
  }

  /** Distinct indices get distinct child run directories. */
  lemma ExpDirKeyed(runDir: string, i: int, j: int)
    requires ExpDir(runDir, i) == ExpDir(runDir, j)
    ensures i == j
  {
    JoinKeyed(runDir, "subcluster_", IntToString(i), IntToString(j));
    IntToStringInjective(i, j);
  }

  // ---------------------------------------------------------------------------
  // The driver loop

  predicate AllIndexable(descs: seq<string>, chosen: seq<int>) {
    forall t :: 0 <= t < |chosen| ==> PyIndex(descs, chosen[t]).Some?
  }

  /** How many chosen indices are handled before one raises: the position of
      the first index outside `[-len, len)`, or all of them. */
  function Handled(descs: seq<string>, chosen: seq<int>): (h: nat)
    ensures h <= |chosen|
    ensures AllIndexable(descs, chosen[..h])
    ensures h < |chosen| ==> PyIndex(descs, chosen[h]).None?
  {
    if chosen == [] then 0
    else if PyIndex(descs, chosen[0]).None? then 0
    else
      var h := 1 + Handled(descs, chosen[1..]);
      assert forall t :: 1 <= t < h ==> chosen[..h][t] == chosen[1..][..h - 1][t - 1];
      h
  }

  /** The sub-problem files after handling `chosen` in order: each write
      replaces whatever its path held. */
  function Written(descs: seq<string>, assignments: seq<int>, texts: seq<string>,
                   dataRoot: string, chosen: seq<int>): map<string, SubProblem>
    requires |assignments| <= |texts|
    requires AllIndexable(descs, chosen)
  {
    if chosen == [] then map[]
    else
      var init, index := chosen[..|chosen| - 1], chosen[|chosen| - 1];
      Written(descs, assignments, texts, dataRoot, init)
        [SubsetDataPath(dataRoot, index) := SubProblemFor(descs, assignments, texts, index).value]
  }

  /** The launches collected for `chosen`: one per entry, in the order
      entered. */
  function Commands(dataRoot: string, runDir: string, chosen: seq<int>): (cs: seq<Launch>)
    ensures |cs| == |chosen|
    ensures forall t :: 0 <= t < |chosen| ==> cs[t] == LaunchFor(dataRoot, runDir, chosen[t])
  {
    MapSeq(i => LaunchFor(dataRoot, runDir, i), chosen)
  }

  lemma WrittenStep(descs: seq<string>, assignments: seq<int>, texts: seq<string>,
                    dataRoot: string, chosen: seq<int>, index: int)
    requires |assignments| <= |texts|
    requires AllIndexable(descs, chosen) && PyIndex(descs, index).Some?
    ensures AllIndexable(descs, chosen + [index])
    ensures Written(descs, assignments, texts, dataRoot, chosen + [index])
         == Written(descs, assignments, texts, dataRoot, chosen)
              [SubsetDataPath(dataRoot, index) := SubProblemFor(descs, assignments, texts, index).value]
  {
    assert (chosen + [index])[..|chosen|] == chosen;
  }

  /** The directories `os.makedirs` creates for `chosen`. */
  function MadeDirs(dataRoot: string, runDir: string, chosen: seq<int>): set<string> {
    if chosen == [] then {}
    else
      var index := chosen[|chosen| - 1];
      MadeDirs(dataRoot, runDir, chosen[..|chosen| - 1]) + {SubsetDir(dataRoot, index), ExpDir(runDir, index)}
  }

  /** The directories made are exactly the data and run directories of the
      chosen indices. */
  lemma {:induction false} MadeDirsAre(dataRoot: string, runDir: string, chosen: seq<int>)
    ensures MadeDirs(dataRoot, runDir, chosen)
         == (set i | i in chosen :: SubsetDir(dataRoot, i)) + (set i | i in chosen :: ExpDir(runDir, i))
  {
    if chosen != [] {
      var init, last := chosen[..|chosen| - 1], chosen[|chosen| - 1];
      assert chosen == init + [last];
      MadeDirsAre(dataRoot, runDir, init);
      DataDirsSnoc(dataRoot, init, last);
      RunDirsSnoc(runDir, init, last);
    }
  }

  lemma DataDirsSnoc(dataRoot: string, init: seq<int>, last: int)
    ensures (set i | i in init + [last] :: SubsetDir(dataRoot, i))
         == (set i | i in init :: SubsetDir(dataRoot, i)) + {SubsetDir(dataRoot, last)}
  {
  }

  lemma RunDirsSnoc(runDir: string, init: seq<int>, last: int)
    ensures (set i | i in init + [last] :: ExpDir(runDir, i))
         == (set i | i in init :: ExpDir(runDir, i)) + {ExpDir(runDir, last)}
  {
  }

  /** The body of the script after the operator's choice: for each chosen
      index in order, write its sub-problem, create its two directories and
      collect its command; the commands are output only if every index was
      handled. An index outside `[-len, len)` stops the script after the
      earlier indices' files and directories were made. */
  method Decompose(descs: seq<string>, assignments: seq<int>, texts: seq<string>,
                   chosen: seq<int>, dataRoot: string, runDir: string)
    returns (o: Outcome<Error>, written: map<string, SubProblem>, dirs: set<string>, commands: seq<Launch>)
    requires |assignments| <= |texts|
    ensures var h := Handled(descs, chosen);
      && written == Written(descs, assignments, texts, dataRoot, chosen[..h])
      && dirs == MadeDirs(dataRoot, runDir, chosen[..h])
    ensures o.Pass? <==> AllIndexable(descs, chosen)
    ensures o.Fail? ==> o.error == IndexOutOfRange && commands == []
    ensures o.Pass? ==> commands == Commands(dataRoot, runDir, chosen)
  {
    written, dirs := map[], {};
    var cmds: seq<Launch> := [];
    var t := 0;
    while t < |chosen|
      invariant 0 <= t <= |chosen|
      invariant AllIndexable(descs, chosen[..t])
      invariant written == Written(descs, assignments, texts, dataRoot, chosen[..t])
      invariant dirs == MadeDirs(dataRoot, runDir, chosen[..t])
      invariant cmds == Commands(dataRoot, runDir, chosen[..t])
    {
      var index := chosen[t];
      var description := PyIndex(descs, index);
      if description.None? {
        HandledStopsAt(descs, chosen, t);
        return Fail(IndexOutOfRange), written, dirs, [];
      }
      TakeSnoc(chosen, t);
      var exportData := SubProblemFor(descs, assignments, texts, index).value;
      var subsetDir := SubsetDir(dataRoot, index);
      dirs := dirs + {subsetDir};
      written := written[SubsetDataPath(dataRoot, index) := exportData];
      WrittenStep(descs, assignments, texts, dataRoot, chosen[..t], index);
      var expDir := ExpDir(runDir, index);
      dirs := dirs + {expDir};
      cmds := cmds + [Launch(subsetDir, expDir)];
      t := t + 1;
    }
    assert chosen[..t] == chosen;
    HandledAll(descs, chosen);
    o, commands := Pass, cmds;
  }

  lemma {:induction false} HandledStopsAt(descs: seq<string>, chosen: seq<int>, t: nat)
    requires t < |chosen| && AllIndexable(descs, chosen[..t]) && PyIndex(descs, chosen[t]).None?
    ensures Handled(descs, chosen) == t
    ensures !AllIndexable(descs, chosen)
  {
    if t > 0 {
      assert PyIndex(descs, chosen[0]).Some? by {
        assert chosen[..t][0] == chosen[0];
      }
      assert chosen[1..][..t - 1] == chosen[..t][1..];
      HandledStopsAt(descs, chosen[1..], t - 1);
    }
  }

  lemma {:induction false} HandledAll(descs: seq<string>, chosen: seq<int>)
    requires AllIndexable(descs, chosen)
    ensures Handled(descs, chosen) == |chosen|
  {
    if chosen != [] {
      HandledAll(descs, chosen[1..]);
    }
  }

  // ---------------------------------------------------------------------------
  // Properties of the written files

  /** After the loop exactly the files of the handled indices exist. */
  lemma {:induction false} WrittenFiles(descs: seq<string>, assignments: seq<int>, texts: seq<string>,
                                        dataRoot: string, chosen: seq<int>)
    requires |assignments| <= |texts| && AllIndexable(descs, chosen)
    ensures Written(descs, assignments, texts, dataRoot, chosen).Keys
         == set index | index in chosen :: SubsetDataPath(dataRoot, index)
  {
    if chosen != [] {
      var init := chosen[..|chosen| - 1];
      assert chosen == init + [chosen[|chosen| - 1]];
      IndexableInit(descs, chosen);
      WrittenFiles(descs, assignments, texts, dataRoot, init);
    }
  }

  /** After the loop the file of every handled index holds that index's
      sub-problem: a later write to another index never lands on it, and a
      repeated index rewrites its own file with the same content. */
  lemma {:induction false} WrittenHolds(descs: seq<string>, assignments: seq<int>, texts: seq<string>,
                                        dataRoot: string, chosen: seq<int>)
    requires |assignments| <= |texts| && AllIndexable(descs, chosen)
    ensures forall index :: index in chosen ==>
      SubsetDataPath(dataRoot, index) in Written(descs, assignments, texts, dataRoot, chosen) &&
      Written(descs, assignments, texts, dataRoot, chosen)[SubsetDataPath(dataRoot, index)]
        == SubProblemFor(descs, assignments, texts, index).value
  {
    if chosen != [] {
      var init, last := chosen[..|chosen| - 1], chosen[|chosen| - 1];
      IndexableInit(descs, chosen);
      WrittenHolds(descs, assignments, texts, dataRoot, init);
      forall index | index in chosen
        ensures SubsetDataPath(dataRoot, index) in Written(descs, assignments, texts, dataRoot, chosen)
        ensures Written(descs, assignments, texts, dataRoot, chosen)[SubsetDataPath(dataRoot, index)]
          == SubProblemFor(descs, assignments, texts, index).value
      {
        if index != last {
          assert index in init by {
            assert chosen == init + [last];
          }
          OtherFileKept(dataRoot, index, last, Written(descs, assignments, texts, dataRoot, init),
                        SubProblemFor(descs, assignments, texts, last).value);
        }
      }
    }
  }

  /** Writing the file of one index leaves the file of any other index as
      it was. */
  lemma OtherFileKept(dataRoot: string, index: int, last: int, files: map<string, SubProblem>, p: SubProblem)
    requires index != last && SubsetDataPath(dataRoot, index) in files
    ensures SubsetDataPath(dataRoot, index) in files[SubsetDataPath(dataRoot, last) := p]
    ensures files[SubsetDataPath(dataRoot, last) := p][SubsetDataPath(dataRoot, index)]
         == files[SubsetDataPath(dataRoot, index)]
  {
    if SubsetDataPath(dataRoot, index) == SubsetDataPath(dataRoot, last) {
      DataPathKeyed(dataRoot, index, last);
    }
  }

  lemma IndexableInit(descs: seq<string>, chosen: seq<int>)
    requires chosen != [] && AllIndexable(descs, chosen)
    ensures AllIndexable(descs, chosen[..|chosen| - 1])
  {
    var init := chosen[..|chosen| - 1];
    forall t | 0 <= t < |init| ensures PyIndex(descs, init[t]).Some? {
      assert init[t] == chosen[t];
    }
  }

  /** Entering an index twice in a row yields two equal commands and leaves
      the same files as entering it once. */
  lemma RepeatedIndex(descs: seq<string>, assignments: seq<int>, texts: seq<string>,
                      dataRoot: string, chosen: seq<int>, index: int)
    requires |assignments| <= |texts| && AllIndexable(descs, chosen + [index])
    ensures AllIndexable(descs, chosen + [index, index])
    ensures Written(descs, assignments, texts, dataRoot, chosen + [index, index])
         == Written(descs, assignments, texts, dataRoot, chosen + [index])
  {
    var once, twice := chosen + [index], chosen + [index, index];
    assert twice[..|twice| - 1] == once;
    assert AllIndexable(descs, twice) by {
      forall t | 0 <= t < |twice| ensures PyIndex(descs, twice[t]).Some? {
        if t < |once| {
          assert twice[t] == once[t];
        } else {
          assert twice[t] == once[|once| - 1];
        }
      }
    }
  }

  /** `index == -1` is accepted by Python's indexing: the sub-problem
      carries the last description as its context but collects the
      unmatched texts. */
  lemma MinusOneSelectsUnmatched(descs: seq<string>, assignments: seq<int>, texts: seq<string>)
    requires |assignments| <= |texts| && |descs| > 0
    ensures SubProblemFor(descs, assignments, texts, -1).Some?
    ensures SubProblemFor(descs, assignments, texts, -1).value.goal == Goal(descs[|descs| - 1])
    ensures |SubProblemFor(descs, assignments, texts, -1).value.texts| == Count(assignments, -1)
  {
  }
}
