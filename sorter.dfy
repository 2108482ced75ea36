/** `ExternalMergeSorter` and the `external_merge_sort` wrapper of
    sorter/external_merge_sort.py.

    The file system is a map from path to bytes.  The sorter's temporary
    work directory is a map from run name to the records of that run: a run
    file is only ever written by `struct.pack` of whole records and read
    back record by record, so it is kept as its records.  `cleanedUp`
    records that the work directory was removed.
 */
module Sorter {
  import opened Records
  import opened Errors
  import opened Codec
  import opened KMerge
  import opened Passes
  import opened RunGeneration
  import AutoConfig

  /** The files of the machine, by path. */
  class FileSystem {
    var files: map<string, seq<u8>>

    constructor (files0: map<string, seq<u8>>)
      ensures files == files0
    {
      files := files0;
    }
  }

  /** How a call of `sort` ends: normally, with an exception, or not at all
      (the pass loop of `multi_pass_merge` never ends when k < 2). */
  datatype SortOutcome = Done | Failed(error: PyError) | Diverges

  /** How `multi_pass_merge` ends. */
  datatype MergeOutcome = Final(name: RunName) | MergeFailed(error: PyError) | MergeDiverges

  /** The defaults of the constructor. */
  const DefaultBlockSize: int := 100
  const DefaultK: int := 5

  /** `[[] for _ in range(k)]`: k empty buckets, none when k is not
      positive. */
  function FreshBuckets(k: int): (bs: seq<seq<RunName>>)
    ensures |bs| == (if k > 0 then k else 0)
    ensures forall b :: 0 <= b < |bs| ==> bs[b] == []
    ensures k > 0 ==> bs == Buckets(0, k)
  {
    if k > 0 then Buckets(0, k) else []
  }

  /** The outcome of `sort` on the given files, as a function of the
      input's chunks: the exception of run generation, the IndexError of
      `current_runs[0]` when no run was generated, divergence when several
      runs meet k < 2, and success otherwise. */
  function SortSpec(files: map<string, seq<u8>>, inputFile: string, blockSize: int, k: int): SortOutcome {
    if inputFile !in files then Failed(FileNotFoundError)
    else
      var cs := ByteChunks(files[inputFile], blockSize);
      match RunGenError(cs, k)
      case Some(e) => Failed(e)
      case None =>
        if cs == [] then Failed(IndexError)
        else if |cs| > 1 && k < 2 then Diverges
        else Done
  }

  /** The records `sort` leaves at the destination. */
  function SortedOutput(data: seq<u8>): seq<u8>
    requires |data| % RecordWidth == 0
  {
    EncodeAll(SortRecords(DecodeAll(data)))
  }

  /** What `multi_pass_merge` does with the work directory and the list it
      flattens from the buckets: it never ends when several runs meet a
      fan-in below 2, fails on `current_runs[0]` when there is no run, and
      otherwise returns the one run its passes leave. */
  function MultiPassSpec(wd: map<RunName, seq<Record>>, current: seq<RunName>, k: int)
    : (r: (MergeOutcome, map<RunName, seq<Record>>))
    requires (forall x :: x in current ==> x in wd) && WrittenBefore(current, 0)
    ensures r.0.Final? ==> r.0.name in r.1
  {
    if |current| > 1 && k < 2 then (MergeDiverges, wd)
    else
      var (wd', left) := MergeAll(wd, current, k, 0);
      if left == [] then (MergeFailed(IndexError), wd') else (Final(left[0]), wd')
  }

  /** On sorted runs that hold the records of an input, the run
      `multi_pass_merge` returns holds those records sorted. */
  lemma MultiPassResult(wd: map<RunName, seq<Record>>, current: seq<RunName>, k: int, records: seq<Record>)
    requires (forall x :: x in current ==> x in wd) && WrittenBefore(current, 0)
    requires AllSorted(Contents(wd, current)) && multiset(Flatten(Contents(wd, current))) == multiset(records)
    ensures var (o, wd') := MultiPassSpec(wd, current, k);
      && (o.MergeDiverges? <==> |current| > 1 && k < 2)
      && (o.MergeFailed? <==> current == [])
      && (o.MergeFailed? ==> o.error == IndexError)
      && (o.Final? ==> wd'[o.name] == SortRecords(records))
  {
    if !(|current| > 1 && k < 2) {
      var (wd', left) := MergeAll(wd, current, k, 0);
      MergeAllSpec(wd, current, k, 0);
      if left != [] {
        var run := wd'[left[0]];
        assert left == [left[0]];
        assert Contents(wd', left) == [run];
        FlattenSingle(run);
        SortedPermutationIsSortRecords(records, run);
      }
    }
  }

  /** After a run generation without exception, the list the merge starts
      from: every generated run once, each sorted, together the records of
      the input. */
  lemma GeneratedForMerge(data: seq<u8>, blockSize: int, k: int, wd0: map<RunName, seq<Record>>)
    requires RunGenError(ByteChunks(data, blockSize), k).None?
    ensures var g := GenerateRunsSpec(data, blockSize, k, wd0);
      var names := Flatten(g.rs);
      && (forall x :: x in names ==> x in g.wd) && WrittenBefore(names, 0)
      && |names| == |ByteChunks(data, blockSize)|
      && (names != [] ==>
            && k > 0 && |data| % RecordWidth == 0
            && AllSorted(Contents(g.wd, names))
            && multiset(Flatten(Contents(g.wd, names))) == multiset(DecodeAll(data)))
  {
    var cs := ByteChunks(data, blockSize);
    var n := RunsWritten(cs, k);
    var g := GenerateRunsSpec(data, blockSize, k, wd0);
    RunGenErrorCases(data, blockSize, k);
    if k > 0 {
      GeneratedNames(n, k);
      var names := Flatten(g.rs);
      var w := WrittenRuns(cs, n);
      if names != [] {
        assert cs != [];
        GeneratedRuns(data, blockSize, k);
        ContentsFrame(w, g.wd, names);
      } else {
        assert forall x :: x in names ==> x in g.wd;
      }
    } else {
      assert Flatten(g.rs) == [];
    }
  }

  /** After run generation without exception, the merge ends the way
      `SortSpec` says, and its final run holds the input's records sorted. */
  lemma MergeAfterGenerate(files: map<string, seq<u8>>, inputFile: string, blockSize: int, k: int,
                           wd0: map<RunName, seq<Record>>)
    requires inputFile in files
    requires RunGenError(ByteChunks(files[inputFile], blockSize), k).None?
    ensures var g := GenerateRunsSpec(files[inputFile], blockSize, k, wd0);
      (forall x :: x in Flatten(g.rs) ==> x in g.wd) && WrittenBefore(Flatten(g.rs), 0)
    ensures var data := files[inputFile];
      var g := GenerateRunsSpec(data, blockSize, k, wd0);
      var spec := SortSpec(files, inputFile, blockSize, k);
      var (o, wd') := MultiPassSpec(g.wd, Flatten(g.rs), k);
      && (o.MergeDiverges? <==> spec.Diverges?)
      && (o.MergeFailed? ==> spec == Failed(o.error))
      && (o.Final? ==> spec.Done? && |data| % RecordWidth == 0 && wd'[o.name] == SortRecords(DecodeAll(data)))
  {
    var data := files[inputFile];
    var g := GenerateRunsSpec(data, blockSize, k, wd0);
    var names := Flatten(g.rs);
    GeneratedForMerge(data, blockSize, k, wd0);
    if names != [] {
      MultiPassResult(g.wd, names, k, DecodeAll(data));
    }
  }

  /** The outcome of `sort`, in terms of the input file: success exactly
      for a non-empty file of whole records, a positive block size and a
      positive k, unless k == 1 and the file spans several blocks. */
  lemma SortSpecCases(files: map<string, seq<u8>>, inputFile: string, blockSize: int, k: int)
    ensures var o := SortSpec(files, inputFile, blockSize, k);
      && (o == Failed(FileNotFoundError) <== inputFile !in files)
      && (o.Done? <==> inputFile in files && files[inputFile] != [] && blockSize != 0 && k > 0 &&
                       |files[inputFile]| % RecordWidth == 0 && (|ByteChunks(files[inputFile], blockSize)| <= 1 || k >= 2))
      && (o.Diverges? ==> k == 1)
      && (inputFile in files && (files[inputFile] == [] || blockSize == 0) ==> o == Failed(IndexError))
  {
    if inputFile in files {
      var data := files[inputFile];
      RunGenErrorCases(data, blockSize, k);
    }
  }

  class ExternalMergeSorter {
    const fs: FileSystem
    const inputFile: string
    const blockSize: int
    const k: int
    var workDir: map<RunName, seq<Record>>
    var runs: seq<seq<RunName>>
    var cleanedUp: bool

    /** `__init__`: a fresh, empty work directory and k empty buckets. */
    constructor (fs: FileSystem, inputFile: string, blockSize: int, k: int)
      ensures this.fs == fs && this.inputFile == inputFile
      ensures this.blockSize == blockSize && this.k == k
      ensures workDir == map[] && runs == FreshBuckets(k) && !cleanedUp
    {
      this.fs := fs;
      this.inputFile := inputFile;
      this.blockSize := blockSize;
      this.k := k;
      workDir := map[];
      runs := FreshBuckets(k);
      cleanedUp := false;
    }

    /** `cleanup`: the work directory and every run in it are removed. */
    method Cleanup()
      modifies this
      ensures workDir == map[] && cleanedUp && runs == old(runs)
    {
      workDir := map[];
      cleanedUp := true;
    }

    /** `generate_runs`: cut the input into blocks, write each block sorted
        as run `run_id` and file it in bucket `run_id % k`.  On an
        exception the runs written before it stay in the work directory. */
    method GenerateRuns() returns (err: Option<PyError>)
      modifies this
      ensures cleanedUp == old(cleanedUp)
      ensures inputFile !in fs.files ==>
        err == Some(FileNotFoundError) && workDir == old(workDir) && runs == FreshBuckets(k)
      ensures inputFile in fs.files ==>
        GenState(err, workDir, runs) == GenerateRunsSpec(fs.files[inputFile], blockSize, k, old(workDir))
    {
      runs := FreshBuckets(k);
      if inputFile !in fs.files {
        return Some(FileNotFoundError);
      }
      err := ReadRuns(fs.files[inputFile]);
      ReadLoopFromStart(fs.files[inputFile], blockSize, k, old(workDir));
    }

    /** The `with open(...)` block of `generate_runs`: one turn of the loop
        per block read. */
    method ReadRuns(data: seq<u8>) returns (err: Option<PyError>)
      requires runs == FreshBuckets(k)
      modifies this
      ensures cleanedUp == old(cleanedUp)
      ensures GenState(err, workDir, runs) == ReadLoop(data, blockSize, k, 0, 0, old(workDir), FreshBuckets(k))
    {
      var offset: nat := 0;
      var runId: nat := 0;
      ghost var outcome := ReadLoop(data, blockSize, k, 0, 0, workDir, runs);
      while true
        invariant offset <= |data| && (k > 0 ==> |runs| == k)
        invariant ReadLoop(data, blockSize, k, offset, runId, workDir, runs) == outcome
        invariant cleanedUp == old(cleanedUp)
        decreases |data| - offset
      {
        var block := ReadBlock(data, offset, blockSize);
        if block.Err? {
          return Some(block.error);
        }
        if block.value.None? {
          return None;
        }
        var nums := block.value.value;
        var sorted := SortRecords(nums);
        ghost var wd := workDir;
        workDir := workDir[Initial(runId) := sorted];
        if k == 0 {
          return Some(ZeroDivisionError);
        } else if k < 0 {
          return Some(IndexError);
        }
        var b := runId % k;
        var offset' := offset + RecordWidth * |nums|;
        ReadLoopNext(data, blockSize, k, offset, runId, wd, runs, nums,
                     offset', workDir, runs[b := runs[b] + [Initial(runId)]]);
        runs := runs[b := runs[b] + [Initial(runId)]];
        offset := offset';
        runId := runId + 1;
      }
    }

    /** `merge_k_runs`: the k-way merge of the input runs, written as the
        output run. */
    method MergeKRuns(inputRuns: seq<RunName>, outputRun: RunName)
      requires forall x :: x in inputRuns ==> x in workDir
      modifies this
      ensures workDir == old(workDir)[outputRun := Merge(Contents(old(workDir), inputRuns))]
      ensures runs == old(runs) && cleanedUp == old(cleanedUp)
    {
      var srcs := Contents(workDir, inputRuns);
      var out := KWayMerge(srcs);
      workDir := workDir[outputRun := out];
    }

    /** `merge_pass`: merge the list in consecutive groups of k into
        `pass<passId>_run<g>.bin` and return their names. */
    method MergePass(runList: seq<RunName>, passId: nat) returns (newRuns: seq<RunName>)
      requires k > 0 && forall x :: x in runList ==> x in workDir
      modifies this
      ensures runs == old(runs) && cleanedUp == old(cleanedUp)
      ensures (workDir, newRuns) == PassLoop(Merge, old(workDir), runList, k, passId, 0, 0, [])
      ensures NotOfPass(runList, passId) ==>
        && workDir == old(workDir) + PassOutputs(passId, PassSpec(Contents(old(workDir), runList), k))
        && newRuns == PassNames(passId, |Groups(runList, k)|)
    {
      newRuns := [];
      var i: nat := 0;
      var groupId: nat := 0;
      ghost var outcome := PassLoop(Merge, workDir, runList, k, passId, 0, 0, []);
      while i < |runList|
        invariant forall x :: x in runList ==> x in workDir
        invariant PassLoop(Merge, workDir, runList, k, passId, i, groupId, newRuns) == outcome
        invariant runs == old(runs) && cleanedUp == old(cleanedUp)
        decreases |runList| - i
      {
        var group := GroupAt(runList, i, k);
        var newRun := Merged(passId, groupId);
        ghost var wd := workDir;
        MergeKRuns(group, newRun);
        ghost var wd' := workDir;
        assert wd' == wd[newRun := Merge(Contents(wd, group))];
        PassLoopNext(Merge, wd, runList, k, passId, i, groupId, newRuns, wd');
        assert PassLoop(Merge, wd', runList, k, passId, i + k, groupId + 1, newRuns + [newRun]) == outcome;
        newRuns := newRuns + [newRun];
        i := i + k;
        groupId := groupId + 1;
      }
      if NotOfPass(runList, passId) {
        PassLoopFromStart(old(workDir), runList, k, passId);
      }
    }

    /** The first loop of `multi_pass_merge`: the buckets one after the
        other in one list. */
    method FlattenRuns() returns (current: seq<RunName>)
      ensures current == Flatten(runs)
    {
      current := [];
      for b := 0 to |runs|
        invariant current == Flatten(runs[..b])
      {
        assert runs[..b + 1] == runs[..b] + [runs[b]];
        FlattenAppend(runs[..b], [runs[b]]);
        FlattenSingle(runs[b]);
        current := current + runs[b];
      }
      assert runs[..|runs|] == runs;
    }

    /** `multi_pass_merge`: the buckets flattened into one list, then pass
        after pass until one run is left. */
    method MultiPassMerge() returns (outcome: MergeOutcome)
      requires (forall x :: x in Flatten(runs) ==> x in workDir) && WrittenBefore(Flatten(runs), 0)
      modifies this
      ensures runs == old(runs) && cleanedUp == old(cleanedUp)
      ensures (outcome, workDir) == MultiPassSpec(old(workDir), Flatten(old(runs)), k)
    {
      var current := FlattenRuns();
      if |current| > 1 && k < 2 {
        return MergeDiverges;
      }
      var passId: nat := 0;
      ghost var target := MergeAll(workDir, current, k, 0);
      while |current| > 1
        invariant (forall x :: x in current ==> x in workDir) && WrittenBefore(current, passId)
        invariant k >= 2 || |current| <= 1
        invariant MergeAll(workDir, current, k, passId) == target
        invariant runs == old(runs) && cleanedUp == old(cleanedUp)
        decreases |current|
      {
        ghost var wd, cur := workDir, current;
        GroupsOfContents(wd, cur, k);
        GroupsShrink(cur, k);
        current := MergePass(current, passId);
        PassOutputsContents(wd, passId, PassSpec(Contents(wd, cur), k));
        passId := passId + 1;
      }
      if current == [] {
        return MergeFailed(IndexError);
      }
      return Final(current[0]);
    }

    /** `sort`: generate the runs, merge them, replace the destination by
        the final run, and remove the work directory on every path the
        `finally` clause is reached on. */
    method Sort(outputFile: string) returns (outcome: SortOutcome)
      requires !cleanedUp
      modifies this, fs
      ensures outcome == SortSpec(old(fs.files), inputFile, blockSize, k)
      ensures outcome.Done? ==>
        && inputFile in old(fs.files) && |old(fs.files)[inputFile]| % RecordWidth == 0
        && fs.files == old(fs.files)[outputFile := SortedOutput(old(fs.files)[inputFile])]
      ensures !outcome.Done? ==> fs.files == old(fs.files)
      ensures !outcome.Diverges? ==> cleanedUp && workDir == map[]
    {
      var err := GenerateRuns();
      if err.Some? {
        Cleanup();
        return Failed(err.value);
      }
      MergeAfterGenerate(fs.files, inputFile, blockSize, k, old(workDir));
      var merged := MultiPassMerge();
      if merged.MergeDiverges? {
        return Diverges;
      }
      if merged.MergeFailed? {
        Cleanup();
        return Failed(merged.error);
      }
      fs.files := fs.files[outputFile := EncodeAll(workDir[merged.name])];
      Cleanup();
      return Done;
    }
  }

  /** `external_merge_sort`: the parameters from `auto_tune_params`, then
      `sort`.  The size lookup of a missing input raises FileNotFoundError
      before any sorter exists.  `availableMem` is the memory budget the
      tuner reads from the machine. */
  method ExternalMergeSort(fs: FileSystem, inputPath: string, outputPath: string, availableMem: nat)
    returns (outcome: SortOutcome)
    modifies fs
    ensures inputPath !in old(fs.files) ==> outcome == Failed(FileNotFoundError)
    ensures inputPath in old(fs.files) ==>
      var (blockSize, k) := AutoConfig.AutoTuneParams(availableMem, |old(fs.files)[inputPath]|);
      outcome == SortSpec(old(fs.files), inputPath, blockSize, k)
    ensures outcome.Done? ==>
      && inputPath in old(fs.files) && |old(fs.files)[inputPath]| % RecordWidth == 0
      && fs.files == old(fs.files)[outputPath := SortedOutput(old(fs.files)[inputPath])]
    ensures !outcome.Done? ==> fs.files == old(fs.files)
  {
    if inputPath !in fs.files {
      return Failed(FileNotFoundError);
    }
    var (blockSize, k) := AutoConfig.AutoTuneParams(availableMem, |fs.files[inputPath]|);
    var sorter := new ExternalMergeSorter(fs, inputPath, blockSize, k);
    outcome := sorter.Sort(outputPath);
  }

  /** With the tuned parameters (blocks of at least 4096 records, a fan-in
      of at least 6) the sort never hangs: it succeeds exactly on a
      non-empty input of whole records. */
  lemma TunedSortOutcome(files: map<string, seq<u8>>, inputPath: string, availableMem: nat)
    requires inputPath in files
    ensures var (blockSize, k) := AutoConfig.AutoTuneParams(availableMem, |files[inputPath]|);
      var o := SortSpec(files, inputPath, blockSize, k);
      && !o.Diverges?
      && (o.Done? <==> files[inputPath] != [] && |files[inputPath]| % RecordWidth == 0)
      && (files[inputPath] == [] ==> o == Failed(IndexError))
      && (|files[inputPath]| % RecordWidth != 0 ==> o == Failed(StructError))
  {
    var (blockSize, k) := AutoConfig.AutoTuneParams(availableMem, |files[inputPath]|);
    AutoConfig.AutoTuneBounds(availableMem, |files[inputPath]|);
    SortSpecCases(files, inputPath, blockSize, k);
    RunGenErrorCases(files[inputPath], blockSize, k);
  }
}
