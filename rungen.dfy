/** What `generate_runs` (sorter/external_merge_sort.py) produces, as
    functions of the input bytes: which exception it raises, if any, and the
    runs it leaves in the work directory.
 */
module RunGeneration {
  import opened Records
  import opened Errors
  import opened Codec
  import opened KMerge
  import opened Passes

  /** The exception the loop of `generate_runs` stops with, given the byte
      chunks it reads: `struct.unpack` fails on a chunk that is not whole
      records, and then `run_id % k` fails for k == 0 and indexing the empty
      bucket list fails for k < 0. */
  function RunGenError(cs: seq<seq<u8>>, k: int): (e: Option<PyError>)
    ensures e.Some? ==> cs != []
    ensures e == Some(StructError) ==> exists i :: 0 <= i < |cs| && |cs[i]| % RecordWidth != 0
  {
    if cs == [] then None
    else if |cs[0]| % RecordWidth != 0 then Some(StructError)
    else if k == 0 then Some(ZeroDivisionError)
    else if k < 0 then Some(IndexError)
    else
      var e := RunGenError(cs[1..], k);
      assert e == Some(StructError) ==> exists i :: 0 <= i < |cs| && |cs[i]| % RecordWidth != 0 by {
        if e == Some(StructError) {
          var i :| 0 <= i < |cs[1..]| && |cs[1..][i]| % RecordWidth != 0;
          assert cs[i + 1] == cs[1..][i];
        }
      }
      e
  }

  /** With a positive k the loop fails exactly when some chunk is not
      whole records, and then with StructError. */
  lemma {:induction false} RunGenErrorPositiveK(cs: seq<seq<u8>>, k: int)
    requires k > 0
    ensures RunGenError(cs, k).None? <==> forall i :: 0 <= i < |cs| ==> |cs[i]| % RecordWidth == 0
    ensures RunGenError(cs, k).Some? ==> RunGenError(cs, k) == Some(StructError)
  {
    if cs != [] {
      RunGenErrorPositiveK(cs[1..], k);
      assert forall i :: 1 <= i < |cs| ==> cs[i] == cs[1..][i - 1];
    }
  }

  /** The error cases of `generate_runs` in terms of the input file:
      nothing is read (and nothing fails) for an empty file or a zero block
      size; otherwise a positive k fails exactly on a trailing partial
      record, and a non-positive k always fails. */
  lemma RunGenErrorCases(data: seq<u8>, blockSize: int, k: int)
    ensures var e := RunGenError(ByteChunks(data, blockSize), k);
      && (e.None? <==> data == [] || blockSize == 0 || (k > 0 && |data| % RecordWidth == 0))
      && (k > 0 && blockSize != 0 && |data| % RecordWidth != 0 ==> e == Some(StructError))
      && (k == 0 && blockSize != 0 && data != [] && |data| % RecordWidth == 0 ==> e == Some(ZeroDivisionError))
      && (k < 0 && blockSize != 0 && data != [] && |data| % RecordWidth == 0 ==> e == Some(IndexError))
  {
    var cs := ByteChunks(data, blockSize);
    ByteChunksPartition(data, blockSize);
    ByteChunksWhole(data, blockSize);
    if k > 0 {
      RunGenErrorPositiveK(cs, k);
    } else if cs != [] {
      if |cs[0]| % RecordWidth == 0 && |data| % RecordWidth != 0 {
        assert blockSize > 0 && |cs| > 1 by {
          if |cs| == 1 {
            FlattenSingle(cs[0]);
          }
        }
        assert RunGenError(cs, k).Some?;
      }
    }
  }

  /** How many run files the loop of `generate_runs` writes before it
      stops: all of them on success; on a partial record, those before it;
      with k <= 0 the first run file is written before `run_id % k` or the
      bucket lookup fails. */
  function RunsWritten(cs: seq<seq<u8>>, k: int): (n: nat)
    ensures n <= |cs|
    ensures forall i :: 0 <= i < n ==> |cs[i]| % RecordWidth == 0
    ensures RunGenError(cs, k).None? ==> n == |cs|
    ensures k <= 0 ==> n <= 1
  {
    if cs == [] || |cs[0]| % RecordWidth != 0 then 0
    else if k <= 0 then 1
    else
      var n := RunsWritten(cs[1..], k);
      assert forall i :: 1 <= i < 1 + n ==> cs[i] == cs[1..][i - 1];
      1 + n
  }

  /** Once the chunks before j are processed with a positive k, the outcome
      of the loop is the outcome on the chunks still to come. */
  lemma {:induction false} RunGenSuffix(cs: seq<seq<u8>>, j: nat, k: int)
    requires k > 0 && j <= |cs|
    requires forall i :: 0 <= i < j ==> |cs[i]| % RecordWidth == 0
    ensures RunGenError(cs, k) == RunGenError(cs[j..], k)
    ensures RunsWritten(cs, k) == j + RunsWritten(cs[j..], k)
  {
    if j > 0 {
      assert forall i :: 0 <= i < j - 1 ==> cs[1..][i] == cs[i + 1];
      RunGenSuffix(cs[1..], j - 1, k);
      assert cs[1..][j - 1..] == cs[j..];
    }
  }

  /** The runs `generate_runs` writes, in read order: each block of records,
      sorted. */
  function SortedBlocks(bs: seq<seq<Record>>): (rs: seq<seq<Record>>)
    ensures |rs| == |bs|
  {
    seq(|bs|, i requires 0 <= i < |bs| => SortRecords(bs[i]))
  }

  /** Every run is sorted and holds the records of its block. */
  lemma SortedBlocksSpec(bs: seq<seq<Record>>)
    ensures forall i :: 0 <= i < |bs| ==> Sorted(SortedBlocks(bs)[i]) && multiset(SortedBlocks(bs)[i]) == multiset(bs[i])
  {
    forall i | 0 <= i < |bs| ensures Sorted(SortedBlocks(bs)[i]) && multiset(SortedBlocks(bs)[i]) == multiset(bs[i]) {
      SortRecordsSpec(bs[i]);
    }
  }

  /** The work directory once runs 0..n-1 are written: `run_<r>` holds
      `rs[r]`, and nothing else is there. */
  function InitialRuns(rs: seq<seq<Record>>, n: nat): (wd: map<RunName, seq<Record>>)
    requires n <= |rs|
    ensures forall x :: x in wd <==> x.Initial? && x.runId < n
  {
    map r | 0 <= r < n :: Initial(r) := rs[r]
  }

  /** Writing run n to the work directory of runs 0..n-1 gives the work
      directory of runs 0..n. */
  lemma InitialRunsStep(rs: seq<seq<Record>>, n: nat)
    requires n < |rs|
    ensures InitialRuns(rs, n)[Initial(n) := rs[n]] == InitialRuns(rs, n + 1)
  {
    var a := InitialRuns(rs, n)[Initial(n) := rs[n]];
    var b := InitialRuns(rs, n + 1);
    forall x | x in a ensures x in b && a[x] == b[x] {
      if x != Initial(n) {
        assert x in InitialRuns(rs, n);
      }
    }
  }

  /** The work directory after the first n chunks became runs. */
  function WrittenRuns(cs: seq<seq<u8>>, n: nat): (wd: map<RunName, seq<Record>>)
    requires n <= |cs|
    requires forall i :: 0 <= i < n ==> |cs[i]| % RecordWidth == 0
  {
    InitialRuns(SortedBlocks(DecodedBlocks(cs[..n])), n)
  }

  /** Run n of the work directory is the sorted records of chunk n. */
  lemma WrittenStep(cs: seq<seq<u8>>, n: nat)
    requires n < |cs|
    requires forall i :: 0 <= i <= n ==> |cs[i]| % RecordWidth == 0
    ensures WrittenRuns(cs, n)[Initial(n) := SortRecords(DecodeAll(cs[n]))] == WrittenRuns(cs, n + 1)
  {
    var rs := SortedBlocks(DecodedBlocks(cs[..n + 1]));
    var rs0 := SortedBlocks(DecodedBlocks(cs[..n]));
    assert rs[n] == SortRecords(DecodeAll(cs[n]));
    assert InitialRuns(rs0, n) == InitialRuns(rs, n) by {
      forall r | 0 <= r < n ensures rs0[r] == rs[r] {
        assert cs[..n][r] == cs[..n + 1][r];
      }
    }
    InitialRunsStep(rs, n);
  }

  /** The state `generate_runs` leaves behind: the exception it raises, if
      any, the work directory and the buckets. */
  datatype GenState = GenState(err: Option<PyError>, wd: map<RunName, seq<Record>>, rs: seq<seq<RunName>>)

  /** The read loop of `generate_runs`, turn by turn, from byte offset
      `offset` with `runId` as the next run number: read a block; stop at
      the end of the file or on a partial record; otherwise write the
      sorted block as run `runId` and append its name to bucket
      `runId % k`, where k == 0 divides by zero and, for k < 0, the bucket
      list is empty. */
  function ReadLoop(data: seq<u8>, blockSize: int, k: int, offset: nat, runId: nat,
                    wd: map<RunName, seq<Record>>, rs: seq<seq<RunName>>): GenState
    requires offset <= |data|
    requires k > 0 ==> |rs| == k
    decreases |data| - offset
  {
    match ReadBlock(data, offset, blockSize)
    case Err(e) => GenState(Some(e), wd, rs)
    case Ok(None) => GenState(None, wd, rs)
    case Ok(Some(nums)) =>
      var wd' := wd[Initial(runId) := SortRecords(nums)];
      if k == 0 then GenState(Some(ZeroDivisionError), wd', rs)
      else if k < 0 then GenState(Some(IndexError), wd', rs)
      else
        var b := runId % k;
        ReadLoop(data, blockSize, k, offset + RecordWidth * |nums|, runId + 1, wd', rs[b := rs[b] + [Initial(runId)]])
  }

  /** What the read loop knows at byte offset `offset`: the chunks still to
      come are those from `runId` on, and the chunks before it were whole. */
  ghost predicate ReadInv(data: seq<u8>, blockSize: int, k: int, cs: seq<seq<u8>>, offset: nat, runId: nat) {
    && cs == ByteChunks(data, blockSize)
    && offset <= |data| && runId <= |cs|
    && ByteChunks(data[offset..], blockSize) == cs[runId..]
    && (forall i :: 0 <= i < runId ==> |cs[i]| % RecordWidth == 0)
    && (runId == 0 || k > 0)
  }

  /** A read that returns nothing ends the loop without an exception. */
  lemma ReadStopsAtEnd(data: seq<u8>, blockSize: int, k: int, cs: seq<seq<u8>>, offset: nat, runId: nat)
    requires ReadInv(data, blockSize, k, cs, offset, runId)
    requires ReadBlock(data, offset, blockSize) == Ok(None)
    ensures RunGenError(cs, k) == None && RunsWritten(cs, k) == runId
  {
    ChunkStep(data, offset, blockSize);
    assert runId == |cs|;
    if k > 0 {
      RunGenSuffix(cs, runId, k);
    }
  }

  /** A read that ends in a partial record raises struct.error. */
  lemma ReadStopsOnPartial(data: seq<u8>, blockSize: int, k: int, cs: seq<seq<u8>>, offset: nat, runId: nat)
    requires ReadInv(data, blockSize, k, cs, offset, runId)
    requires ReadBlock(data, offset, blockSize).Err?
    ensures RunGenError(cs, k) == Some(ReadBlock(data, offset, blockSize).error)
    ensures RunsWritten(cs, k) == runId
  {
    ChunkStep(data, offset, blockSize);
    var n := ReadSize(|data| - offset, blockSize);
    assert cs[runId..][0] == data[offset..offset + n] == cs[runId];
    if k > 0 {
      RunGenSuffix(cs, runId, k);
    } else {
      assert cs[runId..] == cs;
    }
  }

  /** The records of a successful read are those of chunk `runId`, and the
      next read starts where the next chunk does. */
  lemma ReadChunk(data: seq<u8>, blockSize: int, k: int, cs: seq<seq<u8>>, offset: nat, runId: nat,
                  nums: seq<Record>, offset': nat)
    requires ReadInv(data, blockSize, k, cs, offset, runId)
    requires ReadBlock(data, offset, blockSize) == Ok(Some(nums))
    requires offset' == offset + RecordWidth * |nums|
    ensures runId < |cs| && |cs[runId]| % RecordWidth == 0 && DecodeAll(cs[runId]) == nums
    ensures forall i :: 0 <= i <= runId ==> |cs[i]| % RecordWidth == 0
    ensures offset < offset' <= |data|
    ensures ByteChunks(data[offset'..], blockSize) == cs[runId + 1..]
  {
    ChunkStep(data, offset, blockSize);
    var n := ReadSize(|data| - offset, blockSize);
    assert cs[runId..][0] == data[offset..offset + n] == cs[runId];
    DecodeAllOfEncodeAll(nums);
    assert cs[runId + 1..] == cs[runId..][1..];
  }

  /** Writing run n over a work directory `wd0 + WrittenRuns(cs, n)`. */
  lemma WrittenUnionStep(wd0: map<RunName, seq<Record>>, cs: seq<seq<u8>>, n: nat)
    requires n < |cs|
    requires forall i :: 0 <= i <= n ==> |cs[i]| % RecordWidth == 0
    ensures (wd0 + WrittenRuns(cs, n))[Initial(n) := SortRecords(DecodeAll(cs[n]))] == wd0 + WrittenRuns(cs, n + 1)
  {
    UnionUpdate(wd0, WrittenRuns(cs, n), Initial(n), SortRecords(DecodeAll(cs[n])));
    WrittenStep(cs, n);
  }

  /** One turn of the read loop that writes a run and continues. */
  lemma ReadLoopNext(data: seq<u8>, blockSize: int, k: int, offset: nat, runId: nat,
                     wd: map<RunName, seq<Record>>, rs: seq<seq<RunName>>, nums: seq<Record>,
                     offset': nat, wd': map<RunName, seq<Record>>, rs': seq<seq<RunName>>)
    requires offset <= |data| && k > 0 && |rs| == k
    requires ReadBlock(data, offset, blockSize) == Ok(Some(nums))
    requires offset' == offset + RecordWidth * |nums|
    requires wd' == wd[Initial(runId) := SortRecords(nums)]
    requires rs' == rs[runId % k := rs[runId % k] + [Initial(runId)]]
    ensures offset' <= |data| && |rs'| == k
    ensures ReadLoop(data, blockSize, k, offset, runId, wd, rs) == ReadLoop(data, blockSize, k, offset', runId + 1, wd', rs')
  {
  }

  /** The read loop, started from any point its invariant holds, ends with
      the exception of `RunGenError`, the runs of the chunks `RunsWritten`
      counts added to the work directory and their names in the buckets. */
  lemma {:induction false} ReadLoopSpec(data: seq<u8>, blockSize: int, k: int, cs: seq<seq<u8>>, offset: nat, runId: nat,
                                        wd0: map<RunName, seq<Record>>)
    requires ReadInv(data, blockSize, k, cs, offset, runId)
    ensures var n := RunsWritten(cs, k);
      ReadLoop(data, blockSize, k, offset, runId, wd0 + WrittenRuns(cs, runId), if k > 0 then Buckets(runId, k) else []) ==
      GenState(RunGenError(cs, k), wd0 + WrittenRuns(cs, n), if k > 0 then Buckets(n, k) else [])
    decreases |data| - offset
  {
    var block := ReadBlock(data, offset, blockSize);
    if block.Err? {
      ReadStopsOnPartial(data, blockSize, k, cs, offset, runId);
    } else if block.value.None? {
      ReadStopsAtEnd(data, blockSize, k, cs, offset, runId);
    } else {
      var nums := block.value.value;
      var offset' := offset + RecordWidth * |nums|;
      ReadChunk(data, blockSize, k, cs, offset, runId, nums, offset');
      WrittenUnionStep(wd0, cs, runId);
      if k > 0 {
        BucketsStep(runId, k);
        ReadLoopNext(data, blockSize, k, offset, runId, wd0 + WrittenRuns(cs, runId), Buckets(runId, k), nums,
                     offset', wd0 + WrittenRuns(cs, runId + 1), Buckets(runId + 1, k));
        ReadLoopSpec(data, blockSize, k, cs, offset', runId + 1, wd0);
      } else {
        assert runId == 0;
      }
    }
  }

  /** What `generate_runs` does to the work directory `wd0` and the
      buckets, as a function of the input bytes: the exception of
      `RunGenError`, the runs of the chunks `RunsWritten` counts added to
      the work directory, and their names in buckets `run_id % k`. */
  function GenerateRunsSpec(data: seq<u8>, blockSize: int, k: int, wd0: map<RunName, seq<Record>>): GenState {
    var cs := ByteChunks(data, blockSize);
    var n := RunsWritten(cs, k);
    GenState(RunGenError(cs, k), wd0 + WrittenRuns(cs, n), if k > 0 then Buckets(n, k) else [])
  }

  /** The read loop, run from the start of the file with empty buckets,
      does what `GenerateRunsSpec` says. */
  lemma ReadLoopFromStart(data: seq<u8>, blockSize: int, k: int, wd0: map<RunName, seq<Record>>)
    ensures ReadLoop(data, blockSize, k, 0, 0, wd0, if k > 0 then Buckets(0, k) else []) ==
            GenerateRunsSpec(data, blockSize, k, wd0)
  {
    var cs := ByteChunks(data, blockSize);
    assert data[0..] == data && cs[0..] == cs;
    assert wd0 + WrittenRuns(cs, 0) == wd0;
    ReadLoopSpec(data, blockSize, k, cs, 0, 0, wd0);
  }

  /** Sorting every run keeps what the runs hold together. */
  lemma {:induction false} FlattenOfPermuted(ss: seq<seq<Record>>, ts: seq<seq<Record>>)
    requires |ss| == |ts| && forall i :: 0 <= i < |ss| ==> multiset(ts[i]) == multiset(ss[i])
    ensures multiset(Flatten(ts)) == multiset(Flatten(ss))
  {
    if ss != [] {
      FlattenOfPermuted(ss[1..], ts[1..]);
    }
  }

  /** The bucket-major list names each of the runs 0..n-1 exactly once. */
  lemma GeneratedNames(n: nat, k: nat)
    requires k > 0
    ensures var names := Flatten(Buckets(n, k));
      && |names| == n
      && multiset(names) == multiset(InitialNames(n))
      && forall x :: x in names ==> x.Initial? && x.runId < n
  {
    var names := Flatten(Buckets(n, k));
    BucketsFlattenPermutation(n, k);
    assert |names| == |multiset(names)| == |multiset(InitialNames(n))| == n;
    forall x | x in names ensures x.Initial? && x.runId < n {
      assert x in multiset(InitialNames(n));
    }
  }

  /** Read in bucket-major order, the work directory of all runs holds the
      runs' records, and sorted runs stay sorted. */
  lemma BucketOrderContents(rs: seq<seq<Record>>, k: nat)
    requires k > 0
    ensures var wd := InitialRuns(rs, |rs|);
      var names := Flatten(Buckets(|rs|, k));
      && (forall x :: x in names ==> x in wd)
      && multiset(Flatten(Contents(wd, names))) == multiset(Flatten(rs))
      && (AllSorted(rs) ==> AllSorted(Contents(wd, names)))
  {
    var n := |rs|;
    var wd := InitialRuns(rs, n);
    var names := Flatten(Buckets(n, k));
    GeneratedNames(n, k);
    InitialRunsInOrder(rs);
    ContentsPermutation(wd, InitialNames(n), names);
    if AllSorted(rs) {
      InitialRunsSorted(rs, names);
    }
  }

  /** Read in run-id order, the work directory of all runs gives back the
      runs. */
  lemma InitialRunsInOrder(rs: seq<seq<Record>>)
    ensures forall x :: x in InitialNames(|rs|) ==> x in InitialRuns(rs, |rs|)
    ensures Contents(InitialRuns(rs, |rs|), InitialNames(|rs|)) == rs
  {
    var c := Contents(InitialRuns(rs, |rs|), InitialNames(|rs|));
    assert forall i :: 0 <= i < |rs| ==> c[i] == rs[i];
  }

  /** Any list of generated run names reads sorted runs when the runs are
      sorted. */
  lemma InitialRunsSorted(rs: seq<seq<Record>>, names: seq<RunName>)
    requires AllSorted(rs)
    requires forall x :: x in names ==> x.Initial? && x.runId < |rs|
    ensures forall x :: x in names ==> x in InitialRuns(rs, |rs|)
    ensures AllSorted(Contents(InitialRuns(rs, |rs|), names))
  {
    var wd := InitialRuns(rs, |rs|);
    forall i | 0 <= i < |names| ensures Sorted(Contents(wd, names)[i]) {
      assert names[i] in names;
      assert wd[names[i]] == rs[names[i].runId];
    }
  }

  /** On success, the runs `multi_pass_merge` starts from: the bucket-major
      list names every generated run once, every run is sorted, and the runs
      together hold exactly the records of the input. */
  lemma GeneratedRuns(data: seq<u8>, blockSize: int, k: int)
    requires blockSize != 0 && k > 0 && |data| % RecordWidth == 0
    ensures var cs := ByteChunks(data, blockSize);
      && (forall i :: 0 <= i < |cs| ==> |cs[i]| % RecordWidth == 0)
      && var wd := WrittenRuns(cs, |cs|);
      && var names := Flatten(Buckets(|cs|, k));
      && (forall x :: x in names ==> x in wd && x.Initial?)
      && |names| == |cs|
      && (|cs| == 0 <==> data == [])
      && AllSorted(Contents(wd, names))
      && multiset(Flatten(Contents(wd, names))) == multiset(DecodeAll(data))
  {
    var cs := ByteChunks(data, blockSize);
    ByteChunksPartition(data, blockSize);
    ByteChunksWhole(data, blockSize);
    WrittenContents(cs, k);
    DecodedBlocksFlatten(cs);
  }

  /** Once every chunk became a run, the bucket-major list names runs that
      exist, are sorted, and together hold the decoded chunks. */
  lemma WrittenContents(cs: seq<seq<u8>>, k: nat)
    requires k > 0 && forall i :: 0 <= i < |cs| ==> |cs[i]| % RecordWidth == 0
    ensures var wd := WrittenRuns(cs, |cs|);
      var names := Flatten(Buckets(|cs|, k));
      && (forall x :: x in names ==> x in wd && x.Initial?)
      && |names| == |cs|
      && AllSorted(Contents(wd, names))
      && multiset(Flatten(Contents(wd, names))) == multiset(Flatten(DecodedBlocks(cs)))
  {
    var bs := DecodedBlocks(cs);
    var rs := SortedBlocks(bs);
    SortedBlocksSpec(bs);
    assert cs[..|cs|] == cs;
    GeneratedNames(|cs|, k);
    BucketOrderContents(rs, k);
    FlattenOfPermuted(bs, rs);
  }
}
