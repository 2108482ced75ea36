/** The event log of `VisualizeSort._merge_with_steps`
    (sorter/external_merge_sort.py): the same k-way merge as
    `merge_k_runs`, appending a step for every heap push, every pop and
    every record written, framed by a start and an end step.

    A step keeps what the counting needs: its kind, the pass and group, the
    record and source index it is about, and the counters.  The heap
    snapshots, input previews and file names of the steps are left out.
 */
module Visualize {
  import opened Records
  import opened KMerge
  import opened Errors

  datatype Step =
    | Push(passId: nat, groupId: nat, value: Record, src: nat)
    | MergeStart(passId: nat, groupId: nat)
    | Pop(passId: nat, groupId: nat, value: Record, src: nat)
    | Emit(passId: nat, groupId: nat, value: Record, emittedCount: nat)
    | MergeEnd(passId: nat, groupId: nat, mergedCount: nat)

  // ----- The steps, as functions of the merge's inputs -----

  /** The pushes of the first loop over sources 0..n-1: one per source that
      has a first record. */
  function SeedSteps(srcs: seq<seq<Record>>, passId: nat, groupId: nat, n: nat): seq<Step>
    requires n <= |srcs|
  {
    if n == 0 then []
    else SeedSteps(srcs, passId, groupId, n - 1) +
         (if srcs[n - 1] != [] then [Push(passId, groupId, srcs[n - 1][0], n - 1)] else [])
  }

  /** The first loop's turn for source n logs a push exactly when the source
      has a first record. */
  lemma SeedStepsNext(srcs: seq<seq<Record>>, passId: nat, groupId: nat, n: nat, num: Option<Record>)
    requires n < |srcs| && num == NextRecord(srcs[n])
    ensures SeedSteps(srcs, passId, groupId, n + 1) ==
            SeedSteps(srcs, passId, groupId, n) + (if num.Some? then [Push(passId, groupId, num.value, n)] else [])
  {
  }

  /** The steps of the pop loop from the point where `rest` is what every
      source still holds and `emitted` records were written: pop the least
      head, write it, and push the next record of the same source if it has
      one. */
  function PopSteps(rest: seq<seq<Record>>, emitted: nat, passId: nat, groupId: nat): seq<Step>
    decreases |Flatten(rest)|
  {
    match MinLive(rest, |rest|)
    case None => []
    case Some(m) =>
      var rest' := rest[m := rest[m][1..]];
      AdvanceRest(rest, m);
      [Pop(passId, groupId, rest[m][0], m), Emit(passId, groupId, rest[m][0], emitted + 1)] +
      (if rest'[m] != [] then [Push(passId, groupId, rest'[m][0], m)] else []) +
      PopSteps(rest', emitted + 1, passId, groupId)
  }

  /** Everything one call of `_merge_with_steps` appends. */
  function MergeSteps(srcs: seq<seq<Record>>, passId: nat, groupId: nat): seq<Step> {
    SeedSteps(srcs, passId, groupId, |srcs|) + [MergeStart(passId, groupId)] +
    PopSteps(srcs, 0, passId, groupId) + [MergeEnd(passId, groupId, |Merge(srcs)|)]
  }

  // ----- Counting -----

  /** The number of push steps. */
  function PushCount(st: seq<Step>): nat {
    if st == [] then 0 else (if st[0].Push? then 1 else 0) + PushCount(st[1..])
  }

  /** The values of the pop steps, in order. */
  function PoppedValues(st: seq<Step>): seq<Record> {
    if st == [] then [] else (if st[0].Pop? then [st[0].value] else []) + PoppedValues(st[1..])
  }

  /** The values of the write steps, in order. */
  function EmittedValues(st: seq<Step>): seq<Record> {
    if st == [] then [] else (if st[0].Emit? then [st[0].value] else []) + EmittedValues(st[1..])
  }

  /** The `emitted_count` of the write steps, in order. */
  function EmittedCounts(st: seq<Step>): seq<nat> {
    if st == [] then [] else (if st[0].Emit? then [st[0].emittedCount] else []) + EmittedCounts(st[1..])
  }

  /** Each count of a concatenation is the count of its parts. */
  lemma CountsAppend(a: seq<Step>, b: seq<Step>)
    ensures PushCount(a + b) == PushCount(a) + PushCount(b)
    ensures PoppedValues(a + b) == PoppedValues(a) + PoppedValues(b)
    ensures EmittedValues(a + b) == EmittedValues(a) + EmittedValues(b)
    ensures EmittedCounts(a + b) == EmittedCounts(a) + EmittedCounts(b)
  {
    PushCountAppend(a, b);
    PoppedAppend(a, b);
    EmittedAppend(a, b);
    EmittedCountsAppend(a, b);
  }

  lemma {:induction false} PushCountAppend(a: seq<Step>, b: seq<Step>)
    ensures PushCount(a + b) == PushCount(a) + PushCount(b)
  {
    if a != [] {
      assert (a + b)[0] == a[0];
      assert (a + b)[1..] == a[1..] + b;
      PushCountAppend(a[1..], b);
    } else {
      assert a + b == b;
    }
  }

  lemma {:induction false} PoppedAppend(a: seq<Step>, b: seq<Step>)
    ensures PoppedValues(a + b) == PoppedValues(a) + PoppedValues(b)
  {
    if a != [] {
      assert (a + b)[0] == a[0];
      assert (a + b)[1..] == a[1..] + b;
      PoppedAppend(a[1..], b);
    } else {
      assert a + b == b;
    }
  }

  lemma {:induction false} EmittedAppend(a: seq<Step>, b: seq<Step>)
    ensures EmittedValues(a + b) == EmittedValues(a) + EmittedValues(b)
  {
    if a != [] {
      assert (a + b)[0] == a[0];
      assert (a + b)[1..] == a[1..] + b;
      EmittedAppend(a[1..], b);
    } else {
      assert a + b == b;
    }
  }

  lemma {:induction false} EmittedCountsAppend(a: seq<Step>, b: seq<Step>)
    ensures EmittedCounts(a + b) == EmittedCounts(a) + EmittedCounts(b)
  {
    if a != [] {
      assert (a + b)[0] == a[0];
      assert (a + b)[1..] == a[1..] + b;
      EmittedCountsAppend(a[1..], b);
    } else {
      assert a + b == b;
    }
  }

  /** What a single step contributes to each count. */
  lemma CountsSingle(x: Step)
    ensures PushCount([x]) == (if x.Push? then 1 else 0)
    ensures PoppedValues([x]) == (if x.Pop? then [x.value] else [])
    ensures EmittedValues([x]) == (if x.Emit? then [x.value] else [])
    ensures EmittedCounts([x]) == (if x.Emit? then [x.emittedCount] else [])
  {
    assert [x][1..] == [];
  }

  /** a, a + 1, ..., a + n - 1. */
  function CountsFrom(a: nat, n: nat): (r: seq<nat>)
    ensures |r| == n
    decreases n
  {
    if n == 0 then [] else [a] + CountsFrom(a + 1, n - 1)
  }

  /** The i-th entry of `CountsFrom(a, n)` is a + i. */
  lemma {:induction false} CountsFromIndex(a: nat, n: nat)
    ensures forall i :: 0 <= i < n ==> CountsFrom(a, n)[i] == a + i
    decreases n
  {
    if n > 0 {
      CountsFromIndex(a + 1, n - 1);
    }
  }

  /** Every pop is followed at once by the write of the popped value, and
      every write comes right after a pop. */
  predicate PopThenEmit(st: seq<Step>) {
    && (forall i :: 0 <= i < |st| && st[i].Pop? ==>
          i + 1 < |st| && st[i + 1].Emit? && st[i + 1].value == st[i].value)
    && (forall i :: 0 <= i < |st| && st[i].Emit? ==> 0 < i && st[i - 1].Pop?)
  }

  lemma PopThenEmitAppend(a: seq<Step>, b: seq<Step>)
    requires PopThenEmit(a) && PopThenEmit(b)
    ensures PopThenEmit(a + b)
  {
    var c := a + b;
    forall i | 0 <= i < |c| && c[i].Pop?
      ensures i + 1 < |c| && c[i + 1].Emit? && c[i + 1].value == c[i].value
    {
      if i < |a| {
        assert a[i].Pop?;
      } else {
        assert b[i - |a|].Pop?;
      }
    }
    forall i | 0 <= i < |c| && c[i].Emit? ensures 0 < i && c[i - 1].Pop? {
      if i < |a| {
        assert a[i].Emit?;
      } else {
        assert b[i - |a|].Emit?;
      }
    }
  }

  /** The number of sources among 0..n-1 that still hold a record. */
  function Live(rest: seq<seq<Record>>, n: nat): nat
    requires n <= |rest|
  {
    if n == 0 then 0 else Live(rest, n - 1) + (if rest[n - 1] != [] then 1 else 0)
  }

  lemma {:induction false} LiveAdvance(rest: seq<seq<Record>>, m: nat, n: nat)
    requires m < |rest| && rest[m] != [] && n <= |rest|
    ensures Live(rest[m := rest[m][1..]], n) ==
            Live(rest, n) - (if m < n && rest[m][1..] == [] then 1 else 0)
    ensures m < n ==> Live(rest, n) > 0
  {
    if n > 0 {
      LiveAdvance(rest, m, n - 1);
    }
  }

  lemma {:induction false} LiveOfEmpties(rest: seq<seq<Record>>, n: nat)
    requires n <= |rest| && forall i :: 0 <= i < |rest| ==> rest[i] == []
    ensures Live(rest, n) == 0
  {
    if n > 0 {
      LiveOfEmpties(rest, n - 1);
    }
  }

  /** The pushes of the first loop: one per source that holds a record,
      and no pop or write. */
  lemma {:induction false} SeedCounts(srcs: seq<seq<Record>>, passId: nat, groupId: nat, n: nat)
    requires n <= |srcs|
    ensures var st := SeedSteps(srcs, passId, groupId, n);
      && PushCount(st) == Live(srcs, n)
      && PoppedValues(st) == [] && EmittedValues(st) == [] && EmittedCounts(st) == []
  {
    if n > 0 {
      var a := SeedSteps(srcs, passId, groupId, n - 1);
      var b := if srcs[n - 1] != [] then [Push(passId, groupId, srcs[n - 1][0], n - 1)] else [];
      SeedCounts(srcs, passId, groupId, n - 1);
      CountsAppend(a, b);
    }
  }

  /** The first loop logs pushes only. */
  lemma {:induction false} SeedPushesOnly(srcs: seq<seq<Record>>, passId: nat, groupId: nat, n: nat)
    requires n <= |srcs|
    ensures var st := SeedSteps(srcs, passId, groupId, n);
      forall s :: s in st ==> s.Push?
  {
    if n > 0 {
      SeedPushesOnly(srcs, passId, groupId, n - 1);
    }
  }

  /** The steps of one turn of the pop loop: the pop, the write, and the
      push of the next record of the same source if it has one. */
  function TurnSteps(rest: seq<seq<Record>>, m: nat, emitted: nat, passId: nat, groupId: nat): seq<Step>
    requires m < |rest| && rest[m] != []
  {
    [Pop(passId, groupId, rest[m][0], m), Emit(passId, groupId, rest[m][0], emitted + 1)] +
    (if rest[m][1..] != [] then [Push(passId, groupId, rest[m][1..][0], m)] else [])
  }

  lemma TurnCounts(rest: seq<seq<Record>>, m: nat, emitted: nat, passId: nat, groupId: nat)
    requires m < |rest| && rest[m] != []
    ensures var st := TurnSteps(rest, m, emitted, passId, groupId);
      && PushCount(st) == (if rest[m][1..] != [] then 1 else 0)
      && PoppedValues(st) == [rest[m][0]] && EmittedValues(st) == [rest[m][0]]
      && EmittedCounts(st) == [emitted + 1]
      && PopThenEmit(st)
  {
    var c := if rest[m][1..] != [] then [Push(passId, groupId, rest[m][1..][0], m)] else [];
    assert TurnSteps(rest, m, emitted, passId, groupId) ==
           [Pop(passId, groupId, rest[m][0], m)] + [Emit(passId, groupId, rest[m][0], emitted + 1)] + c;
    TurnShapeCounts(Pop(passId, groupId, rest[m][0], m), Emit(passId, groupId, rest[m][0], emitted + 1), c);
  }

  /** The counts of a pop, the write of its value and at most one push. */
  lemma TurnShapeCounts(x: Step, y: Step, c: seq<Step>)
    requires x.Pop? && y.Emit? && x.value == y.value && (c == [] || (|c| == 1 && c[0].Push?))
    ensures var st := [x] + [y] + c;
      && PushCount(st) == |c|
      && PoppedValues(st) == [x.value] && EmittedValues(st) == [y.value]
      && EmittedCounts(st) == [y.emittedCount]
      && PopThenEmit(st)
  {
    CountsSingle(x);
    CountsSingle(y);
    CountsAppend([x], [y]);
    if c != [] {
      CountsSingle(c[0]);
      assert c == [c[0]];
    }
    CountsAppend([x] + [y], c);
  }

  /** `PopSteps` is one turn and then the rest. */
  lemma PopStepsCons(rest: seq<seq<Record>>, m: nat, emitted: nat, passId: nat, groupId: nat)
    requires MinLive(rest, |rest|) == Some(m)
    ensures |Flatten(rest[m := rest[m][1..]])| + 1 == |Flatten(rest)|
    ensures PopSteps(rest, emitted, passId, groupId) ==
            TurnSteps(rest, m, emitted, passId, groupId) + PopSteps(rest[m := rest[m][1..]], emitted + 1, passId, groupId)
  {
    FlattenUpdate(rest, m, rest[m][1..]);
    assert rest[m] == [rest[m][0]] + rest[m][1..];
  }

  lemma PopStepsEnd(rest: seq<seq<Record>>, emitted: nat, passId: nat, groupId: nat)
    requires MinLive(rest, |rest|) == None
    ensures PopSteps(rest, emitted, passId, groupId) == [] && MergeTrace(rest) == []
    ensures Flatten(rest) == [] && Live(rest, |rest|) == 0
  {
    FlattenOfEmpties(rest);
    LiveOfEmpties(rest, |rest|);
  }

  /** The pop and write steps carry the merge's output in order. */
  lemma {:induction false} PopStepsValues(rest: seq<seq<Record>>, emitted: nat, passId: nat, groupId: nat)
    ensures var st := PopSteps(rest, emitted, passId, groupId);
      PoppedValues(st) == Values(MergeTrace(rest)) && EmittedValues(st) == Values(MergeTrace(rest))
    decreases |Flatten(rest)|
  {
    match MinLive(rest, |rest|)
    case None =>
      PopStepsEnd(rest, emitted, passId, groupId);
    case Some(m) =>
      var rest' := rest[m := rest[m][1..]];
      PopStepsCons(rest, m, emitted, passId, groupId);
      PopStepsValues(rest', emitted + 1, passId, groupId);
      MergeTraceStep(rest, m);
      TurnCounts(rest, m, emitted, passId, groupId);
      CountsAppend(TurnSteps(rest, m, emitted, passId, groupId), PopSteps(rest', emitted + 1, passId, groupId));
  }

  /** The write steps count on from `emitted` one by one. */
  lemma {:induction false} PopStepsEmitCounts(rest: seq<seq<Record>>, emitted: nat, passId: nat, groupId: nat)
    ensures EmittedCounts(PopSteps(rest, emitted, passId, groupId)) == CountsFrom(emitted + 1, |Flatten(rest)|)
    decreases |Flatten(rest)|
  {
    match MinLive(rest, |rest|)
    case None =>
      PopStepsEnd(rest, emitted, passId, groupId);
    case Some(m) =>
      var rest' := rest[m := rest[m][1..]];
      PopStepsCons(rest, m, emitted, passId, groupId);
      PopStepsEmitCounts(rest', emitted + 1, passId, groupId);
      TurnCounts(rest, m, emitted, passId, groupId);
      CountsAppend(TurnSteps(rest, m, emitted, passId, groupId), PopSteps(rest', emitted + 1, passId, groupId));
  }

  /** The pop loop pushes every record that is not already in the heap. */
  lemma {:induction false} PopStepsPushes(rest: seq<seq<Record>>, emitted: nat, passId: nat, groupId: nat)
    ensures PushCount(PopSteps(rest, emitted, passId, groupId)) + Live(rest, |rest|) == |Flatten(rest)|
    decreases |Flatten(rest)|
  {
    match MinLive(rest, |rest|)
    case None =>
      PopStepsEnd(rest, emitted, passId, groupId);
    case Some(m) =>
      var rest' := rest[m := rest[m][1..]];
      PopStepsCons(rest, m, emitted, passId, groupId);
      PopStepsPushes(rest', emitted + 1, passId, groupId);
      TurnCounts(rest, m, emitted, passId, groupId);
      CountsAppend(TurnSteps(rest, m, emitted, passId, groupId), PopSteps(rest', emitted + 1, passId, groupId));
      LiveAdvance(rest, m, |rest|);
  }

  /** Each pop of the pop loop is followed by its write. */
  lemma {:induction false} PopStepsAdjacent(rest: seq<seq<Record>>, emitted: nat, passId: nat, groupId: nat)
    ensures PopThenEmit(PopSteps(rest, emitted, passId, groupId))
    decreases |Flatten(rest)|
  {
    match MinLive(rest, |rest|)
    case None =>
      PopStepsEnd(rest, emitted, passId, groupId);
    case Some(m) =>
      var rest' := rest[m := rest[m][1..]];
      PopStepsCons(rest, m, emitted, passId, groupId);
      PopStepsAdjacent(rest', emitted + 1, passId, groupId);
      TurnCounts(rest, m, emitted, passId, groupId);
      PopThenEmitAppend(TurnSteps(rest, m, emitted, passId, groupId), PopSteps(rest', emitted + 1, passId, groupId));
  }

  /** Around the pop loop's steps, a call logs pushes only before and no
      count-carrying step after. */
  lemma FrameCounts(seed: seq<Step>, start: Step, pops: seq<Step>, end: Step)
    requires PoppedValues(seed) == [] && EmittedValues(seed) == [] && EmittedCounts(seed) == []
    requires start.MergeStart? && end.MergeEnd?
    ensures var st := seed + [start] + pops + [end];
      && PushCount(st) == PushCount(seed) + PushCount(pops)
      && PoppedValues(st) == PoppedValues(pops) && EmittedValues(st) == EmittedValues(pops)
      && EmittedCounts(st) == EmittedCounts(pops)
  {
    CountsSingle(start);
    CountsSingle(end);
    CountsAppend(seed, [start]);
    CountsAppend(seed + [start], pops);
    CountsAppend(seed + [start] + pops, [end]);
    assert [] + PoppedValues(pops) + [] == PoppedValues(pops);
    assert [] + EmittedValues(pops) + [] == EmittedValues(pops);
    assert [] + EmittedCounts(pops) + [] == EmittedCounts(pops);
  }

  /** The counts of one call are those of its pop loop, plus the first
      loop's pushes. */
  lemma MergeStepsFrame(srcs: seq<seq<Record>>, passId: nat, groupId: nat)
    ensures var st := MergeSteps(srcs, passId, groupId);
      var pops := PopSteps(srcs, 0, passId, groupId);
      && PushCount(st) == Live(srcs, |srcs|) + PushCount(pops)
      && PoppedValues(st) == PoppedValues(pops) && EmittedValues(st) == EmittedValues(pops)
      && EmittedCounts(st) == EmittedCounts(pops)
  {
    SeedCounts(srcs, passId, groupId, |srcs|);
    FrameCounts(SeedSteps(srcs, passId, groupId, |srcs|), MergeStart(passId, groupId),
                PopSteps(srcs, 0, passId, groupId), MergeEnd(passId, groupId, |Merge(srcs)|));
  }

  /** The pop steps and the write steps of one call both carry the merged
      run, in order: one pop and one write per record of the inputs. */
  lemma MergeStepsValues(srcs: seq<seq<Record>>, passId: nat, groupId: nat)
    ensures var st := MergeSteps(srcs, passId, groupId);
      && PoppedValues(st) == Merge(srcs) && EmittedValues(st) == Merge(srcs)
      && |PoppedValues(st)| == |Flatten(srcs)| && |EmittedValues(st)| == |Flatten(srcs)|
  {
    MergeStepsFrame(srcs, passId, groupId);
    PopStepsValues(srcs, 0, passId, groupId);
    MergeCount(srcs);
  }

  /** The last step of one call is the end step, and its `merged_count` is
      the number of records of the inputs. */
  lemma MergeStepsEnd(srcs: seq<seq<Record>>, passId: nat, groupId: nat)
    ensures var st := MergeSteps(srcs, passId, groupId);
      st[|st| - 1] == MergeEnd(passId, groupId, |Flatten(srcs)|)
  {
    MergeCount(srcs);
  }

  /** The write steps of one call count 1, 2, ..., n, where n is the number
      of records of the inputs. */
  lemma MergeStepsEmitCounts(srcs: seq<seq<Record>>, passId: nat, groupId: nat)
    ensures EmittedCounts(MergeSteps(srcs, passId, groupId)) == CountsFrom(1, |Flatten(srcs)|)
  {
    MergeStepsFrame(srcs, passId, groupId);
    PopStepsEmitCounts(srcs, 0, passId, groupId);
  }

  /** One call pushes every record of its inputs exactly once. */
  lemma MergeStepsPushes(srcs: seq<seq<Record>>, passId: nat, groupId: nat)
    ensures PushCount(MergeSteps(srcs, passId, groupId)) == |Flatten(srcs)|
  {
    MergeStepsFrame(srcs, passId, groupId);
    PopStepsPushes(srcs, 0, passId, groupId);
  }

  /** In the log of one call, each pop is directly followed by the write of
      its value, and each write directly follows a pop. */
  lemma MergeStepsAdjacent(srcs: seq<seq<Record>>, passId: nat, groupId: nat)
    ensures PopThenEmit(MergeSteps(srcs, passId, groupId))
  {
    var seed := SeedSteps(srcs, passId, groupId, |srcs|);
    var pops := PopSteps(srcs, 0, passId, groupId);
    var start := [MergeStart(passId, groupId)];
    var end := [MergeEnd(passId, groupId, |Merge(srcs)|)];
    SeedPushesOnly(srcs, passId, groupId, |srcs|);
    PopStepsAdjacent(srcs, 0, passId, groupId);
    assert PopThenEmit(seed) by {
      forall i | 0 <= i < |seed| ensures seed[i].Push? {
        assert seed[i] in seed;
      }
    }
    assert PopThenEmit(start) && PopThenEmit(end);
    PopThenEmitAppend(seed, start);
    PopThenEmitAppend(seed + start, pops);
    PopThenEmitAppend(seed + start + pops, end);
  }

  /** The merge writes as many records as its inputs hold. */
  lemma MergeCount(srcs: seq<seq<Record>>)
    ensures |Merge(srcs)| == |Flatten(srcs)|
  {
    MergePermutation(srcs);
    assert |multiset(Merge(srcs))| == |multiset(Flatten(srcs))|;
  }

  // ----- The visualiser's merge -----

  class VisualizeSort {
    var steps: seq<Step>

    constructor ()
      ensures steps == []
    {
      steps := [];
    }

    /** The first loop of `_merge_with_steps`: read the first record of
        every run file, push it and log the push. */
    method SeedWithSteps(srcs: seq<seq<Record>>, passId: nat, groupId: nat)
      returns (files: seq<seq<Record>>, heap: seq<Entry>)
      modifies this
      ensures |files| == |srcs|
      ensures forall x :: 0 <= x < |srcs| ==> files[x] == Advance(srcs[x])
      ensures HeapOf(heap, srcs, |srcs|)
      ensures steps == old(steps) + SeedSteps(srcs, passId, groupId, |srcs|)
    {
      files := srcs;
      heap := [];
      for i := 0 to |srcs|
        invariant SeedInv(srcs, files, heap, i)
        invariant steps == old(steps) + SeedSteps(srcs, passId, groupId, i)
      {
        var num := NextRecord(files[i]);
        var files' := files[i := Advance(files[i])];
        var heap' := heap + (if num.Some? then [Entry(num.value, i)] else []);
        SeedStep(srcs, files, heap, i, num, files', heap');
        SeedStepsNext(srcs, passId, groupId, i, num);
        ghost var pushed := if num.Some? then [Push(passId, groupId, num.value, i)] else [];
        AppendAssoc(old(steps), SeedSteps(srcs, passId, groupId, i), pushed);
        if num.Some? {
          steps := steps + [Push(passId, groupId, num.value, i)];
        }
        files := files';
        heap := heap';
      }
    }

    /** `_merge_with_steps`: the merge of `merge_k_runs`, logging every
        push, pop and write; returns the merged run it writes. */
    method MergeWithSteps(srcs: seq<seq<Record>>, passId: nat, groupId: nat) returns (out: seq<Record>)
      modifies this
      ensures out == Merge(srcs)
      ensures steps == old(steps) + MergeSteps(srcs, passId, groupId)
    {
      var files, heap := SeedWithSteps(srcs, passId, groupId);
      steps := steps + [MergeStart(passId, groupId)];
      ghost var before := steps;
      assert before == old(steps) + SeedSteps(srcs, passId, groupId, |srcs|) + [MergeStart(passId, groupId)];
      ghost var target := steps + PopSteps(srcs, 0, passId, groupId);
      ghost var rest := srcs;
      out := [];
      var mergedCount: nat := 0;
      while |heap| > 0
        invariant MergeLoopInv(srcs, rest, files, heap, out)
        invariant mergedCount == |out|
        invariant steps + PopSteps(rest, mergedCount, passId, groupId) == target
        decreases |Flatten(rest)|
      {
        files, heap, out, mergedCount, rest := PopWithSteps(srcs, rest, files, heap, out, mergedCount, passId, groupId);
      }
      PopLoopDone(srcs, rest, files, heap, out, mergedCount, passId, groupId);
      ghost var pops := PopSteps(srcs, 0, passId, groupId);
      assert steps == before + pops;
      steps := steps + [MergeEnd(passId, groupId, mergedCount)];
      MergeStepsShape(srcs, passId, groupId, mergedCount, old(steps), before, steps);
    }

    /** One turn of the second loop of `_merge_with_steps`: pop the least
        head and log it, write it and log the write with the new count, and
        read the next record of the same run, pushing and logging it if
        there is one. */
    method PopWithSteps(ghost srcs: seq<seq<Record>>, ghost rest: seq<seq<Record>>, files: seq<seq<Record>>,
                        heap: seq<Entry>, out: seq<Record>, mergedCount: nat, passId: nat, groupId: nat)
      returns (files': seq<seq<Record>>, heap': seq<Entry>, out': seq<Record>, mergedCount': nat,
               ghost rest': seq<seq<Record>>)
      requires MergeLoopInv(srcs, rest, files, heap, out) && |heap| > 0 && mergedCount == |out|
      modifies this
      ensures MergeLoopInv(srcs, rest', files', heap', out') && mergedCount' == |out'|
      ensures |Flatten(rest')| < |Flatten(rest)|
      ensures steps + PopSteps(rest', mergedCount', passId, groupId) ==
              old(steps) + PopSteps(rest, mergedCount, passId, groupId)
    {
      var top, j, remaining := HeapPop(heap);
      var m := top.src;
      steps := steps + [Pop(passId, groupId, top.value, m)];
      mergedCount' := mergedCount + 1;
      steps := steps + [Emit(passId, groupId, top.value, mergedCount')];
      var nxt := NextRecord(files[m]);
      rest' := rest[m := rest[m][1..]];
      files' := files[m := Advance(files[m])];
      heap' := remaining + (if nxt.Some? then [Entry(nxt.value, m)] else []);
      if nxt.Some? {
        steps := steps + [Push(passId, groupId, nxt.value, m)];
      }
      PopStepsStep(srcs, rest, files, heap, out, top, j, nxt, mergedCount, passId, groupId, old(steps), steps);
      out' := out + [top.value];
      MergeLoopStep(srcs, rest, files, heap, out, top, j, nxt, rest', files', heap', out');
    }
  }

  /** The log after the seed steps, the start step, the pop loop's steps
      and the end step is the log before and `MergeSteps`. */
  lemma MergeStepsShape(srcs: seq<seq<Record>>, passId: nat, groupId: nat, n: nat,
                        st0: seq<Step>, before: seq<Step>, st: seq<Step>)
    requires n == |Merge(srcs)|
    requires before == st0 + SeedSteps(srcs, passId, groupId, |srcs|) + [MergeStart(passId, groupId)]
    requires st == before + PopSteps(srcs, 0, passId, groupId) + [MergeEnd(passId, groupId, n)]
    ensures st == st0 + MergeSteps(srcs, passId, groupId)
  {
  }

  /** When the heap is empty the merge is written and no steps remain. */
  lemma PopLoopDone(srcs: seq<seq<Record>>, rest: seq<seq<Record>>, files: seq<seq<Record>>, heap: seq<Entry>,
                    out: seq<Record>, emitted: nat, passId: nat, groupId: nat)
    requires MergeLoopInv(srcs, rest, files, heap, out) && |heap| == 0
    ensures out == Merge(srcs) && PopSteps(rest, emitted, passId, groupId) == []
  {
    assert MinLive(rest, |rest|) == None;
    PopStepsEnd(rest, emitted, passId, groupId);
  }

  /** One turn of the pop loop appends what `PopSteps` begins with. */
  lemma PopStepsStep(srcs: seq<seq<Record>>, rest: seq<seq<Record>>, files: seq<seq<Record>>, heap: seq<Entry>,
                     out: seq<Record>, top: Entry, j: nat, nxt: Option<Record>,
                     emitted: nat, passId: nat, groupId: nat, st: seq<Step>, st': seq<Step>)
    requires MergeLoopInv(srcs, rest, files, heap, out)
    requires j < |heap| && top == heap[j] && forall e :: e in heap ==> EntryLe(top, e)
    requires top.src < |files| && nxt == NextRecord(files[top.src])
    requires st' == st + [Pop(passId, groupId, top.value, top.src)] + [Emit(passId, groupId, top.value, emitted + 1)] +
                    (if nxt.Some? then [Push(passId, groupId, nxt.value, top.src)] else [])
    ensures top.src < |rest| && rest[top.src] != []
    ensures st + PopSteps(rest, emitted, passId, groupId) ==
            st' + PopSteps(rest[top.src := rest[top.src][1..]], emitted + 1, passId, groupId)
  {
    var m := PoppedIsMinLive(heap, rest, top, j);
    assert files[m] == Advance(rest[m]) == rest[m][1..];
    TurnAppends(rest, m, nxt, emitted, passId, groupId, st, st');
  }

  /** The steps a turn appends, once the popped source is known. */
  lemma TurnAppends(rest: seq<seq<Record>>, m: nat, nxt: Option<Record>,
                    emitted: nat, passId: nat, groupId: nat, st: seq<Step>, st': seq<Step>)
    requires MinLive(rest, |rest|) == Some(m)
    requires nxt == NextRecord(rest[m][1..])
    requires st' == st + [Pop(passId, groupId, rest[m][0], m)] + [Emit(passId, groupId, rest[m][0], emitted + 1)] +
                    (if nxt.Some? then [Push(passId, groupId, nxt.value, m)] else [])
    ensures st + PopSteps(rest, emitted, passId, groupId) ==
            st' + PopSteps(rest[m := rest[m][1..]], emitted + 1, passId, groupId)
  {
    var a := [Pop(passId, groupId, rest[m][0], m)];
    var b := [Emit(passId, groupId, rest[m][0], emitted + 1)];
    var c := if nxt.Some? then [Push(passId, groupId, nxt.value, m)] else [];
    var later := PopSteps(rest[m := rest[m][1..]], emitted + 1, passId, groupId);
    assert TurnSteps(rest, m, emitted, passId, groupId) == a + b + c;
    PopStepsCons(rest, m, emitted, passId, groupId);
    AppendTurn(st, a, b, c, later);
  }

  lemma AppendTurn(st: seq<Step>, a: seq<Step>, b: seq<Step>, c: seq<Step>, later: seq<Step>)
    ensures st + (a + b + c + later) == st + a + b + c + later
  {
  }

  lemma AppendAssoc(a: seq<Step>, b: seq<Step>, c: seq<Step>)
    ensures a + (b + c) == a + b + c
  {
  }
}
