/** The k-way merge of `merge_k_runs` (sorter/external_merge_sort.py).

    The heap holds `(value, index)` pairs and heapq orders them as tuples:
    by value, and on equal values by the index of the source run.  The
    merge is specified by `MergeTrace`, which at every step emits the least
    such pair among the sources' next unread records; `KWayMerge` is the
    heap loop of the source and is proved to compute exactly that trace's
    values.  The heap itself is an abstract priority queue: pushing appends,
    popping removes a least entry.
 */
module KMerge {
  import opened Records
  import opened Errors

  /** A heap entry: a record and the index of the run it was read from. */
  datatype Entry = Entry(value: Record, src: nat)

  /** heapq's order on `(value, index)` tuples. */
  predicate EntryLe(a: Entry, b: Entry) {
    a.value < b.value || (a.value == b.value && a.src <= b.src)
  }

  /** The next record of source i, tagged with its index. */
  function Head(rest: seq<seq<Record>>, i: nat): Entry
    requires i < |rest| && rest[i] != []
  {
    Entry(rest[i][0], i)
  }

  /** Emitting the head of source m removes exactly that record from what is
      still unread. */
  lemma AdvanceRest(rest: seq<seq<Record>>, m: nat)
    requires m < |rest| && rest[m] != []
    ensures multiset(Flatten(rest)) == multiset(Flatten(rest[m := rest[m][1..]])) + multiset{rest[m][0]}
    ensures |Flatten(rest[m := rest[m][1..]])| < |Flatten(rest)|
  {
    FlattenUpdate(rest, m, rest[m][1..]);
    assert rest[m] == [rest[m][0]] + rest[m][1..];
  }

  /** The non-empty source whose head is least in heapq's order, among
      sources 0..n-1 (ties go to the lower index). */
  function MinLive(rest: seq<seq<Record>>, n: nat): (r: Option<nat>)
    requires n <= |rest|
    ensures r.None? <==> forall i :: 0 <= i < n ==> rest[i] == []
    ensures r.Some? ==> r.value < n && rest[r.value] != []
    ensures r.Some? ==> forall i :: 0 <= i < n && rest[i] != [] ==>
              EntryLe(Head(rest, r.value), Head(rest, i))
  {
    if n == 0 then None
    else
      var b := MinLive(rest, n - 1);
      var i := n - 1;
      if rest[i] == [] then b
      else if b.None? then Some(i)
      else if rest[i][0] < rest[b.value][0] then Some(i)
      else b
  }

  /** The entries the merge pops, in order, when `rest` is what every source
      still holds. */
  function MergeTrace(rest: seq<seq<Record>>): seq<Entry>
    decreases |Flatten(rest)|
  {
    match MinLive(rest, |rest|)
    case None => []
    case Some(m) =>
      AdvanceRest(rest, m);
      [Head(rest, m)] + MergeTrace(rest[m := rest[m][1..]])
  }

  function Values(t: seq<Entry>): (vs: seq<Record>)
    ensures |vs| == |t|
  {
    seq(|t|, k requires 0 <= k < |t| => t[k].value)
  }

  /** The content of the run `merge_k_runs` writes for input runs `srcs`. */
  function Merge(srcs: seq<seq<Record>>): seq<Record>
  {
    Values(MergeTrace(srcs))
  }

  predicate LexSorted(t: seq<Entry>) {
    forall a, b :: 0 <= a < b < |t| ==> EntryLe(t[a], t[b])
  }

  predicate AllSorted(srcs: seq<seq<Record>>) {
    forall i :: 0 <= i < |srcs| ==> Sorted(srcs[i])
  }

  /** The merge emits every unread record exactly once. */
  lemma {:induction false} MergeTracePermutation(rest: seq<seq<Record>>)
    ensures multiset(Values(MergeTrace(rest))) == multiset(Flatten(rest))
    decreases |Flatten(rest)|
  {
    match MinLive(rest, |rest|)
    case None =>
      FlattenOfEmpties(rest);
    case Some(m) =>
      var rest' := rest[m := rest[m][1..]];
      AdvanceRest(rest, m);
      MergeTracePermutation(rest');
      var t' := MergeTrace(rest');
      assert MergeTrace(rest) == [Head(rest, m)] + t';
      ValuesCons(Head(rest, m), t');
      assert multiset([rest[m][0]] + Values(t')) == multiset{rest[m][0]} + multiset(Values(t'));
  }

  lemma ValuesCons(e: Entry, t: seq<Entry>)
    ensures Values([e] + t) == [e.value] + Values(t)
  {
  }

  /** Every entry of t comes from a non-empty source of `rest` and is no
      smaller than that source's head. */
  predicate AboveHeads(t: seq<Entry>, rest: seq<seq<Record>>) {
    forall k :: 0 <= k < |t| ==>
      t[k].src < |rest| && rest[t[k].src] != [] && rest[t[k].src][0] <= t[k].value
  }

  /** With sorted sources, every entry popped comes from a non-empty source
      and is no smaller than that source's current head. */
  lemma {:induction false} MergeTraceAboveHeads(rest: seq<seq<Record>>)
    requires AllSorted(rest)
    ensures AboveHeads(MergeTrace(rest), rest)
    decreases |Flatten(rest)|
  {
    match MinLive(rest, |rest|)
    case None =>
    case Some(m) =>
      var rest' := rest[m := rest[m][1..]];
      AdvanceRest(rest, m);
      assert AllSorted(rest') by {
        assert Sorted(rest[m]);
      }
      MergeTraceAboveHeads(rest');
      var t' := MergeTrace(rest');
      var t := MergeTrace(rest);
      assert t == [Head(rest, m)] + t';
      forall k | 0 < k < |t|
        ensures t[k].src < |rest| && rest[t[k].src] != [] && rest[t[k].src][0] <= t[k].value
      {
        assert t[k] == t'[k - 1];
        AboveHeadAfterPop(rest, m, t'[k - 1]);
      }
  }

  /** An entry at or above a head of the sources after a pop is at or above
      the corresponding head before it. */
  lemma AboveHeadAfterPop(rest: seq<seq<Record>>, m: nat, e: Entry)
    requires AllSorted(rest) && m < |rest| && rest[m] != []
    requires var rest' := rest[m := rest[m][1..]];
      e.src < |rest'| && rest'[e.src] != [] && rest'[e.src][0] <= e.value
    ensures e.src < |rest| && rest[e.src] != [] && rest[e.src][0] <= e.value
  {
    if e.src == m {
      assert Sorted(rest[m]);
      assert rest[m][0] <= rest[m][1];
    }
  }

  /** With sorted sources the popped entries are ordered as heapq orders
      them: by value, and among equal values by source index. */
  lemma {:induction false} MergeTraceLexSorted(rest: seq<seq<Record>>)
    requires AllSorted(rest)
    ensures LexSorted(MergeTrace(rest))
    decreases |Flatten(rest)|
  {
    match MinLive(rest, |rest|)
    case None =>
    case Some(m) =>
      var rest' := rest[m := rest[m][1..]];
      AdvanceRest(rest, m);
      assert AllSorted(rest') by {
        assert Sorted(rest[m]);
      }
      MergeTraceLexSorted(rest');
      MergeTraceAboveHeads(rest');
      HeadBelowLater(rest, m, MergeTrace(rest'));
      LexSortedCons(Head(rest, m), MergeTrace(rest'));
      assert MergeTrace(rest) == [Head(rest, m)] + MergeTrace(rest');
  }

  /** The head MinLive picks is below everything popped after it. */
  lemma HeadBelowLater(rest: seq<seq<Record>>, m: nat, t': seq<Entry>)
    requires AllSorted(rest) && MinLive(rest, |rest|) == Some(m)
    requires AboveHeads(t', rest[m := rest[m][1..]])
    ensures forall j :: 0 <= j < |t'| ==> EntryLe(Head(rest, m), t'[j])
  {
    var rest' := rest[m := rest[m][1..]];
    var h := Head(rest, m);
    forall j | 0 <= j < |t'| ensures EntryLe(h, t'[j]) {
      var s := t'[j].src;
      assert s < |rest'| && rest'[s] != [] && rest'[s][0] <= t'[j].value;
      if s == m {
        assert |rest[m]| >= 2 && rest'[m][0] == rest[m][1];
        assert Sorted(rest[m]);
        assert rest[m][0] <= rest[m][1];
      } else {
        assert rest'[s] == rest[s];
        assert EntryLe(h, Head(rest, s));
      }
    }
  }

  lemma LexSortedCons(h: Entry, t': seq<Entry>)
    requires LexSorted(t')
    requires forall j :: 0 <= j < |t'| ==> EntryLe(h, t'[j])
    ensures LexSorted([h] + t')
  {
    var t := [h] + t';
    forall a, b | 0 <= a < b < |t| ensures EntryLe(t[a], t[b]) {
      if a == 0 {
        assert t[b] == t'[b - 1];
      } else {
        assert t[a] == t'[a - 1] && t[b] == t'[b - 1];
      }
    }
  }

  /** When every input run is non-decreasing, the merged run is
      non-decreasing, is a permutation of the concatenated inputs, and is as
      long as all of them together. */
  lemma MergeSortedPermutation(srcs: seq<seq<Record>>)
    requires AllSorted(srcs)
    ensures Sorted(Merge(srcs))
    ensures multiset(Merge(srcs)) == multiset(Flatten(srcs))
    ensures |Merge(srcs)| == |Flatten(srcs)|
  {
    var t := MergeTrace(srcs);
    MergeTraceLexSorted(srcs);
    MergeTracePermutation(srcs);
    assert |Merge(srcs)| == |multiset(Merge(srcs))| == |multiset(Flatten(srcs))| == |Flatten(srcs)|;
  }

  /** Whatever the inputs, the merge emits each of their records exactly once. */
  lemma MergePermutation(srcs: seq<seq<Record>>)
    ensures multiset(Merge(srcs)) == multiset(Flatten(srcs))
  {
    MergeTracePermutation(srcs);
  }

  /** Equal values leave the heap lower source index first. */
  lemma MergeTieBreak(srcs: seq<seq<Record>>)
    requires AllSorted(srcs)
    ensures var t := MergeTrace(srcs);
      && Values(t) == Merge(srcs)
      && forall a, b :: 0 <= a < b < |t| && t[a].value == t[b].value ==> t[a].src <= t[b].src
  {
    MergeTraceLexSorted(srcs);
  }

  /** A group of one run is copied unchanged. */
  lemma {:induction false} MergeOfOne(s: seq<Record>)
    ensures Merge([s]) == s
    decreases |s|
  {
    if s != [] {
      assert MinLive([s], 1) == Some(0);
      assert [s][0 := s[1..]] == [s[1..]];
      MergeOfOne(s[1..]);
      var t := MergeTrace([s]);
      assert t == [Entry(s[0], 0)] + MergeTrace([s[1..]]);
      assert s == [s[0]] + s[1..];
    } else {
      assert MinLive([s], 1) == None;
    }
  }

  /** A run file, with its read position: the records not read yet.
      `_read_double` returns the next one, or None at the end. */
  function NextRecord(f: seq<Record>): (r: Option<Record>)
    ensures r.None? <==> f == []
    ensures r.Some? ==> r.value == f[0]
  {
    if f == [] then None else Some(f[0])
  }

  /** The file after one `_read_double`. */
  function Advance(f: seq<Record>): (r: seq<Record>)
    ensures f == [] ==> r == []
    ensures f != [] ==> f == [f[0]] + r
  {
    if f == [] then [] else f[1..]
  }

  /** The heap holds exactly the pending heads of sources 0..n-1: one entry
      per source that still has an unemitted record below n, and that entry
      is the source's next unemitted record. */
  predicate HeapOf(heap: seq<Entry>, rest: seq<seq<Record>>, n: nat)
    requires n <= |rest|
  {
    && (forall k :: 0 <= k < |heap| ==>
          heap[k].src < n && rest[heap[k].src] != [] && heap[k] == Head(rest, heap[k].src))
    && (forall a, b :: 0 <= a < b < |heap| ==> heap[a].src != heap[b].src)
    && (forall i :: 0 <= i < n && rest[i] != [] ==> Head(rest, i) in heap)
  }

  /** heapq.heappop: removes and returns a least entry, at index j. */
  method HeapPop(heap: seq<Entry>) returns (top: Entry, j: nat, rest: seq<Entry>)
    requires |heap| > 0
    ensures j < |heap| && top == heap[j]
    ensures forall e :: e in heap ==> EntryLe(top, e)
    ensures rest == heap[..j] + heap[j + 1..]
    ensures multiset(rest) + multiset{top} == multiset(heap)
  {
    j := 0;
    var i := 1;
    while i < |heap|
      invariant 0 <= j < |heap| && 1 <= i <= |heap|
      invariant forall x :: 0 <= x < i ==> EntryLe(heap[j], heap[x])
    {
      if !EntryLe(heap[j], heap[i]) {
        j := i;
      }
      i := i + 1;
    }
    top := heap[j];
    rest := heap[..j] + heap[j + 1..];
    assert heap == heap[..j] + [heap[j]] + heap[j + 1..];
  }

  /** An entry other than the one at j survives its removal. */
  lemma InRemoved(heap: seq<Entry>, j: nat, e: Entry)
    requires j < |heap| && e in heap && e != heap[j]
    ensures e in heap[..j] + heap[j + 1..]
  {
    var k :| 0 <= k < |heap| && heap[k] == e;
    if k < j {
      assert heap[..j][k] == e;
    } else {
      assert heap[j + 1..][k - j - 1] == e;
    }
  }

  /** The invariant of the first loop of `merge_k_runs`: files 0..n-1 are
      one record further on and their first records are in the heap. */
  predicate SeedInv(srcs: seq<seq<Record>>, files: seq<seq<Record>>, heap: seq<Entry>, n: nat)
  {
    && n <= |srcs| && |files| == |srcs|
    && (forall x :: 0 <= x < n ==> files[x] == Advance(srcs[x]))
    && (forall x :: n <= x < |srcs| ==> files[x] == srcs[x])
    && HeapOf(heap, srcs, n)
  }

  /** One turn of the first loop keeps its invariant. */
  lemma SeedStep(srcs: seq<seq<Record>>, files: seq<seq<Record>>, heap: seq<Entry>, n: nat,
                 num: Option<Record>, files': seq<seq<Record>>, heap': seq<Entry>)
    requires SeedInv(srcs, files, heap, n) && n < |srcs|
    requires num == NextRecord(files[n]) && files' == files[n := Advance(files[n])]
    requires heap' == heap + (if num.Some? then [Entry(num.value, n)] else [])
    ensures num == NextRecord(srcs[n])
    ensures SeedInv(srcs, files', heap', n + 1)
  {
    assert files[n] == srcs[n];
  }

  /** The first loop of `merge_k_runs`: read the first record of every run
      file and push it, tagged with the run's index. */
  method SeedHeap(srcs: seq<seq<Record>>) returns (files: seq<seq<Record>>, heap: seq<Entry>)
    ensures |files| == |srcs|
    ensures forall x :: 0 <= x < |srcs| ==> files[x] == Advance(srcs[x])
    ensures HeapOf(heap, srcs, |srcs|)
  {
    files := srcs;
    heap := [];
    for i := 0 to |srcs|
      invariant SeedInv(srcs, files, heap, i)
    {
      var num := NextRecord(files[i]);
      var files' := files[i := Advance(files[i])];
      var heap' := heap + (if num.Some? then [Entry(num.value, i)] else []);
      SeedStep(srcs, files, heap, i, num, files', heap');
      files := files';
      heap := heap';
    }
  }

  /** The loop invariant of `merge_k_runs`: `rest` holds what each run has
      not yet emitted, each file is one record further on than that (its
      head sits in the heap), and the output so far followed by the rest of
      the trace is the whole merge. */
  predicate MergeLoopInv(srcs: seq<seq<Record>>, rest: seq<seq<Record>>, files: seq<seq<Record>>,
                         heap: seq<Entry>, out: seq<Record>)
  {
    && |rest| == |srcs| && |files| == |srcs|
    && (forall x :: 0 <= x < |srcs| ==> files[x] == Advance(rest[x]))
    && HeapOf(heap, rest, |srcs|)
    && out + Values(MergeTrace(rest)) == Merge(srcs)
  }

  /** The loop of `merge_k_runs` over the input run files: seed the heap
      with the first record of every non-empty run, then pop the least
      entry, emit its value and push the next record of the same run until
      the heap is empty. */
  method KWayMerge(srcs: seq<seq<Record>>) returns (out: seq<Record>)
    ensures out == Merge(srcs)
  {
    var files, heap := SeedHeap(srcs);
    ghost var rest := srcs;
    out := [];
    while |heap| > 0
      invariant MergeLoopInv(srcs, rest, files, heap, out)
      decreases |Flatten(rest)|
    {
      var top, j, remaining := HeapPop(heap);
      var m := top.src;
      var nxt := NextRecord(files[m]);
      ghost var rest' := rest[m := rest[m][1..]];
      var files' := files[m := Advance(files[m])];
      var heap' := remaining + (if nxt.Some? then [Entry(nxt.value, m)] else []);
      MergeLoopStep(srcs, rest, files, heap, out, top, j, nxt, rest', files', heap', out + [top.value]);
      out := out + [top.value];
      files := files';
      heap := heap';
      rest := rest';
    }
    assert MinLive(rest, |rest|) == None;
  }

  /** One iteration of the loop keeps its invariant and consumes one record. */
  lemma MergeLoopStep(srcs: seq<seq<Record>>, rest: seq<seq<Record>>, files: seq<seq<Record>>,
                      heap: seq<Entry>, out: seq<Record>, top: Entry, j: nat, nxt: Option<Record>,
                      rest': seq<seq<Record>>, files': seq<seq<Record>>, heap': seq<Entry>, out': seq<Record>)
    requires MergeLoopInv(srcs, rest, files, heap, out)
    requires j < |heap| && top == heap[j] && forall e :: e in heap ==> EntryLe(top, e)
    requires top.src < |files| && nxt == NextRecord(files[top.src])
    requires top.src < |rest| && rest[top.src] != [] && rest' == rest[top.src := rest[top.src][1..]]
    requires files' == files[top.src := Advance(files[top.src])]
    requires heap' == heap[..j] + heap[j + 1..] + (if nxt.Some? then [Entry(nxt.value, top.src)] else [])
    requires out' == out + [top.value]
    ensures |Flatten(rest')| < |Flatten(rest)|
    ensures MergeLoopInv(srcs, rest', files', heap', out')
  {
    var m := PoppedIsMinLive(heap, rest, top, j);
    MergeTraceStep(rest, m);
    OutputStep(srcs, rest, out, m);
    FilesStep(rest, files, m, rest', files');
    PushKeepsHeapOf(heap, rest, j, top, m, nxt, heap');
  }

  lemma OutputStep(srcs: seq<seq<Record>>, rest: seq<seq<Record>>, out: seq<Record>, m: nat)
    requires MinLive(rest, |rest|) == Some(m)
    requires out + Values(MergeTrace(rest)) == Merge(srcs)
    ensures (out + [rest[m][0]]) + Values(MergeTrace(rest[m := rest[m][1..]])) == Merge(srcs)
  {
    MergeTraceStep(rest, m);
    assert (out + [rest[m][0]]) + Values(MergeTrace(rest[m := rest[m][1..]])) == out + Values(MergeTrace(rest));
  }

  lemma FilesStep(rest: seq<seq<Record>>, files: seq<seq<Record>>, m: nat,
                  rest': seq<seq<Record>>, files': seq<seq<Record>>)
    requires |files| == |rest| && m < |rest| && rest[m] != []
    requires forall x :: 0 <= x < |rest| ==> files[x] == Advance(rest[x])
    requires rest' == rest[m := rest[m][1..]] && files' == files[m := Advance(files[m])]
    ensures |files'| == |rest'| == |rest|
    ensures forall x :: 0 <= x < |rest| ==> files'[x] == Advance(rest'[x])
  {
  }

  /** One step of MergeTrace: the head of the least source is emitted. */
  lemma MergeTraceStep(rest: seq<seq<Record>>, m: nat)
    requires MinLive(rest, |rest|) == Some(m)
    ensures |Flatten(rest[m := rest[m][1..]])| < |Flatten(rest)|
    ensures Values(MergeTrace(rest)) == [rest[m][0]] + Values(MergeTrace(rest[m := rest[m][1..]]))
  {
    AdvanceRest(rest, m);
    ValuesCons(Head(rest, m), MergeTrace(rest[m := rest[m][1..]]));
  }

  /** The entry heappop returns is the head MergeTrace emits next. */
  lemma PoppedIsMinLive(heap: seq<Entry>, rest: seq<seq<Record>>, top: Entry, j: nat) returns (m: nat)
    requires HeapOf(heap, rest, |rest|) && j < |heap| && top == heap[j]
    requires forall e :: e in heap ==> EntryLe(top, e)
    ensures MinLive(rest, |rest|) == Some(m) && top == Head(rest, m) && m == top.src
  {
    assert rest[top.src] != [];
    var r := MinLive(rest, |rest|);
    m := r.value;
    assert Head(rest, m) in heap;
    assert EntryLe(Head(rest, m), Head(rest, top.src));
  }

  /** Removing the popped entry of source m and pushing that source's next
      record, if any, keeps the heap equal to the pending heads. */
  lemma PushKeepsHeapOf(heap: seq<Entry>, rest: seq<seq<Record>>, j: nat, top: Entry, m: nat,
                        nxt: Option<Record>, heap': seq<Entry>)
    requires HeapOf(heap, rest, |rest|) && j < |heap| && top == heap[j] && m == top.src
    requires nxt.None? <==> rest[m][1..] == []
    requires nxt.Some? ==> nxt.value == rest[m][1]
    requires heap' == heap[..j] + heap[j + 1..] + (if nxt.Some? then [Entry(nxt.value, m)] else [])
    ensures HeapOf(heap', rest[m := rest[m][1..]], |rest|)
  {
  }
}
