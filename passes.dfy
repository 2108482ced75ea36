/** Run names, the bucket lists of `generate_runs`, the groups of
    `merge_pass` and what one pass computes (sorter/external_merge_sort.py).

    A run file in the work directory is named `run{run_id}.bin` when
    run generation writes it and `pass{pass_id}_run{group_id}.bin` when a
    merge pass writes it; the two name shapes are the two constructors of
    `RunName`, so distinct numbers always name distinct files.
 */
module Passes {
  import opened Records
  import opened KMerge

  datatype RunName = Initial(runId: nat) | Merged(passId: nat, groupId: nat)

  // ----- Buckets: `self.runs[run_id % self.k].append(run_name)` -----

  /** The run names bucket b holds after runs 0..n-1 were generated. */
  function Bucket(n: nat, k: nat, b: nat): seq<RunName>
    requires k > 0
  {
    if n == 0 then []
    else Bucket(n - 1, k, b) + (if (n - 1) % k == b then [Initial(n - 1)] else [])
  }

  /** `self.runs` after runs 0..n-1 were generated: k buckets. */
  function Buckets(n: nat, k: nat): (bs: seq<seq<RunName>>)
    requires k > 0
    ensures |bs| == k
  {
    seq(k, b requires 0 <= b < k => Bucket(n, k, b))
  }

  /** The run names in read order. */
  function InitialNames(n: nat): (ns: seq<RunName>)
    ensures |ns| == n
    ensures forall r :: 0 <= r < n ==> ns[r] == Initial(r)
  {
    seq(n, r requires 0 <= r < n => Initial(r))
  }

  /** Appending run n to its bucket turns the buckets of n runs into the
      buckets of n + 1 runs. */
  lemma BucketsStep(n: nat, k: nat)
    requires k > 0
    ensures Buckets(n + 1, k) == Buckets(n, k)[n % k := Buckets(n, k)[n % k] + [Initial(n)]]
  {
    var a, b := Buckets(n + 1, k), Buckets(n, k)[n % k := Buckets(n, k)[n % k] + [Initial(n)]];
    forall i | 0 <= i < k ensures a[i] == b[i] {
      assert a[i] == Bucket(n + 1, k, i);
    }
  }

  /** Run names of one shape, with strictly increasing numbers. */
  predicate IncreasingIds(s: seq<RunName>) {
    forall i, j :: 0 <= i < j < |s| ==> s[i].Initial? && s[j].Initial? && s[i].runId < s[j].runId
  }

  /** Bucket b holds exactly the runs r < n with r % k == b, each once, in
      increasing order. */
  lemma {:induction false} BucketContents(n: nat, k: nat, b: nat)
    requires k > 0
    ensures forall x :: x in Bucket(n, k, b) <==> x.Initial? && x.runId < n && x.runId % k == b
    ensures IncreasingIds(Bucket(n, k, b))
  {
    if n > 0 {
      BucketContents(n - 1, k, b);
      var s, s' := Bucket(n - 1, k, b), Bucket(n, k, b);
      if (n - 1) % k == b {
        assert s' == s + [Initial(n - 1)];
        forall i, j | 0 <= i < j < |s'| ensures s'[i].Initial? && s'[j].Initial? && s'[i].runId < s'[j].runId {
          assert s'[i] == s[i] && s[i] in s;
          if j < |s| {
            assert s'[j] == s[j];
          }
        }
      } else {
        assert s' == s;
      }
    }
  }

  /** The list `multi_pass_merge` flattens from the buckets holds every
      generated run name exactly once. */
  lemma {:induction false} BucketsFlattenPermutation(n: nat, k: nat)
    requires k > 0
    ensures multiset(Flatten(Buckets(n, k))) == multiset(InitialNames(n))
  {
    if n == 0 {
      FlattenOfEmptyBuckets(k);
    } else {
      BucketsFlattenPermutation(n - 1, k);
      var bs := Buckets(n - 1, k);
      var m := (n - 1) % k;
      BucketsStep(n - 1, k);
      AppendToBucket(bs, m, Initial(n - 1));
      assert multiset(Flatten(Buckets(n, k))) == multiset(Flatten(bs)) + multiset{Initial(n - 1)};
      InitialNamesStep(n - 1);
    }
  }

  lemma InitialNamesStep(n: nat)
    ensures multiset(InitialNames(n + 1)) == multiset(InitialNames(n)) + multiset{Initial(n)}
  {
    assert InitialNames(n + 1) == InitialNames(n) + [Initial(n)];
  }

  lemma AppendToBucket(bs: seq<seq<RunName>>, m: nat, x: RunName)
    requires m < |bs|
    ensures multiset(Flatten(bs[m := bs[m] + [x]])) == multiset(Flatten(bs)) + multiset{x}
  {
    FlattenUpdate(bs, m, bs[m] + [x]);
    var l, r := Flatten(bs[..m]), Flatten(bs[m + 1..]);
    assert multiset(l + (bs[m] + [x]) + r) == multiset(l) + multiset(bs[m]) + multiset{x} + multiset(r);
    assert multiset(l + bs[m] + r) == multiset(l) + multiset(bs[m]) + multiset(r);
  }

  lemma FlattenOfEmptyBuckets(k: nat)
    requires k > 0
    ensures Flatten(Buckets(0, k)) == []
  {
    FlattenOfEmpties(Buckets(0, k));
  }

  /** The flattened list is in bucket-major order, not read order: three
      runs with k == 2 are merged in the order run0, run2, run1. */
  lemma BucketMajorOrder()
    ensures Flatten(Buckets(3, 2)) == [Initial(0), Initial(2), Initial(1)]
  {
    assert Bucket(3, 2, 0) == [Initial(0), Initial(2)];
    assert Bucket(3, 2, 1) == [Initial(1)];
    var bs := Buckets(3, 2);
    assert bs == [[Initial(0), Initial(2)], [Initial(1)]];
    FlattenSingle(bs[1]);
    assert bs[1..] == [bs[1]];
  }

  // ----- Groups: `runs[i:i + self.k]`, i stepping by k -----

  /** The contiguous slices `merge_pass` merges, in group order. */
  function Groups<T>(s: seq<T>, k: nat): seq<seq<T>>
    requires k > 0
    decreases |s|
  {
    if s == [] then [] else [s[..Min(k, |s|)]] + Groups(s[Min(k, |s|)..], k)
  }

  /** The groups partition the list: their concatenation is the list, none
      is empty, none is longer than k, and all but the last hold exactly k. */
  lemma {:induction false} GroupsPartition<T>(s: seq<T>, k: nat)
    requires k > 0
    ensures Flatten(Groups(s, k)) == s
    ensures var gs := Groups(s, k);
      && (forall g :: 0 <= g < |gs| ==> 0 < |gs[g]| <= k)
      && (forall g :: 0 <= g < |gs| - 1 ==> |gs[g]| == k)
    decreases |s|
  {
    if s != [] {
      var n := Min(k, |s|);
      GroupsPartition(s[n..], k);
      var gs := Groups(s, k);
      assert gs[1..] == Groups(s[n..], k);
      assert s == s[..n] + s[n..];
      if |gs| > 1 {
        assert n == k;
      }
    }
  }

  /** `merge_pass` returns ceil(len(runs) / k) runs, the ceiling stated
      without division. */
  lemma {:induction false} GroupsCount<T>(s: seq<T>, k: nat)
    requires k > 0
    ensures var c := |Groups(s, k)|;
      (c - 1) * k < |s| <= c * k || (s == [] && c == 0)
    decreases |s|
  {
    if s != [] {
      var n := Min(k, |s|);
      GroupsCount(s[n..], k);
      assert Groups(s, k)[1..] == Groups(s[n..], k);
      CeilStep(|Groups(s[n..], k)|, |s|, k);
    }
  }

  /** The arithmetic of one more group of k. */
  lemma CeilStep(c: int, n: int, k: int)
    requires k > 0 && n > 0
    requires n <= k ==> c == 0
    requires n > k ==> (c - 1) * k < n - k <= c * k
    ensures c * k < n <= (c + 1) * k
  {
    assert (c + 1) * k == c * k + k;
  }

  /** The same count as Python's ceil(len(runs) / k). */
  lemma GroupsCountDiv<T>(s: seq<T>, k: nat)
    requires k > 0
    ensures |Groups(s, k)| == (|s| + k - 1) / k
  {
    GroupsCount(s, k);
    if s != [] {
      CeilIsDiv(|Groups(s, k)|, |s|, k);
    } else {
      assert (k - 1) / k == 0;
    }
  }

  lemma CeilIsDiv(c: int, n: int, k: int)
    requires k > 0 && (c - 1) * k < n <= c * k
    ensures c == (n + k - 1) / k
  {
    var q, r := (n + k - 1) / k, (n + k - 1) % k;
    assert q * k + r == n + k - 1 && 0 <= r < k;
    assert (c + 1) * k == c * k + k;
    MulLess(q, c + 1, k);
    MulLess(c - 1, q, k);
  }

  lemma MulLess(a: int, b: int, k: int)
    requires k > 0 && a * k < b * k
    ensures a < b
  {
    assert (b - a) * k == b * k - a * k > 0;
  }

  /** With k >= 2 a pass over more than one run leaves strictly fewer runs,
      and never none: the measure that makes `multi_pass_merge` stop. */
  lemma GroupsShrink<T>(s: seq<T>, k: nat)
    requires k >= 2 && |s| > 1
    ensures 0 < |Groups(s, k)| < |s|
  {
    GroupsCount(s, k);
    CeilBelow(|Groups(s, k)|, |s|, k);
  }

  lemma CeilBelow(c: int, n: int, k: int)
    requires k >= 2 && n > 1 && (c - 1) * k < n <= c * k
    ensures 0 < c < n
  {
    assert c >= 1;
    assert (c - 1) * k - (c - 1) * 2 == (c - 1) * (k - 2) >= 0;
  }

  /** With k == 1 every group is one run: the pass keeps the count, so the
      loop of `multi_pass_merge` never ends once there are two runs. */
  lemma GroupsOfOne<T>(s: seq<T>)
    ensures |Groups(s, 1)| == |s|
  {
    GroupsCount(s, 1);
  }

  /** The group `runs[i:i + k]` of `merge_pass`, taken at index i, is the
      first group of what is left from i on. */
  lemma GroupsAt<T>(s: seq<T>, i: nat, k: nat)
    requires k > 0 && i < |s|
    ensures Min(i + k, |s|) <= |s|
    ensures Groups(s[i..], k) == [s[i..Min(i + k, |s|)]] + Groups(s[Min(i + k, |s|)..], k)
  {
    var t := s[i..];
    assert t[..Min(k, |t|)] == s[i..Min(i + k, |s|)];
    assert t[Min(k, |t|)..] == s[Min(i + k, |s|)..];
  }

  // ----- The work directory -----

  /** The contents of the named runs, in list order. */
  function Contents(wd: map<RunName, seq<Record>>, names: seq<RunName>): (c: seq<seq<Record>>)
    requires forall x :: x in names ==> x in wd
    ensures |c| == |names|
    ensures forall i :: 0 <= i < |names| ==> c[i] == wd[names[i]]
  {
    seq(|names|, i requires 0 <= i < |names| => wd[names[i]])
  }

  /** Writing a run that is not in the list leaves its contents unchanged. */
  lemma ContentsFrame(wd: map<RunName, seq<Record>>, wd': map<RunName, seq<Record>>, names: seq<RunName>)
    requires forall x :: x in names ==> x in wd && x in wd' && wd'[x] == wd[x]
    ensures Contents(wd', names) == Contents(wd, names)
  {
  }

  /** Reordering the list does not change which records its runs hold. */
  lemma {:induction false} ContentsPermutation(wd: map<RunName, seq<Record>>, a: seq<RunName>, b: seq<RunName>)
    requires forall x :: x in a ==> x in wd
    requires multiset(a) == multiset(b)
    ensures forall x :: x in b ==> x in wd
    ensures multiset(Flatten(Contents(wd, a))) == multiset(Flatten(Contents(wd, b)))
    decreases |a|
  {
    SameElements(a, b);
    if a != [] {
      var j := RemoveMatching(a, b);
      var b' := b[..j] + b[j + 1..];
      ContentsPermutation(wd, a[1..], b');
      ContentsRemove(wd, a, b, j);
    }
  }

  lemma SameElements<T>(a: seq<T>, b: seq<T>)
    requires multiset(a) == multiset(b)
    ensures forall x :: x in b ==> x in a
  {
    forall x | x in b ensures x in a {
      assert x in multiset(b);
    }
  }

  /** The first element of a occurs in b at some j, and what remains of
      both is again the same multiset. */
  lemma RemoveMatching<T>(a: seq<T>, b: seq<T>) returns (j: nat)
    requires a != [] && multiset(a) == multiset(b)
    ensures j < |b| && b[j] == a[0]
    ensures multiset(a[1..]) == multiset(b[..j] + b[j + 1..])
  {
    assert a[0] in multiset(b);
    j :| 0 <= j < |b| && b[j] == a[0];
    assert b == b[..j] + [b[j]] + b[j + 1..];
    assert a == [a[0]] + a[1..];
    assert multiset(a[1..]) == multiset(a) - multiset{a[0]};
  }

  lemma ContentsRemove(wd: map<RunName, seq<Record>>, a: seq<RunName>, b: seq<RunName>, j: nat)
    requires forall x :: x in a ==> x in wd
    requires forall x :: x in b ==> x in wd
    requires a != [] && j < |b| && b[j] == a[0]
    requires multiset(Flatten(Contents(wd, a[1..]))) == multiset(Flatten(Contents(wd, b[..j] + b[j + 1..])))
    ensures multiset(Flatten(Contents(wd, a))) == multiset(Flatten(Contents(wd, b)))
  {
    var ca, cb := Contents(wd, a), Contents(wd, b);
    assert ca[1..] == Contents(wd, a[1..]);
    assert ca == [ca[0]] + ca[1..];
    assert Contents(wd, b[..j] + b[j + 1..]) == cb[..j] + cb[j + 1..];
    FlattenRemove(cb, j);
  }

  /** Taking one inner sequence out of a concatenation removes exactly its
      elements. */
  lemma FlattenRemove<T>(ss: seq<seq<T>>, j: nat)
    requires j < |ss|
    ensures multiset(Flatten(ss)) == multiset(ss[j]) + multiset(Flatten(ss[..j] + ss[j + 1..]))
  {
    FlattenUpdate(ss, j, ss[j]);
    FlattenAppend(ss[..j], ss[j + 1..]);
  }

  /** Grouping the runs and then reading them is reading the groups of
      names. */
  lemma {:induction false} GroupsOfContents(wd: map<RunName, seq<Record>>, names: seq<RunName>, k: nat)
    requires k > 0 && forall x :: x in names ==> x in wd
    ensures |Groups(Contents(wd, names), k)| == |Groups(names, k)|
    ensures forall g :: 0 <= g < |Groups(names, k)| ==>
      (forall x :: x in Groups(names, k)[g] ==> x in names) &&
      Groups(Contents(wd, names), k)[g] == Contents(wd, Groups(names, k)[g])
    decreases |names|
  {
    if names != [] {
      var n := Min(k, |names|);
      var c := Contents(wd, names);
      assert Contents(wd, names[n..]) == c[n..];
      assert Contents(wd, names[..n]) == c[..n];
      GroupsOfContents(wd, names[n..], k);
      var gs, cgs := Groups(names, k), Groups(c, k);
      assert gs[1..] == Groups(names[n..], k);
      assert cgs[1..] == Groups(c[n..], k);
      forall g | 0 <= g < |gs| ensures (forall x :: x in gs[g] ==> x in names) && cgs[g] == Contents(wd, gs[g]) {
        if g > 0 {
          assert gs[g] == Groups(names[n..], k)[g - 1];
          assert forall x :: x in names[n..] ==> x in names;
        } else {
          assert forall x :: x in names[..n] ==> x in names;
        }
      }
    }
  }

  // ----- One pass -----

  /** A merge applied to every group. */
  function MapGroups(f: seq<seq<Record>> -> seq<Record>, gs: seq<seq<seq<Record>>>): (r: seq<seq<Record>>)
    ensures |r| == |gs|
  {
    seq(|gs|, g requires 0 <= g < |gs| => f(gs[g]))
  }

  /** The contents `merge_pass` writes: one merged run per group. */
  function PassSpec(c: seq<seq<Record>>, k: nat): (r: seq<seq<Record>>)
    requires k > 0
    ensures |r| == |Groups(c, k)|
    ensures forall g :: 0 <= g < |r| ==> r[g] == Merge(Groups(c, k)[g])
  {
    MapGroups(Merge, Groups(c, k))
  }

  /** A pass keeps the records: the new runs together are a permutation of
      the old ones together. */
  lemma PassPermutation(c: seq<seq<Record>>, k: nat)
    requires k > 0
    ensures multiset(Flatten(PassSpec(c, k))) == multiset(Flatten(c))
  {
    var gs := Groups(c, k);
    MergeAllPermutation(gs, PassSpec(c, k));
    GroupsPartition(c, k);
  }

  lemma {:induction false} MergeAllPermutation(gs: seq<seq<seq<Record>>>, ms: seq<seq<Record>>)
    requires |ms| == |gs| && forall g :: 0 <= g < |gs| ==> ms[g] == Merge(gs[g])
    ensures multiset(Flatten(ms)) == multiset(Flatten(Flatten(gs)))
  {
    if gs != [] {
      MergeAllPermutation(gs[1..], ms[1..]);
      MergePermutation(gs[0]);
      FlattenAppend(gs[0], Flatten(gs[1..]));
    }
  }

  /** A pass over sorted runs produces sorted runs. */
  lemma PassSorted(c: seq<seq<Record>>, k: nat)
    requires k > 0 && AllSorted(c)
    ensures AllSorted(PassSpec(c, k))
  {
    var gs := Groups(c, k);
    GroupsPartition(c, k);
    forall g | 0 <= g < |gs| ensures Sorted(Merge(gs[g])) {
      GroupsSorted(c, k, g);
      MergeSortedPermutation(gs[g]);
    }
  }

  /** Every run of a group is one of the runs the pass was given. */
  lemma {:induction false} GroupsSorted(c: seq<seq<Record>>, k: nat, g: nat)
    requires k > 0 && AllSorted(c) && g < |Groups(c, k)|
    ensures AllSorted(Groups(c, k)[g])
    decreases |c|
  {
    var n := Min(k, |c|);
    assert Groups(c, k)[1..] == Groups(c[n..], k);
    if g > 0 {
      assert AllSorted(c[n..]) by {
        forall i | 0 <= i < |c[n..]| ensures Sorted(c[n..][i]) {
          assert c[n..][i] == c[n + i];
        }
      }
      GroupsSorted(c[n..], k, g - 1);
    } else {
      assert forall i :: 0 <= i < |c[..n]| ==> c[..n][i] == c[i];
    }
  }

  // ----- The runs of a pass -----

  /** The names `merge_pass` returns for its first n groups:
      `pass<p>_run<g>.bin`. */
  function PassNames(passId: nat, n: nat): (ns: seq<RunName>)
    ensures |ns| == n
    ensures forall g :: 0 <= g < n ==> ns[g] == Merged(passId, g)
  {
    seq(n, g requires 0 <= g < n => Merged(passId, g))
  }

  /** Writing one run into a directory that has runs written over it. */
  lemma UnionUpdate(wd0: map<RunName, seq<Record>>, upd: map<RunName, seq<Record>>, x: RunName, v: seq<Record>)
    ensures (wd0 + upd)[x := v] == wd0 + upd[x := v]
  {
  }

  /** The runs a pass has written once its first |outs| groups are merged. */
  function PassOutputs(passId: nat, outs: seq<seq<Record>>): (m: map<RunName, seq<Record>>)
    ensures forall x :: x in m <==> x.Merged? && x.passId == passId && x.groupId < |outs|
  {
    map g | 0 <= g < |outs| :: Merged(passId, g) := outs[g]
  }

  /** Writing the next run of the pass. */
  lemma PassOutputsStep(passId: nat, outs: seq<seq<Record>>, v: seq<Record>)
    ensures PassOutputs(passId, outs)[Merged(passId, |outs|) := v] == PassOutputs(passId, outs + [v])
  {
    var a := PassOutputs(passId, outs)[Merged(passId, |outs|) := v];
    var b := PassOutputs(passId, outs + [v]);
    forall x | x in a ensures x in b && a[x] == b[x] {
      if x != Merged(passId, |outs|) {
        assert x in PassOutputs(passId, outs);
      }
    }
  }

  /** The runs a pass names hold what it wrote. */
  lemma PassOutputsContents(wd0: map<RunName, seq<Record>>, passId: nat, outs: seq<seq<Record>>)
    ensures forall x :: x in PassNames(passId, |outs|) ==> x in wd0 + PassOutputs(passId, outs)
    ensures Contents(wd0 + PassOutputs(passId, outs), PassNames(passId, |outs|)) == outs
  {
    var names := PassNames(passId, |outs|);
    var upd := PassOutputs(passId, outs);
    forall x | x in names ensures x in upd {
      var g :| 0 <= g < |names| && names[g] == x;
    }
    forall g | 0 <= g < |outs| ensures (wd0 + upd)[names[g]] == outs[g] {
      assert names[g] in upd;
    }
  }

  // ----- The loop of `merge_pass` -----

  /** The group `runs[i:i + k]`, clamped to the list as Python slices are. */
  function GroupAt(runs: seq<RunName>, i: nat, k: nat): (g: seq<RunName>)
    requires i < |runs|
    ensures forall x :: x in g ==> x in runs
  {
    runs[i..Min(i + k, |runs|)]
  }

  /** The loop of `merge_pass` turn by turn, from index i with `groupId`
      groups merged so far: merge `runs[i:i + k]` into
      `pass<passId>_run<groupId>.bin`, reading the work directory as it is
      at that turn, and go on from i + k. */
  function PassLoop(f: seq<seq<Record>> -> seq<Record>, wd: map<RunName, seq<Record>>, runs: seq<RunName>, k: nat, passId: nat, i: nat, groupId: nat,
                    newRuns: seq<RunName>): (map<RunName, seq<Record>>, seq<RunName>)
    requires k > 0 && forall x :: x in runs ==> x in wd
    decreases |runs| - i
  {
    if i >= |runs| then (wd, newRuns)
    else
      var newRun := Merged(passId, groupId);
      PassLoop(f, wd[newRun := f(Contents(wd, GroupAt(runs, i, k)))], runs, k, passId, i + k, groupId + 1,
               newRuns + [newRun])
  }

  /** One turn of the loop. */
  lemma PassLoopNext(f: seq<seq<Record>> -> seq<Record>, wd: map<RunName, seq<Record>>, runs: seq<RunName>, k: nat, passId: nat, i: nat, groupId: nat,
                     newRuns: seq<RunName>, wd': map<RunName, seq<Record>>)
    requires k > 0 && (forall x :: x in runs ==> x in wd) && i < |runs|
    requires wd' == wd[Merged(passId, groupId) := f(Contents(wd, GroupAt(runs, i, k)))]
    ensures forall x :: x in runs ==> x in wd'
    ensures PassLoop(f, wd, runs, k, passId, i, groupId, newRuns) ==
            PassLoop(f, wd', runs, k, passId, i + k, groupId + 1, newRuns + [Merged(passId, groupId)])
  {
  }

  /** No run of the list is one this pass writes. */
  predicate NotOfPass(runs: seq<RunName>, passId: nat) {
    forall x :: x in runs ==> !(x.Merged? && x.passId == passId)
  }

  /** Where the loop stands after `groupId` groups: from index i on lie the
      groups not yet merged. */
  predicate PassAt(runs: seq<RunName>, k: nat, i: nat, groupId: nat)
    requires k > 0
  {
    groupId <= |Groups(runs, k)| && Groups(runs[Min(i, |runs|)..], k) == Groups(runs, k)[groupId..]
  }

  /** The group merged at a turn is the next group of the list, and what it
      merges is the next run `PassSpec` describes. */
  lemma PassTurn(f: seq<seq<Record>> -> seq<Record>, wd0: map<RunName, seq<Record>>, runs: seq<RunName>, k: nat, passId: nat, i: nat, groupId: nat)
    requires k > 0 && (forall x :: x in runs ==> x in wd0) && NotOfPass(runs, passId)
    requires i < |runs| && PassAt(runs, k, i, groupId)
    ensures groupId < |Groups(runs, k)| == |Groups(Contents(wd0, runs), k)|
    ensures PassAt(runs, k, i + k, groupId + 1)
    ensures var outs := MapGroups(f, Groups(Contents(wd0, runs), k));
      f(Contents(wd0 + PassOutputs(passId, outs[..groupId]), GroupAt(runs, i, k))) == outs[groupId]
  {
    var gs := Groups(runs, k);
    var outs := MapGroups(f, Groups(Contents(wd0, runs), k));
    var j := Min(i + k, |runs|);
    GroupsOfContents(wd0, runs, k);
    GroupsAt(runs, i, k);
    assert groupId < |gs| && gs[groupId] == GroupAt(runs, i, k);
    assert gs[groupId + 1..] == gs[groupId..][1..];
    assert Min(i + k, |runs|) == j;
    var group := GroupAt(runs, i, k);
    var wd := wd0 + PassOutputs(passId, outs[..groupId]);
    ContentsFrame(wd0, wd, group);
    assert Contents(wd0, group) == Groups(Contents(wd0, runs), k)[groupId];
  }

  /** Writing the merged group extends the pass's outputs by one run. */
  lemma PassWrite(wd0: map<RunName, seq<Record>>, passId: nat, outs: seq<seq<Record>>, groupId: nat)
    requires groupId < |outs|
    ensures (wd0 + PassOutputs(passId, outs[..groupId]))[Merged(passId, groupId) := outs[groupId]] ==
            wd0 + PassOutputs(passId, outs[..groupId + 1])
    ensures PassNames(passId, groupId) + [Merged(passId, groupId)] == PassNames(passId, groupId + 1)
  {
    UnionUpdate(wd0, PassOutputs(passId, outs[..groupId]), Merged(passId, groupId), outs[groupId]);
    PassOutputsStep(passId, outs[..groupId], outs[groupId]);
    assert outs[..groupId] + [outs[groupId]] == outs[..groupId + 1];
  }

  /** From any turn it describes, the loop ends with one merged run per
      group written over the work directory and the list of their names. */
  lemma {:induction false} PassLoopSpec(f: seq<seq<Record>> -> seq<Record>, wd0: map<RunName, seq<Record>>,
                                        runs: seq<RunName>, k: nat, passId: nat, i: nat, groupId: nat)
    requires k > 0 && (forall x :: x in runs ==> x in wd0) && NotOfPass(runs, passId)
    requires PassAt(runs, k, i, groupId)
    ensures var outs := MapGroups(f, Groups(Contents(wd0, runs), k));
      groupId <= |outs| &&
      PassLoop(f, wd0 + PassOutputs(passId, outs[..groupId]), runs, k, passId, i, groupId, PassNames(passId, groupId)) ==
      (wd0 + PassOutputs(passId, outs), PassNames(passId, |outs|))
    decreases |runs| - i
  {
    var outs := MapGroups(f, Groups(Contents(wd0, runs), k));
    GroupsOfContents(wd0, runs, k);
    if i >= |runs| {
      assert runs[Min(i, |runs|)..] == [];
      assert groupId == |outs|;
      assert outs[..groupId] == outs;
    } else {
      PassStep(f, wd0, runs, k, passId, i, groupId, outs);
      PassLoopSpec(f, wd0, runs, k, passId, i + k, groupId + 1);
    }
  }

  /** One turn of the loop, in the terms of `PassLoopSpec`. */
  lemma PassStep(f: seq<seq<Record>> -> seq<Record>, wd0: map<RunName, seq<Record>>, runs: seq<RunName>, k: nat,
                 passId: nat, i: nat, groupId: nat, outs: seq<seq<Record>>)
    requires k > 0 && (forall x :: x in runs ==> x in wd0) && NotOfPass(runs, passId)
    requires i < |runs| && PassAt(runs, k, i, groupId) && outs == MapGroups(f, Groups(Contents(wd0, runs), k))
    ensures groupId < |outs| && PassAt(runs, k, i + k, groupId + 1)
    ensures PassLoop(f, wd0 + PassOutputs(passId, outs[..groupId]), runs, k, passId, i, groupId, PassNames(passId, groupId)) ==
            PassLoop(f, wd0 + PassOutputs(passId, outs[..groupId + 1]), runs, k, passId, i + k, groupId + 1,
                     PassNames(passId, groupId + 1))
  {
    PassTurn(f, wd0, runs, k, passId, i, groupId);
    GroupsOfContents(wd0, runs, k);
    PassWrite(wd0, passId, outs, groupId);
    PassLoopNext(f, wd0 + PassOutputs(passId, outs[..groupId]), runs, k, passId, i, groupId, PassNames(passId, groupId),
                 wd0 + PassOutputs(passId, outs[..groupId + 1]));
  }

  lemma NoPassOutputs(wd0: map<RunName, seq<Record>>, passId: nat)
    ensures wd0 + PassOutputs(passId, []) == wd0
  {
    assert PassOutputs(passId, []) == map[];
  }

  /** `merge_pass` from the start of the list writes
      `pass<passId>_run<g>.bin` holding the merge of group g, for every
      group, and returns those names in group order. */
  lemma PassLoopFromStart(wd0: map<RunName, seq<Record>>, runs: seq<RunName>, k: nat, passId: nat)
    requires k > 0 && (forall x :: x in runs ==> x in wd0) && NotOfPass(runs, passId)
    ensures PassLoop(Merge, wd0, runs, k, passId, 0, 0, []) ==
            (wd0 + PassOutputs(passId, PassSpec(Contents(wd0, runs), k)), PassNames(passId, |Groups(runs, k)|))
  {
    var outs := MapGroups(Merge, Groups(Contents(wd0, runs), k));
    assert runs[Min(0, |runs|)..] == runs;
    GroupsOfContents(wd0, runs, k);
    assert outs[..0] == [];
    NoPassOutputs(wd0, passId);
    assert PassNames(passId, 0) == [];
    PassLoopSpec(Merge, wd0, runs, k, passId, 0, 0);
  }

  // ----- The loop of `multi_pass_merge` -----

  /** Every run of the list was written before pass `passId`: by run
      generation or by an earlier pass. */
  predicate WrittenBefore(runs: seq<RunName>, passId: nat) {
    forall x :: x in runs ==> x.Merged? ==> x.passId < passId
  }

  /** Pass after pass from pass `passId` on, each merging the list of the
      one before into groups of k, until at most one run remains: the work
      directory at the end and the list left. */
  function MergeAll(wd: map<RunName, seq<Record>>, runs: seq<RunName>, k: int, passId: nat)
    : (r: (map<RunName, seq<Record>>, seq<RunName>))
    requires k >= 2 || |runs| <= 1
    requires (forall x :: x in runs ==> x in wd) && WrittenBefore(runs, passId)
    ensures forall x :: x in r.1 ==> x in r.0
    ensures |r.1| <= 1 && (|r.1| == 1 <==> runs != [])
    decreases |runs|
  {
    if |runs| <= 1 then (wd, runs)
    else
      var outs := PassSpec(Contents(wd, runs), k);
      GroupsOfContents(wd, runs, k);
      GroupsShrink(runs, k);
      PassOutputsContents(wd, passId, outs);
      MergeAll(wd + PassOutputs(passId, outs), PassNames(passId, |outs|), k, passId + 1)
  }

  /** What the passes keep: the runs left hold the records of the runs
      given, and sorted runs give sorted runs. */
  lemma {:induction false} MergeAllSpec(wd: map<RunName, seq<Record>>, runs: seq<RunName>, k: int, passId: nat)
    requires k >= 2 || |runs| <= 1
    requires (forall x :: x in runs ==> x in wd) && WrittenBefore(runs, passId)
    ensures var (wd', runs') := MergeAll(wd, runs, k, passId);
      && multiset(Flatten(Contents(wd', runs'))) == multiset(Flatten(Contents(wd, runs)))
      && (AllSorted(Contents(wd, runs)) ==> AllSorted(Contents(wd', runs')))
    decreases |runs|
  {
    if |runs| > 1 {
      var c := Contents(wd, runs);
      var outs := PassSpec(c, k);
      GroupsOfContents(wd, runs, k);
      GroupsShrink(runs, k);
      PassOutputsContents(wd, passId, outs);
      MergeAllSpec(wd + PassOutputs(passId, outs), PassNames(passId, |outs|), k, passId + 1);
      PassPermutation(c, k);
      if AllSorted(c) {
        PassSorted(c, k);
      }
    }
  }

  /** No run file written before pass `passId` is removed, and none is
      rewritten unless it bears the name of a later pass's run. */
  lemma {:induction false} MergeAllFrame(wd: map<RunName, seq<Record>>, runs: seq<RunName>, k: int, passId: nat)
    requires k >= 2 || |runs| <= 1
    requires (forall x :: x in runs ==> x in wd) && WrittenBefore(runs, passId)
    ensures var wd' := MergeAll(wd, runs, k, passId).0;
      && (forall x :: x in wd ==> x in wd')
      && (forall x :: x in wd && !(x.Merged? && x.passId >= passId) ==> wd'[x] == wd[x])
    decreases |runs|
  {
    if |runs| > 1 {
      var outs := PassSpec(Contents(wd, runs), k);
      GroupsOfContents(wd, runs, k);
      GroupsShrink(runs, k);
      PassOutputsContents(wd, passId, outs);
      MergeAllFrame(wd + PassOutputs(passId, outs), PassNames(passId, |outs|), k, passId + 1);
    }
  }
}
