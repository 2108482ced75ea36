/** Records, bytes, and the order facts the whole sorter rests on.

    A record stands for one 8-byte double of the input file.  The sorter only
    compares records, so a record is modelled as the double's order key, an
    unsigned 64-bit integer whose numeric order is the order of the doubles
    (the key is defined by the codec, `Codec.KeyOfBits`).
 */
module Records {

  newtype u8 = x: int | 0 <= x < 0x100
  newtype u64 = x: int | 0 <= x < 0x1_0000_0000_0000_0000

  type Record = u64

  function Min(a: int, b: int): int { if a <= b then a else b }
  function Max(a: int, b: int): int { if a >= b then a else b }

  /** Non-decreasing, stated pairwise. */
  predicate Sorted(s: seq<Record>) {
    forall i, j :: 0 <= i < j < |s| ==> s[i] <= s[j]
  }

  /** The test the repository's checker script applies while it reads the
      output: no record is smaller than the one before it. */
  predicate AdjacentNonDecreasing(s: seq<Record>) {
    forall i :: 0 < i < |s| ==> s[i - 1] <= s[i]
  }

  lemma {:induction false} AdjacentCheckIsSorted(s: seq<Record>)
    ensures AdjacentNonDecreasing(s) <==> Sorted(s)
  {
    if AdjacentNonDecreasing(s) && |s| > 1 {
      AdjacentCheckIsSorted(s[1..]);
      assert AdjacentNonDecreasing(s[1..]) by {
        forall i | 0 < i < |s[1..]| ensures s[1..][i - 1] <= s[1..][i] {
          assert s[1..][i - 1] == s[i] && s[1..][i] == s[i + 1];
        }
      }
      forall i, j | 0 <= i < j < |s| ensures s[i] <= s[j] {
        if i > 0 {
          assert s[1..][i - 1] <= s[1..][j - 1];
        } else {
          assert s[1..][0] <= s[1..][j - 1] || j == 1;
        }
      }
    }
  }

  /** Concatenation of a sequence of sequences. */
  function Flatten<T>(ss: seq<seq<T>>): (r: seq<T>)
  {
    if ss == [] then [] else ss[0] + Flatten(ss[1..])
  }

  /** A list of empty lists flattens to nothing. */
  lemma {:induction false} FlattenOfEmpties<T>(ss: seq<seq<T>>)
    requires forall i :: 0 <= i < |ss| ==> ss[i] == []
    ensures Flatten(ss) == []
  {
    if ss != [] {
      FlattenOfEmpties(ss[1..]);
    }
  }

  lemma {:induction false} FlattenAppend<T>(a: seq<seq<T>>, b: seq<seq<T>>)
    ensures Flatten(a + b) == Flatten(a) + Flatten(b)
  {
    if a == [] {
      assert a + b == b;
    } else {
      assert (a + b)[1..] == a[1..] + b;
      FlattenAppend(a[1..], b);
    }
  }

  lemma FlattenSingle<T>(s: seq<T>)
    ensures Flatten([s]) == s
  {
    assert [s][1..] == [];
  }

  /** Replacing one inner sequence only changes its own stretch of the
      concatenation. */
  lemma {:induction false} FlattenUpdate<T>(ss: seq<seq<T>>, i: nat, t: seq<T>)
    requires i < |ss|
    ensures Flatten(ss[i := t]) == Flatten(ss[..i]) + t + Flatten(ss[i + 1..])
    ensures Flatten(ss) == Flatten(ss[..i]) + ss[i] + Flatten(ss[i + 1..])
  {
    assert ss[i := t] == ss[..i] + [t] + ss[i + 1..];
    assert ss == ss[..i] + [ss[i]] + ss[i + 1..];
    FlattenAppend(ss[..i] + [t], ss[i + 1..]);
    FlattenAppend(ss[..i], [t]);
    FlattenSingle(t);
    FlattenAppend(ss[..i] + [ss[i]], ss[i + 1..]);
    FlattenAppend(ss[..i], [ss[i]]);
    FlattenSingle(ss[i]);
  }

  /** Insertion of one record in front of the first larger one. */
  function Insert(x: Record, s: seq<Record>): seq<Record>
  {
    if s == [] then [x]
    else if x <= s[0] then [x] + s
    else [s[0]] + Insert(x, s[1..])
  }

  /** Inserting into a sorted sequence keeps it sorted and adds x. */
  lemma {:induction false} InsertSorted(x: Record, s: seq<Record>)
    requires Sorted(s)
    ensures Sorted(Insert(x, s))
    ensures multiset(Insert(x, s)) == multiset(s) + multiset{x}
  {
    if s == [] {
    } else if x <= s[0] {
      SortedCons(x, s);
    } else {
      var t := Insert(x, s[1..]);
      InsertSorted(x, s[1..]);
      assert s == [s[0]] + s[1..];
      InsertBounded(x, s, t);
      SortedCons(s[0], t);
    }
  }

  /** A head no larger than anything after it extends a sorted sequence. */
  lemma SortedCons(h: Record, t: seq<Record>)
    requires Sorted(t)
    requires t == [] || h <= t[0]
    ensures Sorted([h] + t)
  {
    var r := [h] + t;
    forall i, j | 0 <= i < j < |r| ensures r[i] <= r[j] {
      assert r[j] == t[j - 1];
      if i > 0 {
        assert r[i] == t[i - 1];
      } else {
        assert t[0] <= t[j - 1];
      }
    }
  }

  /** The head of a sorted s stays below everything `Insert(x, s[1..])`
      returns. */
  lemma InsertBounded(x: Record, s: seq<Record>, t: seq<Record>)
    requires Sorted(s) && s != [] && s[0] < x
    requires multiset(t) == multiset(s[1..]) + multiset{x}
    ensures t == [] || s[0] <= t[0]
  {
    if t != [] {
      assert t[0] in multiset(t);
      if t[0] != x {
        assert t[0] in multiset(s[1..]);
        var m :| 0 <= m < |s[1..]| && s[1..][m] == t[0];
        assert s[m + 1] == t[0];
      }
    }
  }

  /** The in-memory sort of one block, by insertion. */
  function SortRecords(s: seq<Record>): seq<Record>
  {
    if s == [] then [] else Insert(s[0], SortRecords(s[1..]))
  }

  /** The sort returns a sorted permutation of its input. */
  lemma {:induction false} SortRecordsSpec(s: seq<Record>)
    ensures Sorted(SortRecords(s))
    ensures multiset(SortRecords(s)) == multiset(s)
  {
    if s != [] {
      SortRecordsSpec(s[1..]);
      InsertSorted(s[0], SortRecords(s[1..]));
      assert s == [s[0]] + s[1..];
    }
  }

  /** A multiset has exactly one non-decreasing arrangement. */
  lemma {:induction false} SortedPermutationUnique(a: seq<Record>, b: seq<Record>)
    requires Sorted(a) && Sorted(b)
    requires multiset(a) == multiset(b)
    ensures a == b
  {
    assert |b| == |multiset(b)| == |multiset(a)| == |a|;
    if a != [] {
      SortedLeast(b, a[0]);
      SortedLeast(a, b[0]);
      TailMultiset(a);
      TailMultiset(b);
      SortedTail(a);
      SortedTail(b);
      assert a[0] == b[0];
      assert multiset(a[1..]) == multiset(b[1..]) by {
        assert multiset(a) - multiset{a[0]} == multiset(b) - multiset{b[0]};
      }
      SortedPermutationUnique(a[1..], b[1..]);
      assert a == [a[0]] + a[1..];
      assert b == [b[0]] + b[1..];
    }
  }

  /** The head of a sorted sequence is at most any of its elements. */
  lemma SortedLeast(s: seq<Record>, x: Record)
    requires Sorted(s) && x in multiset(s)
    ensures s != [] && s[0] <= x
  {
    var i :| 0 <= i < |s| && s[i] == x;
  }

  /** Dropping the head removes one copy of it. */
  lemma TailMultiset(s: seq<Record>)
    requires s != []
    ensures multiset(s[1..]) == multiset(s) - multiset{s[0]}
  {
    assert s == [s[0]] + s[1..];
  }

  /** The tail of a sorted sequence is sorted. */
  lemma SortedTail(s: seq<Record>)
    requires Sorted(s) && s != []
    ensures Sorted(s[1..])
  {
    forall i, j | 0 <= i < j < |s[1..]| ensures s[1..][i] <= s[1..][j] {
      assert s[1..][i] == s[i + 1] && s[1..][j] == s[j + 1];
    }
  }

  /** What the sorter must produce is determined by the multiset alone. */
  lemma SortedPermutationIsSortRecords(s: seq<Record>, r: seq<Record>)
    requires Sorted(r) && multiset(r) == multiset(s)
    ensures r == SortRecords(s)
  {
    SortRecordsSpec(s);
    SortedPermutationUnique(r, SortRecords(s));
  }

  /** Sorting a sequence that is already sorted gives it back unchanged. */
  lemma SortRecordsOfSorted(s: seq<Record>)
    requires Sorted(s)
    ensures SortRecords(s) == s
  {
    SortRecordsSpec(s);
    SortedPermutationUnique(s, SortRecords(s));
  }
}
