/** The stable argsort `OffsetPositionIntervalList.sort` computes with
    `sorted(enumerate(keys), key=lambda x: x[1])`, and the gathering of a
    column through the resulting indices (`[col[idx] for idx in indices]`). */
module Sorting {

  /** range(n) as a sequence. */
  function Iota(n: nat): (r: seq<nat>)
    ensures |r| == n && forall k :: 0 <= k < n ==> r[k] == k
  {
    if n == 0 then [] else Iota(n - 1) + [n - 1]
  }

  ghost predicate SortedByKey(keys: seq<int>, s: seq<nat>)
    requires forall k :: 0 <= k < |s| ==> s[k] < |keys|
  {
    forall k, l :: 0 <= k < l < |s| ==> keys[s[k]] <= keys[s[l]]
  }

  /** Elements with equal keys keep their original (index) order. */
  ghost predicate Stable(keys: seq<int>, s: seq<nat>)
    requires forall k :: 0 <= k < |s| ==> s[k] < |keys|
  {
    forall k, l :: 0 <= k < l < |s| && keys[s[k]] == keys[s[l]] ==> s[k] < s[l]
  }

  /** Insert index `i` into `s` behind every index whose key is at most
      the key of `i`. */
  function Insert(keys: seq<int>, s: seq<nat>, i: nat): (r: seq<nat>)
    requires i < |keys| && forall k :: 0 <= k < |s| ==> s[k] < |keys|
    ensures |r| == |s| + 1
    ensures forall k :: 0 <= k < |r| ==> r[k] < |keys|
  {
    if s == [] || keys[s[|s| - 1]] <= keys[i] then s + [i]
    else Insert(keys, s[..|s| - 1], i) + [s[|s| - 1]]
  }

  /** Insertion adds `i` and loses nothing. */
  lemma {:induction false} InsertPermutes(keys: seq<int>, s: seq<nat>, i: nat)
    requires i < |keys| && forall k :: 0 <= k < |s| ==> s[k] < |keys|
    ensures multiset(Insert(keys, s, i)) == multiset(s) + multiset{i}
    decreases |s|
  {
    if s != [] && keys[s[|s| - 1]] > keys[i] {
      InsertPermutes(keys, s[..|s| - 1], i);
      assert s == s[..|s| - 1] + [s[|s| - 1]];
    }
  }

  /** Every index of `s` may precede `last` in a stable sort. */
  ghost predicate AllBefore(keys: seq<int>, s: seq<nat>, last: nat)
    requires last < |keys| && forall k :: 0 <= k < |s| ==> s[k] < |keys|
  {
    forall k :: 0 <= k < |s| ==> keys[s[k]] <= keys[last] && (keys[s[k]] == keys[last] ==> s[k] < last)
  }

  lemma AppendSorted(keys: seq<int>, s: seq<nat>, last: nat)
    requires last < |keys| && forall k :: 0 <= k < |s| ==> s[k] < |keys|
    requires SortedByKey(keys, s) && Stable(keys, s) && AllBefore(keys, s, last)
    ensures SortedByKey(keys, s + [last]) && Stable(keys, s + [last])
  {
  }

  /** Inserting `i`, which may precede `last`, keeps every index before `last`. */
  lemma InsertBefore(keys: seq<int>, s: seq<nat>, i: nat, last: nat)
    requires i < |keys| && last < |keys| && forall k :: 0 <= k < |s| ==> s[k] < |keys|
    requires AllBefore(keys, s, last) && AllBefore(keys, [i], last)
    ensures AllBefore(keys, Insert(keys, s, i), last)
  {
    var ins := Insert(keys, s, i);
    InsertPermutes(keys, s, i);
    forall k | 0 <= k < |ins|
      ensures keys[ins[k]] <= keys[last] && (keys[ins[k]] == keys[last] ==> ins[k] < last)
    {
      assert ins[k] in multiset(ins);
      if ins[k] != i {
        assert ins[k] in multiset(s);
        var j :| 0 <= j < |s| && s[j] == ins[k];
      } else {
        assert [i][0] == i;
      }
    }
  }

  lemma {:induction false} InsertSorted(keys: seq<int>, s: seq<nat>, i: nat)
    requires i < |keys| && forall k :: 0 <= k < |s| ==> s[k] < i
    requires SortedByKey(keys, s) && Stable(keys, s)
    ensures SortedByKey(keys, Insert(keys, s, i)) && Stable(keys, Insert(keys, s, i))
    decreases |s|
  {
    if s == [] || keys[s[|s| - 1]] <= keys[i] {
      AppendSorted(keys, s, i);
    } else {
      var last := s[|s| - 1];
      var init := s[..|s| - 1];
      assert s == init + [last];
      InsertSorted(keys, init, i);
      assert AllBefore(keys, init, last) by {
        forall k | 0 <= k < |init|
          ensures keys[init[k]] <= keys[last] && (keys[init[k]] == keys[last] ==> init[k] < last)
        {
          assert s[k] == init[k];
        }
      }
      InsertBefore(keys, init, i, last);
      AppendSorted(keys, Insert(keys, init, i), last);
    }
  }

  /** Sort the indices 0..n-1 of `keys` by key, stably. */
  function Argsort(keys: seq<int>, n: nat): (r: seq<nat>)
    requires n <= |keys|
    ensures |r| == n
    ensures forall k :: 0 <= k < |r| ==> r[k] < |keys|
  {
    if n == 0 then [] else Insert(keys, Argsort(keys, n - 1), n - 1)
  }

  /** The argsort is a stable sort of all indices: a permutation of
      0..n-1, ascending by key, equal keys in original order. */
  lemma ArgsortSpec(keys: seq<int>, n: nat)
    requires n <= |keys|
    ensures multiset(Argsort(keys, n)) == multiset(Iota(n))
    ensures SortedByKey(keys, Argsort(keys, n))
    ensures Stable(keys, Argsort(keys, n))
  {
    ArgsortPermutes(keys, n);
    ArgsortSorted(keys, n);
  }

  lemma {:induction false} ArgsortPermutes(keys: seq<int>, n: nat)
    requires n <= |keys|
    ensures multiset(Argsort(keys, n)) == multiset(Iota(n))
  {
    if n > 0 {
      var last: nat := n - 1;
      var prev := Argsort(keys, last);
      var ins := Insert(keys, prev, last);
      assert Argsort(keys, n) == ins;
      assert multiset(prev) == multiset(Iota(last)) by {
        ArgsortPermutes(keys, last);
      }
      assert multiset(ins) == multiset(prev) + multiset{last} by {
        InsertPermutes(keys, prev, last);
      }
      assert multiset(Iota(n)) == multiset(Iota(last)) + multiset{last} by {
        assert Iota(n) == Iota(last) + [last];
      }
    }
  }

  /** Every index the argsort of the first `n` keys holds is below `n`. */
  lemma ArgsortBelow(keys: seq<int>, n: nat)
    requires n <= |keys|
    ensures forall k :: 0 <= k < n ==> Argsort(keys, n)[k] < n
  {
    var r := Argsort(keys, n);
    ArgsortPermutes(keys, n);
    forall k | 0 <= k < n
      ensures r[k] < n
    {
      assert r[k] in multiset(Iota(n));
      var j :| 0 <= j < n && Iota(n)[j] == r[k];
    }
  }

  lemma {:induction false} ArgsortSorted(keys: seq<int>, n: nat)
    requires n <= |keys|
    ensures SortedByKey(keys, Argsort(keys, n)) && Stable(keys, Argsort(keys, n))
  {
    if n > 0 {
      var prev := Argsort(keys, n - 1);
      ArgsortBelow(keys, n - 1);
      ArgsortSorted(keys, n - 1);
      InsertSorted(keys, prev, n - 1);
      assert Argsort(keys, n) == Insert(keys, prev, n - 1);
    }
  }

  /** [s[idx] for idx in indices] */
  function Gather<T>(s: seq<T>, indices: seq<nat>): (r: seq<T>)
    requires forall k :: 0 <= k < |indices| ==> indices[k] < |s|
    ensures |r| == |indices|
  {
    seq(|indices|, k requires 0 <= k < |indices| => s[indices[k]])
  }

  lemma GatherAppend<T>(s: seq<T>, a: seq<nat>, b: seq<nat>)
    requires forall k :: 0 <= k < |a| ==> a[k] < |s|
    requires forall k :: 0 <= k < |b| ==> b[k] < |s|
    ensures Gather(s, a + b) == Gather(s, a) + Gather(s, b)
  {
  }

  /** Gathering through an insertion adds the inserted element. */
  lemma {:induction false} GatherInsert<T>(keys: seq<int>, s: seq<T>, idx: seq<nat>, i: nat)
    requires |s| == |keys| && i < |keys|
    requires forall k :: 0 <= k < |idx| ==> idx[k] < |keys|
    ensures multiset(Gather(s, Insert(keys, idx, i))) == multiset(Gather(s, idx)) + multiset{s[i]}
    decreases |idx|
  {
    if idx == [] || keys[idx[|idx| - 1]] <= keys[i] {
      GatherAppend(s, idx, [i]);
    } else {
      var init := idx[..|idx| - 1];
      var last := idx[|idx| - 1];
      GatherInsert(keys, s, init, i);
      GatherAppend(s, Insert(keys, init, i), [last]);
      assert idx == init + [last];
      GatherAppend(s, init, [last]);
    }
  }

  /** Gathering a column through the argsort of the first `n` keys
      rearranges the column's first `n` elements, losing and adding none. */
  lemma {:induction false} GatherArgsort<T>(keys: seq<int>, s: seq<T>, n: nat)
    requires |s| == |keys| && n <= |keys|
    ensures multiset(Gather(s, Argsort(keys, n))) == multiset(s[..n])
  {
    if n > 0 {
      var prev := Argsort(keys, n - 1);
      assert multiset(Gather(s, prev)) == multiset(s[..n - 1]) by {
        GatherArgsort(keys, s, n - 1);
      }
      var ins := Insert(keys, prev, n - 1);
      assert Argsort(keys, n) == ins;
      assert multiset(Gather(s, ins)) == multiset(Gather(s, prev)) + multiset{s[n - 1]} by {
        GatherInsert(keys, s, prev, n - 1);
      }
      assert multiset(s[..n]) == multiset(s[..n - 1]) + multiset{s[n - 1]} by {
        assert s[..n] == s[..n - 1] + [s[n - 1]];
      }
    }
  }

  /** Gathering the keys through their argsort gives them in ascending order. */
  lemma ArgsortGathersAscending(keys: seq<int>)
    ensures forall k, l :: 0 <= k <= l < |keys| ==>
      Gather(keys, Argsort(keys, |keys|))[k] <= Gather(keys, Argsort(keys, |keys|))[l]
  {
    ArgsortSpec(keys, |keys|);
  }
}
