/** Facts about sequences and multisets that several components need. */
module SeqFacts {
  ghost predicate NoDuplicates<T>(s: seq<T>) {
    forall i, j :: 0 <= i < j < |s| ==> s[i] != s[j]
  }

  lemma {:induction false} CountWithoutDuplicates<T>(s: seq<T>, x: T)
    requires NoDuplicates(s)
    ensures multiset(s)[x] == if x in s then 1 else 0
  {
    if s != [] {
      assert s == [s[0]] + s[1..];
      CountWithoutDuplicates(s[1..], x);
    }
  }

  /** Duplicate-free sequences with the same elements are permutations of each other. */
  lemma SameElementsPermute<T>(s: seq<T>, t: seq<T>)
    requires NoDuplicates(s) && NoDuplicates(t)
    requires forall x :: x in s <==> x in t
    ensures multiset(s) == multiset(t)
  {
    forall x ensures multiset(s)[x] == multiset(t)[x] {
      CountWithoutDuplicates(s, x);
      CountWithoutDuplicates(t, x);
    }
  }

  lemma PermutationKeepsElements<T>(s: seq<T>, t: seq<T>)
    requires multiset(s) == multiset(t)
    ensures forall x :: x in s <==> x in t
    ensures |s| == |t|
  {
    forall x ensures x in s <==> x in t {
      assert x in s <==> x in multiset(s);
      assert x in t <==> x in multiset(t);
    }
    assert |multiset(s)| == |s| && |multiset(t)| == |t|;
  }

  function Concat<T>(blocks: seq<seq<T>>): seq<T> {
    if blocks == [] then [] else Concat(blocks[..|blocks| - 1]) + blocks[|blocks| - 1]
  }

  lemma ConcatSnoc<T>(blocks: seq<seq<T>>, k: nat)
    requires k < |blocks|
    ensures Concat(blocks[..k + 1]) == Concat(blocks[..k]) + blocks[k]
  {
    assert blocks[..k + 1][..k] == blocks[..k];
  }

  lemma {:induction false} BlockOf<T>(blocks: seq<seq<T>>, x: T) returns (k: nat)
    requires x in Concat(blocks)
    ensures k < |blocks| && x in blocks[k]
  {
    var last := |blocks| - 1;
    if x in blocks[last] {
      k := last;
    } else {
      k := BlockOf(blocks[..last], x);
    }
  }

  lemma {:induction false} InBlock<T>(blocks: seq<seq<T>>, x: T, k: nat)
    requires k < |blocks| && x in blocks[k]
    ensures x in Concat(blocks)
  {
    if k < |blocks| - 1 {
      InBlock(blocks[..|blocks| - 1], x, k);
    }
  }

  ghost predicate DistinctBy<T(!new), K>(s: seq<T>, key: T -> K) {
    forall i, j :: 0 <= i < j < |s| ==> key(s[i]) != key(s[j])
  }

  ghost predicate OrderedBy<T(!new)>(s: seq<T>, before: (T, T) -> bool) {
    forall i, j :: 0 <= i < j < |s| ==> before(s[i], s[j])
  }

  /** Ordered blocks, one before the other, concatenate to an ordered sequence. */
  lemma {:induction false} ConcatOrdered<T(!new)>(blocks: seq<seq<T>>, before: (T, T) -> bool)
    requires forall k :: 0 <= k < |blocks| ==> OrderedBy(blocks[k], before)
    requires forall k, m, x, y :: 0 <= k < m < |blocks| && x in blocks[k] && y in blocks[m] ==> before(x, y)
    ensures OrderedBy(Concat(blocks), before)
  {
    if blocks != [] {
      var n := |blocks| - 1;
      var a, b := Concat(blocks[..n]), blocks[n];
      ConcatOrdered(blocks[..n], before);
      forall i, j | 0 <= i < j < |a + b| ensures before((a + b)[i], (a + b)[j]) {
        if i < |a| && |a| <= j {
          var k := BlockOf(blocks[..n], a[i]);
          assert a[i] in blocks[k] && b[j - |a|] in blocks[n];
        }
      }
    }
  }

  /** Blocks without repeated keys, and without a common key, concatenate to one without repeated keys. */
  lemma {:induction false} ConcatDistinct<T(!new), K>(blocks: seq<seq<T>>, key: T -> K)
    requires forall k :: 0 <= k < |blocks| ==> DistinctBy(blocks[k], key)
    requires forall k, m, x, y :: 0 <= k < m < |blocks| && x in blocks[k] && y in blocks[m] ==> key(x) != key(y)
    ensures DistinctBy(Concat(blocks), key)
  {
    if blocks != [] {
      var m := |blocks| - 1;
      var before, last := Concat(blocks[..m]), blocks[m];
      ConcatDistinct(blocks[..m], key);
      forall i, j | 0 <= i < |before| && 0 <= j < |last| ensures key(before[i]) != key(last[j]) {
        var k := BlockOf(blocks[..m], before[i]);
        assert before[i] in blocks[k];
      }
    }
  }

  /** Permuting inside the blocks permutes the whole. */
  lemma {:induction false} ConcatPermutes<T>(blocks: seq<seq<T>>, blocks': seq<seq<T>>)
    requires |blocks| == |blocks'|
    requires forall k :: 0 <= k < |blocks| ==> multiset(blocks[k]) == multiset(blocks'[k])
    ensures multiset(Concat(blocks)) == multiset(Concat(blocks'))
  {
    if blocks != [] {
      ConcatPermutes(blocks[..|blocks| - 1], blocks'[..|blocks| - 1]);
    }
  }

  lemma MultisetOfSplit<T>(a: seq<T>, x: T, b: seq<T>)
    ensures multiset(a + [x] + b) == multiset(a + b) + multiset{x}
  {
  }

  lemma CancelOne<T>(a: multiset<T>, b: multiset<T>, x: T)
    requires a + multiset{x} == b + multiset{x}
    ensures a == b
  {
    assert a == (a + multiset{x}) - multiset{x} && b == (b + multiset{x}) - multiset{x};
  }

  lemma FindElement<T>(t: seq<T>, x: T) returns (a: seq<T>, b: seq<T>)
    requires x in t
    ensures t == a + [x] + b
  {
    var i :| 0 <= i < |t| && t[i] == x;
    a, b := t[..i], t[i + 1..];
  }

  /** Where a permutation has the last element of the original. */
  lemma CutOut<T>(rest: seq<T>, x: T, t: seq<T>) returns (a: seq<T>, b: seq<T>)
    requires multiset(rest + [x]) == multiset(t)
    ensures t == a + [x] + b && multiset(rest) == multiset(a + b)
  {
    PermutationKeepsElements(rest + [x], t);
    assert (rest + [x])[|rest|] == x;
    a, b := FindElement(t, x);
    MultisetOfSplit(a, x, b);
    CancelOne(multiset(rest), multiset(a + b), x);
  }

  lemma DistinctByTail<T(!new), K>(a: seq<T>, b: seq<T>, key: T -> K)
    ensures DistinctBy(a + b, key) <==>
            && DistinctBy(a, key) && DistinctBy(b, key)
            && forall i, j :: 0 <= i < |a| && 0 <= j < |b| ==> key(a[i]) != key(b[j])
  {
    var s := a + b;
    if DistinctBy(s, key) {
      forall i, j | 0 <= i < j < |a| ensures key(a[i]) != key(a[j]) {
        assert s[i] == a[i] && s[j] == a[j];
      }
      forall i, j | 0 <= i < j < |b| ensures key(b[i]) != key(b[j]) {
        assert s[|a| + i] == b[i] && s[|a| + j] == b[j];
      }
      forall i, j | 0 <= i < |a| && 0 <= j < |b| ensures key(a[i]) != key(b[j]) {
        assert s[i] == a[i] && s[|a| + j] == b[j];
      }
    }
  }

  ghost function Elements<T(!new)>(s: seq<T>): set<T> {
    set x | x in s
  }

  lemma {:induction false} DistinctElements<T(!new), K>(s: seq<T>, key: T -> K)
    requires DistinctBy(s, key)
    ensures |Elements(s)| == |s|
  {
    if s != [] {
      var before, last := s[..|s| - 1], s[|s| - 1];
      DistinctElements(before, key);
      assert s == before + [last];
      assert Elements(s) == Elements(before) + {last};
      forall i | 0 <= i < |before| ensures before[i] != last {
        assert key(s[i]) != key(last);
      }
    }
  }
}
