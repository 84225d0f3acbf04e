/** Sequence helpers shared by both shuffles and by the list filters. */
module Seqs {
  /** Exchange two positions, as the destructuring assignment `[a[i], a[j]] = [a[j], a[i]]` does. */
  function Swap<T>(s: seq<T>, i: nat, j: nat): (r: seq<T>)
    requires i < |s| && j < |s|
    ensures |r| == |s|
    ensures r[i] == s[j] && r[j] == s[i]
    ensures forall k :: 0 <= k < |s| && k != i && k != j ==> r[k] == s[k]
  {
    s[i := s[j]][j := s[i]]
  }

  lemma SwapPermutes<T>(s: seq<T>, i: nat, j: nat)
    requires i < |s| && j < |s|
    ensures multiset(Swap(s, i, j)) == multiset(s)
  {
    var t := s[i := s[j]];
    assert multiset(t) == multiset(s) - multiset{s[i]} + multiset{s[j]};
    assert multiset(t[j := s[i]]) == multiset(t) - multiset{t[j]} + multiset{s[i]};
  }

  /** `JS Array.prototype.slice(0, end)`: a negative end counts from the back. */
  function SliceTo<T>(s: seq<T>, end: int): (r: seq<T>)
    ensures |r| == SliceEnd(|s|, end) && r == s[..|r|]
  {
    s[..SliceEnd(|s|, end)]
  }

  function SliceEnd(n: nat, end: int): (k: nat)
    ensures k <= n
    ensures end >= 0 ==> k == if end <= n then end else n
  {
    if end < 0 then (if n + end < 0 then 0 else n + end)
    else if end <= n then end else n
  }

  /** a is an order-preserving sublist of b. */
  predicate IsSubsequence<T(==)>(a: seq<T>, b: seq<T>)
    decreases |b|
  {
    if a == [] then true
    else if b == [] then false
    else if a[0] == b[0] then IsSubsequence(a[1..], b[1..])
    else IsSubsequence(a, b[1..])
  }

  /** Putting one more element in front of the longer list keeps a sublist a sublist. */
  lemma {:induction false} SubsequenceSkip<T>(a: seq<T>, b: seq<T>)
    requires b != [] && IsSubsequence(a, b[1..])
    ensures IsSubsequence(a, b)
    decreases |a| + |b|, 1
  {
    if a != [] && a[0] == b[0] {
      SubsequenceDropHead(a, b[1..]);
    }
  }

  /** Dropping the head of a sublist leaves a sublist. */
  lemma {:induction false} SubsequenceDropHead<T>(a: seq<T>, c: seq<T>)
    requires a != [] && IsSubsequence(a, c)
    ensures IsSubsequence(a[1..], c)
    decreases |a| + |c|, 0
  {
    if a[0] == c[0] {
      SubsequenceSkip(a[1..], c);
    } else {
      SubsequenceDropHead(a, c[1..]);
      SubsequenceSkip(a[1..], c);
    }
  }

  /**
   * Appending to the longer list keeps a sublist a sublist, and appending the
   * same element to both keeps it too: what one more `append` does.
   */
  lemma {:induction false} SubsequenceSnoc<T>(a: seq<T>, b: seq<T>, x: T)
    requires IsSubsequence(a, b)
    ensures IsSubsequence(a, b + [x]) && IsSubsequence(a + [x], b + [x])
    decreases |b|
  {
    if b != [] {
      assert (b + [x])[1..] == b[1..] + [x];
    }
    if a == [] {
      if b != [] && x != b[0] {
        SubsequenceSnoc(a, b[1..], x);
        assert a + [x] == [x];
      }
    } else if a[0] == b[0] {
      SubsequenceSnoc(a[1..], b[1..], x);
      assert (a + [x])[1..] == a[1..] + [x];
    } else {
      SubsequenceSnoc(a, b[1..], x);
    }
  }

  /** The blocks joined end to end, as repeated `push` calls lay them out. */
  function Concat<T>(blocks: seq<seq<T>>): seq<T> {
    if blocks == [] then [] else Concat(blocks[..|blocks| - 1]) + blocks[|blocks| - 1]
  }

  lemma ConcatSnoc<T>(blocks: seq<seq<T>>, k: nat)
    requires k < |blocks|
    ensures Concat(blocks[..k + 1]) == Concat(blocks[..k]) + blocks[k]
  {
    assert blocks[..k + 1][..k] == blocks[..k];
  }

  /** i * a, written as repeated addition so that layout proofs stay linear. */
  function Offset(i: nat, a: nat): nat {
    if i == 0 then 0 else Offset(i - 1, a) + a
  }

  lemma {:induction false} OffsetIsProduct(i: nat, a: nat)
    ensures Offset(i, a) == i * a
  {
    if i > 0 {
      OffsetIsProduct(i - 1, a);
      assert i * a == (i - 1) * a + a;
    }
  }

  lemma {:induction false} OffsetBelow(i: nat, k: nat, a: nat, j: nat)
    requires i < k && j < a
    ensures Offset(i, a) + j < Offset(k, a)
    decreases k
  {
    if i < k - 1 {
      OffsetBelow(i, k - 1, a, j);
    }
  }

  /** Blocks of a elements each: block i, element j sits at i * a + j. */
  lemma {:induction false} ConcatLayout<T>(blocks: seq<seq<T>>, a: nat, i: nat, j: nat)
    requires forall b :: 0 <= b < |blocks| ==> |blocks[b]| == a
    requires i < |blocks| && j < a
    ensures |Concat(blocks)| == Offset(|blocks|, a)
    ensures Offset(i, a) + j < |Concat(blocks)| && Concat(blocks)[Offset(i, a) + j] == blocks[i][j]
  {
    var init := blocks[..|blocks| - 1];
    var last := blocks[|blocks| - 1];
    ConcatLength(init, a);
    if i < |blocks| - 1 {
      ConcatLayout(init, a, i, j);
      OffsetBelow(i, |blocks| - 1, a, j);
    }
  }

  lemma {:induction false} ConcatLength<T>(blocks: seq<seq<T>>, a: nat)
    requires forall b :: 0 <= b < |blocks| ==> |blocks[b]| == a
    ensures |Concat(blocks)| == Offset(|blocks|, a)
  {
    if blocks != [] {
      ConcatLength(blocks[..|blocks| - 1], a);
    }
  }

  /** The elements of s that satisfy p, in order: a list comprehension with an `if`. */
  function Filter<T>(p: T -> bool, s: seq<T>): (r: seq<T>)
    ensures |r| <= |s|
  {
    if s == [] then [] else (if p(s[0]) then [s[0]] else []) + Filter(p, s[1..])
  }

  lemma {:induction false} FilterMembers<T>(p: T -> bool, s: seq<T>)
    ensures forall x :: x in Filter(p, s) <==> x in s && p(x)
  {
    if s != [] {
      FilterMembers(p, s[1..]);
      assert forall x :: x in s <==> x == s[0] || x in s[1..];
    }
  }

  lemma {:induction false} FilterIsSubsequence<T>(p: T -> bool, s: seq<T>)
    ensures IsSubsequence(Filter(p, s), s)
  {
    if s != [] {
      FilterIsSubsequence(p, s[1..]);
      var r := Filter(p, s);
      if p(s[0]) {
        assert r[0] == s[0] && r[1..] == Filter(p, s[1..]);
      } else {
        assert r == Filter(p, s[1..]);
        SubsequenceSkip(r, s);
      }
    }
  }

  /** Filtering keeps every occurrence of a kept element and no occurrence of any other. */
  lemma {:induction false} FilterCounts<T>(p: T -> bool, s: seq<T>)
    ensures forall x :: multiset(Filter(p, s))[x] == if p(x) then multiset(s)[x] else 0
  {
    if s != [] {
      FilterCounts(p, s[1..]);
      var head := if p(s[0]) then [s[0]] else [];
      assert s == [s[0]] + s[1..];
      assert multiset(s) == multiset{s[0]} + multiset(s[1..]);
      assert multiset(Filter(p, s)) == multiset(head) + multiset(Filter(p, s[1..]));
    }
  }

  /** Filtering a list with one more element at the back. */
  lemma {:induction false} FilterSnoc<T>(p: T -> bool, s: seq<T>, x: T)
    ensures Filter(p, s + [x]) == Filter(p, s) + (if p(x) then [x] else [])
  {
    var tail := if p(x) then [x] else [];
    if s == [] {
      assert s + [x] == [x] && [x][1..] == [];
      assert Filter(p, [x]) == tail + Filter(p, []);
    } else {
      var head := if p(s[0]) then [s[0]] else [];
      assert (s + [x])[0] == s[0] && (s + [x])[1..] == s[1..] + [x];
      assert Filter(p, s + [x]) == head + Filter(p, s[1..] + [x]);
      FilterSnoc(p, s[1..], x);
      assert Filter(p, s) == head + Filter(p, s[1..]);
    }
  }

  /** A prefix one element longer. */
  lemma PrefixSnoc<T>(s: seq<T>, i: int)
    requires 0 <= i < |s|
    ensures s[..i + 1] == s[..i] + [s[i]]
  {
  }

  /** No element occurs twice. */
  predicate NoRepeats<T(==)>(s: seq<T>) {
    forall i, j :: 0 <= i < j < |s| ==> s[i] != s[j]
  }

  /** In a list without repeats, no element occurs before its own position. */
  lemma NoRepeatsFresh<T>(s: seq<T>, i: int)
    requires NoRepeats(s) && 0 <= i < |s|
    ensures s[i] !in s[..i]
  {
    forall j | 0 <= j < i
      ensures s[..i][j] != s[i]
    {
      assert s[..i][j] == s[j];
    }
  }

  /** Filtering with a predicate that holds everywhere on s changes nothing. */
  lemma {:induction false} FilterAll<T>(p: T -> bool, s: seq<T>)
    requires forall x :: x in s ==> p(x)
    ensures Filter(p, s) == s
  {
    if s != [] {
      assert forall x :: x in s[1..] ==> x in s;
      FilterAll(p, s[1..]);
    }
  }

  /** Filtering with a predicate that holds nowhere on s leaves nothing. */
  lemma {:induction false} FilterNone<T>(p: T -> bool, s: seq<T>)
    requires forall x :: x in s ==> !p(x)
    ensures Filter(p, s) == []
  {
    if s != [] {
      assert forall x :: x in s[1..] ==> x in s;
      FilterNone(p, s[1..]);
    }
  }
}
