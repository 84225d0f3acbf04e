/**
 * src/utils/PracticeGameLogic.jsx: practice mode.  A linear congruential
 * generator drives a Fisher-Yates shuffle that picks the practice bird and
 * its answer options; the round state is a record rebuilt on every step.
 */
module PracticeGameLogic {
  import opened Text
  import opened Wrappers
  import opened Seqs
  import opened HashUtils
  import opened Birds

  /** GAME_CONFIG (src/utils/Constants.jsx:8-11). */
  const MAX_GUESSES: int := 4
  const ANSWER_OPTIONS_COUNT: int := 4

  // The generator's constants (multiplier 1664525, increment 1013904223,
  // modulus 2^32, divisor 2147483647 = 2^31 - 1) are written as literals
  // below, so that the solver sees linear arithmetic.

  /** An ISO timestamp from the clock; opaque to the model. */
  type Timestamp = JsString

  // ----- createSeededRandom ------------------------------------------------

  /**
   * `state = (state * 1664525 + 1013904223) >>> 0`.  The state never exceeds
   * 2^32 and the product stays below 2^53, so the JavaScript double
   * arithmetic is exact and `>>> 0` is reduction mod 2^32.
   */
  function LcgNext(state: nat): (r: nat)
    ensures r < 0x1_0000_0000
  {
    (state * 1664525 + 1013904223) % 0x1_0000_0000
  }

  /**
   * The closure returned by createSeededRandom (lines 25-31), as an object
   * with the captured `state`.  `Next` returns the numerator of
   * `(state % 2147483647) / 2147483647`.
   */
  class SeededRandom {
    var state: nat

    constructor (seed: nat)
      ensures state == seed
    {
      state := seed;
    }

    method Next() returns (numerator: nat)
      modifies this
      ensures state == LcgNext(old(state))
      ensures numerator == state % 2147483647
      ensures numerator < 2147483647
    {
      state := LcgNext(state);
      numerator := state % 2147483647;
    }
  }

  /**
   * `n * k`, written as repeated addition so that the shuffle's specification
   * stays linear for the solver; ScaleIsProduct states that it is the product.
   */
  function Scale(n: nat, k: nat): (r: nat)
    ensures n < 2147483647 ==> r <= 2147483646 * k
  {
    if k == 0 then 0 else n + Scale(n, k - 1)
  }

  lemma {:induction false} ScaleIsProduct(n: nat, k: nat)
    ensures Scale(n, k) == n * k
  {
    if k > 0 {
      ScaleIsProduct(n, k - 1);
      assert n * k == n + n * (k - 1);
    }
  }

  /**
   * `Math.floor(random() * (i + 1))` with `random()` equal to
   * numerator / 2147483647, computed exactly: always an index in [0, i].
   */
  function RandomIndex(numerator: nat, i: nat): (j: nat)
    requires numerator < 2147483647
    ensures j <= i
  {
    Scale(numerator, i + 1) / 2147483647
  }

  // ----- deterministicShuffle ----------------------------------------------

  /**
   * The loop of deterministicShuffle once only the first k positions are
   * still to be visited (the loop index is k - 1), with the generator at `state`.
   */
  function FisherYatesFrom<T>(s: seq<T>, k: nat, state: nat): (r: seq<T>)
    requires k <= |s|
    ensures |r| == |s| && multiset(r) == multiset(s)
    decreases k
  {
    if k <= 1 then s
    else
      var next := LcgNext(state);
      var j := RandomIndex(next % 2147483647, k - 1);
      SwapPermutes(s, k - 1, j);
      FisherYatesFrom(Swap(s, k - 1, j), k - 1, next)
  }

  /** What deterministicShuffle(array, seed) returns. */
  function FisherYates<T>(s: seq<T>, seed: nat): (r: seq<T>)
    ensures |r| == |s| && multiset(r) == multiset(s)
  {
    FisherYatesFrom(s, |s|, seed)
  }

  /** One pass of the shuffle loop, at index k - 1. */
  lemma FisherYatesStep<T>(s: seq<T>, k: nat, state: nat)
    requires 1 < k <= |s|
    ensures FisherYatesFrom(s, k, state)
         == FisherYatesFrom(Swap(s, k - 1, RandomIndex(LcgNext(state) % 2147483647, k - 1)), k - 1, LcgNext(state))
  {
  }

  /** `[a[i], a[j]] = [a[j], a[i]]` */
  method SwapElements<T>(a: array<T>, i: nat, j: nat)
    requires i < a.Length && j < a.Length
    modifies a
    ensures a[..] == Swap(old(a[..]), i, j)
  {
    a[i], a[j] := a[j], a[i];
  }

  /** deterministicShuffle, lines 36-46: swaps in a copy and leaves the input as it was. */
  method DeterministicShuffle<T>(input: seq<T>, seed: nat) returns (result: seq<T>)
    ensures result == FisherYates(input, seed)
    ensures multiset(result) == multiset(input)
  {
    var shuffled := new T[|input|](k requires 0 <= k < |input| => input[k]);
    assert shuffled[..] == input;
    var random := new SeededRandom(seed);
    var i := shuffled.Length - 1;
    while i > 0
      invariant -1 <= i < shuffled.Length
      invariant FisherYatesFrom(shuffled[..], i + 1, random.state) == FisherYates(input, seed)
      decreases i
    {
      FisherYatesStep(shuffled[..], i + 1, random.state);
      var numerator := random.Next();
      var j := RandomIndex(numerator, i);
      SwapElements(shuffled, i, j);
      i := i - 1;
    }
    result := shuffled[..];
  }

  lemma {:induction false} FisherYatesKeepsDistinctIds(s: seq<Bird>, k: nat, state: nat)
    requires k <= |s| && DistinctIds(s)
    ensures DistinctIds(FisherYatesFrom(s, k, state))
    decreases k
  {
    if k > 1 {
      var next := LcgNext(state);
      var j := RandomIndex(next % 2147483647, k - 1);
      SwapKeepsDistinctIds(s, k - 1, j);
      FisherYatesKeepsDistinctIds(Swap(s, k - 1, j), k - 1, next);
    }
  }

  lemma ShuffleKeepsDistinctIds(s: seq<Bird>, seed: nat)
    requires DistinctIds(s)
    ensures DistinctIds(FisherYates(s, seed))
  {
    FisherYatesKeepsDistinctIds(s, |s|, seed);
  }

  // ----- getPracticeBird -----------------------------------------------------

  /** The key `practice-${region}-${practiceIndex}`. */
  function PracticeKey(region: JsString, practiceIndex: nat): JsString {
    Js("practice-") + region + Js("-") + Utf16(DecimalDigits(practiceIndex))
  }

  /**
   * getPracticeBird, lines 51-61: no bird for an absent or empty region,
   * otherwise the bird at position practiceIndex mod n of the seeded shuffle.
   */
  function GetPracticeBird(region: JsString, birds: Catalog, practiceIndex: nat): (r: Option<Bird>)
    ensures r.None? <==> region !in birds || birds[region] == []
    ensures r.Some? ==> r.value in birds[region]
    ensures r.Some? ==>
      r.value == FisherYates(birds[region], Hash(PracticeKey(region, practiceIndex)))[practiceIndex % |birds[region]|]
  {
    if region !in birds || |birds[region]| == 0 then None
    else
      var shuffledBirds := FisherYates(birds[region], Hash(PracticeKey(region, practiceIndex)));
      var index := practiceIndex % |shuffledBirds|;
      assert shuffledBirds[index] in multiset(birds[region]);
      Some(shuffledBirds[index])
  }

  // ----- generatePracticeAnswerOptions --------------------------------------

  /** `bird => bird.id !== correctBird.id` */
  function IdIsNot(id: JsString): Bird -> bool {
    (b: Bird) => b.id != id
  }

  /** `bird => bird.family === correctBird.family` */
  function FamilyIs(family: Option<JsString>): Bird -> bool {
    (b: Bird) => b.family == family
  }

  /** `bird => bird.family !== correctBird.family` */
  function FamilyIsNot(family: Option<JsString>): Bird -> bool {
    (b: Bird) => b.family != family
  }

  /** `regionBirds.filter(bird => bird.id !== correctBird.id)` */
  function WithoutId(s: seq<Bird>, id: JsString): (r: seq<Bird>)
    ensures IsSubsequence(r, s)
  {
    FilterIsSubsequence(IdIsNot(id), s);
    Filter(IdIsNot(id), s)
  }

  /** `availableBirds.filter(bird => bird.family === correctBird.family)` */
  function SameFamily(s: seq<Bird>, family: Option<JsString>): (r: seq<Bird>)
    ensures IsSubsequence(r, s)
  {
    FilterIsSubsequence(FamilyIs(family), s);
    Filter(FamilyIs(family), s)
  }

  /** `availableBirds.filter(bird => bird.family !== correctBird.family)` */
  function OtherFamily(s: seq<Bird>, family: Option<JsString>): (r: seq<Bird>)
    ensures IsSubsequence(r, s)
  {
    FilterIsSubsequence(FamilyIsNot(family), s);
    Filter(FamilyIsNot(family), s)
  }

  lemma WithoutIdMembers(s: seq<Bird>, id: JsString)
    ensures forall b :: b in WithoutId(s, id) <==> b in s && b.id != id
  {
    FilterMembers(IdIsNot(id), s);
  }

  lemma SameFamilyMembers(s: seq<Bird>, family: Option<JsString>)
    ensures forall b :: b in SameFamily(s, family) <==> b in s && b.family == family
  {
    FilterMembers(FamilyIs(family), s);
  }

  lemma OtherFamilyMembers(s: seq<Bird>, family: Option<JsString>)
    ensures forall b :: b in OtherFamily(s, family) <==> b in s && b.family != family
  {
    FilterMembers(FamilyIsNot(family), s);
  }

  /** The two family filters split the list: together they are as long as it. */
  lemma {:induction false} FamilySplitLength(s: seq<Bird>, family: Option<JsString>)
    ensures |SameFamily(s, family)| + |OtherFamily(s, family)| == |s|
  {
    if s != [] { FamilySplitLength(s[1..], family); }
  }

  lemma {:induction false} SubsequenceMembers<T>(a: seq<T>, b: seq<T>)
    requires IsSubsequence(a, b)
    ensures forall x :: x in a ==> x in b
    decreases |b|
  {
    if a != [] && b != [] {
      if a[0] == b[0] {
        SubsequenceMembers(a[1..], b[1..]);
        forall x | x in a ensures x in b {
          if x != a[0] { assert x in a[1..]; assert x in b[1..]; }
        }
      } else {
        SubsequenceMembers(a, b[1..]);
      }
    }
  }

  /** A sublist of a list with distinct ids has distinct ids. */
  lemma {:induction false} SubsequenceKeepsDistinctIds(a: seq<Bird>, b: seq<Bird>)
    requires IsSubsequence(a, b) && DistinctIds(b)
    ensures DistinctIds(a)
    decreases |b|
  {
    if a != [] && b != [] {
      assert DistinctIds(b[1..]) by {
        forall p, q | 0 <= p < |b[1..]| && 0 <= q < |b[1..]| && p != q ensures b[1..][p].id != b[1..][q].id {
          assert b[1..][p] == b[p + 1] && b[1..][q] == b[q + 1];
        }
      }
      if a[0] == b[0] {
        SubsequenceKeepsDistinctIds(a[1..], b[1..]);
        SubsequenceMembers(a[1..], b[1..]);
        forall p, q | 0 <= p < |a| && 0 <= q < |a| && p != q ensures a[p].id != a[q].id {
          if p == 0 || q == 0 {
            var m := if p == 0 then q else p;
            assert a[m] == a[1..][m - 1];
            assert a[m] in b[1..];
            var k :| 0 <= k < |b[1..]| && b[1..][k] == a[m];
            assert b[k + 1] == a[m];
          } else {
            assert a[p] == a[1..][p - 1] && a[q] == a[1..][q - 1];
          }
        }
      } else {
        SubsequenceKeepsDistinctIds(a, b[1..]);
      }
    }
  }

  /** Two different birds of a list with distinct ids have different ids. */
  lemma DifferentMembersDifferentIds(s: seq<Bird>, x: Bird, y: Bird)
    requires DistinctIds(s) && x in s && y in s && x != y
    ensures x.id != y.id
  {
    var i :| 0 <= i < |s| && s[i] == x;
    var j :| 0 <= j < |s| && s[j] == y;
  }

  /** `practice-options-${region}-${practiceIndex}-${correctBird.id}` */
  function PracticeOptionsKey(region: JsString, practiceIndex: nat, id: JsString): JsString {
    Js("practice-options-") + region + Js("-") + Utf16(DecimalDigits(practiceIndex)) + Js("-") + id
  }

  /** `practice-final-${region}-${practiceIndex}-${correctBird.id}` */
  function PracticeFinalKey(region: JsString, practiceIndex: nat, id: JsString): JsString {
    Js("practice-final-") + region + Js("-") + Utf16(DecimalDigits(practiceIndex)) + Js("-") + id
  }

  /** The distractors chosen by lines 79-100: same family first, then other families. */
  function WrongBirds(available: seq<Bird>, family: Option<JsString>, seed: nat, optionCount: int): seq<Bird>
  {
    var same := SameFamily(available, family);
    if |same| >= optionCount - 1 then SliceTo(FisherYates(same, seed), optionCount - 1)
    else
      var remaining := FisherYates(OtherFamily(available, family), seed);
      FisherYates(same, seed) + remaining[..Min(optionCount - 1 - |same|, |remaining|)]
  }

  /** The list generatePracticeAnswerOptions returns (lines 66-106). */
  function PracticeOptions(region: JsString, birds: Catalog, practiceIndex: nat, correct: Option<Bird>, optionCount: int): seq<Bird>
  {
    if region !in birds || correct.None? then []
    else
      var cb := correct.value;
      var seed := Hash(PracticeOptionsKey(region, practiceIndex, cb.id));
      var wrong := WrongBirds(WithoutId(birds[region], cb.id), cb.family, seed, optionCount);
      FisherYates([cb] + wrong, Hash(PracticeFinalKey(region, practiceIndex, cb.id)))
  }

  /** The loop of lines 97-99: push the first `count` elements of `extra` (all of them if fewer). */
  method PushFirst(acc: seq<Bird>, extra: seq<Bird>, count: nat) returns (r: seq<Bird>)
    ensures r == acc + extra[..Min(count, |extra|)]
  {
    r := acc;
    var i := 0;
    while i < Min(count, |extra|)
      invariant 0 <= i <= Min(count, |extra|)
      invariant r == acc + extra[..i]
    {
      assert extra[..i + 1] == extra[..i] + [extra[i]];
      r := r + [extra[i]];
      i := i + 1;
    }
  }

  /** generatePracticeAnswerOptions, lines 66-106. */
  method GeneratePracticeAnswerOptions(region: JsString, birds: Catalog, practiceIndex: nat,
                                       correctBird: Option<Bird>, optionCount: int)
    returns (options: seq<Bird>)
    ensures options == PracticeOptions(region, birds, practiceIndex, correctBird, optionCount)
  {
    if region !in birds || correctBird.None? {
      return [];
    }
    var cb := correctBird.value;
    var regionBirds := birds[region];
    var seed := HashString(PracticeOptionsKey(region, practiceIndex, cb.id));
    var random := new SeededRandom(seed);  // created at line 71 and never drawn from

    var availableBirds := WithoutId(regionBirds, cb.id);
    var sameFamilyBirds := SameFamily(availableBirds, cb.family);
    var selectedWrongBirds: seq<Bird> := [];
    if |sameFamilyBirds| >= optionCount - 1 {
      var shuffledSameFamily := DeterministicShuffle(sameFamilyBirds, seed);
      selectedWrongBirds := SliceTo(shuffledSameFamily, optionCount - 1);
    } else {
      var shuffledSameFamily := DeterministicShuffle(sameFamilyBirds, seed);
      selectedWrongBirds := shuffledSameFamily;
      var remainingBirds := OtherFamily(availableBirds, cb.family);
      var shuffledRemaining := DeterministicShuffle(remainingBirds, seed);
      var stillNeeded := optionCount - 1 - |selectedWrongBirds|;
      selectedWrongBirds := PushFirst(selectedWrongBirds, shuffledRemaining, stillNeeded);
    }
    assert selectedWrongBirds == WrongBirds(availableBirds, cb.family, seed, optionCount);
    var allOptions := [cb] + selectedWrongBirds;
    var finalSeed := HashString(PracticeFinalKey(region, practiceIndex, cb.id));
    options := DeterministicShuffle(allOptions, finalSeed);
  }

  /** A shuffle keeps exactly the elements it was given. */
  lemma ShuffleMembers<T>(s: seq<T>, seed: nat)
    ensures forall x :: x in FisherYates(s, seed) <==> x in s
  {
    var r := FisherYates(s, seed);
    forall x ensures x in r <==> x in s {
      assert x in r <==> x in multiset(r);
      assert x in s <==> x in multiset(s);
    }
  }

  /** There are optionCount - 1 distractors, or every candidate when there are fewer. */
  lemma WrongBirdsCount(available: seq<Bird>, family: Option<JsString>, seed: nat, optionCount: int)
    requires optionCount >= 1
    ensures |WrongBirds(available, family, seed, optionCount)| == Min(optionCount - 1, |available|)
  {
    FamilySplitLength(available, family);
  }

  /** Every distractor is one of the candidates. */
  lemma WrongBirdsMembers(available: seq<Bird>, family: Option<JsString>, seed: nat, optionCount: int)
    requires optionCount >= 1
    ensures forall b :: b in WrongBirds(available, family, seed, optionCount) ==> b in available
  {
    var same := SameFamily(available, family);
    var other := OtherFamily(available, family);
    SameFamilyMembers(available, family);
    OtherFamilyMembers(available, family);
    ShuffleMembers(same, seed);
    ShuffleMembers(other, seed);
    var sh := FisherYates(same, seed);
    forall b | b in WrongBirds(available, family, seed, optionCount) ensures b in available {
      if |same| >= optionCount - 1 {
        assert b in sh;
      } else {
        var rem := FisherYates(other, seed);
        var taken := rem[..Min(optionCount - 1 - |same|, |rem|)];
        assert b in sh + taken;
        if b !in sh { assert b in rem; }
      }
    }
  }

  /**
   * The family preference: with enough same-family candidates every
   * distractor shares the family; otherwise all of them are used.
   */
  lemma WrongBirdsFamily(available: seq<Bird>, family: Option<JsString>, seed: nat, optionCount: int)
    requires optionCount >= 1
    ensures |SameFamily(available, family)| >= optionCount - 1 ==>
      forall b :: b in WrongBirds(available, family, seed, optionCount) ==> b.family == family
    ensures |SameFamily(available, family)| < optionCount - 1 ==>
      forall b :: b in available && b.family == family ==> b in WrongBirds(available, family, seed, optionCount)
  {
    var same := SameFamily(available, family);
    SameFamilyMembers(available, family);
    ShuffleMembers(same, seed);
    var sh := FisherYates(same, seed);
    var wrong := WrongBirds(available, family, seed, optionCount);
    if |same| >= optionCount - 1 {
      forall b | b in wrong ensures b.family == family { assert b in sh; }
    } else {
      var rem := FisherYates(OtherFamily(available, family), seed);
      assert wrong == sh + rem[..Min(optionCount - 1 - |same|, |rem|)];
    }
  }

  /** Distractors drawn from candidates with distinct ids have distinct ids. */
  lemma WrongBirdsDistinct(available: seq<Bird>, family: Option<JsString>, seed: nat, optionCount: int)
    requires optionCount >= 1 && DistinctIds(available)
    ensures DistinctIds(WrongBirds(available, family, seed, optionCount))
  {
    var same := SameFamily(available, family);
    var sh := FisherYates(same, seed);
    var wrong := WrongBirds(available, family, seed, optionCount);
    ShuffledFamilyDistinct(available, family, true, seed);
    if |same| >= optionCount - 1 {
      assert wrong == sh[..optionCount - 1];
      PrefixKeepsDistinctIds(sh, optionCount - 1);
    } else {
      var rem := FisherYates(OtherFamily(available, family), seed);
      var n := Min(optionCount - 1 - |same|, |rem|);
      assert wrong == sh + rem[..n];
      ShuffledFamilyDistinct(available, family, false, seed);
      PrefixKeepsDistinctIds(rem, n);
      forall y | y in rem[..n] ensures y in rem { }
      SplitByFamilyDistinct(sh, rem[..n], available, family);
    }
  }

  /**
   * One family filter (`same` picks which), shuffled, keeps distinct ids and
   * holds birds of the catalog on its side of the family split.
   */
  lemma ShuffledFamilyDistinct(available: seq<Bird>, family: Option<JsString>, same: bool, seed: nat)
    requires DistinctIds(available)
    ensures var part := if same then SameFamily(available, family) else OtherFamily(available, family);
      && DistinctIds(FisherYates(part, seed))
      && forall x :: x in FisherYates(part, seed) ==> x in available && (x.family == family <==> same)
  {
    var part := if same then SameFamily(available, family) else OtherFamily(available, family);
    SubsequenceKeepsDistinctIds(part, available);
    ShuffleKeepsDistinctIds(part, seed);
    ShuffleMembers(part, seed);
    if same {
      SameFamilyMembers(available, family);
    } else {
      OtherFamilyMembers(available, family);
    }
  }

  /** Joining two lists with distinct ids whose birds come from different families of one catalog. */
  lemma SplitByFamilyDistinct(a: seq<Bird>, b: seq<Bird>, available: seq<Bird>, family: Option<JsString>)
    requires DistinctIds(a) && DistinctIds(b) && DistinctIds(available)
    requires forall x :: x in a ==> x in available && x.family == family
    requires forall y :: y in b ==> y in available && y.family != family
    ensures DistinctIds(a + b)
  {
    var ab := a + b;
    forall p, q | 0 <= p < |ab| && 0 <= q < |ab| && p != q ensures ab[p].id != ab[q].id {
      if p < |a| && q < |a| {
        assert ab[p] == a[p] && ab[q] == a[q];
      } else if p >= |a| && q >= |a| {
        assert ab[p] == b[p - |a|] && ab[q] == b[q - |a|];
      } else {
        var x := if p < |a| then ab[p] else ab[q];
        var y := if p < |a| then ab[q] else ab[p];
        assert x in a by { assert x == a[if p < |a| then p else q]; }
        assert y in b by { assert y == b[(if p < |a| then q else p) - |a|]; }
        DifferentMembersDifferentIds(available, x, y);
      }
    }
  }

  /** Putting a bird in front of a list with distinct ids that lacks its id. */
  lemma ConsDistinct(cb: Bird, wrong: seq<Bird>)
    requires DistinctIds(wrong) && forall w :: w in wrong ==> w.id != cb.id
    ensures DistinctIds([cb] + wrong)
  {
    var all := [cb] + wrong;
    forall p, q | 0 <= p < |all| && 0 <= q < |all| && p != q ensures all[p].id != all[q].id {
      if p > 0 && q > 0 {
        assert all[p] == wrong[p - 1] && all[q] == wrong[q - 1];
      } else {
        var m := if p == 0 then q else p;
        assert all[m] == wrong[m - 1];
      }
    }
  }

  /** The list the options are shuffled from: the correct bird, then the distractors. */
  function Unshuffled(region: JsString, birds: Catalog, practiceIndex: nat, cb: Bird, optionCount: int): seq<Bird>
    requires region in birds
  {
    [cb] + WrongBirds(WithoutId(birds[region], cb.id), cb.family,
                      Hash(PracticeOptionsKey(region, practiceIndex, cb.id)), optionCount)
  }

  lemma OptionsAreShuffled(region: JsString, birds: Catalog, practiceIndex: nat, cb: Bird, optionCount: int)
    requires region in birds
    ensures PracticeOptions(region, birds, practiceIndex, Some(cb), optionCount)
         == FisherYates(Unshuffled(region, birds, practiceIndex, cb, optionCount), Hash(PracticeFinalKey(region, practiceIndex, cb.id)))
  {
  }

  /** No options without the region's catalog or without a correct bird. */
  lemma PracticeOptionsEmpty(region: JsString, birds: Catalog, practiceIndex: nat, correct: Option<Bird>, optionCount: int)
    requires region !in birds || correct.None?
    ensures PracticeOptions(region, birds, practiceIndex, correct, optionCount) == []
  {
  }

  /**
   * The correct bird is offered exactly once; every other option is a bird
   * of the region with a different id; there are 1 + min(optionCount - 1, n)
   * options, n being the number of other birds in the region.
   */
  lemma PracticeOptionsContents(region: JsString, birds: Catalog, practiceIndex: nat, cb: Bird, optionCount: int)
    requires region in birds && optionCount >= 1
    ensures var r := PracticeOptions(region, birds, practiceIndex, Some(cb), optionCount);
      && multiset(r)[cb] == 1
      && (forall b :: b in r && b != cb ==> b in birds[region] && b.id != cb.id)
      && |r| == 1 + Min(optionCount - 1, |WithoutId(birds[region], cb.id)|)
  {
    var available := WithoutId(birds[region], cb.id);
    var seed := Hash(PracticeOptionsKey(region, practiceIndex, cb.id));
    var wrong := WrongBirds(available, cb.family, seed, optionCount);
    var all := Unshuffled(region, birds, practiceIndex, cb, optionCount);
    var r := PracticeOptions(region, birds, practiceIndex, Some(cb), optionCount);
    OptionsAreShuffled(region, birds, practiceIndex, cb, optionCount);
    WrongBirdsMembers(available, cb.family, seed, optionCount);
    WrongBirdsCount(available, cb.family, seed, optionCount);
    WithoutIdMembers(birds[region], cb.id);
    ShuffleMembers(all, Hash(PracticeFinalKey(region, practiceIndex, cb.id)));
    assert cb !in wrong;
    assert multiset(all)[cb] == 1 by {
      assert multiset(all) == multiset{cb} + multiset(wrong);
    }
    forall b | b in r && b != cb ensures b in birds[region] && b.id != cb.id {
      assert b in all;
      assert b in wrong;
    }
  }

  /**
   * The family preference seen in the options: with enough same-family
   * candidates every option shares the correct bird's family, otherwise every
   * same-family bird of the region is offered.
   */
  lemma PracticeOptionsFamily(region: JsString, birds: Catalog, practiceIndex: nat, cb: Bird, optionCount: int)
    requires region in birds && optionCount >= 1
    ensures var r := PracticeOptions(region, birds, practiceIndex, Some(cb), optionCount);
      var available := WithoutId(birds[region], cb.id);
      && (|SameFamily(available, cb.family)| >= optionCount - 1 ==> forall b :: b in r ==> b.family == cb.family)
      && (|SameFamily(available, cb.family)| < optionCount - 1 ==>
            forall b :: b in birds[region] && b.id != cb.id && b.family == cb.family ==> b in r)
  {
    var available := WithoutId(birds[region], cb.id);
    var seed := Hash(PracticeOptionsKey(region, practiceIndex, cb.id));
    var all := Unshuffled(region, birds, practiceIndex, cb, optionCount);
    OptionsAreShuffled(region, birds, practiceIndex, cb, optionCount);
    WrongBirdsFamily(available, cb.family, seed, optionCount);
    WithoutIdMembers(birds[region], cb.id);
    ShuffleMembers(all, Hash(PracticeFinalKey(region, practiceIndex, cb.id)));
  }

  /** With distinct ids in the catalog, the options have distinct ids. */
  lemma PracticeOptionsDistinct(region: JsString, birds: Catalog, practiceIndex: nat, cb: Bird, optionCount: int)
    requires region in birds && optionCount >= 1 && DistinctIds(birds[region])
    ensures DistinctIds(PracticeOptions(region, birds, practiceIndex, Some(cb), optionCount))
  {
    var available := WithoutId(birds[region], cb.id);
    var seed := Hash(PracticeOptionsKey(region, practiceIndex, cb.id));
    var wrong := WrongBirds(available, cb.family, seed, optionCount);
    var all := Unshuffled(region, birds, practiceIndex, cb, optionCount);
    OptionsAreShuffled(region, birds, practiceIndex, cb, optionCount);
    SubsequenceKeepsDistinctIds(available, birds[region]);
    WrongBirdsDistinct(available, cb.family, seed, optionCount);
    WrongBirdsMembers(available, cb.family, seed, optionCount);
    WithoutIdMembers(birds[region], cb.id);
    ConsDistinct(cb, wrong);
    ShuffleKeepsDistinctIds(all, Hash(PracticeFinalKey(region, practiceIndex, cb.id)));
  }

  // ----- the practice round state ------------------------------------------

  datatype PracticeGuess = PracticeGuess(birdId: JsString, correct: bool, timestamp: Timestamp)

  datatype PracticeState = PracticeState(
    region: JsString,
    currentBird: Option<Bird>,
    answerOptions: seq<Bird>,
    guesses: seq<PracticeGuess>,
    completed: bool,
    won: bool,
    maxGuesses: int,
    practiceIndex: nat,
    startTime: Timestamp,
    endTime: Option<Timestamp>)

  /** createInitialPracticeState, lines 7-20; `now` is the clock reading. */
  function CreateInitialPracticeState(region: JsString, now: Timestamp): (s: PracticeState)
    ensures s.region == region && s.currentBird.None? && s.answerOptions == [] && s.guesses == []
    ensures !s.completed && !s.won && s.maxGuesses == MAX_GUESSES && s.practiceIndex == 0
    ensures s.startTime == now && s.endTime.None?
  {
    PracticeState(region, None, [], [], false, false, MAX_GUESSES, 0, now, None)
  }

  /**
   * processPracticeGuess, lines 111-137.  The clock is read twice: for the
   * guess's timestamp and for `endTime`.
   */
  function ProcessPracticeGuess(state: PracticeState, guessedBirdId: JsString, guessTime: Timestamp, endTime: Timestamp): (r: PracticeState)
    ensures state.currentBird.None? || state.completed ==> r == state
    ensures state.currentBird.Some? && !state.completed ==>
      var isCorrect := guessedBirdId == state.currentBird.value.id;
      var finished := isCorrect || |state.guesses| + 1 >= state.maxGuesses;
      && r.guesses == state.guesses + [PracticeGuess(guessedBirdId, isCorrect, guessTime)]
      && r.completed == (finished || state.completed)
      && r.won == (if finished then isCorrect else state.won)
      && r.endTime == (if finished then Some(endTime) else state.endTime)
      && r == state.(guesses := r.guesses, completed := r.completed, won := r.won, endTime := r.endTime)
  {
    if state.currentBird.None? || state.completed then state
    else
      var isCorrect := guessedBirdId == state.currentBird.value.id;
      var guess := PracticeGuess(guessedBirdId, isCorrect, guessTime);
      var newState := state.(guesses := state.guesses + [guess]);
      if isCorrect || |newState.guesses| >= newState.maxGuesses then
        newState.(completed := true, won := isCorrect, endTime := Some(endTime))
      else newState
  }

  /** startNewPracticeRound, lines 142-167; `now` is the clock reading. */
  function StartNewPracticeRound(state: PracticeState, birds: Catalog, now: Timestamp): (r: PracticeState)
    ensures state.region !in birds || birds[state.region] == [] ==> r == state
    ensures state.region in birds && birds[state.region] != [] ==>
      && r.practiceIndex == state.practiceIndex + 1
      && r.guesses == [] && !r.completed && !r.won
      && r.region == state.region && r.maxGuesses == state.maxGuesses
      && r.currentBird.Some? && r.currentBird.value in birds[state.region]
      && r.currentBird == GetPracticeBird(state.region, birds, r.practiceIndex)
      && r.answerOptions == PracticeOptions(state.region, birds, r.practiceIndex, r.currentBird, ANSWER_OPTIONS_COUNT)
      && r.startTime == now && r.endTime.None?
  {
    var nextPracticeIndex := state.practiceIndex + 1;
    var nextBird := GetPracticeBird(state.region, birds, nextPracticeIndex);
    if nextBird.None? then state
    else
      var answerOptions := PracticeOptions(state.region, birds, nextPracticeIndex, nextBird, ANSWER_OPTIONS_COUNT);
      state.(currentBird := nextBird, answerOptions := answerOptions, guesses := [], completed := false,
             won := false, practiceIndex := nextPracticeIndex, startTime := now, endTime := None)
  }

  /**
   * What holds of every practice state: the guess count stays within the
   * limit, an unfinished round still has room, a win ends the round, there are
   * no guesses without a bird, and the bird being asked about is one of the
   * options offered.
   */
  predicate ValidPractice(s: PracticeState) {
    && s.maxGuesses >= 1
    && |s.guesses| <= s.maxGuesses
    && (!s.completed ==> |s.guesses| < s.maxGuesses)
    && (s.won ==> s.completed)
    && (s.currentBird.None? ==> s.guesses == [])
    && (s.currentBird.Some? ==> s.currentBird.value in s.answerOptions)
  }

  lemma InitialPracticeValid(region: JsString, now: Timestamp)
    ensures ValidPractice(CreateInitialPracticeState(region, now))
  {
  }

  lemma ProcessPracticeGuessKeepsValid(s: PracticeState, guessedBirdId: JsString, guessTime: Timestamp, endTime: Timestamp)
    requires ValidPractice(s)
    ensures ValidPractice(ProcessPracticeGuess(s, guessedBirdId, guessTime, endTime))
  {
  }

  lemma StartNewPracticeRoundKeepsValid(s: PracticeState, birds: Catalog, now: Timestamp)
    requires ValidPractice(s)
    ensures ValidPractice(StartNewPracticeRound(s, birds, now))
  {
    var r := StartNewPracticeRound(s, birds, now);
    if s.region in birds && birds[s.region] != [] {
      PracticeOptionsContents(s.region, birds, r.practiceIndex, r.currentBird.value, ANSWER_OPTIONS_COUNT);
      assert multiset(r.answerOptions)[r.currentBird.value] == 1;
    }
  }
}
