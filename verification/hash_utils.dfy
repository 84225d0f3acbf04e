/**
 * src/utils/HashUtils.jsx: the string hash that seeds every daily choice, and
 * the seed-halving shuffle used by the daily game.
 */
module HashUtils {
  import opened Text
  import opened Seqs

  const TWO_31: int := 0x8000_0000
  const TWO_32: int := 0x1_0000_0000

  predicate IsInt32(x: int) { -TWO_31 <= x < TWO_31 }

  /**
   * ToInt32 of ECMAScript (section 7.1.6 of ECMA-262): the 32-bit signed
   * integer congruent to x modulo 2^32.  Every JavaScript bitwise operator
   * applies it to its operands and its result.
   */
  function ToInt32(x: int): (r: int)
    ensures IsInt32(r)
    ensures r % TWO_32 == x % TWO_32
  {
    var m := x % TWO_32;
    if m >= TWO_31 then m - TWO_32 else m
  }

  /** Two integers with the same residue have the same ToInt32. */
  lemma ToInt32Congruent(x: int, y: int)
    requires x % TWO_32 == y % TWO_32
    ensures ToInt32(x) == ToInt32(y)
  {
  }

  lemma ModAddMultiple(a: int, k: int)
    ensures (a + k * TWO_32) % TWO_32 == a % TWO_32
  {
    var q := a / TWO_32;
    var r := a % TWO_32;
    assert a + k * TWO_32 == (q + k) * TWO_32 + r;
  }

  /** Adding the same amount to congruent integers keeps them congruent. */
  lemma ModAddCongruent(x: int, y: int, d: int)
    requires x % TWO_32 == y % TWO_32
    ensures (x + d) % TWO_32 == (y + d) % TWO_32
  {
    var k := x / TWO_32 - y / TWO_32;
    assert x == y + k * TWO_32;
    ModAddMultiple(y + d, k);
    assert x + d == (y + d) + k * TWO_32;
  }

  /** `x << 5`: the 32-bit operand shifted left, the result read back as signed. */
  function ShiftLeft5(x: int): int {
    ToInt32(ToInt32(x) * 32)
  }

  /**
   * One iteration of the loop body, lines 7-8:
   * `hash = ((hash << 5) - hash) + code; hash = hash & hash`.
   */
  function HashStep(h: int, c: Unit): int {
    var sum := ShiftLeft5(h) - h + c;
    ToInt32(sum)   // `hash & hash`
  }

  /** The step is the polynomial recurrence h*31 + c wrapped to signed 32 bits. */
  lemma StepIsPolynomial(h: int, c: Unit)
    requires IsInt32(h)
    ensures HashStep(h, c) == ToInt32(31 * h + c)
  {
    assert ToInt32(h) == h;
    var shifted := ToInt32(h * 32);
    ModAddCongruent(shifted, h * 32, -h + c);
    assert shifted - h + c == shifted + (-h + c);
    assert h * 32 + (-h + c) == 31 * h + c;
    ToInt32Congruent(shifted - h + c, 31 * h + c);
  }

  /** The loop as a left fold from the running value h. */
  function HashFold(h: int, s: JsString): (r: int)
    ensures IsInt32(h) || s != [] ==> IsInt32(r)
    decreases |s|
  {
    if s == [] then h else HashFold(HashStep(h, s[0]), s[1..])
  }

  /** The value of `hash` after the loop, before `Math.abs`. */
  function RunningHash(s: JsString): (r: int)
    ensures IsInt32(r)
  {
    HashFold(0, s)
  }

  lemma {:induction false} HashFoldAppend(h: int, s: JsString, t: JsString)
    ensures HashFold(h, s + t) == HashFold(HashFold(h, s), t)
    decreases |s|
  {
    if s == [] {
      assert s + t == t;
    } else {
      assert (s + t)[0] == s[0];
      assert (s + t)[1..] == s[1..] + t;
      HashFoldAppend(HashStep(h, s[0]), s[1..], t);
    }
  }

  /**
   * The running value for s ++ [c] depends only on the running value for s and
   * on c, and is signed32(31*h + c).
   */
  lemma RunningHashSnoc(s: JsString, c: Unit)
    ensures RunningHash(s + [c]) == HashStep(RunningHash(s), c)
    ensures RunningHash(s + [c]) == ToInt32(31 * RunningHash(s) + c)
  {
    HashFoldAppend(0, s, [c]);
    StepIsPolynomial(RunningHash(s), c);
  }

  /** `hashString(str)`: `Math.abs` of the running value. */
  function Hash(s: JsString): (r: nat)
    ensures r <= TWO_31
    ensures r == TWO_31 <==> RunningHash(s) == -TWO_31
    ensures r == RunningHash(s) || r == -RunningHash(s)
    ensures s == [] ==> r == 0
  {
    var v := RunningHash(s);
    if v < 0 then -v else v
  }

  /** hashString, lines 3-11. */
  method HashString(str: JsString) returns (result: nat)
    ensures result == Hash(str)
  {
    var hash := 0;
    for i := 0 to |str|
      invariant hash == RunningHash(str[..i])
    {
      var code := str[i];
      hash := (ShiftLeft5(hash) - hash) + code;
      hash := ToInt32(hash);
      assert str[..i + 1] == str[..i] + [code];
      RunningHashSnoc(str[..i], code);
    }
    assert str[..|str|] == str;
    result := if hash < 0 then -hash else hash;
  }

  // ----- shuffleArray ------------------------------------------------------

  /**
   * The while loop of shuffleArray from the point where `currentIndex` is k
   * and the seed has been halved down to `seed`.
   */
  function SeedHalvingFrom<T>(s: seq<T>, k: nat, seed: nat): (r: seq<T>)
    requires k <= |s|
    ensures |r| == |s| && multiset(r) == multiset(s)
    decreases k
  {
    if k == 0 then s
    else
      var randomIndex := seed % k;
      SwapPermutes(s, k - 1, randomIndex);
      SeedHalvingFrom(Swap(s, k - 1, randomIndex), k - 1, seed / 2)
  }

  /** One pass of the shuffle loop, at position k - 1. */
  lemma SeedHalvingStep<T>(s: seq<T>, k: nat, seed: nat)
    requires 0 < k <= |s|
    ensures SeedHalvingFrom(s, k, seed) == SeedHalvingFrom(Swap(s, k - 1, seed % k), k - 1, seed / 2)
  {
  }

  /** What shuffleArray(array, seed) returns. */
  function SeedHalvingShuffle<T>(s: seq<T>, seed: nat): (r: seq<T>)
    ensures |r| == |s| && multiset(r) == multiset(s)
  {
    SeedHalvingFrom(s, |s|, seed)
  }

  /** shuffleArray, lines 13-26: swaps in a copy, so `array` itself is left as it was. */
  method ShuffleArray<T>(input: seq<T>, seed: nat) returns (result: seq<T>)
    ensures result == SeedHalvingShuffle(input, seed)
    ensures multiset(result) == multiset(input)
  {
    var shuffled := new T[|input|](i requires 0 <= i < |input| => input[i]);
    assert shuffled[..] == input;
    var currentIndex := shuffled.Length;
    var sd: nat := seed;
    while currentIndex != 0
      invariant 0 <= currentIndex <= shuffled.Length
      invariant SeedHalvingFrom(shuffled[..], currentIndex, sd) == SeedHalvingShuffle(input, seed)
      decreases currentIndex
    {
      SeedHalvingStep(shuffled[..], currentIndex, sd);
      var randomIndex := sd % currentIndex;
      currentIndex := currentIndex - 1;
      ghost var before := shuffled[..];
      shuffled[currentIndex], shuffled[randomIndex] := shuffled[randomIndex], shuffled[currentIndex];
      assert shuffled[..] == Swap(before, currentIndex, randomIndex);
      sd := sd / 2;
    }
    result := shuffled[..];
  }
}
