/**
 * src/utils/GameLogic.jsx: the daily answer by hash, the daily answer
 * options, and the guess state machine of one daily game.
 */
module GameLogic {
  import opened Text
  import opened Wrappers
  import opened Seqs
  import opened HashUtils
  import opened Birds

  /** GAME_CONFIG.MAX_GUESSES (src/utils/Constants.jsx:9), written out as 4 in createInitialGameState. */
  const MAX_GUESSES: int := 4

  /** The key `${region}-${date}` that seeds the daily answer. */
  function DailyKey(region: JsString, date: JsString): JsString {
    region + Js("-") + date
  }

  /**
   * getDailyBird, lines 4-7: the bird at position hash mod n.  On an empty
   * list `birds[seed % 0]` is `undefined`, modelled as None.
   */
  function GetDailyBird(region: JsString, birds: seq<Bird>, date: JsString): (r: Option<Bird>)
    ensures r.None? <==> birds == []
    ensures r.Some? ==> r.value in birds
    ensures r.Some? ==> r.value == birds[Hash(DailyKey(region, date)) % |birds|]
  {
    if birds == [] then None else Some(birds[Hash(DailyKey(region, date)) % |birds|])
  }

  // ----- generateAnswerOptions --------------------------------------------

  /** The key `${selectedRegion}-${gameDate}-options` that seeds the option shuffle. */
  function OptionsKey(region: JsString, date: JsString): JsString {
    region + Js("-") + date + Js("-options")
  }

  /** `options[0] = correctBird`: overwrites the first slot, or creates it in an empty array. */
  function PutFirst(options: seq<Bird>, b: Bird): (r: seq<Bird>)
    ensures |r| == if options == [] then 1 else |options|
    ensures r[0] == b && r[1..] == if options == [] then [] else options[1..]
  {
    if options == [] then [b] else options[0 := b]
  }

  /** The list generateAnswerOptions returns (lines 9-25). */
  function AnswerOptions(region: JsString, birds: Catalog, date: JsString, correct: Option<Bird>, optionsCount: int): seq<Bird>
  {
    if region !in birds || correct.None? then []
    else
      var shuffled := SeedHalvingShuffle(birds[region], Hash(OptionsKey(region, date)));
      var options := SliceTo(shuffled, optionsCount);
      if HasId(options, correct.value.id) then options else PutFirst(options, correct.value)
  }

  /** generateAnswerOptions, lines 9-25. */
  method GenerateAnswerOptions(selectedRegion: JsString, birds: Catalog, gameDate: JsString,
                               correctBird: Option<Bird>, optionsCount: int)
    returns (options: seq<Bird>)
    ensures options == AnswerOptions(selectedRegion, birds, gameDate, correctBird, optionsCount)
  {
    if selectedRegion !in birds || correctBird.None? {
      return [];
    }
    var seed := HashString(OptionsKey(selectedRegion, gameDate));
    var shuffledBirds := ShuffleArray(birds[selectedRegion], seed);
    options := SliceTo(shuffledBirds, optionsCount);
    if !HasId(options, correctBird.value.id) {
      if |options| == 0 {
        options := [correctBird.value];
      } else {
        options := options[0 := correctBird.value];
      }
    }
  }

  lemma {:induction false} SeedHalvingKeepsDistinctIds(s: seq<Bird>, k: nat, seed: nat)
    requires k <= |s| && DistinctIds(s)
    ensures DistinctIds(SeedHalvingFrom(s, k, seed))
    decreases k
  {
    if k > 0 {
      var t := Swap(s, k - 1, seed % k);
      SeedHalvingStep(s, k, seed);
      SwapKeepsDistinctIds(s, k - 1, seed % k);
      SeedHalvingKeepsDistinctIds(t, k - 1, seed / 2);
    }
  }

  /**
   * What the options list guarantees: its length, that the correct bird's id
   * is always offered, that every option is a catalog bird or the correct
   * bird, and that a catalog with distinct ids gives distinct options.
   */
  lemma AnswerOptionsProperties(region: JsString, birds: Catalog, date: JsString, correct: Option<Bird>, optionsCount: int)
    ensures region !in birds || correct.None? ==> AnswerOptions(region, birds, date, correct, optionsCount) == []
    ensures region in birds && correct.Some? ==>
      var r := AnswerOptions(region, birds, date, correct, optionsCount);
      var k := SliceEnd(|birds[region]|, optionsCount);
      && |r| == (if k >= 1 then k else 1)
      && HasId(r, correct.value.id)
      && (forall b :: b in r ==> b in birds[region] || b == correct.value)
      && (DistinctIds(birds[region]) ==> DistinctIds(r))
  {
    if region in birds && correct.Some? {
      var cb := correct.value;
      var catalog := birds[region];
      var seed := Hash(OptionsKey(region, date));
      var options := SliceTo(SeedHalvingShuffle(catalog, seed), optionsCount);
      var r := AnswerOptions(region, birds, date, correct, optionsCount);
      assert r == if HasId(options, cb.id) then options else PutFirst(options, cb);
      assert |options| == SliceEnd(|catalog|, optionsCount);
      OptionsFromCatalog(catalog, seed, optionsCount);
      PutFirstMembers(options, cb);
      if DistinctIds(catalog) {
        OptionsDistinct(catalog, seed, optionsCount);
        if !HasId(options, cb.id) {
          PutFirstDistinct(options, cb);
        }
      }
    }
  }

  lemma OptionsFromCatalog(catalog: seq<Bird>, seed: nat, optionsCount: int)
    ensures forall b :: b in SliceTo(SeedHalvingShuffle(catalog, seed), optionsCount) ==> b in catalog
  {
    var shuffled := SeedHalvingShuffle(catalog, seed);
    forall b | b in SliceTo(shuffled, optionsCount) ensures b in catalog {
      assert b in shuffled;
      assert b in multiset(shuffled);
    }
  }

  lemma OptionsDistinct(catalog: seq<Bird>, seed: nat, optionsCount: int)
    requires DistinctIds(catalog)
    ensures DistinctIds(SliceTo(SeedHalvingShuffle(catalog, seed), optionsCount))
  {
    var shuffled := SeedHalvingShuffle(catalog, seed);
    SeedHalvingKeepsDistinctIds(catalog, |catalog|, seed);
    PrefixKeepsDistinctIds(shuffled, SliceEnd(|shuffled|, optionsCount));
  }

  lemma PutFirstMembers(options: seq<Bird>, b: Bird)
    ensures !HasId(options, b.id) ==> HasId(PutFirst(options, b), b.id)
    ensures forall x :: x in PutFirst(options, b) ==> x in options || x == b
  {
    var r := PutFirst(options, b);
    assert r[0].id == b.id;
    forall x | x in r ensures x in options || x == b {
      var i :| 0 <= i < |r| && r[i] == x;
      if i > 0 { assert x == r[1..][i - 1]; }
    }
  }

  lemma PutFirstDistinct(options: seq<Bird>, b: Bird)
    requires DistinctIds(options) && !HasId(options, b.id)
    ensures DistinctIds(PutFirst(options, b))
  {
    var r := PutFirst(options, b);
    forall p, q | 0 <= p < |r| && 0 <= q < |r| && p != q ensures r[p].id != r[q].id {
      if p > 0 { assert r[p] == r[1..][p - 1] == options[p]; }
      if q > 0 { assert r[q] == r[1..][q - 1] == options[q]; }
    }
  }

  // ----- the guess state machine ------------------------------------------

  datatype Guess = Guess(birdId: JsString, correct: bool)

  datatype GameState = GameState(date: JsString, guesses: seq<Guess>, completed: bool, won: bool, maxGuesses: int)

  /** createInitialGameState, lines 27-33. */
  function CreateInitialGameState(date: JsString): (s: GameState)
    ensures s.date == date && s.guesses == [] && !s.completed && !s.won && s.maxGuesses == MAX_GUESSES
  {
    GameState(date, [], false, false, 4)
  }

  /** processGuess, lines 35-49. */
  function ProcessGuess(state: GameState, birdId: JsString, correctBirdId: JsString): (r: GameState)
    ensures state.completed || |state.guesses| >= state.maxGuesses ==> r == state
    ensures !state.completed && |state.guesses| < state.maxGuesses ==>
      && r.guesses == state.guesses + [Guess(birdId, birdId == correctBirdId)]
      && r.won == (birdId == correctBirdId)
      && r.completed == (r.won || |r.guesses| >= state.maxGuesses)
      && r.date == state.date && r.maxGuesses == state.maxGuesses
  {
    if state.completed || |state.guesses| >= state.maxGuesses then state
    else
      var isCorrect := birdId == correctBirdId;
      var newGuesses := state.guesses + [Guess(birdId, isCorrect)];
      state.(guesses := newGuesses, completed := isCorrect || |newGuesses| >= state.maxGuesses, won := isCorrect)
  }

  /**
   * What holds of every game state the two functions above can produce:
   * the guess count stays within the limit, an unfinished game still has room,
   * only the last guess can be correct, `won` means the last guess was correct,
   * and a game is over exactly when it is won or the guesses are used up.
   */
  predicate ValidGame(s: GameState) {
    && s.maxGuesses >= 1
    && |s.guesses| <= s.maxGuesses
    && (!s.completed ==> |s.guesses| < s.maxGuesses)
    && (forall i :: 0 <= i < |s.guesses| - 1 ==> !s.guesses[i].correct)
    && (s.won <==> |s.guesses| > 0 && s.guesses[|s.guesses| - 1].correct)
    && (s.completed <==> s.won || |s.guesses| == s.maxGuesses)
  }

  lemma ProcessGuessKeepsValid(s: GameState, birdId: JsString, correctBirdId: JsString)
    requires ValidGame(s)
    ensures ValidGame(ProcessGuess(s, birdId, correctBirdId))
    ensures ProcessGuess(s, birdId, correctBirdId).maxGuesses == s.maxGuesses
  {
  }

  /** Submit a sequence of (guessed id, answer id) pairs in order. */
  function Play(s: GameState, moves: seq<(JsString, JsString)>): GameState
    decreases |moves|
  {
    if moves == [] then s else Play(ProcessGuess(s, moves[0].0, moves[0].1), moves[1..])
  }

  /**
   * Every state reachable from createInitialGameState is valid and keeps the
   * limit of 4, so it never holds more than 4 guesses.
   */
  lemma {:induction false} ReachableGamesValid(date: JsString, moves: seq<(JsString, JsString)>)
    ensures ValidGame(Play(CreateInitialGameState(date), moves))
    ensures Play(CreateInitialGameState(date), moves).maxGuesses == MAX_GUESSES
    ensures |Play(CreateInitialGameState(date), moves).guesses| <= MAX_GUESSES
  {
    PlayKeepsValid(CreateInitialGameState(date), moves);
  }

  lemma {:induction false} PlayKeepsValid(s: GameState, moves: seq<(JsString, JsString)>)
    requires ValidGame(s)
    ensures ValidGame(Play(s, moves)) && Play(s, moves).maxGuesses == s.maxGuesses
    decreases |moves|
  {
    if moves != [] {
      ProcessGuessKeepsValid(s, moves[0].0, moves[0].1);
      PlayKeepsValid(ProcessGuess(s, moves[0].0, moves[0].1), moves[1..]);
    }
  }

  /** A move whose guess is not the answer. */
  predicate AllWrong(moves: seq<(JsString, JsString)>) {
    forall i :: 0 <= i < |moves| ==> moves[i].0 != moves[i].1
  }

  /**
   * Four wrong guesses from a fresh game finish it as a loss with four
   * guesses; any further guesses change nothing.
   */
  lemma WrongGuessesLose(date: JsString, moves: seq<(JsString, JsString)>)
    requires |moves| >= MAX_GUESSES && AllWrong(moves)
    ensures var s := Play(CreateInitialGameState(date), moves);
      s.completed && !s.won && |s.guesses| == MAX_GUESSES
  {
    WrongMovesCount(CreateInitialGameState(date), moves);
  }

  /** From a valid game that is not won, n wrong guesses add min(n, room) guesses. */
  lemma {:induction false} WrongMovesCount(s: GameState, moves: seq<(JsString, JsString)>)
    requires ValidGame(s) && !s.won && AllWrong(moves)
    ensures var t := Play(s, moves);
      var n := Min(|s.guesses| + |moves|, s.maxGuesses);
      && !t.won && |t.guesses| == n && (t.completed <==> n == s.maxGuesses)
    decreases |moves|
  {
    if moves != [] {
      var s' := ProcessGuess(s, moves[0].0, moves[0].1);
      ProcessGuessKeepsValid(s, moves[0].0, moves[0].1);
      assert AllWrong(moves[1..]) by {
        forall i | 0 <= i < |moves[1..]| ensures moves[1..][i].0 != moves[1..][i].1 {
          assert moves[1..][i] == moves[i + 1];
        }
      }
      WrongMovesCount(s', moves[1..]);
    }
  }

  /** A completed game is left untouched by any further guesses. */
  lemma {:induction false} FinishedGameUnchanged(s: GameState, moves: seq<(JsString, JsString)>)
    requires s.completed
    ensures Play(s, moves) == s
    decreases |moves|
  {
    if moves != [] {
      FinishedGameUnchanged(s, moves[1..]);
    }
  }
}
