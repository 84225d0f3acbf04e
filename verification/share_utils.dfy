/**
 * src/utils/ShareUtils.jsx: the text a player shares after a daily game.
 * Handing it to the browser's share sheet or clipboard is I/O and is not
 * part of this model.
 */
module ShareUtils {
  import opened Text
  import opened Wrappers
  import opened GameLogic

  /** 🟩, 🟥 and ⬛ as UTF-16 code units: the two squares are surrogate pairs. */
  const GREEN_SQUARE: JsString := [0xD83D, 0xDFE9]
  const RED_SQUARE: JsString := [0xD83D, 0xDFE5]
  const BLACK_SQUARE: JsString := [0x2B1B]
  /** 🐦 */
  const BIRD: JsString := [0xD83D, 0xDC26]

  /** The constants above are the UTF-16 encodings of the emoji in the source. */
  lemma EmojiEncodings()
    ensures GREEN_SQUARE == Utf16("\U{1F7E9}") && RED_SQUARE == Utf16("\U{1F7E5}")
    ensures BLACK_SQUARE == Utf16("\U{2B1B}") && BIRD == Utf16("\U{1F426}")
  {
    Utf16Single('\U{1F7E9}');
    Utf16Single('\U{1F7E5}');
    Utf16Single('\U{2B1B}');
    Utf16Single('\U{1F426}');
  }

  function Square(g: Guess): JsString {
    if g.correct then GREEN_SQUARE else RED_SQUARE
  }

  /** `guesses.map(guess => guess.correct ? '🟩' : '🟥').join('')` */
  function EmojiGrid(guesses: seq<Guess>): (u: JsString)
    ensures |u| == 2 * |guesses|
  {
    if guesses == [] then [] else Square(guesses[0]) + EmojiGrid(guesses[1..])
  }

  /** `'⬛'.repeat(n)` for n >= 0. */
  function Padding(n: nat): (u: JsString)
    ensures |u| == n
  {
    if n == 0 then [] else BLACK_SQUARE + Padding(n - 1)
  }

  /** The board: a square per guess, then a black square per unused guess. */
  function Board(guesses: seq<Guess>, unused: nat): JsString {
    EmojiGrid(guesses) + Padding(unused)
  }

  /** The result line: `${guesses.length}/${maxGuesses}` for a win, the literal `X/4` otherwise. */
  function ResultLine(state: GameState): JsString
    requires state.maxGuesses >= 0
  {
    if state.won then
      Utf16(DecimalDigits(|state.guesses|)) + Js("/") + Utf16(DecimalDigits(state.maxGuesses))
    else Js("X/4")
  }

  /** The lines above the board: title, date and result. */
  function Header(state: GameState): JsString
    requires state.maxGuesses >= 0
  {
    BIRD + Js(" Audio-Birdle ") + state.date + Js("\n") + ResultLine(state) + Js("\n\n")
  }

  /**
   * generateShareText, lines 3-12.  None is the RangeError that `repeat`
   * throws when there are more guesses than maxGuesses.
   */
  function GenerateShareText(state: GameState, currentUrl: JsString): (r: Option<JsString>)
    ensures r.None? <==> |state.guesses| > state.maxGuesses
    ensures r.Some? ==>
      r.value == Header(state) + Board(state.guesses, state.maxGuesses - |state.guesses|) + Js("\n\n") + currentUrl
  {
    var emojiGrid := EmojiGrid(state.guesses);
    var count := state.maxGuesses - |state.guesses|;
    if count < 0 then None
    else
      var padding := Padding(count);
      var result := ResultLine(state);
      Some(BIRD + Js(" Audio-Birdle ") + state.date + Js("\n") + result + Js("\n\n")
           + emojiGrid + padding + Js("\n\n") + currentUrl)
  }

  // ----- reading a board back ---------------------------------------------

  /** The black squares of a padding, counted; None if anything else is there. */
  function ParseBlacks(u: JsString): Option<nat> {
    if u == [] then Some(0)
    else if u[0] == 0x2B1B then
      var rest := ParseBlacks(u[1..]);
      if rest.None? then None else Some(rest.value + 1)
    else None
  }

  /** A board read back: the outcome of each guess, and the number of unused guesses. */
  function ParseBoard(u: JsString): Option<(seq<bool>, nat)> {
    if |u| >= 2 && u[0] == 0xD83D && (u[1] == 0xDFE9 || u[1] == 0xDFE5) then
      var rest := ParseBoard(u[2..]);
      if rest.None? then None else Some(([u[1] == 0xDFE9] + rest.value.0, rest.value.1))
    else
      var blacks := ParseBlacks(u);
      if blacks.None? then None else Some(([], blacks.value))
  }

  function Outcomes(guesses: seq<Guess>): (r: seq<bool>)
    ensures |r| == |guesses| && forall i :: 0 <= i < |guesses| ==> r[i] == guesses[i].correct
  {
    seq(|guesses|, i requires 0 <= i < |guesses| => guesses[i].correct)
  }

  lemma {:induction false} PaddingParses(n: nat)
    ensures ParseBlacks(Padding(n)) == Some(n)
  {
    if n > 0 {
      PaddingParses(n - 1);
      assert Padding(n)[1..] == Padding(n - 1);
    }
  }

  /** A board reads back as the outcome of every guess and the number of unused guesses. */
  lemma {:induction false} BoardRoundTrip(guesses: seq<Guess>, unused: nat)
    ensures ParseBoard(Board(guesses, unused)) == Some((Outcomes(guesses), unused))
  {
    var u := Board(guesses, unused);
    if guesses == [] {
      assert u == Padding(unused);
      PaddingParses(unused);
      if unused > 0 {
        assert u[0] == 0x2B1B;
      }
    } else {
      BoardRoundTrip(guesses[1..], unused);
      assert u == Square(guesses[0]) + Board(guesses[1..], unused);
      assert u[2..] == Board(guesses[1..], unused);
      assert Outcomes(guesses) == [guesses[0].correct] + Outcomes(guesses[1..]);
    }
  }

  /** The pieces of a text put together end to end are found again by slicing. */
  lemma Framed(header: JsString, middle: JsString, tail: JsString)
    ensures var s := header + middle + tail;
      && s[..|header|] == header && s[|s| - |tail|..] == tail && s[|header|..|s| - |tail|] == middle
  {
  }

  /**
   * A shared game reads back from its text: after the header, the board
   * between it and the blank line before the page address decodes to the
   * outcome of every guess, in order, and the number of unused guesses.
   */
  lemma ShareTextShowsGame(state: GameState, currentUrl: JsString)
    requires |state.guesses| <= state.maxGuesses
    ensures var r := GenerateShareText(state, currentUrl);
      && r.Some?
      && |Header(state)| + 2 + |currentUrl| <= |r.value|
      && r.value[..|Header(state)|] == Header(state)
      && r.value[|r.value| - |currentUrl|..] == currentUrl
      && ParseBoard(r.value[|Header(state)|..|r.value| - |currentUrl| - 2])
           == Some((Outcomes(state.guesses), state.maxGuesses - |state.guesses|))
  {
    var board := Board(state.guesses, state.maxGuesses - |state.guesses|);
    var nl2 := Js("\n\n");
    assert |nl2| == 2;
    Framed(Header(state), board, nl2 + currentUrl);
    Framed(Header(state) + board, nl2, currentUrl);
    BoardRoundTrip(state.guesses, state.maxGuesses - |state.guesses|);
  }

  /**
   * The result line of a won game states the number of guesses used out of
   * maxGuesses; a lost one says X/4 whatever maxGuesses is.
   */
  lemma ResultLineOfGame(state: GameState)
    requires state.maxGuesses >= 0
    ensures state.won ==> ResultLine(state) == Utf16(DecimalDigits(|state.guesses|) + "/" + DecimalDigits(state.maxGuesses))
    ensures !state.won ==> ResultLine(state) == Utf16("X/4")
  {
    if state.won {
      Utf16Append(DecimalDigits(|state.guesses|), "/");
      Utf16Append(DecimalDigits(|state.guesses|) + "/", DecimalDigits(state.maxGuesses));
      JsIsUtf16("/");
    } else {
      JsIsUtf16("X/4");
    }
  }
}
