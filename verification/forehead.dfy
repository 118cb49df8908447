/**
 * The forehead word game: a deck of words shuffled by Fisher-Yates, a
 * lobby / loading / playing / finished session, a 45-second countdown and a
 * revolving word index. `Math.random()` draws are supplied as reals in [0, 1);
 * the remote word table is reduced to the result of its fetch.
 */
module Forehead {
  import opened Text

  /** Seconds in one round. */
  const RoundSeconds: int := 45

  datatype GameState = Lobby | Loading | Playing | Finished

  /** A deck entry: remote entries carry an id, fallback entries do not. */
  datatype Word = Word(id: Option<string>, word: string)

  /** The id test `currentWord.id` / `!id`: present and not the empty string. */
  predicate HasId(w: Word) {
    w.id.Some? && w.id.value != ""
  }

  // ---------------------------------------------------------------------------
  // Deck

  /** `Math.floor(r * (i + 1))` for a draw `r` in [0, 1): an index in [0, i]. */
  function SwapIndex(r: real, i: nat): (j: nat)
    requires 0.0 <= r < 1.0
    ensures j <= i
  {
    var n := (i + 1) as real;
    assert 0.0 <= r * n < n by {
      assert r * n < 1.0 * n;
    }
    (r * n).Floor
  }

  predicate ValidDraws(rolls: seq<real>, n: nat) {
    n <= |rolls| && forall k :: 0 <= k < |rolls| ==> 0.0 <= rolls[k] < 1.0
  }

  /**
   * `shuffleArray`: copy the input, then for `i` from the last index down to 1
   * swap positions `i` and `SwapIndex(rolls[i], i)`. The input is a value and
   * stays as it was; the result holds the same entries.
   */
  method ShuffleArray(input: seq<Word>, rolls: seq<real>) returns (shuffled: seq<Word>)
    requires ValidDraws(rolls, |input|)
    ensures |shuffled| == |input|
    ensures multiset(shuffled) == multiset(input)
    ensures |input| <= 1 ==> shuffled == input
  {
    var a := new Word[|input|](k requires 0 <= k < |input| => input[k]);
    assert a[..] == input;
    var i := a.Length - 1;
    while i > 0
      invariant -1 <= i < a.Length
      invariant multiset(a[..]) == multiset(input)
      invariant a.Length <= 1 ==> a[..] == input
    {
      var j := SwapIndex(rolls[i], i);
      ghost var before := a[..];
      a[i], a[j] := a[j], a[i];
      assert a[..] == before[i := before[j]][j := before[i]];
      SwapKeepsEntries(before, i, j);
      i := i - 1;
    }
    shuffled := a[..];
  }

  /** Exchanging two entries keeps the same entries. */
  lemma SwapKeepsEntries(s: seq<Word>, i: nat, j: nat)
    requires i < |s| && j < |s|
    ensures multiset(s[i := s[j]][j := s[i]]) == multiset(s)
  {
  }

  /** The built-in word list as deck entries: one per word, in order, none with an id. */
  function FallbackDeck(words: seq<string>): (deck: seq<Word>)
    ensures |deck| == |words|
    ensures forall k :: 0 <= k < |deck| ==> deck[k].word == words[k] && deck[k].id == None
  {
    seq(|words|, k requires 0 <= k < |words| => Word(None, words[k]))
  }

  /**
   * `fetchWords`: the fetched rows, shuffled, when the fetch returned a non-empty
   * list; otherwise (no data, an error, or an empty table) the fallback list,
   * shuffled. `fetched` is `None` when the fetch failed or returned no data.
   */
  method FetchWords(fetched: Option<seq<Word>>, fallbackWords: seq<string>, rolls: seq<real>)
    returns (deck: seq<Word>)
    requires ValidDraws(rolls, |fallbackWords|)
    requires fetched.Some? ==> ValidDraws(rolls, |fetched.value|)
    ensures fetched.Some? && |fetched.value| > 0 ==> multiset(deck) == multiset(fetched.value)
    ensures !(fetched.Some? && |fetched.value| > 0) ==>
      multiset(deck) == multiset(FallbackDeck(fallbackWords)) && |deck| == |fallbackWords|
    ensures !(fetched.Some? && |fetched.value| > 0) ==> forall k :: 0 <= k < |deck| ==> !HasId(deck[k])
  {
    if fetched.Some? && |fetched.value| > 0 {
      deck := ShuffleArray(fetched.value, rolls);
    } else {
      var fallback := FallbackDeck(fallbackWords);
      deck := ShuffleArray(fallback, rolls);
      forall k | 0 <= k < |deck| ensures !HasId(deck[k]) {
        assert deck[k] in multiset(fallback);
      }
    }
  }

  /** The id a `nextWord` call reports as last seen: the current word's, when it has one. */
  function LastSeenTarget(words: seq<Word>, index: int): (r: Option<string>)
    ensures r.Some? <==> 0 <= index < |words| && HasId(words[index])
    ensures r.Some? ==> r == words[index].id && r.value != ""
  {
    if 0 <= index < |words| && HasId(words[index]) then words[index].id else None
  }

  /** A deck without ids never asks for a last-seen update. */
  lemma NoIdsNoUpdate(words: seq<Word>, index: int)
    requires forall k :: 0 <= k < |words| ==> !HasId(words[k])
    ensures LastSeenTarget(words, index) == None
  {
  }

  /** The index after `nextWord`: one further, or back to 0 after the last word. */
  function NextIndex(index: int, count: nat): (r: int)
    ensures 0 <= index < count ==> 0 <= r < count
    ensures index < count - 1 ==> r == index + 1
    ensures index >= count - 1 ==> r == 0
  {
    if index < count - 1 then index + 1 else 0
  }

  function AdvanceTimes(index: int, count: nat, k: nat): int
    decreases k
  {
    if k == 0 then index else NextIndex(AdvanceTimes(index, count, k - 1), count)
  }

  lemma {:induction false} AdvanceCompose(index: int, count: nat, a: nat, b: nat)
    ensures AdvanceTimes(index, count, a + b) == AdvanceTimes(AdvanceTimes(index, count, a), count, b)
    decreases b
  {
    if b > 0 {
      AdvanceCompose(index, count, a, b - 1);
    }
  }

  /** Starting from the first word, the first `count` advances visit every word in order and return to word 0. */
  lemma {:induction false} AdvanceFirstLap(count: nat, k: nat)
    requires 1 <= count && k <= count
    ensures AdvanceTimes(0, count, k) == if k < count then k else 0
    decreases k
  {
    if k > 0 {
      AdvanceFirstLap(count, k - 1);
    }
  }

  /** The deck revolves: `count` more advances land on the same word. */
  lemma AdvanceRevolves(count: nat, k: nat)
    requires count >= 1
    ensures AdvanceTimes(0, count, k + count) == AdvanceTimes(0, count, k)
  {
    AdvanceCompose(0, count, count, k);
    AdvanceFirstLap(count, count);
    assert k + count == count + k;
  }

  // ---------------------------------------------------------------------------
  // Countdown

  /** The game state and the seconds left, the two values the countdown effect watches. */
  datatype Clock = Clock(state: GameState, timeLeft: int)

  /**
   * The synchronous body of the countdown effect: while playing with time left
   * it only arms the interval; otherwise a zero `timeLeft` finishes the game,
   * whatever the state.
   */
  function CountdownEffect(c: Clock): (r: Clock)
    ensures r.timeLeft == c.timeLeft
    ensures c.timeLeft == 0 ==> r.state == Finished
    ensures c.timeLeft != 0 ==> r.state == c.state
  {
    if c.state == Playing && c.timeLeft > 0 then c
    else if c.timeLeft == 0 then Clock(Finished, c.timeLeft)
    else c
  }

  /** One firing of the interval (which only exists while playing with time left), then the effect. */
  function Tick(c: Clock): (r: Clock)
    ensures c.state == Playing && c.timeLeft > 0 ==> r.timeLeft == c.timeLeft - 1
    ensures !(c.state == Playing && c.timeLeft > 0) ==> r == CountdownEffect(c)
    ensures c.timeLeft >= 0 ==> r.timeLeft >= 0
  {
    if c.state == Playing && c.timeLeft > 0 then CountdownEffect(Clock(Playing, c.timeLeft - 1))
    else CountdownEffect(c)
  }

  function Ticks(c: Clock, k: nat): Clock
    decreases k
  {
    if k == 0 then c else Ticks(Tick(c), k - 1)
  }

  /**
   * From a playing clock with `t` seconds left, fewer than `t` ticks leave it
   * playing with `t - k` seconds; `t` or more ticks finish it at exactly 0.
   */
  lemma {:induction false} CountdownRuns(t: nat, k: nat)
    requires t >= 1
    ensures k < t ==> Ticks(Clock(Playing, t), k) == Clock(Playing, t - k)
    ensures k >= t ==> Ticks(Clock(Playing, t), k) == Clock(Finished, 0)
    decreases k
  {
    if k > 0 {
      assert Ticks(Clock(Playing, t), k) == Ticks(Tick(Clock(Playing, t)), k - 1);
      assert Tick(Clock(Playing, t)) == if t == 1 then Clock(Finished, 0) else Clock(Playing, t - 1);
      if t == 1 {
        FinishedStaysFinished(k - 1);
      } else {
        CountdownRuns(t - 1, k - 1);
      }
    }
  }

  lemma {:induction false} FinishedStaysFinished(k: nat)
    ensures Ticks(Clock(Finished, 0), k) == Clock(Finished, 0)
    decreases k
  {
    if k > 0 {
      FinishedStaysFinished(k - 1);
    }
  }

  /** A full round: 46 one-second ticks after the start end finished at 0, never below. */
  lemma RoundEndsAtZero()
    ensures Ticks(Clock(Playing, RoundSeconds), 46) == Clock(Finished, 0)
  {
    CountdownRuns(45, 46);
  }

  // ---------------------------------------------------------------------------
  // State

  class ForeheadGame {
    var gameState: GameState
    var timeLeft: int
    var currentWordIndex: int
    var words: seq<Word>

    /**
     * The seconds left stay within the round, a zero count means the game is
     * finished (the effect has run), and the index names a word or is 0.
     */
    ghost predicate Valid()
      reads this
    {
      && 0 <= timeLeft <= RoundSeconds
      && (timeLeft == 0 ==> gameState == Finished)
      && 0 <= currentWordIndex
      && (currentWordIndex < |words| || currentWordIndex == 0)
    }

    constructor ()
      ensures Valid()
      ensures gameState == Lobby && timeLeft == RoundSeconds && currentWordIndex == 0 && words == []
    {
      gameState := Lobby;
      timeLeft := RoundSeconds;
      currentWordIndex := 0;
      words := [];
    }

    /**
     * The first half of `startGame`: show the loading state, then let the
     * effect run. After a finished round `timeLeft` is still 0, so the effect
     * immediately turns the loading state back into finished.
     */
    method BeginStart()
      requires Valid()
      modifies this`gameState
      ensures Valid()
      ensures old(timeLeft) != 0 ==> gameState == Loading
      ensures old(timeLeft) == 0 ==> gameState == Finished
    {
      gameState := Loading;
      var c := CountdownEffect(Clock(gameState, timeLeft));
      gameState := c.state;
    }

    /** The second half of `startGame`, once the deck has arrived: play from word 0 with a full round. */
    method CompleteStart(deck: seq<Word>)
      requires Valid()
      modifies this
      ensures Valid()
      ensures gameState == Playing && currentWordIndex == 0 && timeLeft == RoundSeconds && words == deck
    {
      words := deck;
      currentWordIndex := 0;
      timeLeft := RoundSeconds;
      gameState := Playing;
      var c := CountdownEffect(Clock(gameState, timeLeft));
      gameState := c.state;
    }

    /**
     * `nextWord`: ignored unless playing; otherwise reports the current word's
     * id for a last-seen update (when it has one) and advances the index,
     * wrapping to 0 after the last word.
     */
    method NextWord() returns (lastSeen: Option<string>)
      requires Valid()
      modifies this`currentWordIndex
      ensures Valid()
      ensures old(gameState) != Playing ==> currentWordIndex == old(currentWordIndex) && lastSeen == None
      ensures old(gameState) == Playing ==>
        currentWordIndex == NextIndex(old(currentWordIndex), |words|)
        && lastSeen == LastSeenTarget(words, old(currentWordIndex))
      ensures words != [] ==> currentWordIndex < |words|
    {
      if gameState != Playing {
        return None;
      }
      lastSeen := LastSeenTarget(words, currentWordIndex);
      if currentWordIndex < |words| - 1 {
        currentWordIndex := currentWordIndex + 1;
      } else {
        currentWordIndex := 0;
      }
    }

    /** One second of the countdown interval followed by the effect. */
    method CountdownTick()
      requires Valid()
      modifies this`timeLeft, this`gameState
      ensures Valid()
      ensures Clock(gameState, timeLeft) == Tick(Clock(old(gameState), old(timeLeft)))
    {
      if gameState == Playing && timeLeft > 0 {
        timeLeft := timeLeft - 1;
      }
      var c := CountdownEffect(Clock(gameState, timeLeft));
      gameState := c.state;
    }
  }
}
