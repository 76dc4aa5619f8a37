/**
 * The solo page's game state: picking the secret character, accepting a
 * guess, starting a new game or revealing the answer, the suggestion list the
 * Enter key guesses from, the report of a finished game to the statistics,
 * and the local (signed-out) statistics record.
 */
module SoloGame {
  import opened Wrappers
  import opened Random
  import opened JsText
  import opened GameData
  import opened Feedback
  import opened SoloFeedback
  import UserStats

  /** One guess as the page keeps it. */
  datatype Attempt = Attempt(guess: Character, feedback: map<string, FieldResult>, isCorrect: bool)

  /**
   * The page's state: the loaded game (`null` before it arrives), the pool of
   * characters, the secret character, the attempts newest first, whether the
   * game is over, and whether the finished game was reported to the statistics.
   */
  datatype Solo = Solo(
    game: Option<Game>,
    pool: seq<Character>,
    target: Option<Character>,
    attempts: seq<Attempt>,
    gameOver: bool,
    statsUpdated: bool)

  /** The state before anything is loaded. */
  const Initial := Solo(None, [], None, [], false, false)

  /** `gameData.maxAttempts || 26`: a missing or zero limit means 26. */
  function MaxAttempts(g: Game): (m: int)
    ensures g.maxAttempts.None? || g.maxAttempts.value == 0 ==> m == 26
    ensures g.maxAttempts.Some? && g.maxAttempts.value != 0 ==> m == g.maxAttempts.value
  {
    if g.maxAttempts.Some? && g.maxAttempts.value != 0 then g.maxAttempts.value else 26
  }

  /** Whether a character with this id was already guessed. */
  predicate Tried(attempts: seq<Attempt>, id: int) {
    exists i :: 0 <= i < |attempts| && attempts[i].guess.id == id
  }

  /** The data arrived: keep it, take its characters as the pool and pick a target from them. */
  function Load(s: Solo, data: Game, r: Roll): (t: Solo)
    requires IsDraw(r)
    ensures t.game == Some(data) && t.pool == data.characters
    ensures t.target.Some? <==> |data.characters| > 0
    ensures t.target.Some? ==> t.target.value in data.characters
    ensures t.attempts == s.attempts && t.gameOver == s.gameOver && t.statsUpdated == s.statsUpdated
  {
    s.(game := Some(data), pool := data.characters, target := Pick(data.characters, r))
  }

  /**
   * `validateSelection`: ignored when the game is over or nothing is loaded,
   * or when the character was already tried; otherwise the attempt goes in
   * front and the game ends on a correct guess or when the limit is reached.
   */
  function ValidateSelection(s: Solo, c: Character): (t: Solo)
    ensures s.gameOver || s.target.None? || s.game.None? || Tried(s.attempts, c.id) ==> t == s
    ensures !(s.gameOver || s.target.None? || s.game.None? || Tried(s.attempts, c.id)) ==>
      && |t.attempts| == |s.attempts| + 1
      && t.attempts[1..] == s.attempts
      && t.attempts[0].guess == c
      && t.attempts[0].isCorrect == (c.id == s.target.value.id)
      && t.attempts[0].feedback == SoloFeedbackObject(c, s.target.value, s.game.value.attributes)
      && (t.gameOver <==> c.id == s.target.value.id || |t.attempts| >= MaxAttempts(s.game.value))
      && t.game == s.game && t.pool == s.pool && t.target == s.target && t.statsUpdated == s.statsUpdated
  {
    if s.gameOver || s.target.None? || s.game.None? then s
    else if Tried(s.attempts, c.id) then s
    else
      var target := s.target.value;
      var isCorrect := c.id == target.id;
      var next := [Attempt(c, SoloFeedbackObject(c, target, s.game.value.attributes), isCorrect)] + s.attempts;
      s.(attempts := next, gameOver := isCorrect || |next| >= MaxAttempts(s.game.value))
  }

  /** `newGame`: a fresh target from the same pool, no attempts, not over, not reported. */
  function NewGame(s: Solo, r: Roll): (t: Solo)
    requires IsDraw(r)
    ensures t.target.Some? <==> |s.pool| > 0
    ensures t.target.Some? ==> t.target.value in s.pool
    ensures t.attempts == [] && !t.gameOver && !t.statsUpdated
    ensures t.game == s.game && t.pool == s.pool
  {
    s.(target := Pick(s.pool, r), attempts := [], gameOver := false, statsUpdated := false)
  }

  /** `revealAnswer`: the game is over, nothing else changes. */
  function RevealAnswer(s: Solo): (t: Solo)
    ensures t.gameOver && t.(gameOver := s.gameOver) == s
  {
    s.(gameOver := true)
  }

  /** The suggestions for a query: untried characters of the pool whose lower-case name contains the lower-case query. */
  predicate Suggested(s: Solo, query: string, c: Character) {
    !Tried(s.attempts, c.id) && Contains(ToLower(c.name), ToLower(query))
  }

  /** `filteredSuggestions`, in pool order; empty when the query is only whitespace. */
  function Suggestions(s: Solo, query: string): (r: seq<Character>)
    ensures Trim(query) == [] ==> r == []
    ensures Trim(query) != [] ==> forall c :: c in r <==> c in s.pool && Suggested(s, query, c)
  {
    if Trim(query) == [] then [] else Keep(s, query, s.pool)
  }

  /** The pool filter behind `Suggestions`. */
  function Keep(s: Solo, query: string, pool: seq<Character>): (r: seq<Character>)
    ensures forall c :: c in r <==> c in pool && Suggested(s, query, c)
    ensures |r| <= |pool|
  {
    if |pool| == 0 then []
    else
      var rest := Keep(s, query, pool[1..]);
      assert forall c :: c in pool <==> c == pool[0] || c in pool[1..];
      if Suggested(s, query, pool[0]) then [pool[0]] + rest else rest
  }

  /** Filtering a concatenated pool filters each part and keeps them in order. */
  lemma {:induction false} KeepAppend(s: Solo, query: string, a: seq<Character>, b: seq<Character>)
    ensures Keep(s, query, a + b) == Keep(s, query, a) + Keep(s, query, b)
  {
    if |a| == 0 {
      assert a + b == b;
    } else {
      assert (a + b)[1..] == a[1..] + b;
      KeepAppend(s, query, a[1..], b);
    }
  }

  /** One character is kept exactly when it is suggested; with `KeepAppend` this fixes the whole list in pool order. */
  lemma KeepOne(s: Solo, query: string, c: Character)
    ensures Keep(s, query, [c]) == if Suggested(s, query, c) then [c] else []
  {
  }

  /** The first kept character is the first suggested one of the pool. */
  lemma {:induction false} KeepFirst(s: Solo, query: string, pool: seq<Character>, j: int)
    requires 0 <= j < |pool| && Suggested(s, query, pool[j])
    requires forall i :: 0 <= i < j ==> !Suggested(s, query, pool[i])
    ensures |Keep(s, query, pool)| > 0 && Keep(s, query, pool)[0] == pool[j]
  {
    if j > 0 {
      KeepFirst(s, query, pool[1..], j - 1);
    }
  }

  /** A pool with no suggested character keeps nothing. */
  lemma {:induction false} KeepNone(s: Solo, query: string, pool: seq<Character>)
    requires forall i :: 0 <= i < |pool| ==> !Suggested(s, query, pool[i])
    ensures Keep(s, query, pool) == []
  {
    if |pool| > 0 {
      KeepNone(s, query, pool[1..]);
    }
  }

  /** `handleKeyDown` on Enter: guess the first suggestion, if any. */
  function PressEnter(s: Solo, query: string): (t: Solo)
  {
    var sug := Suggestions(s, query);
    if |sug| > 0 then ValidateSelection(s, sug[0]) else s
  }

  /** Enter guesses the first character of the pool that is suggested for a non-blank query. */
  lemma EnterGuessesFirst(s: Solo, query: string, j: int)
    requires Trim(query) != [] && 0 <= j < |s.pool| && Suggested(s, query, s.pool[j])
    requires forall i :: 0 <= i < j ==> !Suggested(s, query, s.pool[i])
    ensures PressEnter(s, query) == ValidateSelection(s, s.pool[j])
  {
    KeepFirst(s, query, s.pool, j);
  }

  /** With a blank query, or no suggested character in the pool, Enter changes nothing. */
  lemma EnterWithoutSuggestions(s: Solo, query: string)
    requires Trim(query) == [] || forall i :: 0 <= i < |s.pool| ==> !Suggested(s, query, s.pool[i])
    ensures PressEnter(s, query) == s
  {
    if Trim(query) != [] {
      KeepNone(s, query, s.pool);
    }
  }

  /** Enter on a non-empty suggestion list of a running game always adds an attempt: a suggestion is never a repeat. */
  lemma EnterAddsAttempt(s: Solo, query: string)
    requires !s.gameOver && s.target.Some? && s.game.Some?
    requires |Suggestions(s, query)| > 0
    ensures |PressEnter(s, query).attempts| == |s.attempts| + 1
  {
    var sug := Suggestions(s, query);
    assert sug[0] in sug;
  }

  /** The statistics effect: once a game is over and not yet reported, report whether some attempt was correct and how many there were. */
  function ReportStats(s: Solo): (out: (Solo, Option<UserStats.Outcome>))
    ensures s.gameOver && !s.statsUpdated ==>
      && out.1 == Some(UserStats.Outcome(exists i :: 0 <= i < |s.attempts| && s.attempts[i].isCorrect, false, |s.attempts|))
      && out.0 == s.(statsUpdated := true)
    ensures !(s.gameOver && !s.statsUpdated) ==> out == (s, None)
  {
    if s.gameOver && !s.statsUpdated then
      (s.(statsUpdated := true),
       Some(UserStats.Outcome(exists i :: 0 <= i < |s.attempts| && s.attempts[i].isCorrect, false, |s.attempts|)))
    else (s, None)
  }

  /**
   * What every reachable state satisfies: the tried characters are distinct,
   * only the newest attempt can be correct, a running game has no correct
   * attempt and has room for another attempt, no game holds more than
   * `max(1, maxAttempts)` attempts, and attempts exist only under a
   * loaded game with a target.
   */
  predicate SoloOk(s: Solo) {
    && (forall i, j :: 0 <= i < j < |s.attempts| ==> s.attempts[i].guess.id != s.attempts[j].guess.id)
    && (forall i :: 1 <= i < |s.attempts| ==> !s.attempts[i].isCorrect)
    && (!s.gameOver ==> forall i :: 0 <= i < |s.attempts| ==> !s.attempts[i].isCorrect)
    && (s.game.Some? ==> |s.attempts| <= UserStats.Max(1, MaxAttempts(s.game.value)))
    && (!s.gameOver && s.game.Some? ==> |s.attempts| < UserStats.Max(1, MaxAttempts(s.game.value)))
    && (|s.attempts| > 0 ==> s.game.Some? && s.target.Some?)
    && (s.statsUpdated ==> s.gameOver)
  }

  lemma InitialOk()
    ensures SoloOk(Initial)
  {
  }

  /** Loading the first game keeps the invariant. */
  lemma LoadKeepsOk(s: Solo, data: Game, r: Roll)
    requires IsDraw(r) && SoloOk(s) && s.attempts == []
    ensures SoloOk(Load(s, data, r))
  {
  }

  /** Accepting a guess keeps the invariant. */
  lemma ValidateKeepsOk(s: Solo, c: Character)
    requires SoloOk(s)
    ensures SoloOk(ValidateSelection(s, c))
  {
    var t := ValidateSelection(s, c);
    if t != s {
      assert !Tried(s.attempts, c.id);
      forall i, j | 0 <= i < j < |t.attempts|
        ensures t.attempts[i].guess.id != t.attempts[j].guess.id
      {
        if i == 0 {
          assert t.attempts[j] == s.attempts[j - 1];
        } else {
          assert t.attempts[i] == s.attempts[i - 1] && t.attempts[j] == s.attempts[j - 1];
        }
      }
      forall i | 1 <= i < |t.attempts|
        ensures !t.attempts[i].isCorrect
      {
        assert t.attempts[i] == s.attempts[i - 1];
      }
    }
  }

  lemma NewGameKeepsOk(s: Solo, r: Roll)
    requires IsDraw(r) && SoloOk(s)
    ensures SoloOk(NewGame(s, r))
  {
  }

  lemma RevealKeepsOk(s: Solo)
    requires SoloOk(s)
    ensures SoloOk(RevealAnswer(s))
  {
  }

  lemma ReportKeepsOk(s: Solo)
    requires SoloOk(s)
    ensures SoloOk(ReportStats(s).0)
  {
  }

  /** A reported game is won exactly when its newest attempt is correct. */
  lemma ReportedWinIsNewest(s: Solo)
    requires SoloOk(s) && s.gameOver && !s.statsUpdated
    ensures ReportStats(s).1.value.won <==> |s.attempts| > 0 && s.attempts[0].isCorrect
  {
  }

  /** The signed-out statistics kept in local storage. */
  datatype LocalStats = LocalStats(played: int, wins: int, streak: int, maxStreak: int)

  /** `updateLocalStorage`: one more game, a win extends the streak, a loss resets it, and the best streak keeps up. */
  function UpdateLocal(s: LocalStats, won: bool): (t: LocalStats)
    ensures s.streak <= s.maxStreak ==> t.streak <= t.maxStreak
    ensures 0 <= s.wins <= s.played ==> 0 <= t.wins <= t.played
  {
    var streak := if won then s.streak + 1 else 0;
    LocalStats(s.played + 1, s.wins + (if won then 1 else 0), streak, UserStats.Max(s.maxStreak, streak))
  }

  /** The local counters agree with the server's `updateStats` on the fields both keep. */
  function Project(s: UserStats.Stats): LocalStats {
    LocalStats(s.gamesPlayed, s.wins, s.currentStreak, s.maxStreak)
  }

  lemma LocalAgreesWithServer(s: UserStats.Stats, won: bool, isDuo: bool, attempts: int)
    ensures Project(UserStats.UpdateStats(s, won, isDuo, attempts)) == UpdateLocal(Project(s), won)
  {
  }
}
