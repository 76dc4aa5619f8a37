/**
 * One duel room and its round lifecycle: created `playing`, a correct guess
 * or the simultaneous-mode timer makes it `finished`, and a rematch both
 * players vote for makes it `playing` again. Each operation of the session
 * directory on a room is a function from the room to its new value.
 */
module GameRoom {
  import opened Wrappers
  import opened Random
  import opened GameData
  import opened Feedback

  /** The signed-in user behind a socket. */
  datatype User = User(userId: int, username: string)

  /** `user?.userId` is truthy. */
  predicate HasUserId(u: Option<User>) {
    u.Some? && u.value.userId != 0
  }

  /** `'turnbased'`, `'simultaneous'`, or any other string, which gets neither turns nor a timer. */
  datatype GameMode = TurnBased | Simultaneous | OtherMode(name: string)

  function ModeOf(s: string): GameMode {
    if s == "turnbased" then TurnBased else if s == "simultaneous" then Simultaneous else OtherMode(s)
  }

  datatype Status = Playing | Finished

  /** The simultaneous-mode round clock. */
  datatype Clock = Clock(startTime: int, duration: int)

  const RoundLength: int := 180000

  datatype GuessAttempt = GuessAttempt(guess: Character, feedback: map<string, FieldResult>, isCorrect: bool, timestamp: int)

  datatype Player = Player(attempts: seq<GuessAttempt>, rematchVote: bool, username: string, user: Option<User>)

  datatype Message = Message(id: int, senderId: string, senderName: string, text: string, timestamp: int)

  const MaxMessages: nat := 50
  const MaxMessageLength: nat := 200

  /**
   * A room. `first` and `second` are the two sockets in the order the
   * `players` object was built, which is the order `Object.keys` returns.
   */
  datatype Room = Room(
    id: string,
    gameId: string,
    category: string,
    mode: GameMode,
    target: Option<Character>,
    game: Game,
    first: string,
    second: string,
    players: map<string, Player>,
    scores: map<string, int>,
    messages: seq<Message>,
    currentTurn: Option<string>,
    status: Status,
    winner: Option<string>,
    createdAt: int,
    timer: Option<Clock>)

  /** `Object.keys(room.players)`. */
  function PlayerIds(room: Room): seq<string> {
    if room.first == room.second then [room.first] else [room.first, room.second]
  }

  /** `user?.username || fallback`. */
  function NameOf(u: Option<User>, fallback: string): string {
    if u.Some? && u.value.username != "" then u.value.username else fallback
  }

  /**
   * `createRoom`'s room: a target picked from the game's characters, a coin
   * flip for who starts (turn-based only), a fresh player record and a zero
   * score per socket, and the three-minute clock (simultaneous only).
   */
  function NewRoom(id: string, s1: string, u1: Option<User>, s2: string, u2: Option<User>, game: Game,
                   gameId: string, category: string, mode: GameMode, pick: Roll, coin: Roll, now: int): (room: Room)
    requires IsDraw(pick)
    ensures room.id == id && room.status == Playing && room.winner == None && room.messages == []
    ensures room.players.Keys == {s1, s2} && room.scores.Keys == {s1, s2}
    ensures forall s :: s in room.players ==> room.players[s].attempts == [] && !room.players[s].rematchVote
    ensures forall s :: s in room.scores ==> room.scores[s] == 0
    ensures room.target.Some? <==> |game.characters| > 0
    ensures room.target.Some? ==> room.target.value in game.characters
    ensures room.currentTurn.Some? <==> mode == TurnBased
    ensures room.currentTurn.Some? ==> room.currentTurn.value in {s1, s2}
    ensures room.timer.Some? <==> mode == Simultaneous
    ensures room.timer.Some? ==> room.timer.value == Clock(now, RoundLength)
  {
    var starter := if BelowHalf(coin) then s1 else s2;
    Room(id, gameId, category, mode, Pick(game.characters, pick), game, s1, s2,
      map[s1 := Player([], false, NameOf(u1, "Joueur 1"), u1)][s2 := Player([], false, NameOf(u2, "Joueur 2"), u2)],
      map[s1 := 0][s2 := 0],
      [],
      if mode == TurnBased then Some(starter) else None,
      Playing, None, now,
      if mode == Simultaneous then Some(Clock(now, RoundLength)) else None)
  }

  /** `getOpponentId`: the first player id that is not `s`. */
  function OpponentOf(room: Room, s: string): (o: Option<string>)
    ensures o.Some? ==> o.value != s && o.value in PlayerIds(room)
    ensures o.None? <==> forall k :: k in PlayerIds(room) ==> k == s
    ensures room.first != room.second && s == room.first ==> o == Some(room.second)
    ensures room.first != room.second && s == room.second ==> o == Some(room.first)
  {
    if room.first != s then Some(room.first)
    else if room.second != s then Some(room.second)
    else None
  }

  // ---------------------------------------------------------------------------
  // Chat
  // ---------------------------------------------------------------------------

  function Prefix(s: string, n: nat): (r: string)
    ensures |r| <= n && (|s| <= n ==> r == s) && (|s| > n ==> r == s[..n])
  {
    if |s| <= n then s else s[..n]
  }

  /**
   * `addMessage` on a room: a player's message, cut to 200 characters, goes
   * at the end, and the oldest message goes when there are more than 50.
   */
  function AddMessage(room: Room, s: string, text: string, now: int): (r: Option<(Room, Message)>)
    ensures r.None? <==> s !in room.players
    ensures r.Some? ==>
      var (next, m) := r.value;
      && m == Message(now, s, room.players[s].username, Prefix(text, MaxMessageLength), now)
      && |next.messages| > 0 && next.messages[|next.messages| - 1] == m
      && (|room.messages| < MaxMessages ==> next.messages == room.messages + [m])
      && (|room.messages| >= MaxMessages ==> next.messages == room.messages[1..] + [m])
      && next == room.(messages := next.messages)
  {
    if s !in room.players then None
    else
      var m := Message(now, s, room.players[s].username, Prefix(text, MaxMessageLength), now);
      var msgs := room.messages + [m];
      var kept := if |msgs| > MaxMessages then msgs[1..] else msgs;
      assert |room.messages| >= MaxMessages ==> room.messages[1..] + [m] == msgs[1..];
      Some((room.(messages := kept), m))
  }

  // ---------------------------------------------------------------------------
  // Guesses
  // ---------------------------------------------------------------------------

  datatype GuessError = RoomNotFound | NotPlaying | NotYourTurn | PlayerNotFound | AlreadyTried | AlreadyPlayed | NoTarget

  datatype Guessed = Rejected(error: GuessError) | Accepted(room: Room, attempt: GuessAttempt)

  predicate Tried(p: Player, id: int) {
    exists i :: 0 <= i < |p.attempts| && p.attempts[i].guess.id == id
  }

  /** Some player of the room already guessed this character. */
  predicate TriedByAny(room: Room, id: int) {
    exists k :: k in room.players && Tried(room.players[k], id)
  }

  /** The error `makeGuess` answers with, checked in the source's order, or none. */
  function GuessCheck(room: Room, s: string, c: Character): (e: Option<GuessError>)
    ensures e != Some(RoomNotFound)
    ensures e == Some(NotPlaying) <==> room.status != Playing
    ensures e == Some(NotYourTurn) <==>
      room.status == Playing && room.mode == TurnBased && room.currentTurn != Some(s)
    ensures e == Some(PlayerNotFound) <==>
      && room.status == Playing
      && (room.mode == TurnBased ==> room.currentTurn == Some(s))
      && s !in room.players
    ensures e == Some(AlreadyTried) <==>
      && room.status == Playing
      && (room.mode == TurnBased ==> room.currentTurn == Some(s))
      && s in room.players && Tried(room.players[s], c.id)
    ensures e == Some(AlreadyPlayed) <==>
      && room.status == Playing
      && (room.mode == TurnBased ==> room.currentTurn == Some(s))
      && s in room.players && !Tried(room.players[s], c.id)
      && room.mode == TurnBased && TriedByAny(room, c.id)
    ensures e == Some(NoTarget) <==>
      && room.status == Playing
      && (room.mode == TurnBased ==> room.currentTurn == Some(s))
      && s in room.players && !Tried(room.players[s], c.id)
      && (room.mode == TurnBased ==> !TriedByAny(room, c.id))
      && room.target.None?
    ensures e == None <==>
      && room.status == Playing
      && (room.mode == TurnBased ==> room.currentTurn == Some(s))
      && s in room.players
      && !Tried(room.players[s], c.id)
      && (room.mode == TurnBased ==> !TriedByAny(room, c.id))
      && room.target.Some?
  {
    if room.status != Playing then Some(NotPlaying)
    else if room.mode == TurnBased && room.currentTurn != Some(s) then Some(NotYourTurn)
    else if s !in room.players then Some(PlayerNotFound)
    else if Tried(room.players[s], c.id) then Some(AlreadyTried)
    else if room.mode == TurnBased && TriedByAny(room, c.id) then Some(AlreadyPlayed)
    else if room.target.None? then Some(NoTarget)
    else None
  }

  /**
   * `makeGuess` on a room. A rejected guess changes nothing. An accepted one
   * appends exactly one attempt for the guesser; a correct guess finishes the
   * round with the guesser as winner and one more point for the guesser only;
   * a wrong turn-based guess passes the turn to the opponent; a wrong guess in
   * any other mode leaves the turn alone.
   */
  function ApplyGuess(room: Room, s: string, c: Character, now: int): (g: Guessed)
    ensures GuessCheck(room, s, c).Some? <==> g.Rejected?
    ensures g.Rejected? ==> g.error == GuessCheck(room, s, c).value
    ensures g.Accepted? ==>
      var next := g.room;
      var p := room.players[s];
      && g.attempt == GuessAttempt(c, FeedbackObject(c, room.target.value, room.game.attributes), c.id == room.target.value.id, now)
      && next.players == room.players[s := p.(attempts := p.attempts + [g.attempt])]
      && (g.attempt.isCorrect ==>
            && next.status == Finished && next.winner == Some(s)
            && next.scores == room.scores[s := ScoreOf(room, s) + 1]
            && next.currentTurn == room.currentTurn)
      && (!g.attempt.isCorrect ==>
            && next.status == Playing && next.winner == room.winner && next.scores == room.scores
            && next.currentTurn == (if room.mode == TurnBased then OpponentOf(room, s) else room.currentTurn))
      && next == room.(players := next.players, status := next.status, winner := next.winner,
                       scores := next.scores, currentTurn := next.currentTurn)
  {
    match GuessCheck(room, s, c)
    case Some(e) => Rejected(e)
    case None =>
      var target := room.target.value;
      var attempt := GuessAttempt(c, FeedbackObject(c, target, room.game.attributes), c.id == target.id, now);
      var p := room.players[s];
      var played := room.(players := room.players[s := p.(attempts := p.attempts + [attempt])]);
      if attempt.isCorrect then
        Accepted(played.(status := Finished, winner := Some(s), scores := room.scores[s := ScoreOf(room, s) + 1]), attempt)
      else if room.mode == TurnBased then
        Accepted(played.(currentTurn := OpponentOf(room, s)), attempt)
      else
        Accepted(played, attempt)
  }

  /** `sessionScores[s]`, 0 when absent. */
  function ScoreOf(room: Room, s: string): int {
    if s in room.scores then room.scores[s] else 0
  }

  // ---------------------------------------------------------------------------
  // Timer expiry and rematch
  // ---------------------------------------------------------------------------

  /** `handleTimerExpired` on a room: a draw, only from `playing`. */
  function ExpireTimer(room: Room): (r: Option<Room>)
    ensures r.Some? <==> room.status == Playing
    ensures r.Some? ==> r.value == room.(status := Finished, winner := None)
  {
    if room.status != Playing then None else Some(room.(status := Finished, winner := None))
  }

  datatype RematchError = NotFinished | NoSuchPlayer

  datatype Rematch = RematchRejected(error: RematchError) | Voted(room: Room) | Restarted(room: Room)

  /** Every player of the room has voted. */
  predicate AllVoted(players: map<string, Player>, ids: seq<string>) {
    forall i :: 0 <= i < |ids| ==> ids[i] in players && players[ids[i]].rematchVote
  }

  /** `playerIds[Math.floor(Math.random() * 2)]`. */
  function CoinPlayer(ids: seq<string>, coin: Roll): Option<string>
    requires IsDraw(coin)
  {
    var i := Scale(coin, 2);
    if i < |ids| then Some(ids[i]) else None
  }

  /** Every player with no attempts and no vote. */
  function ClearPlayers(players: map<string, Player>): (r: map<string, Player>)
    ensures r.Keys == players.Keys
    ensures forall k :: k in r ==> r[k] == players[k].(attempts := [], rematchVote := false)
  {
    map k | k in players :: players[k].(attempts := [], rematchVote := false)
  }

  /**
   * `requestRematch` on a room: only from `finished`, the player's vote is
   * recorded; when every player has voted, a new round starts with a new
   * target, cleared attempts and votes, the scores kept, a coin flip for the
   * turn (turn-based) or a fresh clock (simultaneous).
   */
  function RequestRematch(room: Room, s: string, pick: Roll, coin: Roll, now: int): (r: Rematch)
    requires IsDraw(pick) && IsDraw(coin)
    ensures room.status != Finished <==> r == RematchRejected(NotFinished)
    ensures room.status == Finished && s !in room.players <==> r == RematchRejected(NoSuchPlayer)
    ensures r.Voted? ==>
      && r.room == room.(players := room.players[s := room.players[s].(rematchVote := true)])
      && !AllVoted(r.room.players, PlayerIds(room))
    ensures r.Restarted? ==>
      var next := r.room;
      && AllVoted(room.players[s := room.players[s].(rematchVote := true)], PlayerIds(room))
      && next.status == Playing && next.winner == None
      && next.players == ClearPlayers(room.players)
      && next.scores == room.scores && next.messages == room.messages
      && next.target == Pick(room.game.characters, pick)
      && next.currentTurn == (if room.mode == TurnBased then CoinPlayer(PlayerIds(room), coin) else room.currentTurn)
      && next.timer == (if room.mode == Simultaneous then Some(Clock(now, RoundLength)) else room.timer)
      && next == room.(players := next.players, target := next.target, status := Playing, winner := None,
                       currentTurn := next.currentTurn, timer := next.timer)
  {
    if room.status != Finished then RematchRejected(NotFinished)
    else if s !in room.players then RematchRejected(NoSuchPlayer)
    else
      var voted := room.players[s := room.players[s].(rematchVote := true)];
      if !AllVoted(voted, PlayerIds(room)) then Voted(room.(players := voted))
      else
        Restarted(room.(
          target := Pick(room.game.characters, pick),
          status := Playing,
          winner := None,
          currentTurn := if room.mode == TurnBased then CoinPlayer(PlayerIds(room), coin) else room.currentTurn,
          timer := if room.mode == Simultaneous then Some(Clock(now, RoundLength)) else room.timer,
          players := ClearPlayers(voted)))
  }

  // ---------------------------------------------------------------------------
  // The room invariant
  // ---------------------------------------------------------------------------

  /** Some attempt in `attempts` hit the target. */
  predicate HasCorrect(attempts: seq<GuessAttempt>) {
    exists i :: 0 <= i < |attempts| && attempts[i].isCorrect
  }

  /** No character twice in one player's attempts. */
  predicate NoRepeats(attempts: seq<GuessAttempt>) {
    forall i, j :: 0 <= i < j < |attempts| ==> attempts[i].guess.id != attempts[j].guess.id
  }

  /** No character guessed by both players. */
  predicate Apart(p: Player, q: Player) {
    forall i :: 0 <= i < |p.attempts| ==> !Tried(q, p.attempts[i].guess.id)
  }

  /** Every attempt was judged against the current target. */
  predicate JudgedAgainst(attempts: seq<GuessAttempt>, target: Option<Character>) {
    forall i :: 0 <= i < |attempts| ==>
      target.Some? && attempts[i].isCorrect == (attempts[i].guess.id == target.value.id)
  }

  /**
   * What holds of every room in the directory: two distinct players with a
   * record and a score each; a turn exactly in turn-based mode, held by a
   * player; a clock exactly in simultaneous mode; a round in play has no
   * winner, no votes and no correct attempt; a winner is a player who guessed
   * the target; attempts never repeat a character (in turn-based mode not
   * even across players) and were judged against the current target; the
   * chat is capped.
   */
  predicate RoomOk(room: Room) {
    && room.first != room.second
    && room.players.Keys == {room.first, room.second}
    && room.scores.Keys == room.players.Keys
    && (forall k :: k in room.scores ==> room.scores[k] >= 0)
    && (room.currentTurn.Some? <==> room.mode == TurnBased)
    && (room.currentTurn.Some? ==> room.currentTurn.value in room.players)
    && (room.timer.Some? <==> room.mode == Simultaneous)
    && (room.status == Playing ==> room.winner.None?)
    && (room.status == Playing ==> forall k :: k in room.players ==> !room.players[k].rematchVote && !HasCorrect(room.players[k].attempts))
    && (room.winner.Some? ==> room.winner.value in room.players && HasCorrect(room.players[room.winner.value].attempts))
    && (forall k :: k in room.players ==> NoRepeats(room.players[k].attempts) && JudgedAgainst(room.players[k].attempts, room.target))
    && (room.mode == TurnBased ==> Apart(room.players[room.first], room.players[room.second]))
    && |room.messages| <= MaxMessages
    && (forall i :: 0 <= i < |room.messages| ==> |room.messages[i].text| <= MaxMessageLength)
  }

  lemma NewRoomOk(id: string, s1: string, u1: Option<User>, s2: string, u2: Option<User>, game: Game,
                  gameId: string, category: string, mode: GameMode, pick: Roll, coin: Roll, now: int)
    requires IsDraw(pick) && s1 != s2
    ensures RoomOk(NewRoom(id, s1, u1, s2, u2, game, gameId, category, mode, pick, coin, now))
  {
  }

  lemma MessageKeepsOk(room: Room, s: string, text: string, now: int)
    requires RoomOk(room) && AddMessage(room, s, text, now).Some?
    ensures RoomOk(AddMessage(room, s, text, now).value.0)
  {
    var next := AddMessage(room, s, text, now).value.0;
    forall i | 0 <= i < |next.messages|
      ensures |next.messages[i].text| <= MaxMessageLength
    {
      if i < |next.messages| - 1 {
        if |room.messages| < MaxMessages {
          assert next.messages[i] == room.messages[i];
        } else {
          assert next.messages[i] == room.messages[i + 1];
        }
      }
    }
  }

  /** Appending a fresh, correctly judged attempt keeps a player's record sound. */
  lemma AppendKeepsRecord(p: Player, a: GuessAttempt, target: Option<Character>)
    requires NoRepeats(p.attempts) && JudgedAgainst(p.attempts, target) && !Tried(p, a.guess.id)
    requires target.Some? && a.isCorrect == (a.guess.id == target.value.id)
    ensures var q := p.(attempts := p.attempts + [a]);
      && NoRepeats(q.attempts) && JudgedAgainst(q.attempts, target)
      && (HasCorrect(q.attempts) <==> HasCorrect(p.attempts) || a.isCorrect)
      && (forall id :: Tried(q, id) ==> Tried(p, id) || id == a.guess.id)
  {
    var q := p.(attempts := p.attempts + [a]);
    assert q.attempts[|p.attempts|] == a;
    assert forall i :: 0 <= i < |p.attempts| ==> q.attempts[i] == p.attempts[i];
  }

  /** A new attempt on a character the opponent never tried keeps the two records apart. */
  lemma AppendKeepsApart(p: Player, other: Player, a: GuessAttempt)
    requires Apart(p, other) && Apart(other, p) && !Tried(other, a.guess.id)
    ensures var q := p.(attempts := p.attempts + [a]);
      Apart(q, other) && Apart(other, q)
  {
    var q := p.(attempts := p.attempts + [a]);
    assert q.attempts[|p.attempts|] == a;
    assert forall i :: 0 <= i < |p.attempts| ==> q.attempts[i] == p.attempts[i];
    forall x | Tried(q, x)
      ensures Tried(p, x) || x == a.guess.id
    {
      var i :| 0 <= i < |q.attempts| && q.attempts[i].guess.id == x;
    }
  }

  /** A winning attempt recorded as `q` keeps the room sound once the round is finished. */
  lemma HitKeepsOk(room: Room, s: string, q: Player)
    requires RoomOk(room) && room.status == Playing && s in room.players
    requires NoRepeats(q.attempts) && JudgedAgainst(q.attempts, room.target) && HasCorrect(q.attempts)
    requires room.mode == TurnBased ==> Apart(room.players[s := q][room.first], room.players[s := q][room.second])
    ensures RoomOk(room.(players := room.players[s := q], status := Finished, winner := Some(s),
                         scores := room.scores[s := ScoreOf(room, s) + 1]))
  {
  }

  /** A missed attempt recorded as `q` keeps the room sound with the turn handed to `turn`. */
  lemma MissKeepsOk(room: Room, s: string, q: Player, turn: Option<string>)
    requires RoomOk(room) && room.status == Playing && s in room.players
    requires NoRepeats(q.attempts) && JudgedAgainst(q.attempts, room.target) && !HasCorrect(q.attempts) && !q.rematchVote
    requires room.mode == TurnBased ==> Apart(room.players[s := q][room.first], room.players[s := q][room.second])
    requires (turn.Some? <==> room.mode == TurnBased) && (turn.Some? ==> turn.value in room.players)
    ensures RoomOk(room.(players := room.players[s := q], currentTurn := turn))
  {
  }

  lemma GuessKeepsOk(room: Room, s: string, c: Character, now: int)
    requires RoomOk(room) && ApplyGuess(room, s, c, now).Accepted?
    ensures RoomOk(ApplyGuess(room, s, c, now).room)
  {
    var g := ApplyGuess(room, s, c, now);
    var p := room.players[s];
    var q := p.(attempts := p.attempts + [g.attempt]);
    AppendKeepsRecord(p, g.attempt, room.target);
    if room.mode == TurnBased {
      var other := if s == room.first then room.second else room.first;
      assert !Tried(room.players[other], c.id);
      AppendKeepsApart(p, room.players[other], g.attempt);
    }
    if g.attempt.isCorrect {
      HitKeepsOk(room, s, q);
    } else {
      MissKeepsOk(room, s, q, g.room.currentTurn);
    }
  }

  lemma ExpireKeepsOk(room: Room)
    requires RoomOk(room) && ExpireTimer(room).Some?
    ensures RoomOk(ExpireTimer(room).value)
  {
  }

  /** A rematch vote touches no attempt, so a finished room stays sound. */
  lemma VoteKeepsOk(room: Room, s: string)
    requires RoomOk(room) && room.status == Finished && s in room.players
    ensures RoomOk(room.(players := room.players[s := room.players[s].(rematchVote := true)]))
  {
    var players := room.players[s := room.players[s].(rematchVote := true)];
    forall k | k in players
      ensures players[k].attempts == room.players[k].attempts
    {
    }
  }

  /** A new round with cleared records, a turn holder in turn-based mode and a clock in simultaneous mode is sound. */
  lemma RestartKeepsOk(room: Room, players: map<string, Player>, target: Option<Character>,
                       turn: Option<string>, timer: Option<Clock>)
    requires RoomOk(room)
    requires players.Keys == room.players.Keys
    requires forall k :: k in players ==> players[k].attempts == [] && !players[k].rematchVote
    requires (turn.Some? <==> room.mode == TurnBased) && (turn.Some? ==> turn.value in room.players)
    requires timer.Some? <==> room.mode == Simultaneous
    ensures RoomOk(room.(players := players, target := target, status := Playing, winner := None,
                         currentTurn := turn, timer := timer))
  {
  }

  lemma RematchKeepsOk(room: Room, s: string, pick: Roll, coin: Roll, now: int)
    requires IsDraw(pick) && IsDraw(coin) && RoomOk(room)
    requires !RequestRematch(room, s, pick, coin, now).RematchRejected?
    ensures RoomOk(RequestRematch(room, s, pick, coin, now).room)
  {
    var r := RequestRematch(room, s, pick, coin, now);
    if r.Voted? {
      VoteKeepsOk(room, s);
    } else {
      if room.mode == TurnBased {
        assert Scale(coin, 2) < 2;
      }
      RestartKeepsOk(room, r.room.players, r.room.target, r.room.currentTurn, r.room.timer);
    }
  }

  // ---------------------------------------------------------------------------
  // Lifecycle facts
  // ---------------------------------------------------------------------------

  /** After a winning guess the timer's expiry changes nothing: the round is already over. */
  lemma ExpiryAfterWinIsNoOp(room: Room, s: string, c: Character, now: int)
    requires ApplyGuess(room, s, c, now).Accepted? && ApplyGuess(room, s, c, now).attempt.isCorrect
    ensures ExpireTimer(ApplyGuess(room, s, c, now).room).None?
  {
  }

  /** A guess after the round ended, whether won or drawn, is refused. */
  lemma NoGuessAfterExpiry(room: Room, s: string, c: Character, now: int)
    requires ExpireTimer(room).Some?
    ensures ApplyGuess(ExpireTimer(room).value, s, c, now) == Rejected(NotPlaying)
  {
  }

  /** In a turn-based room the turns alternate: after a wrong guess it is the other player's turn, so the guesser cannot go again. */
  lemma TurnsAlternate(room: Room, s: string, c: Character, c2: Character, now: int, later: int)
    requires RoomOk(room) && room.mode == TurnBased
    requires ApplyGuess(room, s, c, now).Accepted? && !ApplyGuess(room, s, c, now).attempt.isCorrect
    ensures ApplyGuess(room, s, c, now).room.currentTurn.Some?
    ensures ApplyGuess(room, s, c, now).room.currentTurn.value != s
    ensures ApplyGuess(ApplyGuess(room, s, c, now).room, s, c2, later) == Rejected(NotYourTurn)
  {
  }

  /** Scores only grow, by one for the guesser of the target and only then. */
  lemma ScoresCountWins(room: Room, s: string, c: Character, now: int, k: string)
    requires RoomOk(room) && ApplyGuess(room, s, c, now).Accepted? && k in room.scores
    ensures ApplyGuess(room, s, c, now).room.scores[k] ==
      room.scores[k] + (if k == s && ApplyGuess(room, s, c, now).attempt.isCorrect then 1 else 0)
  {
  }
}
