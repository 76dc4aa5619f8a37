/**
 * The session directory of the duel server: matchmaking queues per
 * category and game, private lobbies with six-character codes, the rooms in
 * play, and the socket and user bookkeeping that ties them together. The
 * clock (`now`), the room ids and every `Math.random()` draw are parameters.
 */
module GameManager {
  import opened Wrappers
  import opened Random
  import opened JsText
  import opened GameData
  import opened RoomCode
  import opened GameRoom

  /** A socket waiting in a matchmaking queue. */
  datatype QueueEntry = QueueEntry(socket: string, game: Game, user: Option<User>, category: string, gameId: string, mode: GameMode)

  /** A private lobby waiting for a second player. */
  datatype Lobby = Lobby(code: string, host: string, gameId: string, game: Game, category: string, mode: GameMode,
                         user: Option<User>, username: string, createdAt: int)

  /** `isUserBusy`'s verdict. */
  datatype Busy = NotBusy | InGame | InQueue

  /** The `status` a queue or lobby operation answers with. */
  datatype Reply =
    | Refused(reason: Busy)
    | AlreadyHosting(code: string)
    | LobbyCreated(code: string)
    | LobbyNotFound
    | CannotJoinOwnRoom
    | NoRoomToCancel
    | LobbyCancelled
    | AlreadyQueued(position: nat)
    | QueueJoined(position: nat)
    | MatchFound(roomId: string)

  /** `getQueueKey`. */
  function QueueKey(category: string, gameId: string): string {
    category + "-" + gameId
  }

  /** `queue.findIndex(item => item.socket.id === socket)`. */
  function SocketIndex(q: seq<QueueEntry>, socket: string): (i: int)
    ensures -1 <= i < |q|
    ensures i >= 0 ==> q[i].socket == socket && forall j :: 0 <= j < i ==> q[j].socket != socket
    ensures i == -1 ==> forall j :: 0 <= j < |q| ==> q[j].socket != socket
  {
    if |q| == 0 then -1
    else if q[0].socket == socket then 0
    else
      var k := SocketIndex(q[1..], socket);
      if k == -1 then -1 else k + 1
  }

  /** The queue after `splice`-ing out the socket's first entry, if any. */
  function Without(q: seq<QueueEntry>, socket: string): seq<QueueEntry> {
    var i := SocketIndex(q, socket);
    if i == -1 then q else q[..i] + q[i + 1..]
  }

  /** The user id whose binding is dropped when the socket leaves this queue. */
  function LeavingUser(q: seq<QueueEntry>, socket: string): Option<int> {
    var i := SocketIndex(q, socket);
    if i >= 0 && HasUserId(q[i].user) then Some(q[i].user.value.userId) else None
  }

  /** The binding dropped with it: the queued user's id, when signed in. */
  function Dropped(q: seq<QueueEntry>, socket: string): set<int> {
    match LeavingUser(q, socket)
    case Some(uid) => {uid}
    case None => {}
  }

  /** `queue.some(item => item.user?.userId === userId)`. */
  predicate UserQueued(q: seq<QueueEntry>, userId: int) {
    exists i :: 0 <= i < |q| && q[i].user.Some? && q[i].user.value.userId == userId
  }

  /** Six draws, each a fair pick from the 36-character alphabet. */
  predicate IsCodeDraw(draw: seq<Roll>) {
    |draw| == CodeLength && forall i :: 0 <= i < |draw| ==> IsDraw(draw[i])
  }

  /** The code one round of the generator spells from six draws. */
  function CodeOf(draw: seq<Roll>): (code: string)
    requires IsCodeDraw(draw)
    ensures IsRoomCode(code)
  {
    AlphabetIsCodeChars();
    seq(CodeLength, i requires 0 <= i < CodeLength => Alphabet[Scale(draw[i], |Alphabet|)])
  }

  /** No matchmaking queue ever holds two entries: the second one starts a match. */
  ghost predicate QueuesOk(queues: map<string, seq<QueueEntry>>) {
    forall k :: k in queues ==> |queues[k]| <= 1
  }

  /** The room under `id` is stored under its own id and is well-formed. */
  ghost predicate Filed(rooms: map<string, Room>, id: string) {
    id in rooms && rooms[id].id == id && RoomOk(rooms[id])
  }

  /**
   * Every room is stored under its own id and is well-formed. The trigger
   * keeps the room invariant folded until `RoomAt` asks for one room.
   */
  ghost predicate RoomsOk(rooms: map<string, Room>) {
    forall id {:trigger Filed(rooms, id)} :: id in rooms ==> Filed(rooms, id)
  }

  /** Lobbies and their hosts correspond one to one, each lobby under its own well-formed code. */
  ghost predicate LobbiesOk(privateRooms: map<string, Lobby>, lobbyHosts: map<string, string>) {
    && (forall s :: s in lobbyHosts ==> lobbyHosts[s] in privateRooms && privateRooms[lobbyHosts[s]].host == s)
    && (forall c :: c in privateRooms ==>
          && privateRooms[c].code == c && IsRoomCode(c)
          && privateRooms[c].host in lobbyHosts && lobbyHosts[privateRooms[c].host] == c)
  }

  lemma RoomAt(rooms: map<string, Room>, id: string)
    requires RoomsOk(rooms) && id in rooms
    ensures rooms[id].id == id && RoomOk(rooms[id])
  {
    assert Filed(rooms, id);
  }

  lemma PutRoom(rooms: map<string, Room>, id: string, room: Room)
    requires RoomsOk(rooms) && room.id == id && RoomOk(room)
    ensures RoomsOk(rooms[id := room])
  {
    var next := rooms[id := room];
    forall k | k in next
      ensures Filed(next, k)
    {
      if k != id {
        assert Filed(rooms, k);
      }
    }
  }

  lemma DropRoom(rooms: map<string, Room>, id: string)
    requires RoomsOk(rooms)
    ensures RoomsOk(rooms - {id})
  {
    var next := rooms - {id};
    forall k | k in next
      ensures Filed(next, k)
    {
      assert Filed(rooms, k);
    }
  }

  lemma OpenLobby(privateRooms: map<string, Lobby>, lobbyHosts: map<string, string>, lobby: Lobby)
    requires LobbiesOk(privateRooms, lobbyHosts)
    requires lobby.code !in privateRooms && lobby.host !in lobbyHosts && IsRoomCode(lobby.code)
    ensures LobbiesOk(privateRooms[lobby.code := lobby], lobbyHosts[lobby.host := lobby.code])
  {
  }

  lemma CloseLobby(privateRooms: map<string, Lobby>, lobbyHosts: map<string, string>, host: string)
    requires LobbiesOk(privateRooms, lobbyHosts) && host in lobbyHosts
    ensures LobbiesOk(privateRooms - {lobbyHosts[host]}, lobbyHosts - {host})
  {
  }

  class Manager {
    var queues: map<string, seq<QueueEntry>>
    var rooms: map<string, Room>
    var playerRooms: map<string, string>
    var userSockets: map<int, string>
    var privateRooms: map<string, Lobby>
    var lobbyHosts: map<string, string>

    /**
     * What every public operation keeps: no queue holds two entries, rooms
     * are stored under their own id and are well-formed, and the lobbies and
     * their hosts correspond one to one, each under a well-formed code.
     */
    ghost predicate Valid()
      reads this
    {
      QueuesOk(queues) && RoomsOk(rooms) && LobbiesOk(privateRooms, lobbyHosts)
    }

    constructor()
      ensures Valid()
      ensures queues == map[] && rooms == map[] && playerRooms == map[]
      ensures userSockets == map[] && privateRooms == map[] && lobbyHosts == map[]
    {
      queues := map[];
      rooms := map[];
      playerRooms := map[];
      userSockets := map[];
      privateRooms := map[];
      lobbyHosts := map[];
    }

    /**
     * `isUserBusy`: a user whose bound socket is in a room is in game; one
     * queued anywhere is in a queue. Hosting a lobby does not count.
     */
    ghost function BusyStatus(userId: int): Busy
      reads this
    {
      if userId == 0 || userId !in userSockets || userSockets[userId] == "" then NotBusy
      else if userSockets[userId] in playerRooms then InGame
      else if exists k :: k in queues && UserQueued(queues[k], userId) then InQueue
      else NotBusy
    }

    method IsUserBusy(userId: int) returns (b: Busy)
      ensures b == BusyStatus(userId)
    {
      if userId == 0 || userId !in userSockets || userSockets[userId] == "" {
        return NotBusy;
      }
      if userSockets[userId] in playerRooms {
        return InGame;
      }
      var keys := queues.Keys;
      while keys != {}
        invariant keys <= queues.Keys
        invariant forall k :: k in queues && k !in keys ==> !UserQueued(queues[k], userId)
        decreases |keys|
      {
        var k :| k in keys;
        if UserQueued(queues[k], userId) {
          return InQueue;
        }
        keys := keys - {k};
      }
      return NotBusy;
    }

    /**
     * The check that opens `createPrivateRoom`, `joinPrivateRoom` and
     * `joinQueue`: a signed-in user who is busy is refused, otherwise the
     * user's id is bound to this socket.
     */
    method CheckAndBind(user: Option<User>, socket: string) returns (refused: Option<Busy>)
      requires Valid()
      modifies this`userSockets
      ensures Valid()
      ensures HasUserId(user) && old(BusyStatus(user.value.userId)) != NotBusy ==>
        refused == Some(old(BusyStatus(user.value.userId))) && userSockets == old(userSockets)
      ensures !(HasUserId(user) && old(BusyStatus(user.value.userId)) != NotBusy) ==>
        && refused == None
        && userSockets == (if HasUserId(user) then old(userSockets)[user.value.userId := socket] else old(userSockets))
    {
      if HasUserId(user) {
        var busy := IsUserBusy(user.value.userId);
        if busy != NotBusy {
          return Some(busy);
        }
        userSockets := userSockets[user.value.userId := socket];
      }
      return None;
    }

    /** One round of the generator: six characters, one per draw. */
    method Spell(draw: seq<Roll>) returns (code: string)
      requires IsCodeDraw(draw)
      ensures code == CodeOf(draw)
    {
      AlphabetIsCodeChars();
      code := "";
      for i := 0 to CodeLength
        invariant |code| == i
        invariant forall j :: 0 <= j < i ==> code[j] == Alphabet[Scale(draw[j], |Alphabet|)]
      {
        code := code + [Alphabet[Scale(draw[i], |Alphabet|)]];
      }
    }

    /**
     * `generateRoomCode`: spell codes from successive rounds of draws until
     * one is not a lobby yet. The answer is the first free code.
     */
    method GenerateRoomCode(draws: seq<seq<Roll>>) returns (code: string)
      requires forall i :: 0 <= i < |draws| ==> IsCodeDraw(draws[i])
      requires exists k :: 0 <= k < |draws| && CodeOf(draws[k]) !in privateRooms
      ensures IsRoomCode(code) && code !in privateRooms
      ensures exists k :: 0 <= k < |draws| && code == CodeOf(draws[k])
                          && forall j :: 0 <= j < k ==> CodeOf(draws[j]) in privateRooms
    {
      ghost var free :| 0 <= free < |draws| && CodeOf(draws[free]) !in privateRooms;
      var n := 0;
      code := Spell(draws[0]);
      while code in privateRooms
        invariant 0 <= n <= free && code == CodeOf(draws[n])
        invariant forall j :: 0 <= j < n ==> CodeOf(draws[j]) in privateRooms
        decreases free - n
      {
        n := n + 1;
        code := Spell(draws[n]);
      }
    }

    /** `createPrivateRoom`: a busy user is refused, a socket hosts at most one lobby, otherwise a lobby opens under a fresh code. */
    method CreatePrivateRoom(socket: string, gameId: string, game: Game, user: Option<User>, category: string,
                             mode: GameMode, draws: seq<seq<Roll>>, now: int) returns (r: Reply)
      requires Valid()
      requires forall i :: 0 <= i < |draws| ==> IsCodeDraw(draws[i])
      requires exists k :: 0 <= k < |draws| && CodeOf(draws[k]) !in privateRooms
      modifies this`userSockets, this`privateRooms, this`lobbyHosts
      ensures Valid()
      ensures HasUserId(user) && old(BusyStatus(user.value.userId)) != NotBusy ==>
        r == Refused(old(BusyStatus(user.value.userId))) && userSockets == old(userSockets)
        && privateRooms == old(privateRooms) && lobbyHosts == old(lobbyHosts)
      ensures !(HasUserId(user) && old(BusyStatus(user.value.userId)) != NotBusy) ==>
        && userSockets == (if HasUserId(user) then old(userSockets)[user.value.userId := socket] else old(userSockets))
        && (socket in old(lobbyHosts) ==>
              r == AlreadyHosting(old(lobbyHosts)[socket]) && privateRooms == old(privateRooms) && lobbyHosts == old(lobbyHosts))
        && (socket !in old(lobbyHosts) ==>
              && r.LobbyCreated? && IsRoomCode(r.code) && r.code !in old(privateRooms)
              && privateRooms == old(privateRooms)[r.code := Lobby(r.code, socket, gameId, game, category, mode, user, NameOf(user, "Joueur 1"), now)]
              && lobbyHosts == old(lobbyHosts)[socket := r.code])
    {
      var refused := CheckAndBind(user, socket);
      if refused.Some? {
        return Refused(refused.value);
      }
      if socket in lobbyHosts {
        return AlreadyHosting(lobbyHosts[socket]);
      }
      var code := GenerateRoomCode(draws);
      var lobby := Lobby(code, socket, gameId, game, category, mode, user, NameOf(user, "Joueur 1"), now);
      OpenLobby(privateRooms, lobbyHosts, lobby);
      privateRooms := privateRooms[code := lobby];
      lobbyHosts := lobbyHosts[socket := code];
      return LobbyCreated(code);
    }

    /** `createRoom`: a new room under the given id, both sockets pointing to it. */
    method CreateRoom(roomId: string, s1: string, u1: Option<User>, s2: string, u2: Option<User>, game: Game,
                      gameId: string, category: string, mode: GameMode, pick: Roll, coin: Roll, now: int) returns (r: Reply)
      requires Valid() && IsDraw(pick) && s1 != s2
      modifies this`rooms, this`playerRooms
      ensures Valid()
      ensures r == MatchFound(roomId)
      ensures rooms == old(rooms)[roomId := NewRoom(roomId, s1, u1, s2, u2, game, gameId, category, mode, pick, coin, now)]
      ensures playerRooms == old(playerRooms)[s1 := roomId][s2 := roomId]
    {
      NewRoomOk(roomId, s1, u1, s2, u2, game, gameId, category, mode, pick, coin, now);
      PutRoom(rooms, roomId, NewRoom(roomId, s1, u1, s2, u2, game, gameId, category, mode, pick, coin, now));
      rooms := rooms[roomId := NewRoom(roomId, s1, u1, s2, u2, game, gameId, category, mode, pick, coin, now)];
      playerRooms := playerRooms[s1 := roomId][s2 := roomId];
      return MatchFound(roomId);
    }

    /**
     * `joinPrivateRoom`: look the upper-cased code up, check and bind the
     * user, refuse the host itself, then close the lobby and open a room from
     * the host's game data and mode.
     */
    method JoinPrivateRoom(socket: string, code: string, user: Option<User>, roomId: string,
                           pick: Roll, coin: Roll, now: int) returns (r: Reply)
      requires Valid() && IsDraw(pick)
      modifies this`userSockets, this`rooms, this`playerRooms, this`privateRooms, this`lobbyHosts
      ensures Valid()
      ensures ToUpper(code) !in old(privateRooms) ==>
        && r == LobbyNotFound && userSockets == old(userSockets)
        && rooms == old(rooms) && playerRooms == old(playerRooms) && privateRooms == old(privateRooms) && lobbyHosts == old(lobbyHosts)
      ensures ToUpper(code) in old(privateRooms) && HasUserId(user) && old(BusyStatus(user.value.userId)) != NotBusy ==>
        r == Refused(old(BusyStatus(user.value.userId))) && userSockets == old(userSockets)
        && rooms == old(rooms) && playerRooms == old(playerRooms) && privateRooms == old(privateRooms) && lobbyHosts == old(lobbyHosts)
      ensures ToUpper(code) in old(privateRooms) && !(HasUserId(user) && old(BusyStatus(user.value.userId)) != NotBusy) ==>
        var lobby := old(privateRooms)[ToUpper(code)];
        && userSockets == (if HasUserId(user) then old(userSockets)[user.value.userId := socket] else old(userSockets))
        && (lobby.host == socket ==>
              && r == CannotJoinOwnRoom && rooms == old(rooms) && playerRooms == old(playerRooms)
              && privateRooms == old(privateRooms) && lobbyHosts == old(lobbyHosts))
        && (lobby.host != socket ==>
              && r == MatchFound(roomId)
              && privateRooms == old(privateRooms) - {ToUpper(code)}
              && lobbyHosts == old(lobbyHosts) - {lobby.host}
              && rooms == old(rooms)[roomId := NewRoom(roomId, lobby.host, lobby.user, socket, user, lobby.game,
                                                       lobby.gameId, lobby.category, lobby.mode, pick, coin, now)]
              && playerRooms == old(playerRooms)[lobby.host := roomId][socket := roomId])
    {
      var key := ToUpper(code);
      if key !in privateRooms {
        return LobbyNotFound;
      }
      var lobby := privateRooms[key];
      var refused := CheckAndBind(user, socket);
      if refused.Some? {
        return Refused(refused.value);
      }
      if lobby.host == socket {
        return CannotJoinOwnRoom;
      }
      r := StartLobbyRoom(key, socket, user, roomId, pick, coin, now);
    }

    /** The lobby under `key` is joined by another socket: close it and open the room from the host's game data and mode. */
    method StartLobbyRoom(key: string, socket: string, user: Option<User>, roomId: string,
                          pick: Roll, coin: Roll, now: int) returns (r: Reply)
      requires Valid() && IsDraw(pick) && key in privateRooms && privateRooms[key].host != socket
      modifies this`rooms, this`playerRooms, this`privateRooms, this`lobbyHosts
      ensures Valid()
      ensures
        var lobby := old(privateRooms)[key];
        && r == MatchFound(roomId)
        && privateRooms == old(privateRooms) - {key}
        && lobbyHosts == old(lobbyHosts) - {lobby.host}
        && rooms == old(rooms)[roomId := NewRoom(roomId, lobby.host, lobby.user, socket, user, lobby.game,
                                                 lobby.gameId, lobby.category, lobby.mode, pick, coin, now)]
        && playerRooms == old(playerRooms)[lobby.host := roomId][socket := roomId]
    {
      var lobby := privateRooms[key];
      assert lobbyHosts[lobby.host] == key;
      CloseLobby(privateRooms, lobbyHosts, lobby.host);
      privateRooms := privateRooms - {key};
      lobbyHosts := lobbyHosts - {lobby.host};
      r := CreateRoom(roomId, lobby.host, lobby.user, socket, user, lobby.game, lobby.gameId, lobby.category, lobby.mode, pick, coin, now);
    }

    /** `cancelPrivateRoom`: close the socket's lobby and drop its host's user binding; nothing hosted, nothing changes. */
    method CancelPrivateRoom(socket: string) returns (r: Reply)
      requires Valid()
      modifies this`userSockets, this`privateRooms, this`lobbyHosts
      ensures Valid()
      ensures socket !in old(lobbyHosts) ==>
        && r == NoRoomToCancel && userSockets == old(userSockets)
        && privateRooms == old(privateRooms) && lobbyHosts == old(lobbyHosts)
      ensures socket in old(lobbyHosts) ==>
        var lobby := old(privateRooms)[old(lobbyHosts)[socket]];
        && r == LobbyCancelled
        && privateRooms == old(privateRooms) - {old(lobbyHosts)[socket]}
        && lobbyHosts == old(lobbyHosts) - {socket}
        && userSockets == (if HasUserId(lobby.user) then old(userSockets) - {lobby.user.value.userId} else old(userSockets))
      ensures socket !in lobbyHosts
    {
      if socket !in lobbyHosts {
        return NoRoomToCancel;
      }
      var code := lobbyHosts[socket];
      var lobby := privateRooms[code];
      if HasUserId(lobby.user) {
        userSockets := userSockets - {lobby.user.value.userId};
      }
      CloseLobby(privateRooms, lobbyHosts, socket);
      privateRooms := privateRooms - {code};
      lobbyHosts := lobbyHosts - {socket};
      return LobbyCancelled;
    }

    /**
     * `joinQueue`: check and bind the user; a socket already in this queue
     * gets its 1-based position; otherwise it is appended, and two waiting
     * sockets are taken out oldest first to open a room with the first one's
     * game data and mode.
     */
    method JoinQueue(socket: string, gameId: string, game: Game, user: Option<User>, category: string, mode: GameMode,
                     roomId: string, pick: Roll, coin: Roll, now: int) returns (r: Reply)
      requires Valid() && IsDraw(pick)
      modifies this`userSockets, this`queues, this`rooms, this`playerRooms
      ensures Valid()
      ensures HasUserId(user) && old(BusyStatus(user.value.userId)) != NotBusy ==>
        r == Refused(old(BusyStatus(user.value.userId))) && userSockets == old(userSockets)
        && queues == old(queues) && rooms == old(rooms) && playerRooms == old(playerRooms)
      ensures !(HasUserId(user) && old(BusyStatus(user.value.userId)) != NotBusy) ==>
        var key := QueueKey(category, gameId);
        var q := if key in old(queues) then old(queues)[key] else [];
        && userSockets == (if HasUserId(user) then old(userSockets)[user.value.userId := socket] else old(userSockets))
        && (SocketIndex(q, socket) >= 0 ==>
              r == AlreadyQueued(SocketIndex(q, socket) + 1) && queues == old(queues)[key := q]
              && rooms == old(rooms) && playerRooms == old(playerRooms))
        && (SocketIndex(q, socket) == -1 && |q| == 0 ==>
              r == QueueJoined(1) && queues == old(queues)[key := [QueueEntry(socket, game, user, category, gameId, mode)]]
              && rooms == old(rooms) && playerRooms == old(playerRooms))
        && (SocketIndex(q, socket) == -1 && |q| > 0 ==>
              && r == MatchFound(roomId)
              && queues == old(queues)[key := []]
              && rooms == old(rooms)[roomId := NewRoom(roomId, q[0].socket, q[0].user, socket, user, q[0].game,
                                                       gameId, category, q[0].mode, pick, coin, now)]
              && playerRooms == old(playerRooms)[q[0].socket := roomId][socket := roomId])
    {
      var refused := CheckAndBind(user, socket);
      if refused.Some? {
        return Refused(refused.value);
      }
      r := Enqueue(QueueKey(category, gameId), QueueEntry(socket, game, user, category, gameId, mode), roomId, pick, coin, now);
    }

    /** The queue half of `joinQueue` for the queue under `key`, once the user is bound. */
    method Enqueue(key: string, entry: QueueEntry, roomId: string, pick: Roll, coin: Roll, now: int) returns (r: Reply)
      requires QueuesOk(queues) && RoomsOk(rooms) && LobbiesOk(privateRooms, lobbyHosts) && IsDraw(pick)
      modifies this`queues, this`rooms, this`playerRooms
      ensures QueuesOk(queues) && RoomsOk(rooms)
      ensures
        var q := if key in old(queues) then old(queues)[key] else [];
        && (SocketIndex(q, entry.socket) >= 0 ==>
              r == AlreadyQueued(SocketIndex(q, entry.socket) + 1) && queues == old(queues)[key := q]
              && rooms == old(rooms) && playerRooms == old(playerRooms))
        && (SocketIndex(q, entry.socket) == -1 && |q| == 0 ==>
              r == QueueJoined(1) && queues == old(queues)[key := [entry]]
              && rooms == old(rooms) && playerRooms == old(playerRooms))
        && (SocketIndex(q, entry.socket) == -1 && |q| > 0 ==>
              && r == MatchFound(roomId)
              && queues == old(queues)[key := []]
              && rooms == old(rooms)[roomId := NewRoom(roomId, q[0].socket, q[0].user, entry.socket, entry.user, q[0].game,
                                                       entry.gameId, entry.category, q[0].mode, pick, coin, now)]
              && playerRooms == old(playerRooms)[q[0].socket := roomId][entry.socket := roomId])
    {
      var q := if key in queues then queues[key] else [];
      queues := queues[key := q];
      var existing := SocketIndex(q, entry.socket);
      if existing != -1 {
        return AlreadyQueued(existing + 1);
      }
      var joined := q + [entry];
      if |joined| >= 2 {
        r := StartMatch(key, joined[0], entry.socket, entry.user, entry.gameId, entry.category, roomId, pick, coin, now);
        return;
      }
      assert joined == [entry];
      queues := queues[key := joined];
      return QueueJoined(|joined|);
    }

    /** Two waiting sockets found: empty the queue and open their room with the first one's game data and mode. */
    method StartMatch(key: string, waiting: QueueEntry, socket: string, user: Option<User>, gameId: string,
                      category: string, roomId: string, pick: Roll, coin: Roll, now: int) returns (r: Reply)
      requires Valid() && IsDraw(pick) && waiting.socket != socket
      modifies this`queues, this`rooms, this`playerRooms
      ensures Valid()
      ensures r == MatchFound(roomId) && queues == old(queues)[key := []]
      ensures rooms == old(rooms)[roomId := NewRoom(roomId, waiting.socket, waiting.user, socket, user, waiting.game,
                                                    gameId, category, waiting.mode, pick, coin, now)]
      ensures playerRooms == old(playerRooms)[waiting.socket := roomId][socket := roomId]
    {
      queues := queues[key := []];
      r := CreateRoom(roomId, waiting.socket, waiting.user, socket, user, waiting.game,
                      gameId, category, waiting.mode, pick, coin, now);
    }

    /**
     * The step `leaveQueue` and `leaveAllQueues` share: take the socket's
     * first entry out of the queue under `key` and drop the binding of the
     * user it queued as.
     */
    method LeaveKey(key: string, socket: string)
      requires QueuesOk(queues)
      modifies this`queues, this`userSockets
      ensures QueuesOk(queues)
      ensures key !in old(queues) ==> queues == old(queues) && userSockets == old(userSockets)
      ensures key in old(queues) ==>
        && queues == old(queues)[key := Without(old(queues)[key], socket)]
        && userSockets == old(userSockets) - Dropped(old(queues)[key], socket)
    {
      if key !in queues {
        return;
      }
      var q := queues[key];
      var i := SocketIndex(q, socket);
      if i != -1 {
        if HasUserId(q[i].user) {
          userSockets := userSockets - {q[i].user.value.userId};
        }
        queues := queues[key := q[..i] + q[i + 1..]];
      } else {
        assert queues == queues[key := q];
      }
    }

    /** `leaveQueue`: take the socket out of one queue and drop its user's binding. */
    method LeaveQueue(socket: string, gameId: string, category: string)
      requires Valid()
      modifies this`queues, this`userSockets
      ensures Valid()
      ensures QueueKey(category, gameId) !in old(queues) ==> queues == old(queues) && userSockets == old(userSockets)
      ensures QueueKey(category, gameId) in old(queues) ==>
        var q := old(queues)[QueueKey(category, gameId)];
        && queues == old(queues)[QueueKey(category, gameId) := Without(q, socket)]
        && userSockets == old(userSockets) - Dropped(q, socket)
    {
      LeaveKey(QueueKey(category, gameId), socket);
    }

    /** The user ids whose bindings `leaveAllQueues` drops for the queues under `keys`. */
    static ghost function LeavingUsers(qs: map<string, seq<QueueEntry>>, socket: string, keys: set<string>): set<int> {
      set k, uid | k in keys && k in qs && uid in Dropped(qs[k], socket) :: uid
    }

    static lemma LeavingUsersStep(qs: map<string, seq<QueueEntry>>, socket: string, done: set<string>, k: string)
      requires k in qs
      ensures LeavingUsers(qs, socket, done + {k}) == LeavingUsers(qs, socket, done) + Dropped(qs[k], socket)
    {
    }

    static lemma SubtractTwice<K, V>(m: map<K, V>, a: set<K>, b: set<K>)
      ensures m - a - b == m - (a + b)
    {
    }

    /** Loop state of `leaveAllQueues`: the keys still to visit hold their queues, the visited ones have lost the socket. */
    static ghost predicate Swept(qs: map<string, seq<QueueEntry>>, start: map<string, seq<QueueEntry>>,
                                 keys: set<string>, done: set<string>, socket: string) {
      && keys !! done && keys + done == start.Keys && qs.Keys == start.Keys
      && (forall k :: k in keys ==> qs[k] == start[k])
      && (forall k :: k in done ==> qs[k] == Without(start[k], socket))
    }

    static lemma SweepStep(qs: map<string, seq<QueueEntry>>, start: map<string, seq<QueueEntry>>,
                           keys: set<string>, done: set<string>, socket: string, k: string)
      requires Swept(qs, start, keys, done, socket) && k in keys
      ensures k in qs && qs[k] == start[k]
      ensures Swept(qs[k := Without(qs[k], socket)], start, keys - {k}, done + {k}, socket)
    {
    }

    static lemma SweepDone(qs: map<string, seq<QueueEntry>>, start: map<string, seq<QueueEntry>>, socket: string)
      requires QueuesOk(start) && Swept(qs, start, {}, start.Keys, socket)
      ensures qs == map k | k in start :: Without(start[k], socket)
      ensures forall k :: k in qs ==> SocketIndex(qs[k], socket) == -1
    {
      AllWithout(qs, start, socket);
      forall k | k in qs
        ensures SocketIndex(qs[k], socket) == -1
      {
        assert |start[k]| <= 1;
      }
    }

    static lemma AllWithout(qs: map<string, seq<QueueEntry>>, start: map<string, seq<QueueEntry>>, socket: string)
      requires qs.Keys == start.Keys
      requires forall k :: k in start ==> qs[k] == Without(start[k], socket)
      ensures qs == map k | k in start :: Without(start[k], socket)
    {
    }

    /** `leaveAllQueues`: take the socket out of every queue, dropping the bindings of the users it queued as. */
    method LeaveAllQueues(socket: string)
      requires Valid()
      modifies this`queues, this`userSockets
      ensures Valid()
      ensures queues == map k | k in old(queues) :: Without(old(queues)[k], socket)
      ensures userSockets == old(userSockets) - LeavingUsers(old(queues), socket, old(queues).Keys)
      ensures forall k :: k in queues ==> SocketIndex(queues[k], socket) == -1
    {
      LeaveEveryKey(socket);
    }

    /** The loop of `leaveAllQueues`, one queue key at a time. */
    method LeaveEveryKey(socket: string)
      requires QueuesOk(queues)
      modifies this`queues, this`userSockets
      ensures QueuesOk(queues)
      ensures queues == map k | k in old(queues) :: Without(old(queues)[k], socket)
      ensures userSockets == old(userSockets) - LeavingUsers(old(queues), socket, old(queues).Keys)
      ensures forall k :: k in queues ==> SocketIndex(queues[k], socket) == -1
    {
      var keys := queues.Keys;
      ghost var start := queues;
      ghost var done: set<string> := {};
      while keys != {}
        invariant Swept(queues, start, keys, done, socket)
        invariant userSockets == old(userSockets) - LeavingUsers(start, socket, done)
        invariant QueuesOk(queues)
        decreases |keys|
      {
        var k :| k in keys;
        LeavingUsersStep(start, socket, done, k);
        SweepStep(queues, start, keys, done, socket, k);
        LeaveKey(k, socket);
        SubtractTwice(old(userSockets), LeavingUsers(start, socket, done), Dropped(start[k], socket));
        keys := keys - {k};
        done := done + {k};
      }
      SweepDone(queues, start, socket);
    }

    /** `getPlayerRoom`: the room the socket was last put in, if it still exists. */
    function PlayerRoom(socket: string): (r: Option<string>)
      reads this
      ensures r.Some? ==> r.value in rooms
    {
      if socket in playerRooms && playerRooms[socket] in rooms then Some(playerRooms[socket]) else None
    }

    /** `addMessage`: a message from a player of the socket's room, stored in that room. */
    method AddMessage(socket: string, text: string, now: int) returns (m: Option<Message>)
      requires Valid()
      modifies this`rooms
      ensures Valid()
      ensures old(PlayerRoom(socket)).None? ==> m.None? && rooms == old(rooms)
      ensures old(PlayerRoom(socket)).Some? ==>
        var id := old(PlayerRoom(socket)).value;
        match GameRoom.AddMessage(old(rooms)[id], socket, text, now)
        case None => m.None? && rooms == old(rooms)
        case Some((next, msg)) => m == Some(msg) && rooms == old(rooms)[id := next]
    {
      var id := PlayerRoom(socket);
      if id.None? {
        return None;
      }
      var added := GameRoom.AddMessage(rooms[id.value], socket, text, now);
      if added.None? {
        return None;
      }
      RoomAt(rooms, id.value);
      MessageKeepsOk(rooms[id.value], socket, text, now);
      PutRoom(rooms, id.value, added.value.0);
      rooms := rooms[id.value := added.value.0];
      return Some(added.value.1);
    }

    /** `makeGuess`: a guess in the named room; a rejected guess changes nothing. */
    method MakeGuess(socket: string, roomId: string, c: Character, now: int) returns (g: Guessed)
      requires Valid()
      modifies this`rooms
      ensures Valid()
      ensures roomId !in old(rooms) ==> g == Rejected(RoomNotFound) && rooms == old(rooms)
      ensures roomId in old(rooms) ==> g == ApplyGuess(old(rooms)[roomId], socket, c, now)
      ensures g.Rejected? ==> rooms == old(rooms)
      ensures g.Accepted? ==> rooms == old(rooms)[roomId := g.room]
    {
      if roomId !in rooms {
        return Rejected(RoomNotFound);
      }
      var room := rooms[roomId];
      g := ApplyGuess(room, socket, c, now);
      if g.Accepted? {
        assert RoomsOk(rooms[roomId := g.room]) by {
          RoomAt(rooms, roomId);
          GuessKeepsOk(room, socket, c, now);
          PutRoom(rooms, roomId, g.room);
        }
        rooms := rooms[roomId := g.room];
      }
    }

    /** `handleTimerExpired`: a draw in the named room, only while it is in play. */
    method HandleTimerExpired(roomId: string) returns (expired: bool)
      requires Valid()
      modifies this`rooms
      ensures Valid()
      ensures expired <==> roomId in old(rooms) && old(rooms)[roomId].status == Playing
      ensures expired ==> rooms == old(rooms)[roomId := ExpireTimer(old(rooms)[roomId]).value]
      ensures !expired ==> rooms == old(rooms)
    {
      if roomId !in rooms {
        return false;
      }
      var next := ExpireTimer(rooms[roomId]);
      if next.None? {
        return false;
      }
      RoomAt(rooms, roomId);
      ExpireKeepsOk(rooms[roomId]);
      PutRoom(rooms, roomId, next.value);
      rooms := rooms[roomId := next.value];
      return true;
    }

    /** `requestRematch`: a vote in the socket's room; `None` when the socket has no room. */
    method RequestRematch(socket: string, pick: Roll, coin: Roll, now: int) returns (r: Option<Rematch>)
      requires Valid() && IsDraw(pick) && IsDraw(coin)
      modifies this`rooms
      ensures Valid()
      ensures old(PlayerRoom(socket)).None? ==> r.None? && rooms == old(rooms)
      ensures old(PlayerRoom(socket)).Some? ==>
        var id := old(PlayerRoom(socket)).value;
        && r == Some(GameRoom.RequestRematch(old(rooms)[id], socket, pick, coin, now))
        && (r.value.RematchRejected? ==> rooms == old(rooms))
        && (!r.value.RematchRejected? ==> rooms == old(rooms)[id := r.value.room])
    {
      var id := PlayerRoom(socket);
      if id.None? {
        return None;
      }
      var room := rooms[id.value];
      var outcome := GameRoom.RequestRematch(room, socket, pick, coin, now);
      if !outcome.RematchRejected? {
        RoomAt(rooms, id.value);
        RematchKeepsOk(room, socket, pick, coin, now);
        PutRoom(rooms, id.value, outcome.room);
        rooms := rooms[id.value := outcome.room];
      }
      return Some(outcome);
    }

    /**
     * `leaveRoom`: delete the socket's room, both players' socket-to-room
     * entries and both players' user bindings, and name the opponent.
     */
    method LeaveRoom(socket: string) returns (r: Option<(Option<string>, string)>)
      requires Valid()
      modifies this`rooms, this`playerRooms, this`userSockets
      ensures Valid()
      ensures socket !in old(playerRooms) ==>
        && r.None? && rooms == old(rooms) && playerRooms == old(playerRooms)
        && userSockets == old(userSockets)
      ensures socket in old(playerRooms) && old(playerRooms)[socket] !in old(rooms) ==>
        r.None? && rooms == old(rooms) && playerRooms == old(playerRooms) - {socket} && userSockets == old(userSockets)
      ensures socket in old(playerRooms) && old(playerRooms)[socket] in old(rooms) ==>
        var id := old(playerRooms)[socket];
        var room := old(rooms)[id];
        var opponent := OpponentOf(room, socket);
        && r == Some((opponent, id))
        && rooms == old(rooms) - {id}
        && playerRooms == old(playerRooms) - {socket} - (if opponent.Some? then {opponent.value} else {})
        && userSockets == old(userSockets) - UsersOf(room, socket) - (if opponent.Some? then UsersOf(room, opponent.value) else {})
      ensures socket !in playerRooms
    {
      if socket !in playerRooms {
        return None;
      }
      var id := playerRooms[socket];
      if id !in rooms {
        playerRooms := playerRooms - {socket};
        return None;
      }
      var room := rooms[id];
      var opponent := OpponentOf(room, socket);
      userSockets := userSockets - UsersOf(room, socket);
      DropRoom(rooms, id);
      rooms := rooms - {id};
      playerRooms := playerRooms - {socket};
      if opponent.Some? {
        playerRooms := playerRooms - {opponent.value};
        userSockets := userSockets - UsersOf(room, opponent.value);
      }
      return Some((opponent, id));
    }

    /** The user id bound to a player of a room, if signed in. */
    static function UsersOf(room: Room, s: string): set<int> {
      if s in room.players && HasUserId(room.players[s].user) then {room.players[s].user.value.userId} else {}
    }

    /** The user id bound to the host of the socket's lobby, if it hosts one and is signed in. */
    static function HostUsers(privateRooms: map<string, Lobby>, lobbyHosts: map<string, string>, socket: string): set<int> {
      if socket in lobbyHosts && lobbyHosts[socket] in privateRooms && HasUserId(privateRooms[lobbyHosts[socket]].user)
      then {privateRooms[lobbyHosts[socket]].user.value.userId}
      else {}
    }

    /** The socket's room, when its socket-to-room entry names a stored room. */
    static predicate InRoom(rooms: map<string, Room>, playerRooms: map<string, string>, socket: string) {
      socket in playerRooms && playerRooms[socket] in rooms
    }

    /** The sockets whose socket-to-room entries leaving the room drops: the socket and its opponent. */
    static function RoomSockets(rooms: map<string, Room>, playerRooms: map<string, string>, socket: string): set<string> {
      if InRoom(rooms, playerRooms, socket) then
        var opponent := OpponentOf(rooms[playerRooms[socket]], socket);
        {socket} + (if opponent.Some? then {opponent.value} else {})
      else {socket}
    }

    /** The user ids whose bindings leaving the room drops: both players'. */
    static function RoomUsers(rooms: map<string, Room>, playerRooms: map<string, string>, socket: string): set<int> {
      if InRoom(rooms, playerRooms, socket) then
        var room := rooms[playerRooms[socket]];
        var opponent := OpponentOf(room, socket);
        UsersOf(room, socket) + (if opponent.Some? then UsersOf(room, opponent.value) else {})
      else {}
    }

    /**
     * `handleDisconnect`: leave every queue, close the hosted lobby, leave the
     * room. Each step touches its own maps, except the user bindings, which
     * lose the users queued with the socket, the lobby's host and both
     * players of the room.
     */
    method HandleDisconnect(socket: string) returns (r: Option<(Option<string>, string)>)
      requires Valid()
      modifies this`queues, this`userSockets, this`privateRooms, this`lobbyHosts, this`rooms, this`playerRooms
      ensures Valid()
      ensures queues == map k | k in old(queues) :: Without(old(queues)[k], socket)
      ensures forall k :: k in queues ==> SocketIndex(queues[k], socket) == -1
      ensures privateRooms == if socket in old(lobbyHosts) then old(privateRooms) - {old(lobbyHosts)[socket]} else old(privateRooms)
      ensures lobbyHosts == old(lobbyHosts) - {socket}
      ensures r == if InRoom(old(rooms), old(playerRooms), socket)
                   then Some((OpponentOf(old(rooms)[old(playerRooms)[socket]], socket), old(playerRooms)[socket]))
                   else None
      ensures rooms == if InRoom(old(rooms), old(playerRooms), socket) then old(rooms) - {old(playerRooms)[socket]} else old(rooms)
      ensures playerRooms == old(playerRooms) - RoomSockets(old(rooms), old(playerRooms), socket)
      ensures userSockets == old(userSockets) - LeavingUsers(old(queues), socket, old(queues).Keys)
                             - HostUsers(old(privateRooms), old(lobbyHosts), socket)
                             - RoomUsers(old(rooms), old(playerRooms), socket)
      ensures socket !in lobbyHosts && socket !in playerRooms
      ensures forall c :: c in privateRooms ==> privateRooms[c].host != socket
    {
      LeaveAllQueues(socket);
      ghost var afterQueues := userSockets;
      var _ := CancelPrivateRoom(socket);
      ghost var afterLobby := userSockets;
      assert afterLobby == afterQueues - HostUsers(old(privateRooms), old(lobbyHosts), socket);
      if socket !in old(lobbyHosts) {
        assert old(lobbyHosts) - {socket} == old(lobbyHosts);
      }
      r := LeaveRoom(socket);
      if InRoom(old(rooms), old(playerRooms), socket) {
        var room := old(rooms)[old(playerRooms)[socket]];
        var opponent := OpponentOf(room, socket);
        var others := if opponent.Some? then {opponent.value} else {};
        SubtractTwice(afterLobby, UsersOf(room, socket), if opponent.Some? then UsersOf(room, opponent.value) else {});
        SubtractTwice(old(playerRooms), {socket}, others);
      } else if socket !in old(playerRooms) {
        assert old(playerRooms) - {socket} == old(playerRooms);
      }
    }
  }
}
