/** The server: the insertion-ordered room registry, the global statistics,
    the round engine (`startGame` … `endGame`) and the intent handlers, with
    every broadcast appended to an outbox. The delayed calls and the round
    timer are methods the environment invokes. */
module GameServer {
  import opened Wrappers
  import opened Lexicon
  import opened Text
  import opened Sorting
  import opened Stats
  import opened Session
  import opened Rooms

  /** A connected socket as the handlers see it: its id, and the room id and
      player name it recorded when it last joined a room. */
  datatype Conn = Conn(id: string, roomId: Option<string>, playerName: Option<string>)

  /** Quick join may put a player in the room: not full, not started, no
      password. These are exactly the listed rooms without a password. */
  predicate Joinable(r: Room)
    reads r
    ensures Joinable(r) <==> Listed(r) && r.password == ""
  {
    |r.players| < r.maxPlayers && !r.gameStarted && r.password == ""
  }

  /** The room list shows the room: not started and not full, so its
      summary always shows a free seat. */
  predicate Listed(r: Room)
    reads r
    ensures Listed(r) ==> Summary(r).players < Summary(r).maxPlayers
  {
    !r.gameStarted && |r.players| < r.maxPlayers
  }

  function Summary(r: Room): RoomSummary
    reads r
  {
    RoomSummary(r.id, |r.players|, r.maxPlayers, r.difficulty, r.password != "", r.totalRounds, r.maxTime)
  }

  /** The settings `createRoom` builds from a request: each absent field
      replaced by its default. */
  function CreateSettings(request: Settings): (s: Settings)
    ensures s.maxPlayers >= 1 && s.rounds >= 1 && s.timePerRound >= 1
    ensures request.maxPlayers != 0 ==> s.maxPlayers == request.maxPlayers
    ensures request.rounds != 0 ==> s.rounds == request.rounds
    ensures request.timePerRound != 0 ==> s.timePerRound == request.timePerRound
    ensures s.password == request.password && s.customWords == request.customWords
  {
    Settings(OrDefault(request.maxPlayers, 8), OrDefault(request.rounds, 3),
             OrDefault(request.timePerRound, 80), request.password, request.customWords)
  }

  /** Why `joinRoom` turns a connection away from an existing room, if it
      does: a password that is set and not matched, or a full room. */
  function JoinRefusal(r: Room, password: Option<string>): (e: Option<string>)
    reads r
    ensures e.None? <==> (r.password == "" || password == Some(r.password)) && |r.players| < r.maxPlayers
  {
    if r.password != "" && password != Some(r.password) then Some("Incorrect password")
    else if |r.players| >= r.maxPlayers then Some("Room is full")
    else None
  }

  /** A room state with a player added by a join: the player goes to the
      end of the roster, and a start of the game is scheduled when the room
      now holds two or more players and no game runs. */
  function WithPlayer(s: RoomState, p: Player): (t: RoomState)
    ensures t.players == s.players + [p] && |t.players| == |s.players| + 1
    ensures t.pendingStarts == s.pendingStarts + (if |s.players| >= 1 && !s.gameStarted then 1 else 0)
    ensures t.(players := s.players, pendingStarts := s.pendingStarts) == s
  {
    var players := s.players + [p];
    s.(players := players,
       pendingStarts := s.pendingStarts + (if |players| >= 2 && !s.gameStarted then 1 else 0))
  }

  /** What a join broadcasts: the confirmation to the joiner, the newcomer
      to the others, the new roster and the join sound to the whole room. */
  function JoinEvents(conn: Conn, roomId: string, p: Player, settings: Settings, roster: seq<Player>): seq<Event>
  {
    [Event(ToSocket(conn.id), JoinedRoom(roomId, settings)),
     Event(ToOthers(roomId, conn.id), PlayerJoined(p)),
     Event(ToRoom(roomId), UpdatePlayers(roster)),
     Event(ToRoom(roomId), PlaySound("join"))]
  }

  class Server {
    var rooms: map<string, Room>
    /** The keys of `rooms` in insertion order. */
    var order: seq<string>
    const stats: GlobalStats
    var outbox: seq<Event>

    ghost predicate Valid()
      reads this, rooms.Values, stats
    {
      stats.Valid()
      && (forall i, j :: 0 <= i < j < |order| ==> order[i] != order[j])
      && (forall i :: 0 <= i < |order| ==> order[i] in rooms)
      && (forall k :: k in rooms ==> k in order)
      && (forall k :: k in rooms ==> rooms[k].id == k)
      && (forall r :: r in rooms.Values ==> r.Valid() && |r.players| > 0)
    }

    constructor ()
      ensures Valid()
      ensures rooms == map[] && order == [] && outbox == []
      ensures stats.totalGames == 0 && stats.totalPlayers == {} && stats.leaderboard == []
    {
      rooms := map[];
      order := [];
      stats := new GlobalStats();
      outbox := [];
    }

    /** The room a connection's recorded room id names, as a frame. */
    function Slot(key: Option<string>): set<Room>
      reads this
    {
      if key.Some? && key.value in rooms then {rooms[key.value]} else {}
    }

    // -------------------------------------------------------------------
    // Registry

    /** `rooms.set(key, room)`: a new key goes to the end of the order, an
        existing key keeps its place. */
    method Put(key: string, room: Room)
      requires Valid() && room.Valid() && |room.players| > 0 && room.id == key
      modifies this`rooms, this`order
      ensures rooms == old(rooms)[key := room]
      ensures order == if key in old(rooms) then old(order) else old(order) + [key]
      ensures Valid()
    {
      if key !in rooms {
        order := order + [key];
      }
      rooms := rooms[key := room];
    }

    /** `rooms.delete(key)`; the room deleted may already have emptied. */
    method Delete(key: string)
      requires key in rooms && stats.Valid()
      requires forall i, j :: 0 <= i < j < |order| ==> order[i] != order[j]
      requires forall i :: 0 <= i < |order| ==> order[i] in rooms
      requires forall k :: k in rooms ==> k in order && rooms[k].id == k
      requires forall k :: k in rooms && k != key ==> rooms[k].Valid() && |rooms[k].players| > 0
      modifies this`rooms, this`order
      ensures rooms == old(rooms) - {key}
      ensures key in old(order) && order == RemoveKey(old(order), key)
      ensures forall k :: k in order <==> k in old(order) && k != key
      ensures Valid()
    {
      RemoveKeySpec(order, key);
      order := RemoveKey(order, key);
      rooms := rooms - {key};
      forall r | r in rooms.Values ensures r.Valid() && |r.players| > 0 {
        var k :| k in rooms && rooms[k] == r;
      }
      forall i | 0 <= i < |order| ensures order[i] in rooms {
        assert order[i] in order;
      }
    }

    // -------------------------------------------------------------------
    // Intent handlers

    /** Makes a room hosted by the connection under `roomId`, registers it
        (replacing a room that had the same id) and moves the connection
        into it. Shared by `createRoom` and the fallback of `quickJoin`. */
    method Open(conn: Conn, playerName: string, roomId: string, difficulty: string, settings: Settings)
      returns (c': Conn, room: Room)
      requires Valid()
      modifies this`rooms, this`order, this`outbox
      ensures fresh(room) && rooms == old(rooms)[roomId := room]
      ensures order == if roomId in old(rooms) then old(order) else old(order) + [roomId]
      ensures room.Config() == ConfigOf(roomId, difficulty, settings) && room.settings == settings
      ensures room.State() == InitialState(NewPlayer(conn.id, playerName), room.Config())
      ensures outbox == old(outbox) + [Event(ToSocket(conn.id), JoinedRoom(roomId, settings)),
                                       Event(ToRoom(roomId), UpdatePlayers([NewPlayer(conn.id, playerName)]))]
      ensures c' == conn.(roomId := Some(roomId), playerName := Some(playerName))
      ensures Valid()
    {
      room := new Room(roomId, difficulty, NewPlayer(conn.id, playerName), settings);
      Put(roomId, room);
      c' := conn.(roomId := Some(roomId), playerName := Some(playerName));
      outbox := outbox + [Event(ToSocket(conn.id), JoinedRoom(roomId, settings)),
                          Event(ToRoom(roomId), UpdatePlayers(room.players))];
    }

    /** `createRoom`: `newId` is the random id the server draws. The host is
        not counted among all players, since the room is built around it
        rather than joined. */
    method CreateRoom(conn: Conn, playerName: string, difficulty: string, request: Settings, newId: string)
      returns (c': Conn)
      requires Valid()
      modifies this`rooms, this`order, this`outbox
      ensures newId in rooms && fresh(rooms[newId]) && rooms == old(rooms)[newId := rooms[newId]]
      ensures order == if newId in old(rooms) then old(order) else old(order) + [newId]
      ensures rooms[newId].Config() == ConfigOf(newId, difficulty, CreateSettings(request))
      ensures rooms[newId].State() == InitialState(NewPlayer(conn.id, playerName), rooms[newId].Config())
      ensures outbox == old(outbox) + [Event(ToSocket(conn.id), JoinedRoom(newId, CreateSettings(request))),
                                       Event(ToRoom(newId), UpdatePlayers([NewPlayer(conn.id, playerName)]))]
      ensures c' == conn.(roomId := Some(newId), playerName := Some(playerName))
      ensures Valid()
    {
      var room;
      c', room := Open(conn, playerName, newId, difficulty, CreateSettings(request));
    }

    /** Puts the connection's new player into a room that has space: the
        common tail of `joinRoom` and of `quickJoin` when it finds a room. A
        second player schedules the start of the game. */
    method Admit(conn: Conn, playerName: string, roomId: string) returns (c': Conn)
      requires Valid() && roomId in rooms
      requires |rooms[roomId].players| < rooms[roomId].maxPlayers
      modifies this`outbox, stats`totalPlayers, rooms[roomId]
      ensures var room := rooms[roomId];
              var p := NewPlayer(conn.id, playerName);
              && room.State() == WithPlayer(old(room.State()), p)
              && outbox == old(outbox) + JoinEvents(conn, roomId, p, room.settings, room.players)
      ensures stats.totalPlayers == old(stats.totalPlayers) + {playerName}
      ensures c' == conn.(roomId := Some(roomId), playerName := Some(playerName))
      ensures Valid()
    {
      var room := rooms[roomId];
      var p := NewPlayer(conn.id, playerName);
      var added := room.AddPlayer(p, stats);
      c' := conn.(roomId := Some(roomId), playerName := Some(playerName));
      outbox := outbox + [Event(ToSocket(conn.id), JoinedRoom(roomId, room.settings)),
                          Event(ToOthers(roomId, conn.id), PlayerJoined(p)),
                          Event(ToRoom(roomId), UpdatePlayers(room.players)),
                          Event(ToRoom(roomId), PlaySound("join"))];
      if |room.players| >= 2 && !room.gameStarted {
        room.pendingStarts := room.pendingStarts + 1;
      }
    }

    /** `joinRoom`: refused with an error to the connection when the room is
        missing, the password is wrong or the room is full; admitted
        otherwise. */
    method JoinRoom(conn: Conn, roomId: string, playerName: string, password: Option<string>)
      returns (c': Conn)
      requires Valid()
      modifies this`outbox, stats`totalPlayers, Slot(Some(roomId))
      ensures roomId !in rooms ==>
                && c' == conn && outbox == old(outbox) + [Event(ToSocket(conn.id), Error("Room not found"))]
                && stats.totalPlayers == old(stats.totalPlayers)
      ensures roomId in rooms && old(JoinRefusal(rooms[roomId], password)).Some? ==>
                && c' == conn
                && outbox == old(outbox) + [Event(ToSocket(conn.id), Error(old(JoinRefusal(rooms[roomId], password)).value))]
                && rooms[roomId].State() == old(rooms[roomId].State())
                && stats.totalPlayers == old(stats.totalPlayers)
      ensures roomId in rooms && old(JoinRefusal(rooms[roomId], password)).None? ==>
                var room := rooms[roomId];
                var p := NewPlayer(conn.id, playerName);
                && c' == conn.(roomId := Some(roomId), playerName := Some(playerName))
                && room.State() == WithPlayer(old(room.State()), p)
                && outbox == old(outbox) + JoinEvents(conn, roomId, p, room.settings, room.players)
                && stats.totalPlayers == old(stats.totalPlayers) + {playerName}
      ensures Valid()
    {
      if roomId !in rooms {
        outbox := outbox + [Event(ToSocket(conn.id), Error("Room not found"))];
        return conn;
      }
      var refusal := JoinRefusal(rooms[roomId], password);
      if refusal.Some? {
        outbox := outbox + [Event(ToSocket(conn.id), Error(refusal.value))];
        return conn;
      }
      c' := Admit(conn, playerName, roomId);
    }

    /** The first room in insertion order that quick join may use. */
    method FindJoinable() returns (found: Option<nat>)
      requires Valid()
      ensures found.Some? ==> found.value < |order| && Joinable(rooms[order[found.value]])
      ensures found.Some? ==> forall j :: 0 <= j < found.value ==> !Joinable(rooms[order[j]])
      ensures found.None? ==> forall j :: 0 <= j < |order| ==> !Joinable(rooms[order[j]])
    {
      var i := 0;
      while i < |order|
        invariant 0 <= i <= |order|
        invariant forall j :: 0 <= j < i ==> !Joinable(rooms[order[j]])
      {
        if Joinable(rooms[order[i]]) {
          return Some(i);
        }
        i := i + 1;
      }
      return None;
    }

    /** `quickJoin`: joins the first joinable room in insertion order, or
        hosts a new medium room with default settings under `newId`. */
    method QuickJoin(conn: Conn, playerName: string, newId: string) returns (c': Conn, found: Option<nat>)
      requires Valid()
      modifies this`rooms, this`order, this`outbox, stats`totalPlayers, rooms.Values
      ensures found.Some? ==> found.value < |old(order)| && old(Joinable(rooms[order[found.value]]))
      ensures found.Some? ==> forall j :: 0 <= j < found.value ==> old(!Joinable(rooms[order[j]]))
      ensures Valid()
      ensures found.Some? ==> rooms == old(rooms) && order == old(order)
      ensures found.Some? ==> var k := old(order)[found.value];
                var room := rooms[k];
                var p := NewPlayer(conn.id, playerName);
                && room.State() == WithPlayer(old(room.State()), p)
                && outbox == old(outbox) + JoinEvents(conn, k, p, room.settings, room.players)
                && stats.totalPlayers == old(stats.totalPlayers) + {playerName}
                && c' == conn.(roomId := Some(k), playerName := Some(playerName))
      ensures found.None? ==> old(forall j :: 0 <= j < |order| ==> !Joinable(rooms[order[j]]))
      ensures found.None? ==>
                var p := NewPlayer(conn.id, playerName);
                && newId in rooms && fresh(rooms[newId]) && rooms == old(rooms)[newId := rooms[newId]]
                && order == (if newId in old(rooms) then old(order) else old(order) + [newId])
                && rooms[newId].Config() == ConfigOf(newId, "medium", NoSettings)
                && rooms[newId].State() == InitialState(p, rooms[newId].Config())
                && outbox == old(outbox) + [Event(ToSocket(conn.id), JoinedRoom(newId, NoSettings)),
                                            Event(ToRoom(newId), UpdatePlayers([p]))]
                && stats.totalPlayers == old(stats.totalPlayers)
                && c' == conn.(roomId := Some(newId), playerName := Some(playerName))
      ensures forall r :: r in old(rooms.Values) && (found.Some? ==> r != old(rooms[order[found.value]])) ==>
                r.State() == old(r.State())
    {
      found := FindJoinable();
      if found.Some? {
        c' := Admit(conn, playerName, order[found.value]);
      } else {
        var room;
        c', room := Open(conn, playerName, newId, "medium", NoSettings);
      }
    }

    /** `getRooms`: the listed rooms, in insertion order, to the connection. */
    method GetRooms(conn: Conn)
      requires Valid()
      modifies this`outbox
      ensures outbox == old(outbox) + [Event(ToSocket(conn.id), RoomsList(Listing(order)))]
    {
      outbox := outbox + [Event(ToSocket(conn.id), RoomsList(Listing(order)))];
    }

    /** The summaries of the listed rooms among `keys`, in their order. */
    function Listing(keys: seq<string>): (r: seq<RoomSummary>)
      requires forall k :: k in keys ==> k in rooms && rooms[k].id == k
      reads this`rooms, rooms.Values
      ensures |r| <= |keys|
      ensures forall k :: k in keys && Listed(rooms[k]) ==> Summary(rooms[k]) in r
      ensures forall x :: x in r ==> x.id in keys && Listed(rooms[x.id]) && x == Summary(rooms[x.id])
    {
      if keys == [] then []
      else
        var room := rooms[keys[0]];
        (if Listed(room) then [Summary(room)] else []) + Listing(keys[1..])
    }

    /** The listing of two runs of keys is the listing of the first followed
        by that of the second: the summaries keep the order of the keys, one
        per listed room. */
    lemma {:induction false} ListingAppend(a: seq<string>, b: seq<string>)
      requires forall k :: k in a + b ==> k in rooms && rooms[k].id == k
      ensures Listing(a + b) == Listing(a) + Listing(b)
    {
      if a == [] {
        assert a + b == b;
      } else {
        assert (a + b)[0] == a[0] && (a + b)[1..] == a[1..] + b;
        ListingAppend(a[1..], b);
      }
    }

    /** `getLeaderboard`: the ten best entries to the connection. */
    method GetLeaderboard(conn: Conn)
      requires Valid()
      modifies this`outbox
      ensures outbox == old(outbox) + [Event(ToSocket(conn.id), Leaderboard(stats.TopTen()))]
    {
      outbox := outbox + [Event(ToSocket(conn.id), Leaderboard(stats.TopTen()))];
    }

    /** `wordChosen`: ignored without a room; otherwise the room's drawer
        gate and choice. */
    method WordChosen(conn: Conn, index: int) returns (status: Status)
      requires Valid()
      modifies this`outbox, Slot(conn.roomId)
      ensures Slot(conn.roomId) == {} ==> outbox == old(outbox) && status == Done
      ensures forall room :: room in Slot(conn.roomId) ==>
                var r := WordChosenStep(old(room.State()), room.Config(), conn.id, index);
                room.State() == r.state && outbox == old(outbox) + r.events && status == r.status
      ensures Valid()
    {
      if conn.roomId.None? || conn.roomId.value !in rooms {
        return Done;
      }
      var room := rooms[conn.roomId.value];
      var events;
      events, status := room.SelectWord(conn.id, index);
      outbox := outbox + events;
    }

    /** `guess`: without a room the message is relayed to the recorded room
        id; otherwise the room judges it, and a correct one is also credited
        on the leaderboard. */
    method Guess(conn: Conn, message: string) returns (status: Status)
      requires Valid()
      modifies this`outbox, stats`leaderboard, Slot(conn.roomId)
      ensures Valid()
      ensures Slot(conn.roomId) == {} ==>
                && status == Done && stats.leaderboard == old(stats.leaderboard)
                && outbox == old(outbox) + if conn.roomId.None? then []
                                           else [Event(ToRoom(conn.roomId.value), Chat(conn.playerName, message))]
      ensures forall room :: room in Slot(conn.roomId) ==>
                var (r, award) := GuessStep(old(room.State()), room.Config(), conn.id, conn.playerName, message);
                && room.State() == r.state && outbox == old(outbox) + r.events && status == r.status
                && stats.leaderboard == if award.Some? then Updated(old(stats.leaderboard), award.value.0, award.value.1)
                                        else old(stats.leaderboard)
    {
      if conn.roomId.None? {
        return Done;
      }
      if conn.roomId.value !in rooms {
        outbox := outbox + [Event(ToRoom(conn.roomId.value), Chat(conn.playerName, message))];
        return Done;
      }
      var room := rooms[conn.roomId.value];
      var events;
      events, status := room.Guess(conn.id, conn.playerName, message, stats);
      outbox := outbox + events;
    }

    /** `disconnect`: nothing without a (non-empty) recorded room id or a
        room under it; otherwise the player leaves, and a room left empty is
        deleted. */
    method Disconnect(conn: Conn) returns (status: Status)
      requires Valid()
      modifies this`rooms, this`order, this`outbox, Slot(conn.roomId)
      ensures conn.roomId.None? || conn.roomId == Some("") || conn.roomId.value !in old(rooms) ==>
                rooms == old(rooms) && order == old(order) && outbox == old(outbox) && status == Done
      ensures forall room :: room in old(Slot(conn.roomId)) && conn.roomId != Some("") ==>
                var r := LeaveStep(old(room.State()), room.Config(), conn.id);
                && room.State() == r.state && outbox == old(outbox) + r.events && status == r.status
                && rooms == (if r.state.players == [] then old(rooms) - {room.id} else old(rooms))
                && room.id in old(order)
                && order == (if r.state.players == [] then RemoveKey(old(order), room.id) else old(order))
      ensures Valid()
    {
      if conn.roomId.None? || conn.roomId.value == "" || conn.roomId.value !in rooms {
        return Done;
      }
      var key := conn.roomId.value;
      var room := rooms[key];
      var events;
      events, status := room.Leave(conn.id);
      outbox := outbox + events;
      if room.players == [] {
        Delete(key);
      }
    }

    // -------------------------------------------------------------------
    // Delayed calls and the round timer, invoked by the environment

    /** The `setTimeout(() => startGame(room), 2000)` of a join fires. */
    method FireStartGame(room: Room)
      requires Valid() && room.Valid() && room.pendingStarts > 0
      modifies this`outbox, room, stats`totalGames
      ensures var r := StartGameStep(old(room.State()), room.Config());
              room.State() == r.state && outbox == old(outbox) + r.events
      ensures stats.totalGames == old(stats.totalGames) + (if StartsGame(old(room.State())) then 1 else 0)
      ensures room.Valid() && Valid()
    {
      var events := room.StartGame(stats);
      outbox := outbox + events;
    }

    /** The `setTimeout(() => startNewRound(room), …)` of a game start or a
        round end fires. */
    method FireNewRound(room: Room, shuffled: seq<WordEntry>) returns (status: Status)
      requires Valid() && room.Valid() && room.pendingRounds > 0
      requires IsShuffle(shuffled, room.pool)
      modifies this`outbox, room
      ensures var r := StartNewRoundStep(old(room.State()), room.Config(), room.RandomWords(3, shuffled));
              room.State() == r.state && outbox == old(outbox) + r.events && status == r.status
      ensures room.Valid() && Valid()
    {
      var events;
      events, status := room.StartNewRound(shuffled);
      outbox := outbox + events;
    }

    /** The round timer's interval fires. */
    method FireTick(room: Room) returns (status: Status)
      requires Valid() && room.Valid() && room.timerActive
      modifies this`outbox, room
      ensures var r := TickStep(old(room.State()), room.Config());
              room.State() == r.state && outbox == old(outbox) + r.events && status == r.status
      ensures room.Valid() && Valid()
    {
      var events;
      events, status := room.Tick();
      outbox := outbox + events;
    }
  }

  /** `Map.delete` on the insertion order: the first occurrence of `x` is
      cut out and the others keep their relative order. */
  function RemoveKey(s: seq<string>, x: string): (t: seq<string>)
    requires x in s
    ensures |t| == |s| - 1
    ensures forall j :: 0 <= j < |t| ==> t[j] == if j < IndexOf(s, x) then s[j] else s[j + 1]
  {
    var i := IndexOf(s, x);
    s[..i] + s[i + 1..]
  }

  /** Removing a key from a sequence without duplicates leaves one without
      duplicates that holds exactly the other keys. */
  lemma RemoveKeySpec(s: seq<string>, x: string)
    requires x in s
    requires forall j, l :: 0 <= j < l < |s| ==> s[j] != s[l]
    ensures var t := RemoveKey(s, x);
            && (forall j, l :: 0 <= j < l < |t| ==> t[j] != t[l])
            && (forall y :: y in t <==> y in s && y != x)
  {
    var i := IndexOf(s, x);
    var t := RemoveKey(s, x);
    forall j, l | 0 <= j < l < |t| ensures t[j] != t[l] {
      var j', l' := if j < i then j else j + 1, if l < i then l else l + 1;
      assert t[j] == s[j'] && t[l] == s[l'];
    }
    forall y | y in s && y != x ensures y in t {
      var p :| 0 <= p < |s| && s[p] == y;
      if p < i { assert t[p] == y; } else { assert t[p - 1] == y; }
    }
  }

  /** Deleting the middle of three keys keeps the outer two in order. */
  lemma RemoveKeyExample()
    ensures RemoveKey(["A", "B", "C"], "B") == ["A", "C"]
  {
    assert IndexOf(["A", "B", "C"], "B") == 1;
  }

  /** The position of the first occurrence of `x`. */
  function IndexOf(s: seq<string>, x: string): (i: nat)
    requires x in s
    ensures i < |s| && s[i] == x
    ensures forall j :: 0 <= j < i ==> s[j] != x
  {
    if s[0] == x then 0 else 1 + IndexOf(s[1..], x)
  }
}
