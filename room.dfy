/** The `Room` aggregate: a room's configuration, its roster and its round
    fields, updated in place by its own operations and by the round engine. */
module Rooms {
  import opened Wrappers
  import opened Lexicon
  import opened Session
  import opened Text
  import opened Stats
  import opened Sorting

  class Room {
    const id: string
    const difficulty: string
    const maxPlayers: nat
    const totalRounds: nat
    const maxTime: nat
    /** `""` when the room has no password. */
    const password: string
    const customWords: seq<string>
    /** The settings object the room was created with, echoed to joiners. */
    const settings: Settings
    /** The list `getRandomWords` draws from. It depends only on the custom
        words and the difficulty, which never change, so it is fixed when the
        room is made. */
    const pool: seq<WordEntry>

    var players: seq<Player>
    var currentRound: nat
    var currentDrawer: nat
    var currentWord: Option<WordEntry>
    var wordChoices: seq<WordEntry>
    var gameStarted: bool
    /** Whether the one-second round timer is running. */
    var timerActive: bool
    var timeLeft: int
    var guessedPlayers: set<string>
    /** Delayed `startGame` calls scheduled and not yet fired. */
    var pendingStarts: nat
    /** Delayed `startNewRound` calls scheduled and not yet fired. */
    var pendingRounds: nat

    function Config(): RoomConfig {
      RoomConfig(id, difficulty, maxPlayers, totalRounds, maxTime, password, customWords)
    }

    function State(): RoomState
      reads this
    {
      RoomState(players, currentRound, currentDrawer, currentWord, wordChoices, gameStarted,
                timerActive, timeLeft, guessedPlayers, pendingStarts, pendingRounds)
    }

    ghost predicate Valid()
      reads this
    {
      ConfigOk(Config()) && Fits(State(), Config())
    }

    /** A room whose only player is its host, with the settings' defaults. */
    constructor (id: string, difficulty: string, host: Player, settings: Settings)
      ensures Config() == ConfigOf(id, difficulty, settings) && this.settings == settings
      ensures pool == Pool(customWords, difficulty)
      ensures State() == InitialState(host, Config())
      ensures Valid()
    {
      this.id := id;
      this.difficulty := difficulty;
      this.players := [host];
      this.maxPlayers := OrDefault(settings.maxPlayers, 8);
      this.currentRound := 0;
      this.totalRounds := OrDefault(settings.rounds, 3);
      this.currentDrawer := 0;
      this.currentWord := None;
      this.wordChoices := [];
      this.gameStarted := false;
      this.timerActive := false;
      this.timeLeft := OrDefault(settings.timePerRound, 80);
      this.maxTime := OrDefault(settings.timePerRound, 80);
      this.guessedPlayers := {};
      this.password := settings.password;
      this.customWords := settings.customWords;
      this.settings := settings;
      this.pool := Pool(settings.customWords, difficulty);
      this.pendingStarts := 0;
      this.pendingRounds := 0;
    }

    /** Appends the player when there is room, and counts its name among
        all players ever seen; reports whether it appended. */
    method AddPlayer(player: Player, stats: GlobalStats) returns (added: bool)
      requires Valid()
      modifies this`players, stats`totalPlayers
      ensures Valid()
      ensures added <==> old(|players|) < maxPlayers
      ensures players == if added then old(players) + [player] else old(players)
      ensures stats.totalPlayers == if added then old(stats.totalPlayers) + {player.name}
                                    else old(stats.totalPlayers)
    {
      if |players| < maxPlayers {
        players := players + [player];
        stats.totalPlayers := stats.totalPlayers + {player.name};
        return true;
      }
      return false;
    }

    /** Drops every player with the given id and reports whether the room is
        now empty. The drawer index is left as it was. */
    method RemovePlayer(playerId: string) returns (empty: bool)
      requires Valid()
      modifies this`players
      ensures Valid()
      ensures players == WithoutId(old(players), playerId)
      ensures empty <==> players == []
      ensures empty <==> forall i :: 0 <= i < |old(players)| ==> old(players)[i].id == playerId
    {
      players := WithoutId(players, playerId);
      WithoutIdShorter(old(players), playerId);
      empty := |players| == 0;
    }

    /** `getRandomWords(count)`: the first `count` entries of a shuffle of
        the word pool; `shuffled` is that shuffle. */
    function RandomWords(count: nat, shuffled: seq<WordEntry>): (r: seq<WordEntry>)
      requires IsShuffle(shuffled, pool)
      ensures |r| == Min(count, |pool|)
      ensures multiset(r) <= multiset(pool)
    {
      Sample(pool, shuffled, count)
    }

    /** `nextRound`; the roster must not be empty. */
    method NextRound() returns (more: bool)
      requires |players| > 0
      modifies this`currentRound, this`currentDrawer, this`guessedPlayers, this`players
      ensures (State(), more) == NextRoundStep(old(State()), Config())
    {
      ghost var expected := NextRoundStep(State(), Config());
      currentRound := currentRound + 1;
      currentDrawer := (currentDrawer + 1) % |players|;
      guessedPlayers := {};
      ClearGuesses();
      more := currentRound <= totalRounds;
      assert State() == expected.0;
    }

    /** The `forEach` of `nextRound` that clears every `hasGuessed`. */
    method ClearGuesses()
      modifies this`players
      ensures players == ClearGuessFlags(old(players))
    {
      var i := 0;
      while i < |players|
        invariant 0 <= i <= |players| == |old(players)|
        invariant forall j :: 0 <= j < i ==> players[j] == old(players)[j].(hasGuessed := false)
        invariant forall j :: i <= j < |players| ==> players[j] == old(players)[j]
      {
        players := players[i := players[i].(hasGuessed := false)];
        i := i + 1;
      }
    }

    /** The flag reset at the start of `startNewRound`. */
    method ResetFlags()
      modifies this`players
      ensures players == ClearRoundFlags(old(players))
    {
      var i := 0;
      while i < |players|
        invariant 0 <= i <= |players| == |old(players)|
        invariant forall j :: 0 <= j < i ==>
                    players[j] == old(players)[j].(isDrawing := false, hasGuessed := false)
        invariant forall j :: i <= j < |players| ==> players[j] == old(players)[j]
      {
        players := players[i := players[i].(isDrawing := false, hasGuessed := false)];
        i := i + 1;
      }
    }

    // -----------------------------------------------------------------
    // Round engine: each method returns the events it broadcasts, in order,
    // and whether it completed or stopped at a `TypeError`.

    /** A scheduled `startGame` fires; a game that starts is counted. */
    method StartGame(stats: GlobalStats) returns (events: seq<Event>)
      requires Valid() && pendingStarts > 0
      modifies this, stats`totalGames
      ensures var r := StartGameStep(old(State()), Config());
              State() == r.state && events == r.events
      ensures stats.totalGames == old(stats.totalGames) + (if StartsGame(old(State())) then 1 else 0)
      ensures Valid()
    {
      pendingStarts := pendingStarts - 1;
      if gameStarted || |players| < 2 {
        return [];
      }
      gameStarted := true;
      currentRound := 1;
      currentDrawer := 0;
      stats.totalGames := stats.totalGames + 1;
      events := [Event(ToRoom(id), GameStart(totalRounds)), Event(ToRoom(id), PlaySound("gamestart"))];
      pendingRounds := pendingRounds + 1;
    }

    /** A scheduled `startNewRound` fires; `shuffled` is the shuffle of the
        pool that `getRandomWords` draws from. */
    method StartNewRound(shuffled: seq<WordEntry>) returns (events: seq<Event>, status: Status)
      requires Valid() && pendingRounds > 0
      requires IsShuffle(shuffled, pool)
      modifies this
      ensures var r := StartNewRoundStep(old(State()), Config(), RandomWords(3, shuffled));
              State() == r.state && events == r.events && status == r.status
      ensures Valid()
    {
      ghost var expected := StartNewRoundStep(State(), Config(), RandomWords(3, shuffled));
      pendingRounds := pendingRounds - 1;
      guessedPlayers := {};
      ResetFlags();
      if currentDrawer >= |players| {
        return [], TypeError;
      }
      var d := currentDrawer;
      players := players[d := players[d].(isDrawing := true)];
      var drawer := players[d];
      wordChoices := RandomWords(3, shuffled);
      timeLeft := maxTime;
      events := [Event(ToRoom(id), NewRound(currentRound, drawer.name)),
                 Event(ToRoom(id), UpdatePlayers(players)),
                 Event(ToSocket(drawer.id), ChooseWord(wordChoices))];
      assert State() == expected.state;
      return events, Done;
    }

    /** One tick of the running round timer. */
    method Tick() returns (events: seq<Event>, status: Status)
      requires Valid() && timerActive
      modifies this
      ensures var r := TickStep(old(State()), Config());
              State() == r.state && events == r.events && status == r.status
      ensures Valid()
    {
      timeLeft := timeLeft - 1;
      events := [Event(ToRoom(id), Timer(timeLeft))];
      if timeLeft == 60 || timeLeft == 30 {
        if currentWord.None? {
          return events, TypeError;
        }
        events := events + [Event(ToRoom(id), ShowHint(currentWord.value.hint))];
      }
      if timeLeft <= 0 {
        var more;
        more, status := EndRound();
        events := events + more;
      } else {
        status := Done;
      }
    }

    /** `endRound`. */
    method EndRound() returns (events: seq<Event>, status: Status)
      requires Valid()
      modifies this
      ensures var r := EndRoundStep(old(State()), Config());
              State() == r.state && events == r.events && status == r.status
      ensures Valid()
    {
      ghost var expected := EndRoundStep(State(), Config());
      timerActive := false;
      if currentDrawer >= |players| {
        return [], TypeError;
      }
      var d := currentDrawer;
      players := players[d := players[d].(isDrawing := false)];
      if currentWord.None? {
        return [], TypeError;
      }
      events := [Event(ToRoom(id), RoundEnd(currentWord.value.word)), Event(ToRoom(id), PlaySound("roundend"))];
      var more := NextRound();
      if more {
        pendingRounds := pendingRounds + 1;
      } else {
        var last := EndGame();
        events := events + last;
      }
      assert State() == expected.state;
      return events, Done;
    }

    /** `endGame`: announces the first top scorer and ranks the roster. */
    method EndGame() returns (events: seq<Event>)
      requires |players| > 0
      modifies this
      ensures var r := EndGameStep(old(State()), Config());
              State() == r.state && events == r.events
    {
      ghost var expected := EndGameStep(State(), Config());
      var winner := players[WinnerIndex(players)];
      players := SortDesc(players, PlayerScore);
      events := [Event(ToRoom(id), GameEnd(winner, players)), Event(ToRoom(id), PlaySound("win"))];
      gameStarted := false;
      currentRound := 0;
      assert State() == expected.state;
    }

    // -----------------------------------------------------------------
    // The room-level part of two intents

    /** `wordChosen` from connection `sender`, once its room is found. */
    method SelectWord(sender: string, index: int) returns (events: seq<Event>, status: Status)
      requires Valid()
      modifies this
      ensures var r := WordChosenStep(old(State()), Config(), sender, index);
              State() == r.state && events == r.events && status == r.status
      ensures Valid()
    {
      if currentDrawer >= |players| {
        return [], TypeError;
      }
      if players[currentDrawer].id != sender {
        return [], Done;
      }
      currentWord := if 0 <= index < |wordChoices| then Some(wordChoices[index]) else None;
      var d := currentDrawer;
      players := players[d := players[d].(isDrawing := true)];
      if currentWord.None? {
        return [], TypeError;
      }
      events := [Event(ToRoom(id), StartDrawing(WordDisplay(), timeLeft, |currentWord.value.word|)),
                 Event(ToRoom(id), UpdatePlayers(players)),
                 Event(ToRoom(id), PlaySound("start"))];
      timerActive := true;
      return events, Done;
    }

    /** A guess from connection `sender`, once its room is found and has a
        word: a correct one is credited here and on the leaderboard. */
    method Guess(sender: string, senderName: Option<string>, message: string, stats: GlobalStats)
      returns (events: seq<Event>, status: Status)
      requires Valid() && stats.Valid()
      modifies this, stats`leaderboard
      ensures var (r, award) := GuessStep(old(State()), Config(), sender, senderName, message);
              && State() == r.state && events == r.events && status == r.status
              && stats.leaderboard == (if award.Some? then Updated(old(stats.leaderboard), award.value.0, award.value.1)
                                       else old(stats.leaderboard))
      ensures Valid() && stats.Valid()
    {
      if currentWord.None? {
        return [Event(ToRoom(id), Chat(senderName, message))], Done;
      }
      var found := FindPlayer(players, sender);
      if found.None? {
        return [Event(ToRoom(id), Chat(senderName, message))], Done;
      }
      var i := found.value;
      var player := players[i];
      if player.isDrawing || player.hasGuessed || !Matches(message, currentWord.value.word) {
        return [Event(ToRoom(id), Chat(Some(player.name), message))], Done;
      }
      ghost var scored := Scored(State(), Config(), sender);
      var points := Points(timeLeft, maxTime);
      players := players[i := player.(hasGuessed := true, score := player.score + points)];
      guessedPlayers := guessedPlayers + {sender};
      assert State() == scored;
      stats.UpdateLeaderboard(player.name, points);
      events := [Event(ToRoom(id), CorrectGuess(player.name, points)),
                 Event(ToRoom(id), UpdatePlayers(players)),
                 Event(ToRoom(id), PlaySound("correct"))];
      if |guessedPlayers| == |players| - 1 {
        var more;
        more, status := EndRound();
        events := events + more;
      } else {
        status := Done;
      }
    }

    /** The room-level part of `disconnect`: the connection's player leaves. */
    method Leave(playerId: string) returns (events: seq<Event>, status: Status)
      requires Valid()
      modifies this`players
      ensures var r := LeaveStep(old(State()), Config(), playerId);
              State() == r.state && events == r.events && status == r.status
      ensures Valid()
    {
      var found := FindPlayer(players, playerId);
      events := if found.Some? then [Event(ToRoom(id), PlayerLeft(players[found.value]))] else [];
      var empty := RemovePlayer(playerId);
      if empty {
        return events, Done;
      }
      events := events + [Event(ToRoom(id), UpdatePlayers(players))];
      if gameStarted && |players| > 0 {
        if currentDrawer >= |players| {
          return events, TypeError;
        }
        // The departed player is no longer on the roster, so the drawer is
        // never it and `endRound` is not reached from here.
        assert players[currentDrawer].id != playerId;
      }
      return events, Done;
    }

    /** `getCurrentDrawer()`. */
    function CurrentDrawer(): (r: Option<Player>)
      reads this
      ensures r.Some? <==> currentDrawer < |players|
      ensures r.Some? ==> r.value == players[currentDrawer]
    {
      Session.CurrentDrawer(State())
    }

    /** `getWordDisplay()`. */
    function WordDisplay(): (r: string)
      reads this
      ensures currentWord.None? ==> r == ""
      ensures currentWord.Some? ==> r == Mask(currentWord.value.word)
    {
      Session.WordDisplay(State())
    }
  }
}
