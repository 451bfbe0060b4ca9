/** The game session engine of one room, as pure transitions on a snapshot
    of the room's mutable fields. Every transition returns the new snapshot,
    the events it broadcasts, and whether it ran to completion or stopped at a
    JavaScript `TypeError` (reading a field of `undefined` or `null`). */
module Session {
  import opened Wrappers
  import opened Lexicon
  import opened Text
  import opened Sorting
  import opened Stats

  // ---------------------------------------------------------------------
  // Players, settings, configuration

  /** A participant of one room; `id` is the connection's id. */
  datatype Player = Player(id: string, name: string, score: int, isDrawing: bool, hasGuessed: bool)

  function PlayerScore(p: Player): int { p.score }

  /** The record every join path creates. */
  function NewPlayer(id: string, name: string): Player {
    Player(id, name, 0, false, false)
  }

  /** Room settings as a client sends them; `0` and `""` stand for an absent
      field (JavaScript's `||` replaces them by the default). */
  datatype Settings = Settings(maxPlayers: nat, rounds: nat, timePerRound: nat,
                               password: string, customWords: seq<string>)

  /** The empty settings object `{}` of a room made by quick join. */
  const NoSettings := Settings(0, 0, 0, "", [])

  /** JavaScript's `v || d` on a number. */
  function OrDefault(v: nat, d: nat): nat { if v == 0 then d else v }

  /** The fields of a room that never change after construction. A room
      password of `""` means none. */
  datatype RoomConfig = RoomConfig(id: string, difficulty: string, maxPlayers: nat,
                                   totalRounds: nat, maxTime: nat, password: string,
                                   customWords: seq<string>)

  ghost predicate ConfigOk(c: RoomConfig) {
    c.maxPlayers >= 1 && c.totalRounds >= 1 && c.maxTime >= 1
  }

  /** The room constructor's defaults: 8 players, 3 rounds, 80 seconds. */
  function ConfigOf(id: string, difficulty: string, s: Settings): (c: RoomConfig)
    ensures ConfigOk(c)
    ensures c.maxPlayers == (if s.maxPlayers == 0 then 8 else s.maxPlayers)
    ensures c.totalRounds == (if s.rounds == 0 then 3 else s.rounds)
    ensures c.maxTime == (if s.timePerRound == 0 then 80 else s.timePerRound)
  {
    RoomConfig(id, difficulty, OrDefault(s.maxPlayers, 8), OrDefault(s.rounds, 3),
               OrDefault(s.timePerRound, 80), s.password, s.customWords)
  }

  // ---------------------------------------------------------------------
  // Room state

  /** The mutable fields of a room. `timerActive` says whether the
      one-second round timer is running; `pendingStarts` and `pendingRounds`
      count the delayed `startGame` and `startNewRound` calls scheduled and
      not yet fired. */
  datatype RoomState = RoomState(
    players: seq<Player>,
    currentRound: nat,
    currentDrawer: nat,
    currentWord: Option<WordEntry>,
    wordChoices: seq<WordEntry>,
    gameStarted: bool,
    timerActive: bool,
    timeLeft: int,
    guessedPlayers: set<string>,
    pendingStarts: nat,
    pendingRounds: nat)

  /** A new room: its host alone, no game, the full time on the clock. */
  function InitialState(host: Player, c: RoomConfig): RoomState {
    RoomState([host], 0, 0, None, [], false, false, c.maxTime, {}, 0, 0)
  }

  /** The room invariant every operation keeps: the roster fits the room and
      the round counter never passes the number of rounds. */
  ghost predicate Fits(s: RoomState, c: RoomConfig) {
    |s.players| <= c.maxPlayers && s.currentRound <= c.totalRounds
  }

  /** The current drawer: `players[currentDrawer]`, `undefined` when the
      index is past the end of the roster. */
  function CurrentDrawer(s: RoomState): (r: Option<Player>)
    ensures r.Some? <==> s.currentDrawer < |s.players|
    ensures r.Some? ==> r.value == s.players[s.currentDrawer]
  {
    if s.currentDrawer < |s.players| then Some(s.players[s.currentDrawer]) else None
  }

  /** The masked current word, or `""` when there is none. */
  function WordDisplay(s: RoomState): string {
    match s.currentWord
    case None => ""
    case Some(w) => Mask(w.word)
  }

  // ---------------------------------------------------------------------
  // Broadcasts

  /** Who receives an event: everyone in a room, everyone in a room but one
      connection, or one connection. */
  datatype Target = ToRoom(room: string) | ToOthers(room: string, except: string) | ToSocket(socket: string)

  /** The summary of a room in the room list. */
  datatype RoomSummary = RoomSummary(id: string, players: nat, maxPlayers: nat, difficulty: string,
                                     hasPassword: bool, rounds: nat, timePerRound: nat)

  datatype Msg =
    | JoinedRoom(roomId: string, settings: Settings)
    | PlayerJoined(player: Player)
    | PlayerLeft(player: Player)
    | UpdatePlayers(players: seq<Player>)
    | PlaySound(cue: string)
    | GameStart(rounds: nat)
    | NewRound(round: nat, drawer: string)
    | ChooseWord(choices: seq<WordEntry>)
    | StartDrawing(wordDisplay: string, time: int, wordLength: nat)
    | Chat(from: Option<string>, text: string)
    | CorrectGuess(guesser: string, points: int)
    | Timer(time: int)
    | ShowHint(hint: string)
    | RoundEnd(word: string)
    | GameEnd(winner: Player, ranking: seq<Player>)
    | RoomsList(rooms: seq<RoomSummary>)
    | Leaderboard(entries: seq<Entry>)
    | Error(reason: string)

  datatype Event = Event(to: Target, msg: Msg)

  /** How a handler ended: normally, or by a `TypeError` that stops it where
      it stands (what it changed before stays changed). */
  datatype Status = Done | TypeError

  /** The result of a transition. */
  datatype Step = Step(state: RoomState, events: seq<Event>, status: Status)

  // ---------------------------------------------------------------------
  // Roster helpers

  /** The index of the first player with connection id `id`, if any. */
  function FindPlayer(ps: seq<Player>, id: string): (r: Option<nat>)
    ensures r.None? <==> forall i :: 0 <= i < |ps| ==> ps[i].id != id
    ensures r.Some? ==> r.value < |ps| && ps[r.value].id == id
    ensures r.Some? ==> forall i :: 0 <= i < r.value ==> ps[i].id != id
  {
    if ps == [] then None
    else if ps[0].id == id then Some(0)
    else match FindPlayer(ps[1..], id)
      case Some(i) => Some(i + 1)
      case None => None
  }

  /** The roster without the players whose id is `id`. */
  function WithoutId(ps: seq<Player>, id: string): (r: seq<Player>)
    ensures forall i :: 0 <= i < |r| ==> r[i].id != id
    ensures r == [] <==> forall i :: 0 <= i < |ps| ==> ps[i].id == id
  {
    if ps == [] then []
    else if ps[0].id == id then WithoutId(ps[1..], id)
    else [ps[0]] + WithoutId(ps[1..], id)
  }

  /** Removal drops exactly the players with that id: every other player
      keeps its number of occurrences. */
  lemma {:induction false} WithoutIdKeepsOthers(ps: seq<Player>, id: string, p: Player)
    requires p.id != id
    ensures multiset(WithoutId(ps, id))[p] == multiset(ps)[p]
  {
    if ps != [] {
      WithoutIdKeepsOthers(ps[1..], id, p);
      assert ps == [ps[0]] + ps[1..];
    }
  }

  lemma {:induction false} WithoutIdShorter(ps: seq<Player>, id: string)
    ensures |WithoutId(ps, id)| <= |ps|
  {
    if ps != [] {
      WithoutIdShorter(ps[1..], id);
    }
  }

  /** Removal keeps the order of the remaining players: it distributes over
      concatenation. */
  lemma {:induction false} WithoutIdAppend(a: seq<Player>, b: seq<Player>, id: string)
    ensures WithoutId(a + b, id) == WithoutId(a, id) + WithoutId(b, id)
  {
    if a == [] {
      assert a + b == b;
    } else {
      var ab := a + b;
      assert ab[0] == a[0] && ab[1..] == a[1..] + b;
      WithoutIdAppend(a[1..], b, id);
      var x, y := WithoutId(a[1..], id), WithoutId(b, id);
      if a[0].id != id {
        assert [a[0]] + (x + y) == ([a[0]] + x) + y;
      }
    }
  }

  /** Removing an id nobody has changes nothing. */
  lemma {:induction false} WithoutAbsentId(ps: seq<Player>, id: string)
    requires forall i :: 0 <= i < |ps| ==> ps[i].id != id
    ensures WithoutId(ps, id) == ps
  {
    if ps != [] {
      WithoutAbsentId(ps[1..], id);
    }
  }

  /** The same players, in the same order, with the same scores. */
  ghost predicate SameRoster(ps: seq<Player>, qs: seq<Player>) {
    |ps| == |qs|
    && forall i :: 0 <= i < |ps| ==>
         ps[i].id == qs[i].id && ps[i].name == qs[i].name && ps[i].score == qs[i].score
  }

  ghost predicate NoneGuessed(ps: seq<Player>) {
    forall i :: 0 <= i < |ps| ==> !ps[i].hasGuessed
  }

  /** `nextRound`'s flag reset: nobody has guessed. */
  function ClearGuessFlags(ps: seq<Player>): (r: seq<Player>)
    ensures |r| == |ps|
    ensures forall i :: 0 <= i < |ps| ==> r[i] == ps[i].(hasGuessed := false)
  {
    seq(|ps|, i requires 0 <= i < |ps| => ps[i].(hasGuessed := false))
  }

  /** `startNewRound`'s flag reset: nobody draws, nobody has guessed. */
  function ClearRoundFlags(ps: seq<Player>): (r: seq<Player>)
    ensures |r| == |ps|
    ensures forall i :: 0 <= i < |ps| ==> r[i] == ps[i].(isDrawing := false, hasGuessed := false)
    ensures SameRoster(r, ps) && NoneGuessed(r)
  {
    seq(|ps|, i requires 0 <= i < |ps| => ps[i].(isDrawing := false, hasGuessed := false))
  }

  /** The roster of a new round: flags cleared, then player `d` drawing. */
  function RoundRoster(ps: seq<Player>, d: nat): (r: seq<Player>)
    requires d < |ps|
    ensures SameRoster(r, ps) && NoneGuessed(r)
    ensures forall i :: 0 <= i < |ps| ==> (r[i].isDrawing <==> i == d)
  {
    var cleared := ClearRoundFlags(ps);
    cleared[d := cleared[d].(isDrawing := true)]
  }

  /** The index `reduce` settles on: a player with the highest score, the
      first such in roster order (a later player replaces the current best
      only with a strictly higher score). */
  function WinnerIndex(ps: seq<Player>): (k: nat)
    requires |ps| > 0
    ensures k < |ps|
    ensures forall j :: 0 <= j < |ps| ==> ps[j].score <= ps[k].score
    ensures forall j :: 0 <= j < k ==> ps[j].score < ps[k].score
  {
    if |ps| == 1 then 0
    else
      var k := WinnerIndex(ps[..|ps| - 1]);
      if ps[|ps| - 1].score > ps[k].score then |ps| - 1 else k
  }

  // ---------------------------------------------------------------------
  // Scoring

  /** The points of a correct guess, `floor(timeLeft / maxTime * 100)` in
      integer arithmetic. */
  function Points(timeLeft: int, maxTime: nat): (r: int)
    requires maxTime >= 1
    ensures 0 <= timeLeft <= maxTime ==> 0 <= r <= 100
    ensures timeLeft == maxTime ==> r == 100
  {
    DivBounds(100 * timeLeft, 100 * maxTime, maxTime);
    (100 * timeLeft) / maxTime
  }

  lemma DivBounds(a: int, b: int, m: nat)
    requires m >= 1 && b == 100 * m
    ensures b / m == 100
    ensures 0 <= a <= b ==> 0 <= a / m <= 100
  {
    DivModUnique(b, m, 100, 0);
    if 0 <= a <= b {
      DivMonotone(a, b, m);
    }
  }

  /** Integer division by a positive number never decreases. */
  lemma DivMonotone(a: int, b: int, m: nat)
    requires m >= 1 && a <= b
    ensures a / m <= b / m
  {
    if a / m > b / m {
      DivGap(a, b, m);
    }
  }

  lemma DivGap(a: int, b: int, m: nat)
    requires m >= 1 && a / m > b / m
    ensures a > b
  {
    var qa, qb := a / m, b / m;
    MulAtLeast(qa - qb, m);
    assert (qa - qb) * m == qa * m - qb * m;
  }

  lemma {:induction false} MulAtLeast(x: int, n: nat)
    requires x >= 1 && n >= 1
    ensures x * n >= n
    decreases x
  {
    if x > 1 {
      MulAtLeast(x - 1, n);
      assert x * n == (x - 1) * n + n;
    }
  }

  /** Division is determined by quotient and remainder. */
  lemma DivModUnique(a: int, n: nat, q: int, r: int)
    requires n >= 1 && 0 <= r < n && a == q * n + r
    ensures a / n == q && a % n == r
  {
    var q0, r0 := a / n, a % n;
    assert (q - q0) * n == q * n - q0 * n;
    if q > q0 {
      MulAtLeast(q - q0, n);
    } else if q < q0 {
      MulAtLeast(q0 - q, n);
    }
  }

  /** A later guess never scores more than an earlier one: points do not
      increase as the clock runs down. */
  lemma {:induction false} PointsMonotone(t1: int, t2: int, maxTime: nat)
    requires maxTime >= 1 && t1 <= t2
    ensures Points(t1, maxTime) <= Points(t2, maxTime)
  {
    DivMonotone(100 * t1, 100 * t2, maxTime);
  }

  // ---------------------------------------------------------------------
  // Turn advance

  /** `nextRound`: one more round, the next drawer in roster order, and no
      guesses yet. The second component says whether a round is left. */
  function NextRoundStep(s: RoomState, c: RoomConfig): (r: (RoomState, bool))
    requires |s.players| > 0
    ensures |r.0.players| == |s.players|
    ensures r.0.currentRound == s.currentRound + 1
    ensures r.1 <==> r.0.currentRound <= c.totalRounds
  {
    var t := s.(currentRound := s.currentRound + 1,
                currentDrawer := (s.currentDrawer + 1) % |s.players|,
                guessedPlayers := {},
                players := ClearGuessFlags(s.players));
    (t, t.currentRound <= c.totalRounds)
  }

  /** The turn advance moves the drawer to the next index modulo the roster
      size, so it is in range whatever it was before; it forgets all guesses
      and leaves ids, names, scores, drawing flags and every other field as
      they were. */
  lemma NextRoundSpec(s: RoomState, c: RoomConfig)
    requires |s.players| > 0
    ensures NextRoundStep(s, c).0.currentDrawer == (s.currentDrawer + 1) % |s.players| < |s.players|
    ensures var t := NextRoundStep(s, c).0;
      && t.guessedPlayers == {}
      && SameRoster(t.players, s.players) && NoneGuessed(t.players)
      && (forall i :: 0 <= i < |s.players| ==> t.players[i].isDrawing == s.players[i].isDrawing)
      && t.(currentRound := s.currentRound, currentDrawer := s.currentDrawer,
            guessedPlayers := s.guessedPlayers, players := s.players) == s
  {
  }

  /** `k` turn advances in a row. */
  function Advance(s: RoomState, c: RoomConfig, k: nat): (r: RoomState)
    requires |s.players| > 0
    ensures |r.players| == |s.players|
    ensures r.currentRound == s.currentRound + k
    decreases k
  {
    if k == 0 then s else Advance(NextRoundStep(s, c).0, c, k - 1)
  }

  /** From an in-range drawer, one advance moves to the next index, or back
      to 0 from the last one. */
  lemma NextDrawerInRange(s: RoomState, c: RoomConfig)
    requires s.currentDrawer < |s.players|
    ensures NextRoundStep(s, c).0.currentDrawer ==
              if s.currentDrawer + 1 < |s.players| then s.currentDrawer + 1 else 0
  {
    var n := |s.players|;
    NextRoundSpec(s, c);
    if s.currentDrawer + 1 < n {
      DivModUnique(s.currentDrawer + 1, n, 0, s.currentDrawer + 1);
    } else {
      DivModUnique(n, n, 1, 0);
    }
  }

  /** Advances compose. */
  lemma {:induction false} AdvanceAdd(s: RoomState, c: RoomConfig, a: nat, b: nat)
    requires |s.players| > 0
    ensures Advance(s, c, a + b) == Advance(Advance(s, c, a), c, b)
    decreases a
  {
    if a > 0 {
      AdvanceAdd(NextRoundStep(s, c).0, c, a - 1, b);
    }
  }

  /** Short of the end of the roster, `k` advances move the drawer `k`
      places on. */
  lemma {:induction false} AdvanceCounts(s: RoomState, c: RoomConfig, k: nat)
    requires s.currentDrawer + k < |s.players|
    ensures Advance(s, c, k).currentDrawer == s.currentDrawer + k
    decreases k
  {
    if k > 0 {
      NextDrawerInRange(s, c);
      AdvanceCounts(NextRoundStep(s, c).0, c, k - 1);
    }
  }

  /** With a fixed roster of N players, N turn advances bring the drawer back
      to where it started, having counted N more rounds. */
  lemma DrawerCycles(s: RoomState, c: RoomConfig)
    requires s.currentDrawer < |s.players|
    ensures Advance(s, c, |s.players|).currentDrawer == s.currentDrawer
    ensures Advance(s, c, |s.players|).currentRound == s.currentRound + |s.players|
  {
    var n, d := |s.players|, s.currentDrawer;
    var last := Advance(s, c, n - 1 - d);
    AdvanceCounts(s, c, n - 1 - d);
    assert last.currentDrawer == n - 1;
    var first := NextRoundStep(last, c).0;
    NextDrawerInRange(last, c);
    assert Advance(last, c, 1) == first;
    assert first.currentDrawer == 0;
    AdvanceCounts(first, c, d);
    AdvanceAdd(s, c, n - 1 - d, 1);
    AdvanceAdd(s, c, n - d, d);
  }

  // ---------------------------------------------------------------------
  // Game start and round setup

  /** Whether a fired `startGame` actually starts a game. */
  predicate StartsGame(s: RoomState) {
    !s.gameStarted && |s.players| >= 2
  }

  /** `startGame`, fired by one of the scheduled starts: a no-op when the game
      already runs or fewer than two players are left; otherwise round 1 with
      the first player drawing, and a round setup scheduled. */
  function StartGameStep(s: RoomState, c: RoomConfig): (r: Step)
    requires s.pendingStarts > 0
    ensures r.state.players == s.players
    ensures ConfigOk(c) && Fits(s, c) ==> Fits(r.state, c)
  {
    var s0 := s.(pendingStarts := s.pendingStarts - 1);
    if s0.gameStarted || |s0.players| < 2 then Step(s0, [], Done)
    else
      Step(s0.(gameStarted := true, currentRound := 1, currentDrawer := 0,
               pendingRounds := s0.pendingRounds + 1),
           [Event(ToRoom(c.id), GameStart(c.totalRounds)), Event(ToRoom(c.id), PlaySound("gamestart"))],
           Done)
  }

  /** A fired start is used up; it starts a game exactly when none runs and
      at least two players are present, and then it is round 1, the first
      player's turn, and a round setup is scheduled. The word, the choices
      and the clock of the previous round are carried over untouched. */
  lemma StartGameSpec(s: RoomState, c: RoomConfig)
    requires s.pendingStarts > 0
    ensures var r := StartGameStep(s, c);
      && r.status == Done
      && r.state.pendingStarts == s.pendingStarts - 1
      && (!StartsGame(s) ==> r.state == s.(pendingStarts := s.pendingStarts - 1) && r.events == [])
      && (StartsGame(s) ==>
            r.state == s.(pendingStarts := s.pendingStarts - 1, gameStarted := true, currentRound := 1,
                          currentDrawer := 0, pendingRounds := s.pendingRounds + 1)
            && r.events == [Event(ToRoom(c.id), GameStart(c.totalRounds)),
                            Event(ToRoom(c.id), PlaySound("gamestart"))])
  {
  }

  /** `startNewRound`, fired by one of the scheduled round setups, given the
      words `getRandomWords(3)` drew: clears the guesses and flags, makes the
      current drawer draw, offers it the words and resets the clock; stops at
      a `TypeError` when the drawer index is past the roster. */
  function StartNewRoundStep(s: RoomState, c: RoomConfig, choices: seq<WordEntry>): (r: Step)
    requires s.pendingRounds > 0
    ensures |r.state.players| == |s.players|
    ensures Fits(s, c) ==> Fits(r.state, c)
  {
    var s0 := s.(pendingRounds := s.pendingRounds - 1, guessedPlayers := {},
                 players := ClearRoundFlags(s.players));
    if s0.currentDrawer >= |s0.players| then Step(s0, [], TypeError)
    else
      var d := s0.currentDrawer;
      var roster := RoundRoster(s.players, d);
      var s1 := s0.(players := roster, wordChoices := choices, timeLeft := c.maxTime);
      Step(s1,
           [Event(ToRoom(c.id), NewRound(s.currentRound, roster[d].name)),
            Event(ToRoom(c.id), UpdatePlayers(roster)),
            Event(ToSocket(roster[d].id), ChooseWord(choices))],
           Done)
  }

  /** After a round setup no one has guessed and the guessed set is empty;
      when the drawer index is in range exactly that player draws, the clock
      is full and the drawn words go to the drawer alone; otherwise the setup
      throws. Ids, names and scores are untouched, and so are the word, the
      drawer index, the timer flag and the scheduled starts; a setup that
      completes first announces the round and the drawer's name. */
  lemma StartNewRoundSpec(s: RoomState, c: RoomConfig, choices: seq<WordEntry>)
    requires s.pendingRounds > 0
    ensures var r := StartNewRoundStep(s, c, choices);
      && r.state.pendingRounds == s.pendingRounds - 1
      && r.state.guessedPlayers == {}
      && SameRoster(r.state.players, s.players) && NoneGuessed(r.state.players)
      && (r.status == Done <==> s.currentDrawer < |s.players|)
      && (r.status == Done ==>
            (forall i :: 0 <= i < |s.players| ==> (r.state.players[i].isDrawing <==> i == s.currentDrawer))
            && r.state.timeLeft == c.maxTime && r.state.wordChoices == choices
            && |r.events| == 3
            && r.events[0] == Event(ToRoom(c.id), NewRound(s.currentRound, s.players[s.currentDrawer].name))
            && r.events[1] == Event(ToRoom(c.id), UpdatePlayers(r.state.players))
            && r.events[2] == Event(ToSocket(s.players[s.currentDrawer].id), ChooseWord(choices))
            && r.state == s.(pendingRounds := s.pendingRounds - 1, guessedPlayers := {},
                             players := r.state.players, wordChoices := choices, timeLeft := c.maxTime))
      && (r.status == TypeError ==>
            r.state == s.(pendingRounds := s.pendingRounds - 1, guessedPlayers := {},
                          players := r.state.players)
            && r.events == [])
      && r.state.currentRound == s.currentRound && r.state.gameStarted == s.gameStarted
      && r.state.currentWord == s.currentWord && r.state.currentDrawer == s.currentDrawer
      && r.state.timerActive == s.timerActive && r.state.pendingStarts == s.pendingStarts
  {
  }

  // ---------------------------------------------------------------------
  // Word choice

  /** The check `getCurrentDrawer().id === sender` that gates word choice
      and the drawing relays: `None` when it throws because the drawer index
      is past the roster. */
  function DrawerGate(s: RoomState, sender: string): (r: Option<bool>)
    ensures r.None? <==> CurrentDrawer(s).None?
    ensures r == Some(true) <==> CurrentDrawer(s).Some? && CurrentDrawer(s).value.id == sender
  {
    match CurrentDrawer(s)
    case None => None
    case Some(p) => Some(p.id == sender)
  }

  /** `wordChosen` once the room is found: ignored unless the sender is the
      current drawer; otherwise the chosen entry becomes the word (no entry
      for an index outside the choices, which then stops at a `TypeError`),
      the drawer is marked drawing and the round timer (re)starts. */
  function WordChosenStep(s: RoomState, c: RoomConfig, sender: string, index: int): (r: Step)
    ensures |r.state.players| == |s.players|
    ensures r.state.currentRound == s.currentRound
  {
    match DrawerGate(s, sender)
    case None => Step(s, [], TypeError)
    case Some(isDrawer) =>
      if !isDrawer then Step(s, [], Done)
      else
        var d := s.currentDrawer;
        var word := if 0 <= index < |s.wordChoices| then Some(s.wordChoices[index]) else None;
        var s1 := s.(currentWord := word, players := s.players[d := s.players[d].(isDrawing := true)]);
        if word.None? then Step(s1, [], TypeError)
        else
          Step(s1.(timerActive := true),
               [Event(ToRoom(c.id), StartDrawing(WordDisplay(s1), s1.timeLeft, |word.value.word|)),
                Event(ToRoom(c.id), UpdatePlayers(s1.players)),
                Event(ToRoom(c.id), PlaySound("start"))],
               Done)
  }

  /** Only the current drawer's choice has an effect; it throws when the
      drawer index is out of range or the index picks no offered word, and
      otherwise sets the word, marks the drawer and starts the timer,
      announcing the masked word and its length. The choices, the clock, the
      guesses and every other field are kept. */
  lemma WordChosenSpec(s: RoomState, c: RoomConfig, sender: string, index: int)
    ensures var r := WordChosenStep(s, c, sender, index);
      && (r.status == TypeError <==>
            DrawerGate(s, sender).None?
            || (DrawerGate(s, sender) == Some(true) && !(0 <= index < |s.wordChoices|)))
      && (DrawerGate(s, sender).None? ==> r == Step(s, [], TypeError))
      && (DrawerGate(s, sender) == Some(false) ==> r == Step(s, [], Done))
      && (DrawerGate(s, sender) == Some(true) ==>
            r.state.players == s.players[s.currentDrawer := s.players[s.currentDrawer].(isDrawing := true)]
            && r.state == s.(currentWord := r.state.currentWord, players := r.state.players,
                             timerActive := r.state.timerActive)
            && (0 <= index < |s.wordChoices| ==>
                  r.state.currentWord == Some(s.wordChoices[index]) && r.state.timerActive
                  && |r.events| == 3
                  && r.events[0].msg == StartDrawing(Mask(s.wordChoices[index].word), s.timeLeft,
                                                     |s.wordChoices[index].word|)
                  && r.events[1] == Event(ToRoom(c.id), UpdatePlayers(r.state.players))
                  && r.events[2] == Event(ToRoom(c.id), PlaySound("start")))
            && (!(0 <= index < |s.wordChoices|) ==>
                  r.state.currentWord.None? && r.state.timerActive == s.timerActive && r.events == []))
  {
  }

  // ---------------------------------------------------------------------
  // Round end and game end

  /** `endGame`: the winner is the first player with the top score; the
      roster is re-ordered by descending score; the room goes back to the
      lobby. */
  function EndGameStep(s: RoomState, c: RoomConfig): (r: Step)
    requires |s.players| > 0
    ensures |r.state.players| == |s.players|
    ensures r.state.currentRound == 0
  {
    var winner := s.players[WinnerIndex(s.players)];
    var ranking := SortDesc(s.players, PlayerScore);
    Step(s.(players := ranking, gameStarted := false, currentRound := 0),
         [Event(ToRoom(c.id), GameEnd(winner, ranking)), Event(ToRoom(c.id), PlaySound("win"))],
         Done)
  }

  /** The game end names as winner a player with the top score, the first
      such in roster order, and leaves the roster a permutation of itself
      sorted by non-increasing score, back in the lobby at round 0; nothing
      else about the room changes. */
  lemma EndGameSpec(s: RoomState, c: RoomConfig)
    requires |s.players| > 0
    ensures var r := EndGameStep(s, c);
      && r.status == Done
      && r.state == s.(players := r.state.players, gameStarted := false, currentRound := 0)
      && Descending(r.state.players, PlayerScore)
      && multiset(r.state.players) == multiset(s.players)
      && |r.events| == 2 && r.events[0].msg.GameEnd?
      && r.events[0].msg.ranking == r.state.players
      && (exists k :: 0 <= k < |s.players| && r.events[0].msg.winner == s.players[k]
            && (forall j :: 0 <= j < |s.players| ==> s.players[j].score <= s.players[k].score)
            && (forall j :: 0 <= j < k ==> s.players[j].score < s.players[k].score))
  {
    var k := WinnerIndex(s.players);
    assert EndGameStep(s, c).events[0].msg.winner == s.players[k];
  }

  /** `endRound`: stops the timer, takes the drawing flag off the drawer,
      reveals the word and advances the turn; then schedules the next round
      setup, or ends the game when no round is left. Stops at a `TypeError`
      when the drawer index is past the roster or there is no word. */
  function EndRoundStep(s: RoomState, c: RoomConfig): (r: Step)
    ensures |r.state.players| == |s.players|
    ensures ConfigOk(c) && Fits(s, c) ==> Fits(r.state, c)
  {
    var s1 := s.(timerActive := false);
    if s1.currentDrawer >= |s1.players| then Step(s1, [], TypeError)
    else
      var d := s1.currentDrawer;
      var s2 := s1.(players := s1.players[d := s1.players[d].(isDrawing := false)]);
      if s2.currentWord.None? then Step(s2, [], TypeError)
      else
        var ev := [Event(ToRoom(c.id), RoundEnd(s2.currentWord.value.word)),
                   Event(ToRoom(c.id), PlaySound("roundend"))];
        var (s3, more) := NextRoundStep(s2, c);
        if more then Step(s3.(pendingRounds := s3.pendingRounds + 1), ev, Done)
        else
          var g := EndGameStep(s3, c);
          Step(g.state, ev + g.events, g.status)
  }

  /** The roster a completed round end hands on: the drawer at `d` stops
      drawing and every guess mark is cleared; ids, names, scores and the
      other drawing flags stay as they were. */
  ghost function RoundEndRoster(ps: seq<Player>, d: nat): (r: seq<Player>)
    requires d < |ps|
    ensures SameRoster(r, ps) && NoneGuessed(r)
    ensures forall i :: 0 <= i < |ps| ==> r[i].isDrawing == (ps[i].isDrawing && i != d)
  {
    ClearGuessFlags(ps[d := ps[d].(isDrawing := false)])
  }

  /** What `endRound` leaves behind: it throws exactly when the drawer index
      is out of range or there is no word; otherwise the timer is off, the
      word was revealed, and either the next round is scheduled with the next
      drawer and the round-end roster, or the game is over with that roster
      ranked by score. */
  lemma EndRoundOutcome(s: RoomState, c: RoomConfig)
    requires ConfigOk(c) && Fits(s, c)
    ensures EndRoundStep(s, c).status == Done <==> s.currentDrawer < |s.players| && s.currentWord.Some?
    ensures !EndRoundStep(s, c).state.timerActive
    ensures EndRoundStep(s, c).status == Done ==>
      var t := EndRoundStep(s, c).state;
      && t.guessedPlayers == {} && NoneGuessed(t.players)
      && EndRoundStep(s, c).events[0].msg == RoundEnd(s.currentWord.value.word)
      && (if s.currentRound + 1 <= c.totalRounds
          then t.currentRound == s.currentRound + 1 && t.pendingRounds == s.pendingRounds + 1
               && t.currentDrawer == (s.currentDrawer + 1) % |s.players| && t.gameStarted == s.gameStarted
               && t.players == RoundEndRoster(s.players, s.currentDrawer)
          else !t.gameStarted && t.currentRound == 0 && Descending(t.players, PlayerScore)
               && multiset(t.players) == multiset(RoundEndRoster(s.players, s.currentDrawer)))
  {
    EndRoundStopsTimer(s, c);
    if s.currentDrawer < |s.players| && s.currentWord.Some? {
      if s.currentRound + 1 <= c.totalRounds {
        EndRoundNextTurn(s, c);
      } else {
        EndRoundGameOver(s, c);
      }
    }
  }

  /** A round end with rounds left reveals the word, hands the turn on with
      the round-end roster, and schedules the next round setup; nothing else
      changes. */
  lemma EndRoundNextTurn(s: RoomState, c: RoomConfig)
    requires s.currentDrawer < |s.players| && s.currentWord.Some?
    requires s.currentRound + 1 <= c.totalRounds
    ensures var r := EndRoundStep(s, c);
      && r.status == Done
      && r.events == [Event(ToRoom(c.id), RoundEnd(s.currentWord.value.word)),
                      Event(ToRoom(c.id), PlaySound("roundend"))]
      && r.state == s.(timerActive := false, currentRound := s.currentRound + 1,
                       currentDrawer := (s.currentDrawer + 1) % |s.players|, guessedPlayers := {},
                       pendingRounds := s.pendingRounds + 1,
                       players := RoundEndRoster(s.players, s.currentDrawer))
  {
    var d := s.currentDrawer;
    var s2 := s.(timerActive := false, players := s.players[d := s.players[d].(isDrawing := false)]);
    NextRoundSpec(s2, c);
  }

  /** A round end after the last round reveals the word and ends the game:
      the room is back in the lobby, and the ranking it announces and keeps
      is the round-end roster sorted by non-increasing score, headed by a
      top scorer. */
  lemma EndRoundGameOver(s: RoomState, c: RoomConfig)
    requires s.currentDrawer < |s.players| && s.currentWord.Some?
    requires s.currentRound + 1 > c.totalRounds
    ensures var r := EndRoundStep(s, c);
      && r.status == Done && |r.events| == 4
      && r.events[0].msg == RoundEnd(s.currentWord.value.word)
      && r.events[2].msg.GameEnd? && r.events[2].msg.ranking == r.state.players
      && r.state.guessedPlayers == {} && NoneGuessed(r.state.players)
      && multiset(r.state.players) == multiset(RoundEndRoster(s.players, s.currentDrawer))
      && Descending(r.state.players, PlayerScore)
  {
    var s3 := RoundEndState(s);
    EndRoundReachesEndGame(s, c);
    EndGameSpec(s3, c);
    var t := EndGameStep(s3, c).state;
    forall i | 0 <= i < |t.players| ensures !t.players[i].hasGuessed {
      assert t.players[i] in multiset(s3.players);
    }
  }

  /** Apart from the ranking, a round end after the last round leaves the
      room in the lobby at round 0 with the timer off and the guesses
      forgotten; the drawer index still moves on, and the word, the choices,
      the clock and the scheduled calls are kept. */
  lemma EndRoundGameOverFrame(s: RoomState, c: RoomConfig)
    requires s.currentDrawer < |s.players| && s.currentWord.Some?
    requires s.currentRound + 1 > c.totalRounds
    ensures var t := EndRoundStep(s, c).state;
      && !t.timerActive && !t.gameStarted && t.currentRound == 0
      && t.currentDrawer == (s.currentDrawer + 1) % |s.players| && t.guessedPlayers == {}
      && t.currentWord == s.currentWord && t.wordChoices == s.wordChoices && t.timeLeft == s.timeLeft
      && t.pendingStarts == s.pendingStarts && t.pendingRounds == s.pendingRounds
  {
    EndRoundReachesEndGame(s, c);
  }

  /** The room a completed round end hands to `nextRound`'s successor: timer
      off, round counted, next drawer, guesses forgotten. */
  ghost function RoundEndState(s: RoomState): (t: RoomState)
    requires s.currentDrawer < |s.players|
    ensures |t.players| == |s.players|
  {
    s.(timerActive := false, currentRound := s.currentRound + 1,
       currentDrawer := (s.currentDrawer + 1) % |s.players|, guessedPlayers := {},
       players := RoundEndRoster(s.players, s.currentDrawer))
  }

  /** After the last round, the round end reveals the word and then runs
      `endGame` on the round-end state. */
  lemma EndRoundReachesEndGame(s: RoomState, c: RoomConfig)
    requires s.currentDrawer < |s.players| && s.currentWord.Some?
    requires s.currentRound + 1 > c.totalRounds
    ensures var g := EndGameStep(RoundEndState(s), c);
      EndRoundStep(s, c) == Step(g.state, [Event(ToRoom(c.id), RoundEnd(s.currentWord.value.word)),
                                           Event(ToRoom(c.id), PlaySound("roundend"))] + g.events, Done)
  {
    var d := s.currentDrawer;
    var s2 := s.(timerActive := false, players := s.players[d := s.players[d].(isDrawing := false)]);
    assert NextRoundStep(s2, c).0 == RoundEndState(s);
  }


  // ---------------------------------------------------------------------
  // The round timer

  /** Whether the tick after this state shows the hint. */
  predicate HintDue(s: RoomState) {
    s.timeLeft - 1 == 60 || s.timeLeft - 1 == 30
  }

  /** One tick of the round timer: one second less, the new time broadcast,
      the hint shown at 60 and at 30 seconds left, and the round ended once
      the time is up. */
  function TickStep(s: RoomState, c: RoomConfig): (r: Step)
    ensures |r.state.players| == |s.players|
    ensures ConfigOk(c) && Fits(s, c) ==> Fits(r.state, c)
  {
    var t := s.timeLeft - 1;
    var s1 := s.(timeLeft := t);
    var ev1 := [Event(ToRoom(c.id), Timer(t))];
    if (t == 60 || t == 30) && s1.currentWord.None? then Step(s1, ev1, TypeError)
    else
      var ev2 := if t == 60 || t == 30 then ev1 + [Event(ToRoom(c.id), ShowHint(s1.currentWord.value.hint))] else ev1;
      if t <= 0 then
        var e := EndRoundStep(s1, c);
        Step(e.state, ev2 + e.events, e.status)
      else Step(s1, ev2, Done)
  }

  /** A tick always broadcasts the decremented time first; it shows the
      hint exactly when the new time is 60 or 30 (throwing there if there is
      no word); while time remains nothing else changes. */
  lemma TickSpec(s: RoomState, c: RoomConfig)
    ensures var r := TickStep(s, c);
      && |r.events| >= 1 && r.events[0] == Event(ToRoom(c.id), Timer(s.timeLeft - 1))
      && (HintDue(s) && s.currentWord.None? ==> r.status == TypeError)
      && (HintDue(s) && s.currentWord.Some? ==>
            |r.events| >= 2 && r.events[1] == Event(ToRoom(c.id), ShowHint(s.currentWord.value.hint)))
      && (s.timeLeft - 1 > 0 && !(HintDue(s) && s.currentWord.None?) ==>
            r.status == Done && r.state == s.(timeLeft := s.timeLeft - 1)
            && r.events[1..] == (if HintDue(s) then [Event(ToRoom(c.id), ShowHint(s.currentWord.value.hint))] else []))
  {
    if s.timeLeft - 1 <= 0 {
      TickTimeUp(s, c);
    }
  }

  /** Once the time is up the tick broadcasts it and ends the round, which
      stops the timer; no hint is due then. */
  lemma TickTimeUp(s: RoomState, c: RoomConfig)
    requires s.timeLeft - 1 <= 0
    ensures var e := EndRoundStep(s.(timeLeft := s.timeLeft - 1), c);
      && TickStep(s, c) == Step(e.state, [Event(ToRoom(c.id), Timer(s.timeLeft - 1))] + e.events, e.status)
      && !TickStep(s, c).state.timerActive
  {
    EndRoundStopsTimer(s.(timeLeft := s.timeLeft - 1), c);
  }

  /** A room everyone has left still has its timer and its scheduled round
      setups: once the time is up the tick throws in `endRound`, and a
      round setup throws on the missing drawer. */
  lemma EmptyRoomThrows(s: RoomState, c: RoomConfig, choices: seq<WordEntry>)
    requires s.players == []
    ensures s.timeLeft - 1 <= 0 ==> TickStep(s, c).status == TypeError
    ensures s.pendingRounds > 0 ==> StartNewRoundStep(s, c, choices).status == TypeError
  {
  }

  /** Whether or not it throws, `endRound` leaves the timer stopped. */
  lemma EndRoundStopsTimer(s: RoomState, c: RoomConfig)
    ensures !EndRoundStep(s, c).state.timerActive
  {
    if s.currentDrawer < |s.players| && s.currentWord.Some? {
      var d := s.currentDrawer;
      var s2 := s.(timerActive := false, players := s.players[d := s.players[d].(isDrawing := false)]);
      NextRoundSpec(s2, c);
    }
  }

  // ---------------------------------------------------------------------
  // Guesses

  /** Whether the player found for `sender` may have the guess evaluated:
      there is a word, the sender is in the roster, and it neither draws nor
      has already guessed correctly. */
  predicate MayGuess(s: RoomState, sender: string) {
    s.currentWord.Some? && FindPlayer(s.players, sender).Some?
    && !s.players[FindPlayer(s.players, sender).value].isDrawing
    && !s.players[FindPlayer(s.players, sender).value].hasGuessed
  }

  /** Whether the guess is scored. */
  predicate Scores(s: RoomState, sender: string, message: string) {
    MayGuess(s, sender) && Matches(message, s.currentWord.value.word)
  }

  /** The state right after a scored guess, before the round may end: the
      guesser is marked and credited, its id joins the guessed set. */
  function Scored(s: RoomState, c: RoomConfig, sender: string): (t: RoomState)
    requires ConfigOk(c)
    requires FindPlayer(s.players, sender).Some?
  {
    var i := FindPlayer(s.players, sender).value;
    var p := s.players[i];
    s.(players := s.players[i := p.(hasGuessed := true, score := p.score + Points(s.timeLeft, c.maxTime))],
       guessedPlayers := s.guessedPlayers + {sender})
  }

  /** Whether the scored guess was the last one the round waited for. */
  predicate EndsRound(s: RoomState, c: RoomConfig, sender: string)
    requires ConfigOk(c)
    requires FindPlayer(s.players, sender).Some?
  {
    var t := Scored(s, c, sender);
    |t.guessedPlayers| == |t.players| - 1
  }

  /** A guess in a room that was found. Unevaluated guesses and wrong ones
      are relayed as chat; a correct one credits the guesser and may end the
      round. The second component names who earned how many points, for the
      leaderboard. */
  function GuessStep(s: RoomState, c: RoomConfig, sender: string, senderName: Option<string>,
                     message: string): (r: (Step, Option<(string, int)>))
    requires ConfigOk(c)
    ensures |r.0 .state.players| == |s.players|
    ensures Fits(s, c) ==> Fits(r.0 .state, c)
  {
    if s.currentWord.None? then
      (Step(s, [Event(ToRoom(c.id), Chat(senderName, message))], Done), None)
    else match FindPlayer(s.players, sender)
      case None =>
        (Step(s, [Event(ToRoom(c.id), Chat(senderName, message))], Done), None)
      case Some(i) =>
        var p := s.players[i];
        if p.isDrawing || p.hasGuessed || !Matches(message, s.currentWord.value.word) then
          (Step(s, [Event(ToRoom(c.id), Chat(Some(p.name), message))], Done), None)
        else
          var points := Points(s.timeLeft, c.maxTime);
          var s1 := Scored(s, c, sender);
          var ev := [Event(ToRoom(c.id), CorrectGuess(p.name, points)),
                     Event(ToRoom(c.id), UpdatePlayers(s1.players)),
                     Event(ToRoom(c.id), PlaySound("correct"))];
          if |s1.guessedPlayers| == |s1.players| - 1 then
            var e := EndRoundStep(s1, c);
            (Step(e.state, ev + e.events, e.status), Some((p.name, points)))
          else (Step(s1, ev, Done), Some((p.name, points)))
  }

  /** A guess that does not score changes nothing, earns nothing, and is
      relayed as one chat line. */
  lemma GuessIgnored(s: RoomState, c: RoomConfig, sender: string, senderName: Option<string>, message: string)
    requires ConfigOk(c) && !Scores(s, sender, message)
    ensures var (r, award) := GuessStep(s, c, sender, senderName, message);
      && r.state == s && r.status == Done && award.None?
      && |r.events| == 1 && r.events[0].msg.Chat? && r.events[0].msg.text == message
  {
  }

  /** A scoring guess credits the guesser with the time-based points, which
      are also reported for the leaderboard, and ends the round exactly when
      all players but one have now guessed. */
  lemma GuessScored(s: RoomState, c: RoomConfig, sender: string, senderName: Option<string>, message: string)
    requires ConfigOk(c) && Scores(s, sender, message)
    ensures var (r, award) := GuessStep(s, c, sender, senderName, message);
      var p := s.players[FindPlayer(s.players, sender).value];
      && award == Some((p.name, Points(s.timeLeft, c.maxTime)))
      && r.events[0] == Event(ToRoom(c.id), CorrectGuess(p.name, Points(s.timeLeft, c.maxTime)))
      && (EndsRound(s, c, sender) ==> r.state == EndRoundStep(Scored(s, c, sender), c).state
                                      && r.status == EndRoundStep(Scored(s, c, sender), c).status)
      && (!EndsRound(s, c, sender) ==> r.state == Scored(s, c, sender) && r.status == Done)
  {
  }

  /** While the round goes on, a credited guesser cannot score again,
      whatever it sends: it is now marked as having guessed. */
  lemma NoSecondCredit(s: RoomState, c: RoomConfig, sender: string, senderName: Option<string>,
                       message: string, again: string)
    requires ConfigOk(c) && Scores(s, sender, message) && !EndsRound(s, c, sender)
    ensures var (r, _) := GuessStep(s, c, sender, senderName, message);
            !Scores(r.state, sender, again)
  {
    var t := Scored(s, c, sender);
    var i := FindPlayer(s.players, sender).value;
    assert FindPlayer(t.players, sender) == Some(i) by {
      assert forall j :: 0 <= j < |t.players| ==> t.players[j].id == s.players[j].id;
    }
  }

  /** A correct guess that ends the round does not stop its guesser from
      scoring again: the round end clears every guess mark but keeps the
      word, so the same guess is credited anew until another word is chosen,
      even once the game is over. Socket ids are taken to be distinct. */
  lemma GuessReplaysAfterRoundEnd(s: RoomState, c: RoomConfig, sender: string,
                                  senderName: Option<string>, message: string)
    requires ConfigOk(c) && Scores(s, sender, message) && EndsRound(s, c, sender)
    requires s.currentDrawer < |s.players|
    requires forall j, k :: 0 <= j < k < |s.players| ==> s.players[j].id != s.players[k].id
    ensures var (r, _) := GuessStep(s, c, sender, senderName, message);
            r.status == Done && Scores(r.state, sender, message)
  {
    var i := FindPlayer(s.players, sender).value;
    var t := Scored(s, c, sender);
    GuessScored(s, c, sender, senderName, message);
    assert forall j :: 0 <= j < |t.players| ==> t.players[j].id == s.players[j].id;
    RoundEndClearsMarks(t, c, i);
  }

  /** The round end keeps the word and leaves a player whose id is unique
      neither drawing (if it was not) nor marked as having guessed. */
  lemma RoundEndClearsMarks(t: RoomState, c: RoomConfig, i: nat)
    requires ConfigOk(c) && t.currentDrawer < |t.players| && t.currentWord.Some?
    requires i < |t.players| && !t.players[i].isDrawing
    requires forall j :: 0 <= j < |t.players| && t.players[j].id == t.players[i].id ==> j == i
    ensures var e := EndRoundStep(t, c);
      && e.status == Done && e.state.currentWord == t.currentWord
      && FindPlayer(e.state.players, t.players[i].id).Some?
      && var k := FindPlayer(e.state.players, t.players[i].id).value;
         !e.state.players[k].isDrawing && !e.state.players[k].hasGuessed
  {
    var id := t.players[i].id;
    var d := t.currentDrawer;
    var s2 := t.(timerActive := false, players := t.players[d := t.players[d].(isDrawing := false)]);
    var u := NextRoundStep(s2, c).0;
    NextRoundSpec(s2, c);
    assert u.players[i].id == id && !u.players[i].isDrawing && !u.players[i].hasGuessed;
    assert forall j :: 0 <= j < |u.players| ==> u.players[j].id == t.players[j].id;
    if u.currentRound > c.totalRounds {
      RankingKeepsClean(u, c, i);
    }
  }

  /** Ranking the roster at the game end keeps a player whose id is unique
      as it was. */
  lemma RankingKeepsClean(u: RoomState, c: RoomConfig, i: nat)
    requires i < |u.players| && !u.players[i].isDrawing && !u.players[i].hasGuessed
    requires forall j :: 0 <= j < |u.players| && u.players[j].id == u.players[i].id ==> j == i
    ensures var w := EndGameStep(u, c).state;
      && FindPlayer(w.players, u.players[i].id).Some?
      && var k := FindPlayer(w.players, u.players[i].id).value;
         !w.players[k].isDrawing && !w.players[k].hasGuessed
  {
    EndGameSpec(u, c);
    var w := EndGameStep(u, c).state;
    assert u.players[i] in multiset(w.players);
    forall p | p in w.players && p.id == u.players[i].id
      ensures p == u.players[i]
    {
      assert p in multiset(u.players);
    }
  }

  // ---------------------------------------------------------------------
  // Leaving

  /** A connection leaving a room that was found: the players with its id
      are announced and dropped, and a room that still has players gets the
      new roster. The check for a departing drawer comes after the removal;
      it can only fail, on a drawer index the shorter roster no longer
      reaches. */
  function LeaveStep(s: RoomState, c: RoomConfig, id: string): (r: Step)
    ensures |r.state.players| <= |s.players|
    ensures Fits(s, c) ==> Fits(r.state, c)
  {
    WithoutIdShorter(s.players, id);
    var left := WithoutId(s.players, id);
    var gone := match FindPlayer(s.players, id)
                case Some(i) => [Event(ToRoom(c.id), PlayerLeft(s.players[i]))]
                case None => [];
    if left == [] then Step(s.(players := left), gone, Done)
    else
      var ev := gone + [Event(ToRoom(c.id), UpdatePlayers(left))];
      if s.gameStarted && s.currentDrawer >= |left| then Step(s.(players := left), ev, TypeError)
      else Step(s.(players := left), ev, Done)
  }

  /** Leaving drops exactly the players with the id and keeps every other
      player; the room empties exactly when nobody else was in it, and the
      handler fails exactly when a started game's drawer index falls off
      the remaining roster. */
  lemma LeaveSpec(s: RoomState, c: RoomConfig, id: string)
    ensures var r := LeaveStep(s, c, id);
      && (forall i :: 0 <= i < |r.state.players| ==> r.state.players[i].id != id)
      && (forall p: Player :: p.id != id ==> multiset(r.state.players)[p] == multiset(s.players)[p])
      && (r.state.players == [] <==> forall i :: 0 <= i < |s.players| ==> s.players[i].id == id)
      && (r.status == TypeError <==>
            r.state.players != [] && s.gameStarted && s.currentDrawer >= |r.state.players|)
  {
    forall p: Player | p.id != id
      ensures multiset(WithoutId(s.players, id))[p] == multiset(s.players)[p]
    {
      WithoutIdKeepsOthers(s.players, id, p);
    }
  }

  /** A connection with no player in the room changes nothing but rebroadcasts
      the roster. */
  lemma LeaveAbsent(s: RoomState, c: RoomConfig, id: string)
    requires forall i :: 0 <= i < |s.players| ==> s.players[i].id != id
    requires s.players != []
    ensures var r := LeaveStep(s, c, id);
      r.state == s && r.events == [Event(ToRoom(c.id), UpdatePlayers(s.players))]
  {
    WithoutAbsentId(s.players, id);
  }

  /** When the drawer of a running round leaves a room that keeps players,
      the round is not ended: the timer keeps running, the drawer index and
      the word stay, and no round-end message is sent. */
  lemma DrawerLeaving(s: RoomState, c: RoomConfig, id: string)
    requires s.gameStarted && s.timerActive
    requires s.currentDrawer < |s.players| && s.players[s.currentDrawer].id == id
    requires exists i :: 0 <= i < |s.players| && s.players[i].id != id
    ensures var r := LeaveStep(s, c, id);
      && r.state.players != [] && r.state.timerActive && r.state.gameStarted
      && r.state.currentDrawer == s.currentDrawer && r.state.currentWord == s.currentWord
      && forall e :: e in r.events ==> !e.msg.RoundEnd?
  {
  }

  // ---------------------------------------------------------------------
  // What a departure leaves behind

  /** A departed guesser still counts: A draws, B has guessed, and B
      leaves. When C then guesses the word, both remaining non-drawers have
      guessed, but the guessed set {B, C} has two ids against a roster of
      two, so the round does not end and the timer keeps running. */
  lemma DepartedGuesserBlocksEarlyEnd(c: RoomConfig, w: WordEntry)
    requires ConfigOk(c) && Unpadded(w.word)
    ensures var a, b, d := Player("a", "A", 0, true, false), Player("b", "B", 100, false, true),
                           Player("c", "C", 0, false, false);
      var s := RoomState([a, b, d], 1, 0, Some(w), [w], true, true, 50, {"b"}, 0, 0);
      var t := LeaveStep(s, c, "b");
      var g := GuessStep(t.state, c, "c", Some("C"), w.word).0;
      && t.status == Done && t.state.players == [a, d]
      && g.status == Done && g.state.timerActive
      && g.state.players == [a, d.(hasGuessed := true, score := Points(50, c.maxTime))]
      && g.state.guessedPlayers == {"b", "c"}
  {
    var a, b, d := Player("a", "A", 0, true, false), Player("b", "B", 100, false, true),
                   Player("c", "C", 0, false, false);
    assert [b, d][1..] == [d] && [a, b, d][1..] == [b, d];
    assert WithoutId([d], "b") == [d];
    assert WithoutId([b, d], "b") == [d];
    assert WithoutId([a, b, d], "b") == [a, d];
    assert FindPlayer([a, d], "c") == Some(1);
    MatchesOwnWord(w.word);
    var t := LeaveStep(RoomState([a, b, d], 1, 0, Some(w), [w], true, true, 50, {"b"}, 0, 0), c, "b").state;
    var s1 := Scored(t, c, "c");
    assert s1.guessedPlayers == {"b", "c"} && |s1.players| == 2;
    assert |s1.guessedPlayers| == 2 by { assert "b" != "c"; }
  }

  /** A departure before the drawer shifts the turn: B draws at index 1 of
      [A, B, C] and A leaves, so index 1 now names C. C is not marked as
      drawing and may score the word, and C's word choice passes the
      drawer check and marks C as drawing beside B. */
  lemma ShiftedDrawerTwoDrawing(c: RoomConfig, w: WordEntry)
    requires ConfigOk(c) && Unpadded(w.word)
    ensures var a, b, d := Player("a", "A", 0, false, false), Player("b", "B", 0, true, false),
                           Player("c", "C", 0, false, false);
      var s := RoomState([a, b, d], 1, 1, Some(w), [w], true, true, 50, {}, 0, 0);
      var t := LeaveStep(s, c, "a");
      var k := WordChosenStep(t.state, c, "c", 0);
      && t.status == Done && t.state.players == [b, d] && t.state.currentDrawer == 1
      && Scores(t.state, "c", w.word)
      && k.status == Done && k.state.players[0].isDrawing && k.state.players[1].isDrawing
  {
    var a, b, d := Player("a", "A", 0, false, false), Player("b", "B", 0, true, false),
                   Player("c", "C", 0, false, false);
    assert [b, d][1..] == [d] && [a, b, d][1..] == [b, d];
    assert WithoutId([d], "a") == [d];
    assert WithoutId([b, d], "a") == [b, d];
    assert WithoutId([a, b, d], "a") == [b, d];
    assert FindPlayer([b, d], "c") == Some(1);
    MatchesOwnWord(w.word);
  }
}
