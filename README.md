# Islamic Skribbl game session engine in Dafny

This project models the server side of Islamic Skribbl, a multiplayer
draw-and-guess game: the `server.js` room engine with its socket
plumbing stripped off. The parts are as follows.

- **Word lists.** The three built-in word tiers, plus a room's custom
  words, form the pool that `getRandomWords` samples three choices from
  (`lexicon.dfy`).
- **Text functions.** The guess check lower-cases the guess, trims it and
  compares it with the lower-cased word. `getWordDisplay` masks the word
  (`text.dfy`).
- **Global statistics.** The game counter, the set of player names ever
  seen, and the leaderboard that `updateLeaderboard` keeps sorted by score
  (`stats.dfy`, on the insertion sort in `sorting.dfy`).
- **Room snapshot.** A value model of one room (`session.dfy`): the
  roster, the round and drawer counters, the word, the timer and the
  pending delayed calls. It has one transition function per engine step
  (`startGame`, `startNewRound`, a timer tick, `endRound`, `endGame`, a
  word choice, a guess, a departure). Each function returns the new room,
  the broadcasts in order, and whether the step finished or stopped at a
  JavaScript `TypeError`. The lemmas beside them state what each step does.
- **`Room` class.** The room as a class whose fields its methods update in
  place (`room.dfy`). Each engine method is proved to leave the room in
  the state its transition function computes and to return that
  function's broadcasts.
- **`Server` class.** The registry of rooms, a map plus its insertion
  order, together with the statistics and an outbox of every broadcast
  (`server.dfy`). The intent handlers are `createRoom`, `joinRoom`,
  `quickJoin`, `getRooms`, `getLeaderboard`, `wordChosen`, `guess` and
  `disconnect`. Three methods stand for the delayed calls and the
  one-second timer that the environment fires. Every method keeps the
  registry invariant:
  - the order lists each key once;
  - every room is stored under its own id;
  - every registered room is valid and has at least one player.

A `TypeError` that the JavaScript would throw is modelled as a status. The
handler stops there, and whatever it had changed stays changed. This
happens when the drawer index is past the roster or the room has no word.
Delayed calls are counters of pending calls, and the round timer is a
flag. Randomness enters as parameters: a shuffle of the word pool, and a
new room id.

### Behaviour kept as the code has it

Where the documented behaviour of the server and its code differ, the
model follows the code.

- A guess in a room without a word is relayed as chat. It is not dropped.
- A player leaving does not bring the drawer index back into range. The
  index stays as it was until the next turn advance.
- A player leaving also stays in the set of guessers. The round ends early
  only when that set holds one id fewer than the roster. So once a guesser
  has left, the round runs to time up even after every remaining
  non-drawer has guessed (`Session.DepartedGuesserBlocksEarlyEnd`). The
  invariant that the set never exceeds the roster less one therefore does
  not hold in the code.
- A player leaving from before the drawer shifts the turn. The unchanged
  index then names the next player, who is not marked as drawing. That
  player may score the word, and their word choice passes the drawer
  check, after which two players are marked as drawing
  (`Session.ShiftedDrawerTwoDrawing`). At most one drawer is therefore not
  an invariant of the code either.
- The check for a departing drawer runs after the player has been removed.
  It therefore never ends the round (`Session.DrawerLeaving`). It can only
  throw, when the drawer index now lies past the end of the roster.
- The word and the word choices are never cleared. `wordChosen` does not
  check the index, so an index out of range leaves the room without a
  word, and the handler then throws.
- Ending a round clears every guess mark but keeps the word. A player can
  therefore score the same word again after the round, or the game, has
  ended (`Session.GuessReplaysAfterRoundEnd`).
- Points can be negative once the time left has fallen below zero. The
  drawer of the next turn can pick a word from the old choices during the
  pause between rounds, which starts the timer at 0 seconds.
- `endGame` sorts the roster in place, which changes the turn order of the
  next game.
- A room that everyone leaves is deleted, but its round timer and its
  scheduled round setups still fire on it. At time up `endRound` throws
  on the missing drawer, and so does a round setup that fires during the
  pause between rounds (`Session.EmptyRoomThrows`). The code has no
  handler for these exceptions, so the Node.js process exits.

## Model

| member | source | states |
|---|---|---|
| Lexicon.TierWords | server.js:11-88 | each tier holds at least 20 entries tagged with its own difficulty; any other difficulty falls back to the medium list |
| Lexicon.Pool | server.js:133-145 | the pool is the custom words, in order, each with hint "Custom word" and difficulty "custom", followed by the room's tier |
| Lexicon.Sample | server.js:147-148 | the choices have length min(count, pool size) and are drawn from the pool without exceeding any entry's multiplicity |
| Lexicon.WholePoolOffered | server.js:132-149 | when count covers the pool, the choices are exactly the pool's entries |
| Lexicon.EntryOffered | server.js:132-149 | when count covers the pool, every pool entry is offered |
| Lexicon.CustomWordOffered | server.js:132-149 | when count covers the pool, every custom word is among the choices |
| Lexicon.FullChoice | server.js:132-149 | up to 20 choices can always be filled, for every room |
| Lexicon.ThreeChoices | server.js:486 | the three choices a round setup asks for, from a pool of at least three, are the first three entries of the shuffle, each from the pool |
| Lexicon.PoolOrigin | server.js:133-145 | every pool entry is a built-in word of the room's tier or one of its custom words |
| Text.Lower | server.js:402-403 | lower-casing keeps the length |
| Text.LowerSpec | server.js:402-403 | lower-casing maps character by character |
| Text.LowerIdempotent | server.js:402-403 | lower-casing twice is lower-casing once |
| Text.TrimStartSpec | server.js:402 | trimming the start cuts exactly the leading white space |
| Text.TrimEndSpec | server.js:402 | trimming the end cuts exactly the trailing white space |
| Text.Trim | server.js:402 | the trimmed guess is a slice of it with only white space cut on either side, and it neither starts nor ends with white space |
| Text.TrimCharacterised | server.js:402 | the trim is the only slice with these two properties, so they define it |
| Text.TrimKeeps | server.js:402 | a string without white space at its ends is its own trim |
| Text.Matches | server.js:402-405 | only a word that, lower-cased, neither starts nor ends with white space and is no longer than the guess can match |
| Text.MatchesSpec | server.js:402-405 | a guess matches exactly when the lower-cased word occurs in the lower-cased guess with only white space around it and is itself unpadded |
| Text.MatchesIgnoresCase | server.js:402-405 | the guess check does not depend on the guess's letter case |
| Text.MatchesOwnWord | server.js:402-405 | every word without white space at its ends is matched by itself |
| Text.UnguessableWord | server.js:402-405 | a word with white space at an end can never be guessed |
| Text.MaskRevealsOnlyEnds | server.js:163-170 | every character shown is `_`, a space, or the word's first or last letter |
| Text.Mask | server.js:163-170 | the mask is the tokens of the characters, in order, joined by single spaces |
| Text.Tokens | server.js:165-169 | one token per character, in order: a space becomes two spaces, otherwise the first and last characters are shown and any other becomes `_` |
| Text.MaskInnerSpace | server.js:163-170 | a space inside a word shows as four spaces between the masks of the characters before and after it |
| Text.JoinAppend | server.js:169 | joining two non-empty runs puts exactly one space between their joins |
| Text.MaskTwoWords | server.js:163-170 | "ab cd" masks to "a _    _ d" |
| Text.MaskWithoutSpaces | server.js:163-170 | for a word without spaces, the mask alternates the shown tokens with single spaces and has length 2n-1 |
| Text.MaskEnds | server.js:163-170 | the mask of a non-empty word starts with its first letter and ends with its last |
| Text.MaskExample | server.js:163-170 | "Mercy" masks to "M _ _ _ y" |
| Rooms.Room.WordDisplay | server.js:163-170 | the empty string without a word, otherwise the word's mask |
| Sorting.SortDesc | server.js:544 | the result is sorted by non-increasing key and is a permutation of the input |
| Sorting.HeadIsMax | server.js:544 | the first element after sorting carries the largest key |
| Stats.FindByName | server.js:553 | the first entry with the name, or none exactly when no entry has it |
| Stats.Record | server.js:553-563 | an existing name keeps the length; a new name appends one entry after the old ones |
| Stats.RecordMultiset | server.js:553-563 | the entry for the name is replaced by its credited version, or a new one is added; nothing else changes |
| Stats.Updated | server.js:552-566 | the new board is the recorded board sorted by descending score, holding exactly its entries |
| Stats.UpdateSpec | server.js:552-566 | after an update the board is sorted by score, grows by one exactly for a new name, holds the credited entry, and every other entry keeps its multiplicity |
| Stats.GlobalStats.constructor | server.js:91-95 | zero games, no players, an empty board |
| Stats.GlobalStats.UpdateLeaderboard | server.js:552-566 | the board becomes the sorted credited board and stays sorted |
| Stats.GlobalStats.TopTen | server.js:325 | the first min(10, n) entries, none scoring below an entry left out |
| Session.ConfigOf | server.js:97-116 | a missing max-players, rounds or time setting defaults to 8, 3 and 80 |
| Session.CurrentDrawer | server.js:159-161 | a drawer exists exactly when the drawer index is within the roster, and it is the player at that index |
| Session.FindPlayer | server.js:393 | the first player with the id, or none exactly when nobody has it |
| Session.WithoutId | server.js:127-130 | no remaining player has the id; the roster empties exactly when every player had it |
| Session.WithoutIdKeepsOthers | server.js:127-130 | every player with another id keeps its multiplicity |
| Session.WithoutIdAppend | server.js:127-130 | removal distributes over concatenation, so the order of the others is kept |
| Session.WithoutAbsentId | server.js:127-130 | removing an id nobody has changes nothing |
| Session.ClearGuessFlags | server.js:155 | every player's guess mark is cleared and nothing else about it changes |
| Session.ClearRoundFlags | server.js:479-482 | every player's drawing and guess marks are cleared; ids, names and scores are kept |
| Session.RoundRoster | server.js:478-485 | exactly the drawer is drawing, nobody has guessed, ids, names and scores are kept |
| Session.WinnerIndex | server.js:536-538 | the first player whose score is not exceeded by any other |
| Session.Points | server.js:409 | points lie in [0, 100] when 0 <= timeLeft <= maxTime, and are 100 at full time |
| Session.PointsMonotone | server.js:409 | less time left never earns more points |
| Session.NextRoundStep | server.js:151-157 | the round grows by exactly one and the result says whether it is still within the total |
| Session.NextRoundSpec | server.js:151-157 | the drawer becomes (old + 1) mod roster size, which is in range; guesses are forgotten; ids, names, scores, drawing marks and all other fields are kept |
| Session.NextDrawerInRange | server.js:153 | from an in-range drawer the turn moves to the next index, wrapping to 0 |
| Session.AdvanceAdd | server.js:151-157 | a + b turn advances are a advances followed by b |
| Session.AdvanceCounts | server.js:151-157 | k advances that do not wrap add k to the drawer index |
| Session.DrawerCycles | server.js:151-157 | with a fixed roster of n players, n advances bring the drawer back and add n rounds |
| Session.StartGameStep | server.js:461-475 | the roster is untouched and the room stays valid |
| Session.StartGameSpec | server.js:461-475 | the scheduled call is consumed; a started game or a roster under two players changes nothing else; otherwise the game starts at round 1 with drawer 0, announces itself and schedules the round setup |
| Session.StartNewRoundStep | server.js:477-497 | the roster keeps its size and the room stays valid |
| Session.StartNewRoundSpec | server.js:477-497 | guesses are cleared; only the drawer is drawing; time is reset to maxTime; the round and the drawer's name are announced, then the roster, and the choices go to the drawer alone; throws exactly when the drawer index is out of range, with no broadcast; the word, the drawer index, the timer flag, the scheduled starts and every other field are kept |
| Session.DrawerGate | server.js:330 | unknown drawer, sender is the drawer, or someone else |
| Session.WordChosenStep | server.js:328-347 | the roster size and round are kept |
| Session.WordChosenSpec | server.js:328-347 | a sender who is not the drawer changes nothing; the drawer's choice is stored, marks the drawer and starts the timer with the masked word, the roster and the start sound; an unknown drawer or an index out of range throws, the latter leaving the room without a word; the choices, the clock, the guesses and every other field are kept |
| Session.EndGameStep | server.js:535-550 | the roster keeps its size and the round goes back to 0 |
| Session.EndGameSpec | server.js:535-550 | the winner is the first top scorer; the roster becomes a permutation of itself sorted by score; the game is over at round 0; every other field is kept |
| Session.EndRoundStep | server.js:516-533 | the roster keeps its size and the room stays valid |
| Session.EndRoundOutcome | server.js:516-533 | throws exactly when the drawer index is out of range or there is no word; otherwise the word is revealed, and either the next turn is scheduled with the round-end roster, or the game ends ranked on a permutation of that roster; the timer is always stopped |
| Session.EndRoundNextTurn | server.js:516-529 | with rounds left: the word and the round-end sound are broadcast, the timer stops, the round grows by one, the turn passes to the next index modulo the roster size, guesses are forgotten, the roster becomes the round-end roster, the next setup is scheduled, and nothing else changes |
| Session.RoundEndRoster | server.js:516-533 | the drawer stops drawing and every guess mark is cleared; ids, names, scores and the other drawing marks are kept |
| Session.EndRoundGameOver | server.js:516-533 | after the last round, the word and the sound are broadcast, then the game end ranks a permutation of the round-end roster by descending score; no guess mark remains |
| Session.EndRoundGameOverFrame | server.js:516-533 | after the last round the room is back in the lobby at round 0 with the timer off, guesses forgotten and the drawer index moved on; word, choices, clock and scheduled calls are kept |
| Session.EndRoundReachesEndGame | server.js:525-532 | after the last round the step is the round-end broadcasts followed by the game end applied to the room as the turn advance left it |
| Session.EmptyRoomThrows | server.js:477-523 | in a room everyone has left, the tick at time up and a scheduled round setup both throw |
| Session.EndRoundStopsTimer | server.js:517-520 | the round end always stops the timer |
| Session.TickStep | server.js:502-513 | the roster keeps its size and the room stays valid |
| Session.TickSpec | server.js:502-513 | the decremented time is broadcast first; the hint is shown exactly at 60 and 30 seconds, and throws there without a word; with time left nothing else changes |
| Session.TickTimeUp | server.js:503-512 | once time is up the tick broadcasts the time, ends the round with its broadcasts and status, and the timer is stopped |
| Session.GuessStep | server.js:383-431 | the roster keeps its size and the room stays valid |
| Session.GuessIgnored | server.js:385-430 | a guess that does not score changes nothing, earns nothing, and is relayed as one chat line |
| Session.GuessScored | server.js:405-424 | a scoring guess earns the time-based points for the guesser and the leaderboard, and ends the round exactly when all players but one have guessed |
| Session.NoSecondCredit | server.js:394-424 | while the round goes on, a credited guesser cannot score again |
| Session.GuessReplaysAfterRoundEnd | server.js:383-431 | a correct guess that ends the round leaves its guesser able to score the same guess again |
| Session.RoundEndClearsMarks | server.js:516-533 | the round end keeps the word and leaves a non-drawing player with a unique id unmarked |
| Session.RankingKeepsClean | server.js:535-550 | ranking the roster keeps an unmarked player with a unique id unmarked |
| Session.LeaveStep | server.js:433-458 | the roster never grows and the room stays valid |
| Session.LeaveSpec | server.js:442-456 | exactly the players with the id leave and the others keep their multiplicity; the room empties exactly when nobody else was in it; throws exactly when a started game's drawer index is past the new roster |
| Session.LeaveAbsent | server.js:442-452 | a connection without a player in the room changes nothing but rebroadcasts the roster |
| Session.DepartedGuesserBlocksEarlyEnd | server.js:405-424 | after a guesser leaves, the correct guess of the last remaining non-drawer leaves the round running with the timer on, since the guessed set still counts the departed id |
| Session.ShiftedDrawerTwoDrawing | server.js:328-347 | after a player before the drawer leaves, the player now at the drawer index may score the word, and their word choice marks a second drawer |
| Session.DrawerLeaving | server.js:447-456 | a drawer leaving a running round leaves the timer, the word and the drawer index as they were, and sends no round end |
| Rooms.Room.constructor | server.js:97-116 | the host is the only player, the settings take their defaults, and the room is valid |
| Rooms.Room.AddPlayer | server.js:118-125 | appends and counts the name exactly when the room is not full, and says whether it did |
| Rooms.Room.RemovePlayer | server.js:127-130 | the roster loses exactly the players with the id; the result says whether it is now empty, which is when everyone had that id |
| Rooms.Room.RandomWords | server.js:132-149 | min(count, pool size) choices drawn from the pool |
| Rooms.Room.NextRound | server.js:151-157 | the room and the result are those of the turn advance |
| Rooms.Room.ClearGuesses | server.js:155 | the loop clears exactly every guess mark |
| Rooms.Room.ResetFlags | server.js:479-482 | the loop clears exactly every drawing and guess mark |
| Rooms.Room.StartGame | server.js:461-475 | the room and the broadcasts are those of the start step, and one game is counted when a game starts |
| Rooms.Room.StartNewRound | server.js:477-497 | the room, broadcasts and status are those of the round setup on the sampled choices |
| Rooms.Room.Tick | server.js:502-513 | the room, broadcasts and status are those of the tick |
| Rooms.Room.EndRound | server.js:516-533 | the room, broadcasts and status are those of the round end |
| Rooms.Room.EndGame | server.js:535-550 | the room and broadcasts are those of the game end |
| Rooms.Room.SelectWord | server.js:329-346 | the room, broadcasts and status are those of the word choice |
| Rooms.Room.Guess | server.js:385-431 | the room, broadcasts and status are those of the guess step, and the leaderboard is updated exactly for a scoring guess |
| Rooms.Room.Leave | server.js:442-456 | the room, broadcasts and status are those of the departure |
| Rooms.Room.CurrentDrawer | server.js:159-161 | the player at the drawer index, when there is one |
| GameServer.CreateSettings | server.js:187-193 | every missing number takes its default; given values, the password and the custom words are kept |
| GameServer.JoinRefusal | server.js:217-226 | no refusal exactly when the password is unset or matched and the room is not full |
| GameServer.Joinable | server.js:257 | quick join accepts exactly the listed rooms without a password |
| GameServer.Listed | server.js:311 | a listed room's summary always shows a free seat |
| GameServer.WithPlayer | server.js:228-251 | the player goes to the end of the roster, a start is scheduled exactly when the room then holds two or more players and no game, and nothing else changes |
| GameServer.Server.constructor | server.js:90-95 | an empty registry, empty statistics, no broadcasts |
| GameServer.Server.Put | server.js:196 | the key maps to the room; a new key goes to the end of the order, an existing one keeps its place |
| GameServer.Server.Delete | server.js:449-450 | the key leaves the map; the order loses exactly that key and the other keys keep their relative order |
| GameServer.Server.Open | server.js:195-206 | a fresh room hosted by the connection is registered under the id, the connection moves into it, and it is told the settings and the roster |
| GameServer.Server.CreateRoom | server.js:176-207 | the room takes the requested settings with their defaults, under the drawn id; a new id goes to the end of the order, a reused one keeps its place |
| GameServer.Server.Admit | server.js:228-251 | the room becomes the join of its old state with the player: appended, and a start scheduled exactly when the room now has two or more players and no game; the name is counted and the four join broadcasts are sent |
| GameServer.Server.JoinRoom | server.js:209-252 | a missing room, a wrong password or a full room sends only an error and changes nothing, not even the player count; otherwise the room is joined as by `Admit`, the name counted, the join broadcasts sent, and the connection moves in |
| GameServer.Server.FindJoinable | server.js:255-261 | the first key in insertion order whose room is not full, not started and has no password, or none when there is no such key |
| GameServer.Server.QuickJoin | server.js:254-307 | joins the first joinable room in insertion order as `JoinRoom` would, leaving the registry as it was; when there is none, hosts a new medium room with 8 players, 3 rounds and 80 seconds at the end of the order and tells the host; every other room is unchanged |
| GameServer.Server.Listing | server.js:310-320 | summaries of exactly the rooms that are neither started nor full |
| GameServer.Server.ListingAppend | server.js:310-320 | the listing of two runs of keys is the listing of the first followed by that of the second, so it keeps insertion order |
| GameServer.Server.GetRooms | server.js:309-322 | the listing, in insertion order, goes to the requester only |
| GameServer.Server.GetLeaderboard | server.js:324-326 | the top ten go to the requester only |
| GameServer.Server.WordChosen | server.js:328-347 | nothing without a room; otherwise the room's word choice |
| GameServer.Server.Guess | server.js:383-431 | without a room, one chat line to the recorded room id; otherwise the room's guess step with its leaderboard credit |
| GameServer.Server.Disconnect | server.js:433-458 | nothing without a recorded room; otherwise the departure, and the room leaves the registry, and its key the order, exactly when it has emptied; the other keys keep their relative order |
| GameServer.Server.FireStartGame | server.js:461-475 | the scheduled start runs the start step on the room, and one game is counted when a game starts |
| GameServer.Server.FireNewRound | server.js:477-497 | the scheduled setup runs the round setup on the room |
| GameServer.Server.FireTick | server.js:502-513 | the timer's interval runs the tick on the room |
| GameServer.RemoveKey | server.js:449-450 | the order without the key: the keys before it stay, the keys after it move up by one |
| GameServer.RemoveKeySpec | server.js:449-450 | from an order without duplicates, removal leaves one without duplicates holding exactly the other keys |
| GameServer.RemoveKeyExample | server.js:449-450 | removing "B" from ["A", "B", "C"] gives ["A", "C"] |

## Left out

- The browser client and the static file server with its tunnel are presentation and I/O only.
- Socket plumbing is outside the model: Express, socket.io, the HTTP server, `socket.join` and console logging. Broadcasts are entries in the outbox, labelled with their audience.
- The drawing relays (`startDraw`, `drawing`, `stopDraw`, `clear`, `fill`) only forward data. Only the "sender is the current drawer" gate they share is modelled, as `Session.DrawerGate`.
- Real time is out. Timeouts and the interval are methods the environment invokes, guarded by pending-call counters and the timer flag, and no delay is measured.
- `Math.random` is an input: a shuffle of the pool, and a new room id. The comparator shuffle is not uniform, and the model does not claim it is.
- The player avatar is not modelled, because no engine logic reads it.
- Session.Points: divides integers, `(100 * timeLeft) / maxTime`, while the code computes in floating point. Results can differ by one, for example 29 seconds of 100 give 28 in JavaScript and 29 here.
- Text.Lower: lower-cases ASCII letters only, which covers the word lists. Full Unicode case mapping is not modelled.
- Text.Mask: treats a string as a sequence of characters, whereas `split('')` splits into UTF-16 code units.
- Lexicon.TierWords: a difficulty that names an inherited property of a JavaScript object (such as "constructor") is treated like any other unknown tier, whereas the code throws there when it spreads the non-iterable value it looks up.
- Sorting.SortDesc: is an insertion sort that keeps ties in order. Stability is neither proved nor relied upon, since only sortedness and permutation are stated.
- GameServer.Server.Guess: a connection without a recorded room id sends nothing, while the code emits the chat line to an undefined room.
- A `TypeError` stops the handler as a status. In Node.js an exception thrown from a socket handler or a timer callback is uncaught and ends the process, so no state after a `TypeError` is ever reached; the model does not model that exit.
- Client settings are natural numbers, with 0 and "" standing for absent. Non-numeric values a client might send are not modelled.
- Rooms.Room.RandomWords: the pool is fixed when the room is made, since its inputs, the custom words and the difficulty, never change afterwards.
- The timer's interval handle, and the clearing of an older interval when a new round starts, become the single timer flag.
