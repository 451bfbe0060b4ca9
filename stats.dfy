/** The process-wide statistics: the count of games started, the set of names
    that ever joined a room, and the cross-room leaderboard keyed by display
    name. */
module Stats {
  import opened Wrappers
  import opened Sorting

  /** One leaderboard row: a display name, its accumulated points and the
      number of correct guesses recorded for it. */
  datatype Entry = Entry(name: string, score: int, games: nat)

  function EntryScore(e: Entry): int { e.score }

  /** The index of the first entry carrying `name`, if any. */
  function FindByName(lb: seq<Entry>, name: string): (r: Option<nat>)
    ensures r.None? <==> forall i :: 0 <= i < |lb| ==> lb[i].name != name
    ensures r.Some? ==> r.value < |lb| && lb[r.value].name == name
    ensures r.Some? ==> forall i :: 0 <= i < r.value ==> lb[i].name != name
  {
    if lb == [] then None
    else if lb[0].name == name then Some(0)
    else match FindByName(lb[1..], name)
      case Some(i) => Some(i + 1)
      case None => None
  }

  /** The entry `name` ends up with: its first entry credited with the points
      and one more game, or a fresh entry with one game. */
  function Credited(lb: seq<Entry>, name: string, points: int): Entry {
    match FindByName(lb, name)
    case Some(i) => lb[i].(score := lb[i].score + points, games := lb[i].games + 1)
    case None => Entry(name, points, 1)
  }

  /** The leaderboard after recording, before it is re-sorted: the first
      entry with that name is credited in place, or a new entry is appended. */
  function Record(lb: seq<Entry>, name: string, points: int): (r: seq<Entry>)
    ensures FindByName(lb, name).Some? ==> |r| == |lb|
    ensures FindByName(lb, name).None? ==> |r| == |lb| + 1 && r[..|lb|] == lb
  {
    match FindByName(lb, name)
    case Some(i) => lb[i := Credited(lb, name, points)]
    case None => lb + [Credited(lb, name, points)]
  }

  /** The whole update: record, then sort by descending score. */
  function Updated(lb: seq<Entry>, name: string, points: int): (r: seq<Entry>)
    ensures Descending(r, EntryScore)
    ensures multiset(r) == multiset(Record(lb, name, points))
  {
    SortDesc(Record(lb, name, points), EntryScore)
  }

  /** Recording replaces at most one entry carrying `name` by the credited
      entry and touches nothing else. */
  lemma RecordMultiset(lb: seq<Entry>, name: string, points: int)
    ensures FindByName(lb, name).Some? ==>
              multiset(Record(lb, name, points)) ==
                multiset(lb) - multiset{lb[FindByName(lb, name).value]} + multiset{Credited(lb, name, points)}
    ensures FindByName(lb, name).None? ==>
              multiset(Record(lb, name, points)) == multiset(lb) + multiset{Credited(lb, name, points)}
  {
    var c := Credited(lb, name, points);
    match FindByName(lb, name)
    case Some(i) =>
      assert Record(lb, name, points) == lb[..i] + [c] + lb[i + 1..];
      assert lb == lb[..i] + [lb[i]] + lb[i + 1..];
    case None =>
  }

  /** What an update does: the board stays sorted by descending score, grows
      by at most one entry, holds the credited entry for `name`, and every
      entry with another name is kept exactly as often as before. */
  lemma {:induction false} UpdateSpec(lb: seq<Entry>, name: string, points: int)
    ensures Descending(Updated(lb, name, points), EntryScore)
    ensures |Updated(lb, name, points)| ==
              |lb| + (if FindByName(lb, name).None? then 1 else 0)
    ensures Credited(lb, name, points) in Updated(lb, name, points)
    ensures forall e: Entry :: e.name != name ==>
              multiset(Updated(lb, name, points))[e] == multiset(lb)[e]
  {
    var u := Updated(lb, name, points);
    var c := Credited(lb, name, points);
    RecordMultiset(lb, name, points);
    assert multiset(u) == multiset(Record(lb, name, points));
    assert c.name == name;
    assert c in multiset(u);
    forall e: Entry | e.name != name
      ensures multiset(u)[e] == multiset(lb)[e]
    {
      var f := FindByName(lb, name);
      if f.Some? {
        assert lb[f.value].name == name;
      }
    }
  }

  class GlobalStats {
    var totalGames: nat
    var totalPlayers: set<string>
    var leaderboard: seq<Entry>

    ghost predicate Valid()
      reads this
    {
      Descending(leaderboard, EntryScore)
    }

    constructor ()
      ensures Valid()
      ensures totalGames == 0 && totalPlayers == {} && leaderboard == []
    {
      totalGames, totalPlayers, leaderboard := 0, {}, [];
    }

    /** Credits `points` to `playerName` and re-sorts the board. */
    method UpdateLeaderboard(playerName: string, points: int)
      modifies this`leaderboard
      ensures Valid()
      ensures leaderboard == Updated(old(leaderboard), playerName, points)
    {
      var existing := FindByName(leaderboard, playerName);
      ghost var recorded := Record(leaderboard, playerName, points);
      if existing.Some? {
        var i := existing.value;
        leaderboard := leaderboard[i := leaderboard[i].(score := leaderboard[i].score + points,
                                                        games := leaderboard[i].games + 1)];
      } else {
        leaderboard := leaderboard + [Entry(playerName, points, 1)];
      }
      assert leaderboard == recorded;
      leaderboard := SortDesc(leaderboard, EntryScore);
    }

    /** The leaderboard query: the first ten entries, which are the ten best
        when the board is sorted. */
    function TopTen(): (r: seq<Entry>)
      reads this
      ensures |r| == (if |leaderboard| < 10 then |leaderboard| else 10)
      ensures r == leaderboard[..|r|]
      ensures Valid() ==> forall i, j :: 0 <= i < |r| <= j < |leaderboard| ==>
                            r[i].score >= leaderboard[j].score
    {
      if |leaderboard| < 10 then leaderboard else leaderboard[..10]
    }
  }
}
