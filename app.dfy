/**
 * The roster-changing branches of the command loop (App::start): /addplayer,
 * /rmplayer, /clearplayers and /reset.  The line read for a name and the
 * random-page service are parameters.
 */
module App {
  import opened Players
  import opened Commands
  import opened Games

  /** The pages /addplayer gives every new player, whatever pages it drew. */
  const AddedStart := "Теоретическая физика"
  const AddedFinish := "Энтропия"

  /** What /reset reported: no players, an API error at the given player, or all pages reset. */
  datatype ResetStatus = NoPlayers | ApiFailed(at: nat) | AllReset

  /** /addplayer: on a successful draw, append a new player on the fixed pages; on a failed one, change nothing. */
  method AddPlayer(game: Game, name: string, drawn: Draw) returns (added: bool)
    requires game.Valid()
    modifies game
    ensures game.Valid()
    ensures added == drawn.Drawn?
    ensures added ==> |game.players| == |old(game.players)| + 1
                      && game.players[..|old(game.players)|] == old(game.players)
                      && fresh(game.players[|old(game.players)|])
    ensures added ==> game.Roster() == old(game.Roster()) + [NewPlayer(name, AddedStart, AddedFinish)]
    ensures !added ==> game.players == old(game.players)
  {
    if drawn.DrawFailed? {
      return false;
    }
    var p := new Player(name, AddedStart, AddedFinish);
    ghost var before := game.Roster();
    game.players := game.players + [p];
    assert game.Roster() == before + [NewPlayer(name, AddedStart, AddedFinish)];
    return true;
  }

  /** /rmplayer: remove the first player named `name`; report whether there was one. */
  method RemovePlayer(game: Game, name: string) returns (removed: bool)
    requires game.Valid()
    modifies game
    ensures game.Valid()
    ensures var k := FirstNamed(old(game.Roster()), name);
      && removed == (k < |old(game.players)|)
      && game.players == if removed then old(game.players)[..k] + old(game.players)[k + 1..] else old(game.players)
    ensures game.Roster() == RemoveFirstNamed(old(game.Roster()), name)
  {
    ghost var before := game.Roster();
    var i := 0;
    while i < |game.players|
      invariant 0 <= i <= |game.players|
      invariant forall j :: 0 <= j < i ==> before[j].name != name
    {
      if game.players[i].name == name {
        assert before[i].name == name;
        assert FirstNamed(before, name) == i;
        var ps := game.players;
        game.players := ps[..i] + ps[i + 1..];
        assert game.Roster() == before[..i] + before[i + 1..];
        return true;
      }
      i := i + 1;
    }
    return false;
  }

  /** /clearplayers: the roster ends empty; report whether it had players. */
  method ClearPlayers(game: Game) returns (cleared: bool)
    modifies game
    ensures cleared == (|old(game.players)| > 0)
    ensures game.players == [] && game.Valid()
  {
    if |game.players| == 0 {
      return false;
    }
    game.players := [];
    return true;
  }

  /**
   * /reset: for each player in index order, the next draw gives the new start
   * and finish pages; the first failed draw stops the loop.  `draw(i)` is the
   * answer to the i-th request.
   */
  method ResetPages(game: Game, draw: nat -> Draw) returns (status: ResetStatus)
    requires game.Valid()
    modifies game.players
    ensures game.Valid()
    ensures game.Roster() == ResetFrom(old(game.Roster()), draw, 0)
    ensures status == if |game.players| == 0 then NoPlayers
                      else if FirstFailure(draw, 0, |game.players|) < |game.players|
                      then ApiFailed(FirstFailure(draw, 0, |game.players|))
                      else AllReset
  {
    if |game.players| == 0 {
      return NoPlayers;
    }
    ghost var R := game.Roster();
    var i := 0;
    while i < |game.players|
      invariant 0 <= i <= |game.players| && game.Valid() && |game.Roster()| == |game.players|
      invariant ResetFrom(R, draw, 0) == ResetFrom(game.Roster(), draw, i)
      invariant FirstFailure(draw, 0, |game.players|) == FirstFailure(draw, i, |game.players|)
    {
      var pages := draw(i);
      if pages.DrawFailed? {
        return ApiFailed(i);
      }
      RestartAt(game, i, pages.first, pages.second);
      i := i + 1;
    }
    return AllReset;
  }

  /** Lines 179-182: overwrite the four fields of player i, which changes the roster at index i only. */
  method RestartAt(game: Game, i: nat, newStart: string, newFinish: string)
    requires game.Valid() && i < |game.players|
    modifies game.players[i]
    ensures game.Roster() == old(game.Roster())[i := old(game.Roster())[i].Restarted(newStart, newFinish)]
  {
    var p := game.players[i];
    p.start := newStart;
    p.finish := newFinish;
    p.current := newStart;
    p.steps := 0;
    forall j | 0 <= j < |game.players|
      ensures game.Roster()[j] == old(game.Roster())[i := old(game.Roster())[i].Restarted(newStart, newFinish)][j]
    {
      if j != i {
        assert game.players[j] != game.players[i];
      }
    }
  }
}
