/**
 * The Game object: the roster of Player objects and the round engine that
 * moves them in place.  Each method is proved against the specification
 * functions of module Rounds.
 */
module Games {
  import opened Players
  import opened Chooser
  import opened Rounds

  class Game {
    var players: seq<Player>

    /** No Player object appears twice in the roster. */
    ghost predicate Valid()
      reads this
    {
      forall i, j :: 0 <= i < j < |players| ==> players[i] != players[j]
    }

    /** The players' states, in roster order. */
    ghost function Roster(): seq<PlayerState>
      reads this, players
    {
      seq(|players|, j requires 0 <= j < |players| reads this, players => players[j].State())
    }

    constructor ()
      ensures Valid() && players == []
    {
      players := [];
    }

    /** Game::is_over. */
    method IsOver() returns (over: bool)
      ensures over <==> AllFinished(Roster())
    {
      for k := 0 to |players|
        invariant forall j :: 0 <= j < k ==> players[j].Finished()
      {
        if !players[k].Finished() {
          assert !Roster()[k].Finished();
          return false;
        }
      }
      return true;
    }

    /** Game::get_results: name, start, finish and steps of each player, in roster order. */
    method GetResults() returns (results: seq<Result>)
      ensures |results| == |players|
      ensures forall j :: 0 <= j < |players| ==>
        results[j] == Result(players[j].name, players[j].start, players[j].finish, players[j].steps)
      ensures results == Results(Roster())
    {
      results := [];
      for k := 0 to |players|
        invariant |results| == k
        invariant forall j :: 0 <= j < k ==>
          results[j] == Result(players[j].name, players[j].start, players[j].finish, players[j].steps)
      {
        var p := players[k];
        results := results + [Result(p.name, p.start, p.finish, p.steps)];
      }
    }

    /** Moving players[i] changes the roster at index i only. */
    method MoveAt(i: nat, page: string)
      requires Valid() && i < |players|
      modifies players[i]
      ensures Roster() == old(Roster())[i := old(Roster())[i].Moved(page)]
    {
      players[i].Move(page);
      forall j | 0 <= j < |players|
        ensures Roster()[j] == old(Roster())[i := old(Roster())[i].Moved(page)][j]
      {
        if j != i {
          assert players[j] != players[i];
        }
      }
    }

    /**
     * The body of the foreach for the player at index i: skip a finished player;
     * otherwise fetch the links of its current page, stop the pass on a failure
     * or a dead end, or let it choose a link and move.  The result is one step of Pass.
     */
    method Turn(i: nat, fetches: seq<Fetch>, lines: seq<string>)
      returns (end: PassEnd, fetchesLeft: seq<Fetch>, linesLeft: seq<string>, asked: seq<string>)
      requires Valid() && i < |players|
      modifies players[i]
      ensures end == Completed ==>
        Pass(old(Roster()), i, fetches, lines) == PrefixPass(asked, Pass(Roster(), i + 1, fetchesLeft, linesLeft))
      ensures end != Completed ==>
        Pass(old(Roster()), i, fetches, lines) == PassResult(end, Roster(), fetchesLeft, linesLeft, asked, i)
    {
      fetchesLeft, linesLeft, asked, end := fetches, lines, [], Completed;
      var p := players[i];
      assert p.State() == Roster()[i];
      if p.Finished() {
        return;
      }
      asked := [p.current];
      if fetchesLeft == [] {
        end := Starved;
        return;
      }
      var fetch := fetchesLeft[0];
      fetchesLeft := fetchesLeft[1..];
      match fetch
      case Failure => end := HitFailure;
      case Empty => end := HitDeadEnd;
      case Links(titles) =>
        var pick, _ := ChooseLink(titles, linesLeft);
        if pick.OutOfInput? {
          end := Starved;
        } else {
          MoveAt(i, pick.title);
          linesLeft := pick.rest;
        }
    }

    /**
     * One pass of Game::play's outer loop (the foreach over the roster), from the
     * first player on: the pass's end, the unread answers and lines, the pages
     * asked for and the index it stopped at are those of Pass.
     */
    method TakeTurns(fetches: seq<Fetch>, lines: seq<string>)
      returns (end: PassEnd, fetchesLeft: seq<Fetch>, linesLeft: seq<string>, asked: seq<string>, stop: nat)
      requires Valid()
      modifies players
      ensures Valid()
      ensures Pass(old(Roster()), 0, fetches, lines) == PassResult(end, Roster(), fetchesLeft, linesLeft, asked, stop)
    {
      ghost var total := Pass(Roster(), 0, fetches, lines);
      fetchesLeft, linesLeft, asked := fetches, lines, [];
      stop := 0;
      while stop < |players|
        invariant stop <= |players| && Valid() && |Roster()| == |players|
        invariant total == PrefixPass(asked, Pass(Roster(), stop, fetchesLeft, linesLeft))
      {
        ghost var a0, before := asked, Roster();
        ghost var f0, l0 := fetchesLeft, linesLeft;
        var more;
        end, fetchesLeft, linesLeft, more := Turn(stop, fetchesLeft, linesLeft);
        PassResume(total, a0, before, stop, f0, l0, end, Roster(), fetchesLeft, linesLeft, more);
        asked := asked + more;
        if end != Completed {
          return;
        }
        stop := stop + 1;
      }
      end := Completed;
    }

    /**
     * What Game::play does after a pass that ended with `end`: a failed fetch
     * is an API error, a finished game yields the results, otherwise it goes on.
     */
    method Conclude(end: PassEnd) returns (finished: bool, outcome: Outcome)
      ensures finished <==> end == HitFailure || end == Starved || AllFinished(Roster())
      ensures end == HitFailure ==> outcome == ApiError
      ensures end == Starved ==> outcome == InputExhausted
      ensures (end == Completed || end == HitDeadEnd) && AllFinished(Roster()) ==>
        outcome == GameOver(Results(Roster()))
    {
      finished, outcome := true, ApiError;
      if end == HitFailure {
        return;
      } else if end == Starved {
        outcome := InputExhausted;
        return;
      }
      finished := IsOver();
      if finished {
        var results := GetResults();
        outcome := GameOver(results);
      }
    }

    /**
     * Game::play over the scripted provider answers `fetches` and input `lines`:
     * the outcome, the roster it leaves and the pages it asks for are those of Round.
     */
    method Play(fetches: seq<Fetch>, lines: seq<string>) returns (outcome: Outcome, asked: seq<string>)
      requires Valid()
      modifies players
      ensures Valid()
      ensures Round(old(Roster()), fetches, lines) == RoundResult(outcome, Roster(), asked)
    {
      var f, l := fetches, lines;
      asked := [];
      ghost var total := Round(Roster(), fetches, lines);
      while true
        invariant Valid()
        invariant total == PrefixRound(asked, Round(Roster(), f, l))
        decreases |f|
      {
        ghost var R, F, L, A := Roster(), f, l, asked;
        var end, passAsked, stop;
        end, f, l, passAsked, stop := TakeTurns(f, l);
        RoundUnfold(total, A, R, F, L, PassResult(end, Roster(), f, l, passAsked, stop));
        asked := asked + passAsked;
        var finished;
        finished, outcome := Conclude(end);
        if finished {
          return;
        }
      }
    }
  }
}
