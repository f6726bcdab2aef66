/**
 * The round engine as a specification (Game::play, is_over, get_results).  A
 * round repeats passes over the roster in order; a pass skips finished players,
 * fetches the links of each other player's current page, lets the player choose
 * one and moves it there.  A fetch failure ends the round; a page without links
 * ends only the current pass.  The graph provider is a finite script of fetch
 * answers, consumed one per fetch.
 */
module Rounds {
  import opened Players
  import opened Chooser
  import opened Numeric

  /**
   * The graph provider's answer for one page: failure (false), no links (0), or the links.
   * The provider reports a page without links as Empty and never answers Links([]); the
   * model admits Links([]), on which the chooser lists nothing and reads lines until they run out.
   */
  datatype Fetch = Failure | Empty | Links(titles: seq<string>)

  /** Why a pass stopped: it reached the end of the roster, hit a dead end or a fetch
      failure, or the scripted provider or input ran out (Starved). */
  datatype PassEnd = Completed | HitDeadEnd | HitFailure | Starved

  /** The roster, unread fetch answers and lines after a pass, the pages asked for
      in order, and the index of the player at which the pass stopped. */
  datatype PassResult = PassResult(end: PassEnd, roster: seq<PlayerState>, fetches: seq<Fetch>,
                                   lines: seq<string>, asked: seq<string>, stop: nat)

  /** One line of get_results. */
  datatype Result = Result(name: string, start: string, finish: string, steps: nat)

  /** How Game::play ended: game over with its results, an API error, or (in the model only) no more scripted answers or input. */
  datatype Outcome = GameOver(results: seq<Result>) | ApiError | InputExhausted

  datatype RoundResult = RoundResult(outcome: Outcome, roster: seq<PlayerState>, asked: seq<string>)

  /** is_over: every player is finished (true for an empty roster). */
  predicate AllFinished(roster: seq<PlayerState>) {
    forall j :: 0 <= j < |roster| ==> roster[j].Finished()
  }

  function Summary(p: PlayerState): Result {
    Result(p.name, p.start, p.finish, p.steps)
  }

  /** get_results: one line per player, in roster order. */
  function Results(roster: seq<PlayerState>): seq<Result> {
    seq(|roster|, j requires 0 <= j < |roster| => Summary(roster[j]))
  }

  /** The rest of a pass, from the player at index i on. */
  function Pass(roster: seq<PlayerState>, i: nat, fetches: seq<Fetch>, lines: seq<string>): (r: PassResult)
    requires i <= |roster|
    ensures |r.roster| == |roster| && i <= r.stop <= |roster| && |r.fetches| <= |fetches|
    ensures r.end == Completed <==> r.stop == |roster|
    ensures r.end == HitDeadEnd ==> |r.fetches| < |fetches|
    ensures r.end == Completed && |r.fetches| == |fetches| ==>
              r.roster == roster && forall j :: i <= j < |roster| ==> roster[j].Finished()
    decreases |roster| - i
  {
    if i == |roster| then PassResult(Completed, roster, fetches, lines, [], i)
    else if roster[i].Finished() then Pass(roster, i + 1, fetches, lines)
    else
      var asked := [roster[i].current];
      if fetches == [] then PassResult(Starved, roster, fetches, lines, asked, i)
      else match fetches[0]
        case Failure => PassResult(HitFailure, roster, fetches[1..], lines, asked, i)
        case Empty => PassResult(HitDeadEnd, roster, fetches[1..], lines, asked, i)
        case Links(titles) =>
          var c := Choose(titles, 0, lines).pick;
          if c.OutOfInput? then PassResult(Starved, roster, fetches[1..], lines, asked, i)
          else PrefixPass(asked, Pass(roster[i := roster[i].Moved(c.title)], i + 1, fetches[1..], c.rest))
  }

  function PrefixPass(a: seq<string>, r: PassResult): PassResult {
    r.(asked := a + r.asked)
  }

  function PrefixRound(a: seq<string>, r: RoundResult): RoundResult {
    r.(asked := a + r.asked)
  }

  /** Game::play: passes until every player is finished or a fetch fails. */
  function Round(roster: seq<PlayerState>, fetches: seq<Fetch>, lines: seq<string>): RoundResult
    decreases |fetches|
  {
    var p := Pass(roster, 0, fetches, lines);
    match p.end
    case HitFailure => RoundResult(ApiError, p.roster, p.asked)
    case Starved => RoundResult(InputExhausted, p.roster, p.asked)
    case _ =>
      if AllFinished(p.roster) then RoundResult(GameOver(Results(p.roster)), p.roster, p.asked)
      else PrefixRound(p.asked, Round(p.roster, p.fetches, p.lines))
  }

  /** How a pass that owes `total` goes on after the turn of the player at index i. */
  lemma PassResume(total: PassResult, done: seq<string>, before: seq<PlayerState>, i: nat,
                   fetches: seq<Fetch>, lines: seq<string>, end: PassEnd, after: seq<PlayerState>,
                   fetchesLeft: seq<Fetch>, linesLeft: seq<string>, more: seq<string>)
    requires i < |before| == |after|
    requires total == PrefixPass(done, Pass(before, i, fetches, lines))
    requires end == Completed ==>
      Pass(before, i, fetches, lines) == PrefixPass(more, Pass(after, i + 1, fetchesLeft, linesLeft))
    requires end != Completed ==>
      Pass(before, i, fetches, lines) == PassResult(end, after, fetchesLeft, linesLeft, more, i)
    ensures end == Completed ==> total == PrefixPass(done + more, Pass(after, i + 1, fetchesLeft, linesLeft))
    ensures end != Completed ==> total == PassResult(end, after, fetchesLeft, linesLeft, done + more, i)
  {
    if end == Completed {
      var r := Pass(after, i + 1, fetchesLeft, linesLeft);
      assert done + (more + r.asked) == (done + more) + r.asked;
    }
  }

  /** How a round that owes `total` goes on after its first pass. */
  lemma RoundUnfold(total: RoundResult, done: seq<string>, roster: seq<PlayerState>,
                    fetches: seq<Fetch>, lines: seq<string>, p: PassResult)
    requires total == PrefixRound(done, Round(roster, fetches, lines))
    requires p == Pass(roster, 0, fetches, lines)
    ensures p.end == HitFailure ==> total == RoundResult(ApiError, p.roster, done + p.asked)
    ensures p.end == Starved ==> total == RoundResult(InputExhausted, p.roster, done + p.asked)
    ensures (p.end == Completed || p.end == HitDeadEnd) && AllFinished(p.roster) ==>
      total == RoundResult(GameOver(Results(p.roster)), p.roster, done + p.asked)
    ensures (p.end == Completed || p.end == HitDeadEnd) && !AllFinished(p.roster) ==>
      |p.fetches| < |fetches| && total == PrefixRound(done + p.asked, Round(p.roster, p.fetches, p.lines))
  {
    if (p.end == Completed || p.end == HitDeadEnd) && !AllFinished(p.roster) {
      PrefixRoundTwice(done, p.asked, Round(p.roster, p.fetches, p.lines));
    }
  }

  lemma PrefixRoundTwice(a: seq<string>, b: seq<string>, r: RoundResult)
    ensures PrefixRound(a, PrefixRound(b, r)) == PrefixRound(a + b, r)
  {
    assert a + (b + r.asked) == (a + b) + r.asked;
  }

  /** The current pages of the players in [i, k) that are not finished, in roster order. */
  function Pending(roster: seq<PlayerState>, i: nat, k: nat): seq<string>
    requires i <= k <= |roster|
    decreases k - i
  {
    if i == k then [] else (if roster[i].Finished() then [] else [roster[i].current]) + Pending(roster, i + 1, k)
  }

  lemma {:induction false} PendingAgree(a: seq<PlayerState>, b: seq<PlayerState>, i: nat, k: nat)
    requires i <= k <= |a| == |b|
    requires forall j :: i <= j < k ==> a[j] == b[j]
    ensures Pending(a, i, k) == Pending(b, i, k)
    decreases k - i
  {
    if i < k {
      PendingAgree(a, b, i + 1, k);
    }
  }

  /** The player a pass stops at (on a dead end, a failure or starvation) is unfinished. */
  lemma {:induction false} PassStopsAtUnfinished(roster: seq<PlayerState>, i: nat, fetches: seq<Fetch>, lines: seq<string>)
    requires i <= |roster|
    ensures var r := Pass(roster, i, fetches, lines); r.stop < |roster| ==> !roster[r.stop].Finished()
    decreases |roster| - i
  {
    if i < |roster| && roster[i].Finished() {
      PassStopsAtUnfinished(roster, i + 1, fetches, lines);
    } else if i < |roster| && fetches != [] && fetches[0].Links? {
      var c := Choose(fetches[0].titles, 0, lines).pick;
      if c.Picked? {
        var moved := roster[i := roster[i].Moved(c.title)];
        PassStopsAtUnfinished(moved, i + 1, fetches[1..], c.rest);
      }
    }
  }

  /** A pass leaves player j untouched when j is before i or at or after the player it stopped at. */
  lemma {:induction false} PassFrameAt(roster: seq<PlayerState>, i: nat, fetches: seq<Fetch>, lines: seq<string>, j: nat)
    requires i <= |roster| && j < |roster|
    ensures var r := Pass(roster, i, fetches, lines); j < i || j >= r.stop ==> r.roster[j] == roster[j]
    decreases |roster| - i
  {
    if i < |roster| && roster[i].Finished() {
      PassFrameAt(roster, i + 1, fetches, lines, j);
    } else if i < |roster| && fetches != [] && fetches[0].Links? {
      var c := Choose(fetches[0].titles, 0, lines).pick;
      if c.Picked? {
        var moved := roster[i := roster[i].Moved(c.title)];
        PassFrameAt(moved, i + 1, fetches[1..], c.rest, j);
      }
    }
  }

  /** Between i and the stopping player, a finished player j is skipped untouched and an unfinished one moves exactly once, keeping its race. */
  lemma {:induction false} PassMovesAt(roster: seq<PlayerState>, i: nat, fetches: seq<Fetch>, lines: seq<string>, j: nat)
    requires i <= j < |roster|
    ensures var r := Pass(roster, i, fetches, lines);
      j < r.stop ==>
        && r.roster[j].SameRace(roster[j])
        && (roster[j].Finished() ==> r.roster[j] == roster[j])
        && (!roster[j].Finished() ==> r.roster[j].steps == roster[j].steps + 1)
    decreases |roster| - i
  {
    if roster[i].Finished() {
      if j == i {
        PassFrameAt(roster, i + 1, fetches, lines, j);
      } else {
        PassMovesAt(roster, i + 1, fetches, lines, j);
      }
    } else if fetches != [] && fetches[0].Links? {
      var c := Choose(fetches[0].titles, 0, lines).pick;
      if c.Picked? {
        var moved := roster[i := roster[i].Moved(c.title)];
        if j == i {
          PassFrameAt(moved, i + 1, fetches[1..], c.rest, j);
        } else {
          PassMovesAt(moved, i + 1, fetches[1..], c.rest, j);
        }
      }
    }
  }

  /**
   * Each unfinished player that moves in a pass lands on a title of the answer
   * fetched for its own page: the one after the answers for the unfinished
   * players before it.
   */
  lemma {:induction false} PassMovesAlongLinks(roster: seq<PlayerState>, i: nat, fetches: seq<Fetch>, lines: seq<string>, j: nat)
    requires i <= j < |roster|
    ensures var r := Pass(roster, i, fetches, lines);
      var m := |Pending(roster, i, j)|;
      j < r.stop && !roster[j].Finished() ==>
        m < |fetches| && fetches[m].Links? && r.roster[j].current in fetches[m].titles
    decreases |roster| - i, 1
  {
    if roster[i].Finished() {
      if j > i {
        assert Pass(roster, i, fetches, lines) == Pass(roster, i + 1, fetches, lines);
        assert Pending(roster, i, j) == Pending(roster, i + 1, j);
        PassMovesAlongLinks(roster, i + 1, fetches, lines, j);
      }
    } else if fetches != [] && fetches[0].Links? && Choose(fetches[0].titles, 0, lines).pick.Picked? {
      MovedAlongLinks(roster, i, fetches, lines, j);
    }
  }

  /** The step of PassMovesAlongLinks where the player at index i picks a link and moves. */
  lemma {:induction false} MovedAlongLinks(roster: seq<PlayerState>, i: nat, fetches: seq<Fetch>, lines: seq<string>, j: nat)
    requires i <= j < |roster| && !roster[i].Finished()
    requires fetches != [] && fetches[0].Links? && Choose(fetches[0].titles, 0, lines).pick.Picked?
    ensures var r := Pass(roster, i, fetches, lines);
      var m := |Pending(roster, i, j)|;
      j < r.stop && !roster[j].Finished() ==>
        m < |fetches| && fetches[m].Links? && r.roster[j].current in fetches[m].titles
    decreases |roster| - i, 0
  {
    var c := Choose(fetches[0].titles, 0, lines).pick;
    ChooseConsumes(fetches[0].titles, 0, lines);
    var moved := roster[i := roster[i].Moved(c.title)];
    assert Pass(roster, i, fetches, lines) ==
      PrefixPass([roster[i].current], Pass(moved, i + 1, fetches[1..], c.rest));
    if j == i {
      PassFrameAt(moved, i + 1, fetches[1..], c.rest, j);
    } else {
      PassMovesAlongLinks(moved, i + 1, fetches[1..], c.rest, j);
      PendingAgree(moved, roster, i + 1, j);
      assert Pending(roster, i, j) == [roster[i].current] + Pending(roster, i + 1, j);
    }
  }

  /**
   * What one pass does to the roster: players before i and from the stopping
   * player on are untouched; in between, finished players are skipped untouched
   * and every other player moves exactly once; nobody's race changes; the
   * player the pass stopped at (on a dead end, failure or starvation) is unfinished.
   */
  lemma PassEffect(roster: seq<PlayerState>, i: nat, fetches: seq<Fetch>, lines: seq<string>)
    requires i <= |roster|
    ensures var r := Pass(roster, i, fetches, lines);
      && (r.stop < |roster| ==> !roster[r.stop].Finished())
      && (forall j :: 0 <= j < |roster| ==> r.roster[j].SameRace(roster[j]))
      && (forall j :: 0 <= j < |roster| && (j < i || j >= r.stop) ==> r.roster[j] == roster[j])
      && (forall j :: i <= j < r.stop && roster[j].Finished() ==> r.roster[j] == roster[j])
      && (forall j :: i <= j < r.stop && !roster[j].Finished() ==> r.roster[j].steps == roster[j].steps + 1)
      && (forall j :: i <= j < r.stop && !roster[j].Finished() ==>
            var m := |Pending(roster, i, j)|;
            m < |fetches| && fetches[m].Links? && r.roster[j].current in fetches[m].titles)
  {
    PassStopsAtUnfinished(roster, i, fetches, lines);
    var r := Pass(roster, i, fetches, lines);
    forall j | 0 <= j < |roster|
      ensures r.roster[j].SameRace(roster[j])
      ensures j < i || j >= r.stop ==> r.roster[j] == roster[j]
      ensures i <= j < r.stop && roster[j].Finished() ==> r.roster[j] == roster[j]
      ensures i <= j < r.stop && !roster[j].Finished() ==> r.roster[j].steps == roster[j].steps + 1
      ensures i <= j < r.stop && !roster[j].Finished() ==>
        var m := |Pending(roster, i, j)|;
        m < |fetches| && fetches[m].Links? && r.roster[j].current in fetches[m].titles
    {
      PassFrameAt(roster, i, fetches, lines, j);
      if i <= j {
        PassMovesAt(roster, i, fetches, lines, j);
        PassMovesAlongLinks(roster, i, fetches, lines, j);
      }
    }
  }

  /** Each pass moves a player at most once: steps grow by at most one, and a finished player's state is kept. */
  lemma PassStepsBound(roster: seq<PlayerState>, fetches: seq<Fetch>, lines: seq<string>)
    ensures var r := Pass(roster, 0, fetches, lines);
      forall j :: 0 <= j < |roster| ==>
        r.roster[j].steps <= roster[j].steps + 1 && (roster[j].Finished() ==> r.roster[j] == roster[j])
  {
    PassEffect(roster, 0, fetches, lines);
  }

  /**
   * The pages the pass asks the provider for are the current pages of the
   * unfinished players it visits, in roster order, ending with the player it
   * stopped at when it did not complete.
   */
  lemma {:induction false} PassAsks(roster: seq<PlayerState>, i: nat, fetches: seq<Fetch>, lines: seq<string>)
    requires i <= |roster|
    ensures var r := Pass(roster, i, fetches, lines);
      r.asked == Pending(roster, i, r.stop) + (if r.end == Completed then [] else [roster[r.stop].current])
    decreases |roster| - i
  {
    if i == |roster| {
    } else if roster[i].Finished() {
      PassAsks(roster, i + 1, fetches, lines);
    } else if fetches != [] && fetches[0].Links? {
      var c := Choose(fetches[0].titles, 0, lines).pick;
      if c.Picked? {
        var moved := roster[i := roster[i].Moved(c.title)];
        var r := Pass(moved, i + 1, fetches[1..], c.rest);
        assert Pass(roster, i, fetches, lines) == PrefixPass([roster[i].current], r);
        PassAsks(moved, i + 1, fetches[1..], c.rest);
        PendingAgree(moved, roster, i + 1, r.stop);
        var tail := if r.end == Completed then [] else [roster[r.stop].current];
        assert r.end != Completed ==> moved[r.stop] == roster[r.stop];
        assert r.asked == Pending(roster, i + 1, r.stop) + tail;
        assert Pending(roster, i, r.stop) == [roster[i].current] + Pending(roster, i + 1, r.stop);
        assert [roster[i].current] + r.asked == Pending(roster, i, r.stop) + tail;
      }
    }
  }

  /** A pass over players who are all finished asks for nothing and changes nothing. */
  lemma {:induction false} PassOverFinished(roster: seq<PlayerState>, i: nat, fetches: seq<Fetch>, lines: seq<string>)
    requires i <= |roster|
    requires forall j :: i <= j < |roster| ==> roster[j].Finished()
    ensures Pass(roster, i, fetches, lines) == PassResult(Completed, roster, fetches, lines, [], |roster|)
    decreases |roster| - i
  {
    if i < |roster| {
      PassOverFinished(roster, i + 1, fetches, lines);
    }
  }

  /** A roster whose players are all finished completes at once with unchanged steps and no fetch. */
  lemma RoundOverAtOnce(roster: seq<PlayerState>, fetches: seq<Fetch>, lines: seq<string>)
    requires AllFinished(roster)
    ensures Round(roster, fetches, lines) == RoundResult(GameOver(Results(roster)), roster, [])
  {
    PassOverFinished(roster, 0, fetches, lines);
  }

  /**
   * Results come exactly when every player is finished, and they list every
   * player in roster order; a round keeps the roster's length and every race,
   * and never touches a player that was already finished.
   */
  lemma {:induction false} RoundEffect(roster: seq<PlayerState>, fetches: seq<Fetch>, lines: seq<string>)
    ensures var r := Round(roster, fetches, lines);
      && |r.roster| == |roster|
      && (r.outcome.GameOver? <==> AllFinished(r.roster))
      && (r.outcome.GameOver? ==> r.outcome.results == Results(r.roster))
      && (forall j :: 0 <= j < |roster| ==> r.roster[j].SameRace(roster[j]))
      && (forall j :: 0 <= j < |roster| && roster[j].Finished() ==> r.roster[j] == roster[j])
    decreases |fetches|
  {
    var p := Pass(roster, 0, fetches, lines);
    PassEffect(roster, 0, fetches, lines);
    if p.end != HitFailure && p.end != Starved && !AllFinished(p.roster) {
      RoundEffect(p.roster, p.fetches, p.lines);
    }
  }

  /** A fetch failure ends the round at once with an API error: no results, and the failing player's and every later player's state as the pass found it. */
  lemma RoundAbortsOnFailure(roster: seq<PlayerState>, fetches: seq<Fetch>, lines: seq<string>)
    requires Pass(roster, 0, fetches, lines).end == HitFailure
    ensures var p := Pass(roster, 0, fetches, lines);
      && Round(roster, fetches, lines) == RoundResult(ApiError, p.roster, p.asked)
      && forall j :: p.stop <= j < |roster| ==> p.roster[j] == roster[j]
  {
    PassEffect(roster, 0, fetches, lines);
  }

  /** A dead end ends only the pass: players after it do not move in that pass, and the round goes on with the next pass unless everyone is finished. */
  lemma RoundGoesOnAfterDeadEnd(roster: seq<PlayerState>, fetches: seq<Fetch>, lines: seq<string>)
    requires Pass(roster, 0, fetches, lines).end == HitDeadEnd
    ensures var p := Pass(roster, 0, fetches, lines);
      && (forall j :: p.stop <= j < |roster| ==> p.roster[j] == roster[j])
      && !AllFinished(p.roster)
      && Round(roster, fetches, lines) == PrefixRound(p.asked, Round(p.roster, p.fetches, p.lines))
  {
    PassEffect(roster, 0, fetches, lines);
    var p := Pass(roster, 0, fetches, lines);
    assert !p.roster[p.stop].Finished();
  }

  /**
   * A race of A (S1 to F1) and B (S2 to F2).  First pass: A is offered [F1],
   * types "1" and finishes; B's page has no links, which ends the pass.  Second
   * pass: A is skipped; B is offered [X, F2], pages past the end with an empty
   * line, types "2" and finishes.  Both finish in one step, S2 was asked twice.
   */
  lemma TwoPlayerRace()
    ensures var a, b := NewPlayer("A", "S1", "F1"), NewPlayer("B", "S2", "F2");
      Round([a, b], [Links(["F1"]), Empty, Links(["X", "F2"])], ["1", "", "2"])
        == RoundResult(GameOver([Result("A", "S1", "F1", 1), Result("B", "S2", "F2", 1)]),
                       [a.Moved("F1"), b.Moved("F2")], ["S1", "S2", "S2"])
  {
    var a, b := NewPlayer("A", "S1", "F1"), NewPlayer("B", "S2", "F2");
    ParseIntRoundTrip(1);
    ParseIntRoundTrip(2);
    assert IntToString(1) == "1" && IntToString(2) == "2";
    assert Choose(["F1"], 0, ["1", "", "2"]).pick == Picked("F1", ["", "2"]);
    var a1 := a.Moved("F1");
    assert [a, b][0 := a1] == [a1, b];
    assert Pass([a1, b], 1, [Empty, Links(["X", "F2"])], ["", "2"])
        == PassResult(HitDeadEnd, [a1, b], [Links(["X", "F2"])], ["", "2"], ["S2"], 1);
    var first := Pass([a, b], 0, [Links(["F1"]), Empty, Links(["X", "F2"])], ["1", "", "2"]);
    assert first == PassResult(HitDeadEnd, [a1, b], [Links(["X", "F2"])], ["", "2"], ["S1", "S2"], 1);
    assert Choose(["X", "F2"], 10, ["2"]).pick == Picked("F2", []);
    assert Choose(["X", "F2"], 0, ["", "2"]).pick == Picked("F2", []);
    var b1 := b.Moved("F2");
    assert [a1, b][1 := b1] == [a1, b1];
    assert Pass([a1, b1], 2, [], []) == PassResult(Completed, [a1, b1], [], [], [], 2);
    assert Pass([a1, b], 1, [Links(["X", "F2"])], ["", "2"]) == PassResult(Completed, [a1, b1], [], [], ["S2"], 2);
    var second := Pass([a1, b], 0, [Links(["X", "F2"])], ["", "2"]);
    assert second == PassResult(Completed, [a1, b1], [], [], ["S2"], 2);
    assert AllFinished([a1, b1]);
    assert !AllFinished([a1, b]);
    assert Results([a1, b1]) == [Result("A", "S1", "F1", 1), Result("B", "S2", "F2", 1)];
  }
}
