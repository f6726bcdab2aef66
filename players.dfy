/**
 * A racer: a name, the page the race starts on, the page to reach, the page the
 * racer is on now and the number of moves made since the last (re)start.
 */
module Players {

  /** The value of a player's fields at one moment. */
  datatype PlayerState = PlayerState(name: string, start: string, finish: string, current: string, steps: nat)
  {
    predicate Finished() {
      current == finish
    }

    /** The state after one move to `page`. */
    function Moved(page: string): PlayerState {
      this.(current := page, steps := steps + 1)
    }

    /** The state after /reset gives the player new start and finish pages. */
    function Restarted(newStart: string, newFinish: string): PlayerState {
      this.(start := newStart, finish := newFinish, current := newStart, steps := 0)
    }

    /** Same player and same race: only `current` and `steps` may differ. */
    predicate SameRace(other: PlayerState) {
      name == other.name && start == other.start && finish == other.finish
    }
  }

  /** A freshly constructed player stands on its start page and has made no move. */
  function NewPlayer(name: string, start: string, finish: string): PlayerState {
    PlayerState(name, start, finish, start, 0)
  }

  /** The state after the moves `pages`, in order. */
  function Replay(p: PlayerState, pages: seq<string>): PlayerState
    decreases |pages|
  {
    if pages == [] then p else Replay(p.Moved(pages[0]), pages[1..])
  }

  /**
   * After any sequence of moves a player keeps its race, has counted every move,
   * stands on the last page it moved to, and is finished exactly when that page
   * is its finish page.
   */
  lemma {:induction false} ReplayEffect(p: PlayerState, pages: seq<string>)
    ensures var q := Replay(p, pages);
      && q.SameRace(p)
      && q.steps == p.steps + |pages|
      && q.current == (if pages == [] then p.current else pages[|pages| - 1])
      && (q.Finished() <==> q.current == p.finish)
    decreases |pages|
  {
    if pages != [] {
      ReplayEffect(p.Moved(pages[0]), pages[1..]);
    }
  }

  /** A new player that then makes the moves `pages`. */
  lemma NewPlayerAfterMoves(name: string, start: string, finish: string, pages: seq<string>)
    ensures var q := Replay(NewPlayer(name, start, finish), pages);
      && q.steps == |pages|
      && (pages == [] ==> q.current == start)
      && (q.Finished() <==> (if pages == [] then start else pages[|pages| - 1]) == finish)
  {
    ReplayEffect(NewPlayer(name, start, finish), pages);
  }

  class Player {
    var name: string
    var start: string
    var finish: string
    var current: string
    var steps: nat

    constructor (name: string, start: string, finish: string)
      ensures this.name == name && this.start == start && this.finish == finish
      ensures current == start && steps == 0
      ensures State() == NewPlayer(name, start, finish)
    {
      this.name := name;
      this.start := start;
      this.finish := finish;
      current := start;
      steps := 0;
    }

    function State(): PlayerState
      reads this
    {
      PlayerState(name, start, finish, current, steps)
    }

    /** Player::finished, read off the player's state. */
    predicate Finished()
      reads this
    {
      State().Finished()
    }

    /** Moves to `page`, which need not be a link of the current page. */
    method Move(page: string)
      modifies this
      ensures current == page && steps == old(steps) + 1
      ensures name == old(name) && start == old(start) && finish == old(finish)
      ensures Finished() <==> page == finish
      ensures State() == old(State()).Moved(page)
    {
      current := page;
      steps := steps + 1;
    }
  }
}
