# wikisurf link race — Dafny model

A model of the turn-based "link race" engine of wikisurf (`main.php`): players
start on one wiki page and race to a target page by repeatedly choosing one of
the current page's outgoing links.  The model covers the `Player` object, the
paginated link chooser `Game::choose_link`, the round engine `Game::play` with
`is_over` and `get_results`, and the roster commands of the command loop
(`/addplayer`, `/rmplayer`, `/clearplayers`, `/reset`).

The two collaborators are abstracted:

- the **graph provider** (`Api::get_links` behind `Game::get_links`) is a finite
  script of answers `Fetch = Failure | Empty | Links(titles)`, consumed one per
  fetch, keeping `false` (failure) and `0` (no links) distinct.  The pages the
  engine asks for are returned as `asked`, so the model shows that the fetch is
  always for the acting player's current page;
- the **input source** (`readline`) is a finite script of lines.  When either
  script runs out the model stops with `InputExhausted` / `Starved` or
  `OutOfInput`; the program itself would keep prompting or fetching;
- the random page service (`Api::get_random_pages(2)`) is a `Draw` value for
  `/addplayer` and a function `draw: nat -> Draw` (answer to the i-th request)
  for `/reset`.

Modules (one file each):

- `Wrappers` — `Option`.
- `Numeric` — reading a typed page number; decimal numeral round trip.
- `Players` — `PlayerState` (the value of a player's fields) and the `Player`
  class whose `Move` updates `current` and `steps` in place.
- `Chooser` — the window `[s, e)`, the listed entries, the recursive
  specification `Choose` of the prompt loop, and the imperative `ShowWindow`
  and `ChooseLink` proved against it.
- `Rounds` — the specification of a pass (`Pass`) and of a round (`Round`),
  `AllFinished` (is_over) and `Results` (get_results), with their lemmas.
- `Games` — the `Game` class: `players: seq<Player>`, the ghost view `Roster()`,
  and the imperative `IsOver`, `GetResults`, `Turn`, `TakeTurns` and `Play`,
  each proved against `Rounds`.
- `Commands` — specifications of `/rmplayer` and `/reset`, and the roster as the
  PHP code keeps it after `unset` (see Findings).
- `App` — the roster-changing command branches as methods on a `Game`.

Behaviour of the code worth noting:

- after an invalid line `choose_link` jumps back to the top of its loop, so the
  current window is listed again before the next prompt (every `Prompt` records
  the entries shown);
- player names are not checked for uniqueness by `/addplayer`; the model does
  not assume it (`/rmplayer` removes the first namesake only);
- `/addplayer` prints the two drawn pages but always creates the player on
  "Теоретическая физика" → "Энтропия".

## Model

| member | source | states |
|---|---|---|
| Players.Player.constructor | main.php:209-215 | a new player has the given name, start and finish, stands on its start page and has made no step |
| Players.PlayerState.Moved | main.php:219-220 | a move sets the current page and counts one more step, nothing else; its effect over many moves is stated by `ReplayEffect` |
| Players.PlayerState.Restarted | main.php:179-182 | /reset's four writes: new start and finish, current back on the new start, steps back to 0, name kept |
| Players.PlayerState.Finished | main.php:224-226 | a player is finished exactly when its current page is its finish page |
| Players.Player.Finished | main.php:224-226 | the object's `finished()` is its state's `Finished`; `Move` states when it holds afterwards |
| Players.Player.Move | main.php:217-222 | `current` becomes the page, `steps` grows by exactly one, name/start/finish are kept, no adjacency is required, and the player is finished afterwards exactly when the page is its finish |
| Players.ReplayEffect | main.php:217-226 | after any sequence of moves a player keeps its race, has counted every move, stands on the last page moved to, and is finished exactly when that page is its finish |
| Players.NewPlayerAfterMoves | main.php:209-226 | a new player after k moves has k steps, is on its start when k = 0, and is finished exactly when its last page (or its start) equals its finish |
| Numeric.ParseInt | main.php:273 | a line reads as an integer exactly when it is a non-empty run of decimal digits, or a '-' or '+' followed by a non-empty run of decimal digits; a negative value needs a leading '-'; conversely `ParseIntRoundTrip` shows every integer's numeral reads back as that integer |
| Numeric.ParseIntRoundTrip | main.php:273 | the decimal numeral of every integer reads back as that integer |
| Chooser.Selection | main.php:273 | a line selects a link exactly when it reads as an integer n with 1 <= n <= number of links, and then the number selected is that n |
| Chooser.Choose | main.php:262-283 | the choose_link loop as a recursion on the unread lines: a selecting line returns its link with the lines after it, an empty line moves the window 10 on, any other line prompts again on the same window, and the end of the script gives `OutOfInput`; its properties are stated by `ChooseConsumes`, `ChooseWindows`, `ChooseNumberTyped` and `PagingPastTheEnd`, and `ChooseLink` is proved equal to it |
| Chooser.ShowWindow | main.php:266-269 | the window [s, e) lists min(e, count) - s entries (none past the end), numbered s+1, s+2, … over the whole list, entry number n showing links[n-1] |
| Chooser.ChooseLink | main.php:262-283 | the prompt loop's pick and the prompts it shows are those of the specification `Choose` started at window [0, 10) |
| Chooser.ChooseConsumes | main.php:265-282 | one prompt per line read, each reacting to its own line (empty: load more, valid number: select, other: reject); only the last prompt of a successful choice selects; the chosen title is links[n-1] for the number n read on that selecting line (whatever was typed before it), hence an element of the links; the unread lines are exactly those after the selecting line |
| Chooser.ConsumesStep | main.php:265-282 | a prompt that loads more or rejects its line, followed by a session that consumes the remaining lines, is a session that consumes all of them |
| Chooser.ChooseWindows | main.php:263-281 | every prompt's window is [s, s+10) with s a multiple of 10 and lists exactly that window's entries; an empty line moves both bounds 10 further, a rejected line keeps them |
| Chooser.ChooseNumberTyped | main.php:272-274 | typing the numeral of n, 1 <= n <= |links|, returns links[n-1] after a single prompt and leaves all further lines unread |
| Chooser.PagingPastTheEnd | main.php:278-281 | a window at or past the end lists nothing, and an empty line there still advances the window by 10 |
| Rounds.AllFinished | main.php:285-292 | the roster is over exactly when each of its players is finished; `Games.Game.IsOver` is proved equal to it |
| Rounds.Results | main.php:294-299 | one (name, start, finish, steps) per player, in roster order; `Games.Game.GetResults` is proved equal to it |
| Rounds.Pass | main.php:234-248 | a pass keeps the roster length and consumes answers; a dead end always consumes one; a pass that consumes none and completes found every player finished and changed nothing |
| Rounds.PassEffect | main.php:234-248 | a pass leaves untouched every player before its start and from the player it stopped at on; between them finished players are skipped untouched and every unfinished one moves exactly once, onto a title of the answer fetched for its own page (the answer after those for the unfinished players before it); nobody's race changes; the stopping player (dead end, failure) is unfinished |
| Rounds.PassMovesAlongLinks | main.php:237-246 | an unfinished player that moves in a pass lands on a title of the answer fetched for its own page, the m-th answer consumed where m counts the unfinished players before it |
| Rounds.PassStepsBound | main.php:234-248 | in one pass each player's steps grow by at most one and a finished player's state is kept |
| Rounds.PassAsks | main.php:235-237 | the pages requested in a pass are the current pages of the unfinished players visited, in roster order, ending with the one the pass stopped at |
| Rounds.PassOverFinished | main.php:234-235 | a pass over finished players changes nothing and asks for nothing |
| Rounds.Round | main.php:232-255 | Game::play on scripted answers and lines: passes are repeated until a fetch fails, the script runs out, or every player is finished; its properties are stated by `RoundEffect`, `RoundUnfold`, `RoundOverAtOnce`, `RoundAbortsOnFailure` and `RoundGoesOnAfterDeadEnd` |
| Rounds.RoundUnfold | main.php:232-255 | after a round's first pass: a failed fetch ends it with an API error, running out of script ends it, a roster all finished ends it with results, and otherwise the next pass starts on a strictly shorter script of answers with the pages asked so far kept in front |
| Rounds.RoundOverAtOnce | main.php:232-253 | a roster whose players are all finished (including an empty one) ends the round at once with results, unchanged steps and no fetch |
| Rounds.RoundEffect | main.php:232-254 | a round yields results exactly when every player is finished, the results list every player in roster order with name/start/finish/steps; the roster keeps its length and races, finished players are never touched |
| Rounds.RoundAbortsOnFailure | main.php:237-241 | a fetch failure ends the round with an API error and no results; the failing player and every later one are as the pass found them |
| Rounds.RoundGoesOnAfterDeadEnd | main.php:242-249 | a dead end ends only the pass: later players do not move in it, not everyone is finished, and the round continues with the next pass |
| Rounds.TwoPlayerRace | main.php:232-254 | a concrete two-player round: one player finishes and is skipped afterwards, the other hits a dead end, then pages past the end and chooses; both finish in one step |
| Games.Game.constructor | main.php:229-230 | a new game has an empty roster |
| Games.Game.IsOver | main.php:285-292 | true exactly when every player in the roster is finished |
| Games.Game.GetResults | main.php:294-299 | one (name, start, finish, steps) per player, in roster order |
| Games.Game.MoveAt | main.php:246 | moving one player changes the roster at that index only |
| Games.Game.Turn | main.php:235-247 | one iteration of the foreach is one step of `Pass`: skip, fetch, stop on failure or dead end, or choose and move |
| Games.Game.TakeTurns | main.php:234-248 | the foreach over the roster computes `Pass` from the first player on |
| Games.Game.Conclude | main.php:238-254 | after a pass: a failed fetch stops with an API error; running out of script stops with `InputExhausted`; otherwise the game stops with the results exactly when every player is finished |
| Games.Game.Play | main.php:232-255 | the outcome, the roster left behind and the pages asked for are those of `Round` |
| Commands.FirstNamed | main.php:149-150 | the index found is the first whose name matches, or the roster length when none does |
| Commands.RemoveFirstNamed | main.php:147-157 | /rmplayer on the ordered roster: the player at `FirstNamed` is dropped and the others keep their order, or nothing changes when no one has the name; stated by `RemoveFirstNamedEffect`, and `App.RemovePlayer` is proved equal to it |
| Commands.RemoveFirstNamedEffect | main.php:147-157 | removing by name drops exactly one player (one namesake fewer) when some player has the name, and changes nothing otherwise |
| Commands.FirstFailure | main.php:172-178 | the first failed draw among the requests, every earlier draw having succeeded |
| Commands.ResetFrom | main.php:172-184 | /reset from index i on: player i takes the pages of the i-th draw, and the first failed draw stops the loop with the rest unchanged; stated by `ResetFromEffect`, and `App.ResetPages` is proved equal to it |
| Commands.ResetFromEffect | main.php:172-184 | /reset restarts, in index order, each player before the first failed draw on the pages of its own draw (start, finish, current = start, steps = 0) and leaves that player and all later ones unchanged |
| Commands.RemoveAsWritten | main.php:147-155 | /rmplayer as written on PHP's keyed array: the search starts at key 0; the first match is unset, leaving a hole at its key |
| Commands.RemoveAsWrittenFrom | main.php:149-153 | the search over keys i .. count - 1, with count the number of players left; a missing key reads as null, whose name equals only the empty string |
| Commands.RemoveAsWrittenMissesLastPlayer | main.php:147-155 | with the code's array holes, after removing the first of three players the last one can no longer be removed |
| Commands.RemoveFirstNamedRemovesLastPlayer | main.php:147-155 | on the ordered roster the same two removals succeed |
| App.AddPlayer | main.php:135-146 | on a successful draw a fresh player on the fixed pages is appended; on a failed draw the roster is unchanged |
| App.RemovePlayer | main.php:147-157 | the first player with the name is removed and the others keep their order; the result says whether one was found |
| App.ClearPlayers | main.php:158-165 | the roster ends empty; the result says whether it had players |
| App.RestartAt | main.php:179-182 | overwriting one player's four fields changes the roster at that index only |
| App.ResetPages | main.php:166-186 | the roster becomes `ResetFrom` of the old roster; the status is no players, an API error at the first failed draw, or all reset |

## Left out

- Console output (`IO::p`, `Format`, `FormatFlags`, main.php:5-48) is not modelled, except the entries the chooser lists at each prompt; the notifications of `move`, `play` and the commands are omitted.
- The HTTP transport (`Api`, main.php:50-90: query building, `file_get_contents`, JSON decoding) is replaced by the scripted answers described above.
- `readline`, the `/help`, `/players`, `/exit` and `/start` branches, the operating-system checks and the socket timeout (main.php:3, 109-134, 187-196) are process and terminal plumbing. `/start` only refuses an empty roster before calling `play`.
- Numeric.ParseInt: accepts an optional sign followed by decimal digits only; PHP's `is_numeric` also accepts surrounding whitespace, decimals and exponents, which `(int)` then truncates (so "1.5" selects link 1 in the program but is rejected in the model).
- Games.Game.Play: running out of scripted answers or lines ends the round with `InputExhausted`, which the program cannot do; in particular a player stuck on a page without links makes the program fetch forever, which the model shows as consuming one answer per pass.
- Chooser.ChooseLink: the end of the input script ends the loop with `OutOfInput`; the program would keep prompting.
- The roster is an ordered sequence; PHP's holes after `unset` in `/rmplayer` are modelled only in the Findings member `Commands.RemoveAsWritten`. With such a hole `/reset` reads a missing player (a PHP error); that is not modelled.
- Players.PlayerState.Finished, Players.Player.Finished, Commands.FirstNamed: compare strings exactly. PHP's `==` at main.php:225 and main.php:150 is a loose comparison, under which two numeric strings compare as numbers (`"007" == "7"`, `"1.0" == "1"`), so the program counts a player on page "007" with finish "7" as finished and `/rmplayer 1.0` removes a player named "1"; that numeric coercion is not modelled.
- Integers are unbounded: PHP's 64-bit limits on `steps` and on the window bounds are not modelled.
- The roster is assumed to hold each `Player` object once (`Game.Valid`), as every `/addplayer` creates a new object.

## Findings

| source | as written | input that shows it | evidently intended | confidence | as-written member | corrected member |
|---|---|---|---|---|---|---|
| main.php:149-151 | `/rmplayer` removes with `unset`, which leaves a hole in the array's keys, and searches `for ($i=0; $i < count(...); $i++)`, so after removing any player other than the one at the highest key, that key is never examined | players A, B, C; `/rmplayer A`, then `/rmplayer C` reports the player as not found | remove the first player with the name from the ordered roster | high (not executed) | Commands.RemoveAsWrittenMissesLastPlayer | Commands.RemoveFirstNamedRemovesLastPlayer |
