/**
 * The paginated link chooser (Game::choose_link).  It lists the links ten at a
 * time with 1-based numbers over the whole list, reads one line per prompt, and
 * either returns the numbered link, pages on (an empty line), or warns and
 * prompts again (any other line).  The input source is a finite script of lines.
 */
module Chooser {
  import opened Wrappers
  import opened Numeric

  const PageSize: nat := 10

  /** One displayed option: its 1-based number and the link title. */
  datatype Entry = Entry(number: nat, title: string)

  /** What the chooser did with the line read at a prompt. */
  datatype Reaction = Select | LoadMore | Reject

  /** One prompt: the window [s, e), the entries listed for it, and the reaction to the line read. */
  datatype Prompt = Prompt(s: nat, e: nat, shown: seq<Entry>, reaction: Reaction)

  /** The chosen link with the lines still unread, or the script ran out first. */
  datatype Pick = Picked(title: string, rest: seq<string>) | OutOfInput

  datatype Session = Session(pick: Pick, prompts: seq<Prompt>)

  function Min(a: int, b: int): int {
    if a <= b then a else b
  }

  /** How many entries the window [s, e) lists for `count` links. */
  function WindowSize(count: nat, s: nat, e: nat): nat {
    if Min(e, count) > s then Min(e, count) - s else 0
  }

  /** The entries listed for the window [s, e): indices s .. min(e, |links|) - 1, numbered from s + 1. */
  function Window(links: seq<string>, s: nat, e: nat): seq<Entry> {
    var n := WindowSize(|links|, s, e);
    seq(n, k requires 0 <= k < n => Entry(s + k + 1, links[s + k]))
  }

  /** The link number a line selects: a numeral n with 1 <= n <= count. */
  function Selection(input: string, count: nat): (r: Option<nat>)
    ensures r.Some? ==> 1 <= r.value <= count
    ensures r.Some? <==> ParseInt(input).Some? && 1 <= ParseInt(input).value <= count
    ensures r.Some? ==> r.value == ParseInt(input).value
  {
    match ParseInt(input)
    case Some(n) => if 1 <= n <= count then Some(n as nat) else None
    case None => None
  }

  function Reacting(input: string, count: nat): Reaction {
    if input == "" then LoadMore
    else if Selection(input, count).Some? then Select
    else Reject
  }

  /** The chooser run on `links` with the window starting at s, reading `lines`. */
  function Choose(links: seq<string>, s: nat, lines: seq<string>): Session
    decreases |lines|
  {
    if lines == [] then Session(OutOfInput, [])
    else
      var e := s + PageSize;
      var shown := Window(links, s, e);
      if lines[0] != "" then
        match Selection(lines[0], |links|)
        case Some(n) => Session(Picked(links[n - 1], lines[1..]), [Prompt(s, e, shown, Select)])
        case None =>
          var r := Choose(links, s, lines[1..]);
          Session(r.pick, [Prompt(s, e, shown, Reject)] + r.prompts)
      else
        var r := Choose(links, e, lines[1..]);
        Session(r.pick, [Prompt(s, e, shown, LoadMore)] + r.prompts)
  }

  function Prefixed(ps: seq<Prompt>, r: Session): Session {
    Session(r.pick, ps + r.prompts)
  }

  /** The first prompt reacts to the first line; unless it selects, the rest of the session is the chooser's on the next window. */
  lemma ChooseFirstLine(links: seq<string>, s: nat, lines: seq<string>)
    requires lines != []
    ensures var r := Choose(links, s, lines);
      var next := Choose(links, if lines[0] == "" then s + PageSize else s, lines[1..]);
      && |r.prompts| > 0
      && r.prompts[0].reaction == Reacting(lines[0], |links|)
      && (r.prompts[0].reaction == Select ==>
            && |r.prompts| == 1 && r.pick.Picked? && r.pick.rest == lines[1..]
            && r.pick.title == links[Selection(lines[0], |links|).value - 1] && r.pick.title in links)
      && (r.prompts[0].reaction != Select ==> r.pick == next.pick && r.prompts[1..] == next.prompts)
  {
  }

  /**
   * One prompt per line read, each reacting to its own line; only the last
   * prompt of a successful choice selects; the chosen link is in the list;
   * the unread lines are exactly the ones after the selecting line.
   */
  ghost predicate Consumes(links: seq<string>, lines: seq<string>, r: Session) {
    && |r.prompts| <= |lines|
    && (forall k :: 0 <= k < |r.prompts| ==> r.prompts[k].reaction == Reacting(lines[k], |links|))
    && (forall k :: 0 <= k < |r.prompts| - 1 ==> r.prompts[k].reaction != Select)
    && (r.pick.OutOfInput? ==> |r.prompts| == |lines| && (|lines| > 0 ==> r.prompts[|lines| - 1].reaction != Select))
    && (r.pick.Picked? ==>
          && |r.prompts| > 0
          && r.prompts[|r.prompts| - 1].reaction == Select
          && r.pick.rest == lines[|r.prompts|..]
          && r.pick.title == links[Selection(lines[|r.prompts| - 1], |links|).value - 1]
          && r.pick.title in links)
  }

  lemma {:induction false} ChooseConsumes(links: seq<string>, s: nat, lines: seq<string>)
    ensures Consumes(links, lines, Choose(links, s, lines))
    decreases |lines|
  {
    if lines != [] {
      var r := Choose(links, s, lines);
      ChooseFirstLine(links, s, lines);
      if r.prompts[0].reaction != Select {
        var s' := if lines[0] == "" then s + PageSize else s;
        ChooseConsumes(links, s', lines[1..]);
        ConsumesStep(links, lines, r, Choose(links, s', lines[1..]));
      }
    }
  }

  /** Prepending a prompt that does not select, for the line it read, keeps Consumes. */
  lemma ConsumesStep(links: seq<string>, lines: seq<string>, r: Session, next: Session)
    requires lines != [] && |r.prompts| > 0
    requires r.prompts[0].reaction == Reacting(lines[0], |links|) != Select
    requires r.pick == next.pick && r.prompts[1..] == next.prompts
    requires Consumes(links, lines[1..], next)
    ensures Consumes(links, lines, r)
  {
    forall k | 1 <= k < |r.prompts|
      ensures r.prompts[k] == next.prompts[k - 1] && lines[k] == lines[1..][k - 1]
    {
    }
    if r.pick.Picked? {
      assert lines[|r.prompts|..] == lines[1..][|next.prompts|..];
      assert lines[|r.prompts| - 1] == lines[1..][|next.prompts| - 1];
    }
  }

  /**
   * The window invariant: every prompt shows [s, s + 10) with s a multiple of 10,
   * lists exactly that window's entries, and the next prompt's window is 10
   * further after an empty line and the same after a rejected one.
   */
  lemma {:induction false} ChooseWindows(links: seq<string>, s: nat, lines: seq<string>)
    requires s % PageSize == 0
    ensures var ps := Choose(links, s, lines).prompts;
      && (|ps| > 0 ==> ps[0].s == s)
      && (forall k :: 0 <= k < |ps| ==>
            ps[k].e == ps[k].s + PageSize && ps[k].s % PageSize == 0 && ps[k].s >= s
            && ps[k].shown == Window(links, ps[k].s, ps[k].e))
      && (forall k :: 0 <= k < |ps| - 1 ==>
            ps[k + 1].s == (if ps[k].reaction == LoadMore then ps[k].s + PageSize else ps[k].s))
    decreases |lines|
  {
    if lines != [] {
      var e := s + PageSize;
      if lines[0] != "" {
        match Selection(lines[0], |links|)
        case Some(n) =>
        case None => ChooseWindows(links, s, lines[1..]);
      } else {
        ChooseWindows(links, e, lines[1..]);
      }
    }
  }

  /** Typing the numeral of n, 1 <= n <= |links|, returns links[n - 1] and reads nothing further. */
  lemma ChooseNumberTyped(links: seq<string>, s: nat, n: nat, rest: seq<string>)
    requires 1 <= n <= |links|
    ensures Choose(links, s, [NatToString(n)] + rest)
         == Session(Picked(links[n - 1], rest), [Prompt(s, s + PageSize, Window(links, s, s + PageSize), Select)])
  {
    ParseIntRoundTrip(n);
    assert IntToString(n) == NatToString(n);
    assert ([NatToString(n)] + rest)[1..] == rest;
  }

  /** A window that starts at or past the end of the list lists nothing, and paging on from it is still allowed. */
  lemma PagingPastTheEnd(links: seq<string>, s: nat, rest: seq<string>)
    requires s >= |links|
    ensures Window(links, s, s + PageSize) == []
    ensures Choose(links, s, [""] + rest) == Prefixed([Prompt(s, s + PageSize, [], LoadMore)], Choose(links, s + PageSize, rest))
  {
    assert ([""] + rest)[1..] == rest;
  }

  /** Lists the entries of the window [s, e) (lines 266-269). */
  method ShowWindow(links: seq<string>, s: nat, e: nat) returns (shown: seq<Entry>)
    ensures |shown| == WindowSize(|links|, s, e)
    ensures forall k :: 0 <= k < |shown| ==> shown[k].number == s + k + 1 && shown[k].title == links[shown[k].number - 1]
    ensures shown == Window(links, s, e)
  {
    shown := [];
    var i := s;
    while i < Min(e, |links|)
      invariant s <= i
      invariant i <= Min(e, |links|) || i == s
      invariant |shown| == i - s
      invariant forall k :: 0 <= k < |shown| ==> shown[k] == Entry(s + k + 1, links[s + k])
    {
      shown := shown + [Entry(i + 1, links[i])];
      i := i + 1;
    }
  }

  /** Game::choose_link, reading the script `lines`. */
  method ChooseLink(links: seq<string>, lines: seq<string>) returns (pick: Pick, prompts: seq<Prompt>)
    ensures Session(pick, prompts) == Choose(links, 0, lines)
  {
    var s: nat, e: nat := 0, PageSize;
    var i := 0;
    prompts := [];
    while i < |lines|
      invariant i <= |lines| && e == s + PageSize
      invariant Choose(links, 0, lines) == Prefixed(prompts, Choose(links, s, lines[i..]))
    {
      ghost var unread := lines[i..];
      ghost var before := prompts;
      var shown := ShowWindow(links, s, e);
      var input := lines[i];
      assert unread[0] == input && unread[1..] == lines[i + 1..];
      i := i + 1;
      if input != "" {
        var sel := Selection(input, |links|);
        if sel.Some? {
          prompts := prompts + [Prompt(s, e, shown, Select)];
          pick := Picked(links[sel.value - 1], lines[i..]);
          return;
        }
        prompts := prompts + [Prompt(s, e, shown, Reject)];
        PrefixedTwice(before, Prompt(s, e, shown, Reject), Choose(links, s, lines[i..]));
      } else {
        prompts := prompts + [Prompt(s, e, shown, LoadMore)];
        PrefixedTwice(before, Prompt(s, e, shown, LoadMore), Choose(links, e, lines[i..]));
        s, e := s + PageSize, e + PageSize;
      }
    }
    pick := OutOfInput;
  }

  lemma PrefixedTwice(ps: seq<Prompt>, p: Prompt, r: Session)
    ensures Prefixed(ps, Prefixed([p], r)) == Prefixed(ps + [p], r)
  {
    assert ps + ([p] + r.prompts) == (ps + [p]) + r.prompts;
  }
}
