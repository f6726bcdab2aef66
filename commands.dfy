/**
 * Specifications of the roster commands of the command loop: removing the
 * first player with a given name (/rmplayer) and giving every player new pages
 * (/reset), plus the roster as the PHP code actually keeps it after removal.
 */
module Commands {
  import opened Players

  /** The random page service's answer to one request for two pages. */
  datatype Draw = DrawFailed | Drawn(first: string, second: string)

  /** The index of the first player named `name`, or |roster| when there is none. */
  function FirstNamed(roster: seq<PlayerState>, name: string): (k: nat)
    ensures k <= |roster|
    ensures k < |roster| ==> roster[k].name == name
    ensures forall j :: 0 <= j < k ==> roster[j].name != name
    decreases |roster|
  {
    if roster == [] || roster[0].name == name then 0 else 1 + FirstNamed(roster[1..], name)
  }

  /** /rmplayer on a roster kept in order: drop the first player named `name`, if any. */
  function RemoveFirstNamed(roster: seq<PlayerState>, name: string): seq<PlayerState> {
    var k := FirstNamed(roster, name);
    if k < |roster| then roster[..k] + roster[k + 1..] else roster
  }

  function CountNamed(roster: seq<PlayerState>, name: string): nat
    decreases |roster|
  {
    if roster == [] then 0 else (if roster[0].name == name then 1 else 0) + CountNamed(roster[1..], name)
  }

  lemma {:induction false} CountNamedAppend(a: seq<PlayerState>, b: seq<PlayerState>, name: string)
    ensures CountNamed(a + b, name) == CountNamed(a, name) + CountNamed(b, name)
    decreases |a|
  {
    if a != [] {
      assert (a + b)[1..] == a[1..] + b;
      CountNamedAppend(a[1..], b, name);
    } else {
      assert a + b == b;
    }
  }

  /**
   * /rmplayer removes exactly one player when some player has the name (so one
   * namesake fewer, the others kept in order) and leaves the roster unchanged
   * otherwise.
   */
  lemma RemoveFirstNamedEffect(roster: seq<PlayerState>, name: string)
    ensures var r := RemoveFirstNamed(roster, name);
      && ((exists j :: 0 <= j < |roster| && roster[j].name == name) ==>
            |r| == |roster| - 1 && CountNamed(r, name) == CountNamed(roster, name) - 1)
      && ((forall j :: 0 <= j < |roster| ==> roster[j].name != name) ==> r == roster)
  {
    var k := FirstNamed(roster, name);
    if k < |roster| {
      assert roster == roster[..k] + ([roster[k]] + roster[k + 1..]);
      CountNamedAppend(roster[..k], [roster[k]] + roster[k + 1..], name);
      CountNamedAppend([roster[k]], roster[k + 1..], name);
      CountNamedAppend(roster[..k], roster[k + 1..], name);
      assert [roster[k]][1..] == [];
    }
  }

  /** The index of the first failed draw among calls i .. n - 1, or n when none fails. */
  function FirstFailure(draw: nat -> Draw, i: nat, n: nat): (k: nat)
    requires i <= n
    ensures i <= k <= n
    ensures k < n ==> draw(k).DrawFailed?
    ensures forall j :: i <= j < k ==> draw(j).Drawn?
    decreases n - i
  {
    if i == n || draw(i).DrawFailed? then i else FirstFailure(draw, i + 1, n)
  }

  /** /reset from index i on: the i-th draw gives player i its new pages; the first failure stops. */
  function ResetFrom(roster: seq<PlayerState>, draw: nat -> Draw, i: nat): seq<PlayerState>
    requires i <= |roster|
    decreases |roster| - i
  {
    if i == |roster| then roster
    else match draw(i)
      case DrawFailed => roster
      case Drawn(a, b) => ResetFrom(roster[i := roster[i].Restarted(a, b)], draw, i + 1)
  }

  /**
   * /reset restarts, in index order, every player before the first failed draw
   * on the pages of its own draw, and leaves that player and every later one
   * unchanged; names never change.
   */
  lemma {:induction false} ResetFromEffect(roster: seq<PlayerState>, draw: nat -> Draw, i: nat)
    requires i <= |roster|
    ensures var r := ResetFrom(roster, draw, i);
      var k := FirstFailure(draw, i, |roster|);
      && |r| == |roster|
      && (forall j :: 0 <= j < |roster| && (j < i || j >= k) ==> r[j] == roster[j])
      && (forall j :: i <= j < k ==> r[j] == roster[j].Restarted(draw(j).first, draw(j).second))
      && (forall j :: 0 <= j < |roster| ==> r[j].name == roster[j].name)
    decreases |roster| - i
  {
    if i < |roster| && draw(i).Drawn? {
      ResetFromEffect(roster[i := roster[i].Restarted(draw(i).first, draw(i).second)], draw, i + 1);
    }
  }

  /**
   * /rmplayer as written: `unset` leaves a hole at the removed key, and the
   * search loop runs i = 0 .. count - 1 over keys, where count is the number of
   * players left.  A missing key reads as null, whose name compares equal to
   * the empty string only.
   */
  function RemoveAsWritten(roster: map<int, PlayerState>, name: string): (map<int, PlayerState>, bool) {
    RemoveAsWrittenFrom(roster, name, 0)
  }

  function RemoveAsWrittenFrom(roster: map<int, PlayerState>, name: string, i: nat): (map<int, PlayerState>, bool)
    decreases |roster| - i
  {
    if i >= |roster| then (roster, false)
    else if (i in roster && roster[i].name == name) || (i !in roster && name == "") then (roster - {i}, true)
    else RemoveAsWrittenFrom(roster, name, i + 1)
  }

  /**
   * With players A, B, C at keys 0, 1, 2, removing A leaves keys 1 and 2; the
   * search then looks at keys 0 and 1 only, so C can no longer be removed.
   */
  lemma RemoveAsWrittenMissesLastPlayer()
    ensures var a, b, c := NewPlayer("A", "S", "F"), NewPlayer("B", "S", "F"), NewPlayer("C", "S", "F");
      var afterA := RemoveAsWritten(map[0 := a, 1 := b, 2 := c], "A");
      && afterA == (map[1 := b, 2 := c], true)
      && c in afterA.0.Values
      && RemoveAsWritten(afterA.0, "C") == (afterA.0, false)
  {
    var a, b, c := NewPlayer("A", "S", "F"), NewPlayer("B", "S", "F"), NewPlayer("C", "S", "F");
    var m := map[0 := a, 1 := b, 2 := c];
    assert m.Keys == {0, 1, 2};
    assert |m| == 3;
    var m1 := map[1 := b, 2 := c];
    assert m - {0} == m1;
    assert m1.Keys == {1, 2};
    assert |m1| == 2;
    assert RemoveAsWrittenFrom(m, "A", 0) == (m1, true);
    assert RemoveAsWrittenFrom(m1, "C", 2) == (m1, false);
    assert RemoveAsWrittenFrom(m1, "C", 1) == (m1, false);
    assert RemoveAsWrittenFrom(m1, "C", 0) == (m1, false);
    assert m1[2] == c;
  }

  /** On the ordered roster the same two removals succeed. */
  lemma RemoveFirstNamedRemovesLastPlayer()
    ensures var a, b, c := NewPlayer("A", "S", "F"), NewPlayer("B", "S", "F"), NewPlayer("C", "S", "F");
      RemoveFirstNamed(RemoveFirstNamed([a, b, c], "A"), "C") == [b]
  {
    var a, b, c := NewPlayer("A", "S", "F"), NewPlayer("B", "S", "F"), NewPlayer("C", "S", "F");
    assert FirstNamed([a, b, c], "A") == 0;
    assert [a, b, c][1..] == [b, c];
    assert RemoveFirstNamed([a, b, c], "A") == [b, c];
    assert [b, c][1..] == [c];
    assert FirstNamed([c], "C") == 0;
    assert FirstNamed([b, c], "C") == 1;
    assert [b, c][..1] + [b, c][2..] == [b];
  }
}
