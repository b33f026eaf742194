/** Day 2, cube games: the per-colour maximum of a game's rounds, the
    playability test against a bag, the colour-sum reduction that turns a
    round's tokens into a triple, and the id sum of part 1. */
module Day02 {
  import opened Wrappers
  import opened Sums

  /** A (red, green, blue) triple of cube counts. */
  datatype Cubes = Cubes(red: int, green: int, blue: int)

  datatype Game = Game(id: int, rounds: seq<Cubes>)

  const Zero := Cubes(0, 0, 0)

  /** The bag of part 1: 12 red, 13 green and 14 blue cubes. */
  const Part1Bag := Cubes(12, 13, 14)

  function MaxInt(a: int, b: int): int {
    if a >= b then a else b
  }

  /** Componentwise maximum. */
  function Join(a: Cubes, b: Cubes): Cubes {
    Cubes(MaxInt(a.red, b.red), MaxInt(a.green, b.green), MaxInt(a.blue, b.blue))
  }

  /** `a` fits into `b`: every component of `a` is at most that of `b`. */
  predicate FitsIn(a: Cubes, b: Cubes) {
    a.red <= b.red && a.green <= b.green && a.blue <= b.blue
  }

  // ---------------------------------------------------------------------------
  // Game::max

  /** The componentwise maximum of (0, 0, 0) and all the rounds. */
  function MaxOf(rounds: seq<Cubes>): Cubes {
    if rounds == [] then Zero else Join(rounds[0], MaxOf(rounds[1..]))
  }

  /** Folding one more round in from the right joins it in. */
  lemma {:induction false} MaxOfSnoc(rounds: seq<Cubes>, r: Cubes)
    ensures MaxOf(rounds + [r]) == Join(MaxOf(rounds), r)
  {
    if rounds != [] {
      assert (rounds + [r])[1..] == rounds[1..] + [r];
      MaxOfSnoc(rounds[1..], r);
    }
  }

  /** `max`: a left fold that starts from (0, 0, 0) and reassigns the running
      triple for every round. */
  method Max(g: Game) returns (out: Cubes)
    ensures out == MaxOf(g.rounds)
  {
    out := Zero;
    for i := 0 to |g.rounds|
      invariant out == MaxOf(g.rounds[..i])
    {
      var r := g.rounds[i];
      assert g.rounds[..i + 1] == g.rounds[..i] + [r];
      MaxOfSnoc(g.rounds[..i], r);
      out := Cubes(MaxInt(r.red, out.red), MaxInt(r.green, out.green), MaxInt(r.blue, out.blue));
    }
    assert g.rounds[..|g.rounds|] == g.rounds;
  }

  /** The maximum is the least triple that is at least (0, 0, 0) and at
      least every round: a triple `b` bounds it exactly when `b` bounds
      (0, 0, 0) and every round. */
  lemma {:induction false} MaxOfIsLeastUpperBound(rounds: seq<Cubes>, b: Cubes)
    ensures FitsIn(MaxOf(rounds), b) <==> FitsIn(Zero, b) && forall i :: 0 <= i < |rounds| ==> FitsIn(rounds[i], b)
  {
    if rounds != [] {
      MaxOfIsLeastUpperBound(rounds[1..], b);
      assert forall i :: 1 <= i < |rounds| ==> rounds[i] == rounds[1..][i - 1];
    }
  }

  /** Every component of the maximum is non-negative and at least the same
      component of every round; with no rounds it is (0, 0, 0). */
  lemma MaxOfBounds(rounds: seq<Cubes>)
    ensures FitsIn(Zero, MaxOf(rounds))
    ensures forall i :: 0 <= i < |rounds| ==> FitsIn(rounds[i], MaxOf(rounds))
    ensures rounds == [] ==> MaxOf(rounds) == Zero
  {
    MaxOfIsLeastUpperBound(rounds, MaxOf(rounds));
  }

  // ---------------------------------------------------------------------------
  // Game::can_be_playable_with

  /** `can_be_playable_with`: the bag holds at least the game's maximum of
      every colour. */
  predicate CanBePlayableWith(g: Game, bag: Cubes) {
    FitsIn(MaxOf(g.rounds), bag)
  }

  /** A game fits a bag exactly when every round fits it and no component of
      the bag is negative (the maximum starts from (0, 0, 0)). */
  lemma PlayableIffEveryRoundFits(g: Game, bag: Cubes)
    ensures CanBePlayableWith(g, bag) <==>
              FitsIn(Zero, bag) && forall i :: 0 <= i < |g.rounds| ==> FitsIn(g.rounds[i], bag)
  {
    MaxOfIsLeastUpperBound(g.rounds, bag);
  }

  /** A game that fits a bag fits every larger bag. */
  lemma PlayableMonotone(g: Game, bag: Cubes, bigger: Cubes)
    requires FitsIn(bag, bigger)
    ensures CanBePlayableWith(g, bag) ==> CanBePlayableWith(g, bigger)
  {
  }

  // ---------------------------------------------------------------------------
  // The round reduction inside Game::from_str

  /** One ", "-separated token of a round: a count and a colour name. */
  datatype ColourCount = ColourCount(count: int, name: string)

  /** The triple one token contributes; an unknown colour name panics. */
  function Contribution(t: ColourCount): Option<Cubes> {
    match t.name
    case "red" => Some(Cubes(t.count, 0, 0))
    case "green" => Some(Cubes(0, t.count, 0))
    case "blue" => Some(Cubes(0, 0, t.count))
    case _ => None
  }

  function Add(a: Cubes, b: Cubes): Cubes {
    Cubes(a.red + b.red, a.green + b.green, a.blue + b.blue)
  }

  /** `reduce` over the remaining tokens, from the running total `acc`. */
  function Reduce(acc: Cubes, tokens: seq<ColourCount>): Option<Cubes>
    decreases |tokens|
  {
    if tokens == [] then Some(acc)
    else match Contribution(tokens[0])
      case None => None
      case Some(c) => Reduce(Add(acc, c), tokens[1..])
  }

  /** A round's triple: the contributions of its tokens added up by `reduce`,
      whose `unwrap` panics on a round with no token. */
  function RoundCubes(tokens: seq<ColourCount>): Option<Cubes> {
    if tokens == [] then None
    else match Contribution(tokens[0])
      case None => None
      case Some(c) => Reduce(c, tokens[1..])
  }

  predicate KnownColour(name: string) {
    name == "red" || name == "green" || name == "blue"
  }

  /** Every token names red, green or blue. */
  predicate AllKnown(tokens: seq<ColourCount>) {
    forall i :: 0 <= i < |tokens| ==> KnownColour(tokens[i].name)
  }

  /** The sum of the counts of the tokens that name colour `name`. */
  function ColourTotal(tokens: seq<ColourCount>, name: string): int {
    if tokens == [] then 0
    else Share(tokens[0], name) + ColourTotal(tokens[1..], name)
  }

  /** The per-colour totals of a list of tokens. */
  function Totals(tokens: seq<ColourCount>): Cubes {
    Cubes(ColourTotal(tokens, "red"), ColourTotal(tokens, "green"), ColourTotal(tokens, "blue"))
  }

  /** A known colour contributes its count to its own colour only. */
  lemma ContributionIsShares(t: ColourCount)
    ensures Contribution(t).Some? <==> KnownColour(t.name)
    ensures KnownColour(t.name) ==> Contribution(t).value == Cubes(Share(t, "red"), Share(t, "green"), Share(t, "blue"))
  {
  }

  /** Peeling the first token off the totals. */
  lemma TotalsCons(tokens: seq<ColourCount>)
    requires tokens != [] && KnownColour(tokens[0].name)
    ensures Totals(tokens) == Add(Contribution(tokens[0]).value, Totals(tokens[1..]))
  {
    ContributionIsShares(tokens[0]);
  }

  lemma {:induction false} ReduceIsColourTotals(acc: Cubes, tokens: seq<ColourCount>)
    ensures Reduce(acc, tokens) == if AllKnown(tokens) then Some(Add(acc, Totals(tokens))) else None
    decreases |tokens|
  {
    if tokens != [] {
      var t := tokens[0];
      assert forall i :: 1 <= i < |tokens| ==> tokens[i] == tokens[1..][i - 1];
      assert AllKnown(tokens) <==> KnownColour(t.name) && AllKnown(tokens[1..]);
      ContributionIsShares(t);
      if KnownColour(t.name) {
        ReduceIsColourTotals(Add(acc, Contribution(t).value), tokens[1..]);
        TotalsCons(tokens);
      }
    }
  }

  /** A round is the per-colour sum of its tokens; it is missing (a panic)
      exactly when the round is empty or names an unknown colour. */
  lemma RoundCubesIsColourTotals(tokens: seq<ColourCount>)
    ensures RoundCubes(tokens) == if tokens != [] && AllKnown(tokens) then Some(Totals(tokens)) else None
  {
    if tokens != [] {
      var t := tokens[0];
      assert forall i :: 1 <= i < |tokens| ==> tokens[i] == tokens[1..][i - 1];
      assert AllKnown(tokens) <==> KnownColour(t.name) && AllKnown(tokens[1..]);
      ContributionIsShares(t);
      if KnownColour(t.name) {
        ReduceIsColourTotals(Contribution(t).value, tokens[1..]);
        TotalsCons(tokens);
      }
    }
  }

  lemma {:induction false} ColourTotalAppend(a: seq<ColourCount>, b: seq<ColourCount>, name: string)
    ensures ColourTotal(a + b, name) == ColourTotal(a, name) + ColourTotal(b, name)
  {
    if a != [] {
      assert (a + b)[1..] == a[1..] + b;
      ColourTotalAppend(a[1..], b, name);
    } else {
      assert a + b == b;
    }
  }

  /** What one token adds to the total of colour `name`. */
  function Share(t: ColourCount, name: string): int {
    if t.name == name then t.count else 0
  }

  /** Taking the token at `j` out of a list: its multiset loses that token
      and every colour total loses that token's share. */
  lemma RemoveToken(b: seq<ColourCount>, j: nat, name: string)
    requires j < |b|
    ensures multiset(b[..j] + b[j + 1..]) == multiset(b) - multiset{b[j]}
    ensures ColourTotal(b, name) == Share(b[j], name) + ColourTotal(b[..j] + b[j + 1..], name)
  {
    assert b == b[..j] + [b[j]] + b[j + 1..];
    ColourTotalAppend(b[..j] + [b[j]], b[j + 1..], name);
    ColourTotalAppend(b[..j], [b[j]], name);
    ColourTotalAppend(b[..j], b[j + 1..], name);
    assert [b[j]][1..] == [];
  }

  /** Colour totals do not depend on the order of the tokens. */
  lemma {:induction false} ColourTotalPermutation(a: seq<ColourCount>, b: seq<ColourCount>, name: string)
    requires multiset(a) == multiset(b)
    ensures ColourTotal(a, name) == ColourTotal(b, name)
    decreases |a|
  {
    if a != [] {
      var x, rest := a[0], a[1..];
      assert a == [x] + rest;
      assert multiset(a) == multiset{x} + multiset(rest);
      assert x in multiset(b);
      assert x in b;
      var j :| 0 <= j < |b| && b[j] == x;
      RemoveToken(b, j, name);
      assert multiset(rest) == multiset(b[..j] + b[j + 1..]);
      ColourTotalPermutation(rest, b[..j] + b[j + 1..], name);
      assert ColourTotal(a, name) == Share(x, name) + ColourTotal(rest, name);
    } else {
      assert |multiset(b)| == 0;
      assert b == [];
    }
  }

  /** The order of the colour tokens within a round does not matter. */
  lemma RoundCubesOrderFree(a: seq<ColourCount>, b: seq<ColourCount>)
    requires multiset(a) == multiset(b)
    ensures RoundCubes(a) == RoundCubes(b)
  {
    RoundCubesIsColourTotals(a);
    RoundCubesIsColourTotals(b);
    ColourTotalPermutation(a, b, "red");
    ColourTotalPermutation(a, b, "green");
    ColourTotalPermutation(a, b, "blue");
    assert |a| == |multiset(a)| == |multiset(b)| == |b|;
    assert forall t :: t in a <==> t in b by {
      forall t ensures t in a <==> t in b {
        assert t in a <==> t in multiset(a);
        assert t in b <==> t in multiset(b);
      }
    }
    assert AllKnown(a) <==> AllKnown(b) by {
      if AllKnown(a) {
        forall i | 0 <= i < |b| ensures KnownColour(b[i].name) {
          assert b[i] in a;
        }
      }
      if AllKnown(b) {
        forall i | 0 <= i < |a| ensures KnownColour(a[i].name) {
          assert a[i] in b;
        }
      }
    }
  }

  /** The rounds of a game, ";"-separated, each reduced to its triple; any
      round that panics makes the whole parse panic. */
  function ParseRounds(rounds: seq<seq<ColourCount>>): Option<seq<Cubes>> {
    if rounds == [] then Some([])
    else
      var first := RoundCubes(rounds[0]);
      var rest := ParseRounds(rounds[1..]);
      if first.Some? && rest.Some? then Some([first.value] + rest.value) else None
  }

  /** The parsed rounds, when there are any, are the rounds' triples in order. */
  lemma {:induction false} ParseRoundsInOrder(rounds: seq<seq<ColourCount>>)
    ensures ParseRounds(rounds).Some? <==> forall i :: 0 <= i < |rounds| ==> RoundCubes(rounds[i]).Some?
    ensures ParseRounds(rounds).Some? ==>
              |ParseRounds(rounds).value| == |rounds| &&
              forall i :: 0 <= i < |rounds| ==> ParseRounds(rounds).value[i] == RoundCubes(rounds[i]).value
  {
    if rounds != [] {
      ParseRoundsInOrder(rounds[1..]);
      assert forall i :: 1 <= i < |rounds| ==> rounds[i] == rounds[1..][i - 1];
    }
  }

  /** The three rounds of the example line "Game 3: 8 green, 6 blue, 20
      red; 5 blue, 4 red, 13 green; 5 green, 1 red", tokenized. */
  lemma ExampleRound1()
    ensures RoundCubes([ColourCount(8, "green"), ColourCount(6, "blue"), ColourCount(20, "red")]) == Some(Cubes(20, 8, 6))
  {
    var ts := [ColourCount(8, "green"), ColourCount(6, "blue"), ColourCount(20, "red")];
    assert Contribution(ts[0]) == Some(Cubes(0, 8, 0));
    assert Contribution(ts[1]) == Some(Cubes(0, 0, 6));
    assert Contribution(ts[2]) == Some(Cubes(20, 0, 0));
    assert Reduce(Cubes(20, 8, 6), ts[3..]) == Some(Cubes(20, 8, 6));
    assert ts[2..][1..] == ts[3..];
    assert Reduce(Cubes(0, 8, 6), ts[2..]) == Some(Cubes(20, 8, 6));
    assert ts[1..][1..] == ts[2..];
    assert Reduce(Cubes(0, 8, 0), ts[1..]) == Some(Cubes(20, 8, 6));
  }

  lemma ExampleRound2()
    ensures RoundCubes([ColourCount(5, "blue"), ColourCount(4, "red"), ColourCount(13, "green")]) == Some(Cubes(4, 13, 5))
  {
    var ts := [ColourCount(5, "blue"), ColourCount(4, "red"), ColourCount(13, "green")];
    assert Contribution(ts[0]) == Some(Cubes(0, 0, 5));
    assert Contribution(ts[1]) == Some(Cubes(4, 0, 0));
    assert Contribution(ts[2]) == Some(Cubes(0, 13, 0));
    assert Reduce(Cubes(4, 13, 5), ts[3..]) == Some(Cubes(4, 13, 5));
    assert ts[2..][1..] == ts[3..];
    assert Reduce(Cubes(4, 0, 5), ts[2..]) == Some(Cubes(4, 13, 5));
    assert ts[1..][1..] == ts[2..];
    assert Reduce(Cubes(0, 0, 5), ts[1..]) == Some(Cubes(4, 13, 5));
  }

  lemma ExampleRound3()
    ensures RoundCubes([ColourCount(5, "green"), ColourCount(1, "red")]) == Some(Cubes(1, 5, 0))
  {
    var ts := [ColourCount(5, "green"), ColourCount(1, "red")];
    assert Contribution(ts[0]) == Some(Cubes(0, 5, 0));
    assert Contribution(ts[1]) == Some(Cubes(1, 0, 0));
    assert Reduce(Cubes(1, 5, 0), ts[2..]) == Some(Cubes(1, 5, 0));
    assert ts[1..][1..] == ts[2..];
    assert Reduce(Cubes(0, 5, 0), ts[1..]) == Some(Cubes(1, 5, 0));
  }

  /** The whole example line gives the rounds (20, 8, 6), (4, 13, 5) and
      (1, 5, 0). */
  lemma ExampleGameParse()
    ensures ParseRounds([[ColourCount(8, "green"), ColourCount(6, "blue"), ColourCount(20, "red")],
                         [ColourCount(5, "blue"), ColourCount(4, "red"), ColourCount(13, "green")],
                         [ColourCount(5, "green"), ColourCount(1, "red")]])
            == Some([Cubes(20, 8, 6), Cubes(4, 13, 5), Cubes(1, 5, 0)])
  {
    var rounds := [[ColourCount(8, "green"), ColourCount(6, "blue"), ColourCount(20, "red")],
                   [ColourCount(5, "blue"), ColourCount(4, "red"), ColourCount(13, "green")],
                   [ColourCount(5, "green"), ColourCount(1, "red")]];
    ExampleRound1();
    ExampleRound2();
    ExampleRound3();
    ParseRoundsInOrder(rounds);
    var parsed := ParseRounds(rounds).value;
    assert parsed[0] == Cubes(20, 8, 6) && parsed[1] == Cubes(4, 13, 5) && parsed[2] == Cubes(1, 5, 0);
    assert parsed == [Cubes(20, 8, 6), Cubes(4, 13, 5), Cubes(1, 5, 0)];
  }

  // ---------------------------------------------------------------------------
  // pt1

  /** The ids of the games that fit the part 1 bag, in order. */
  function FittingIds(games: seq<Game>): seq<int> {
    if games == [] then []
    else (if CanBePlayableWith(games[0], Part1Bag) then [games[0].id] else []) + FittingIds(games[1..])
  }

  /** `pt1`: the sum of the ids of the games that fit (12, 13, 14); the
      `unwrap` of the empty `reduce` panics when no game fits. */
  function Pt1(games: seq<Game>): Option<int> {
    var ids := FittingIds(games);
    if ids == [] then None else Some(Sum(ids))
  }

  /** Each game's contribution to part 1: its id if it fits, else nothing. */
  function IdIfFits(games: seq<Game>): int {
    if games == [] then 0
    else (if CanBePlayableWith(games[0], Part1Bag) then games[0].id else 0) + IdIfFits(games[1..])
  }

  /** The fitting ids add up to the id of every fitting game, and there are
      none exactly when no game fits. */
  lemma {:induction false} FittingIdsSum(games: seq<Game>)
    ensures Sum(FittingIds(games)) == IdIfFits(games)
    ensures FittingIds(games) == [] <==> forall i :: 0 <= i < |games| ==> !CanBePlayableWith(games[i], Part1Bag)
  {
    if games != [] {
      FittingIdsSum(games[1..]);
      assert forall i :: 1 <= i < |games| ==> games[i] == games[1..][i - 1];
      var ids := FittingIds(games[1..]);
      if CanBePlayableWith(games[0], Part1Bag) {
        assert FittingIds(games) == [games[0].id] + ids;
        assert ([games[0].id] + ids)[1..] == ids;
      } else {
        assert FittingIds(games) == ids;
      }
    }
  }

  /** Part 1 panics exactly when no game fits, and otherwise adds the id of
      every fitting game once. */
  lemma Pt1IsFittingIdSum(games: seq<Game>)
    ensures Pt1(games).None? <==> forall i :: 0 <= i < |games| ==> !CanBePlayableWith(games[i], Part1Bag)
    ensures Pt1(games).Some? ==> Pt1(games).value == IdIfFits(games)
  {
    FittingIdsSum(games);
  }

  /** The five example games: games 1, 2 and 5 fit, so part 1 gives 8. */
  lemma ExamplePt1()
    ensures Pt1([Game(1, [Cubes(4, 0, 3), Cubes(1, 2, 6), Cubes(0, 2, 0)]),
                 Game(2, [Cubes(0, 2, 1), Cubes(1, 3, 4), Cubes(0, 1, 1)]),
                 Game(3, [Cubes(20, 8, 6), Cubes(4, 13, 5), Cubes(1, 5, 0)]),
                 Game(4, [Cubes(3, 1, 6), Cubes(6, 3, 0), Cubes(14, 3, 15)]),
                 Game(5, [Cubes(6, 3, 1), Cubes(1, 2, 2)])]) == Some(8)
  {
  }
}
