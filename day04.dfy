/** Day 4, scratchcards: digit-run parsing of a card's two number lists, the
    doubling score of part 1 and the copy propagation of part 2. */
module Day04 {
  import opened Ascii
  import opened Sums

  /** A parsed card: the numbers the player has and the winning numbers. */
  datatype Card = Card(id: int, numbers: seq<int>, winningNumbers: seq<int>)

  // ---------------------------------------------------------------------------
  // parse_nums

  /** The decimal values of the maximal digit runs of `line` at or after `i`,
      left to right: the k-th value is that of the k-th run `Runs` finds. */
  function NumberRuns(line: string, i: nat): seq<nat>
    requires i <= |line|
    decreases |line| - i
  {
    if i == |line| then []
    else if IsDigit(line[i]) then [DecimalValue(line[i..RunEnd(line, i)])] + NumberRuns(line, RunEnd(line, i))
    else NumberRuns(line, i + 1)
  }

  /** The k-th value is the value of the k-th run. */
  lemma {:induction false} NumberRunsAreRunValues(line: string, i: nat)
    requires i <= |line|
    ensures |NumberRuns(line, i)| == |Runs(line, i)|
    ensures forall k :: 0 <= k < |Runs(line, i)| ==>
              NumberRuns(line, i)[k] == DecimalValue(line[Runs(line, i)[k].0..Runs(line, i)[k].1])
    decreases |line| - i
  {
    if i < |line| {
      if IsDigit(line[i]) {
        var e := RunEnd(line, i);
        NumberRunsAreRunValues(line, e);
        var r, rest := Runs(line, i), Runs(line, e);
        var n, nrest := NumberRuns(line, i), NumberRuns(line, e);
        assert r == [(i, e)] + rest;
        assert n == [DecimalValue(line[i..e])] + nrest;
        forall k | 0 <= k < |r|
          ensures n[k] == DecimalValue(line[r[k].0..r[k].1])
        {
          if k > 0 {
            assert r[k] == rest[k - 1] && n[k] == nrest[k - 1];
          }
        }
      } else {
        NumberRunsAreRunValues(line, i + 1);
        assert Runs(line, i) == Runs(line, i + 1);
        assert NumberRuns(line, i) == NumberRuns(line, i + 1);
      }
    }
  }

  /** `parse_nums`: a cursor scanner in which `start` marks the first digit of
      the run being read, and a run is emitted when a non-digit or the end of
      the line closes it. */
  method ParseNums(line: string) returns (acc: seq<int>)
    ensures acc == NumberRuns(line, 0)
  {
    var start := 0;
    var end := 0;
    var inNumber := false;
    acc := [];
    while end < |line|
      invariant 0 <= start <= end <= |line|
      invariant inNumber ==> start < end && forall k :: start <= k < end ==> IsDigit(line[k])
      invariant acc + NumberRuns(line, if inNumber then start else end) == NumberRuns(line, 0)
    {
      if IsDigit(line[end]) {
        if !inNumber {
          start := end;
        }
        inNumber := true;
      } else {
        if inNumber {
          RunEndIsUnique(line, start, end);
          var num := DecimalValue(line[start..end]);
          acc := acc + [num];
          start := end;
          inNumber := false;
        }
      }
      end := end + 1;
    }
    if inNumber {
      RunEndIsUnique(line, start, end);
      var num := DecimalValue(line[start..end]);
      acc := acc + [num];
    }
  }

  /** The scanner's output names every maximal run once, in order: the k-th
      value is the value of the k-th run, each run is maximal and every run
      of the line is there. */
  lemma NumberRunsAreMaximalRuns(line: string)
    ensures |NumberRuns(line, 0)| == |Runs(line, 0)|
    ensures forall k :: 0 <= k < |Runs(line, 0)| ==>
              var run := Runs(line, 0)[k];
              RunStart(line, run.0) && NumberRuns(line, 0)[k] == DecimalValue(line[run.0..RunEnd(line, run.0)])
    ensures forall j :: 0 <= j < |line| && RunStart(line, j) ==>
              exists k :: 0 <= k < |Runs(line, 0)| && Runs(line, 0)[k].0 == j
    ensures forall k :: 0 <= k < |Runs(line, 0)| - 1 ==> Runs(line, 0)[k].0 < Runs(line, 0)[k + 1].0
  {
    NumberRunsAreRunValues(line, 0);
    RunsMaximal(line, 0);
    RunsOrdered(line, 0);
    forall j | 0 <= j < |line| && RunStart(line, j)
      ensures exists k :: 0 <= k < |Runs(line, 0)| && Runs(line, 0)[k].0 == j
    {
      RunsComplete(line, 0, j);
    }
  }

  /** A line with no digit parses to the empty list, and only such a line. */
  lemma NumberRunsEmpty(line: string)
    ensures NumberRuns(line, 0) == [] <==> forall j :: 0 <= j < |line| ==> !IsDigit(line[j])
  {
    NumberRunsAreRunValues(line, 0);
    RunsEmpty(line, 0);
  }

  // ---------------------------------------------------------------------------
  // Card::matches and Card::score

  /** How many entries of `xs`, counted with multiplicity, occur in `ys`. */
  function CountIn(xs: seq<int>, ys: seq<int>): nat {
    if xs == [] then 0 else (if xs[0] in ys then 1 else 0) + CountIn(xs[1..], ys)
  }

  lemma {:induction false} CountInSnoc(xs: seq<int>, x: int, ys: seq<int>)
    ensures CountIn(xs + [x], ys) == CountIn(xs, ys) + (if x in ys then 1 else 0)
  {
    if xs != [] {
      assert (xs + [x])[1..] == xs[1..] + [x];
      CountInSnoc(xs[1..], x, ys);
    }
  }

  /** The number of the player's numbers that are winning numbers. */
  function Matches(c: Card): nat {
    CountIn(c.numbers, c.winningNumbers)
  }

  /** The indices of `xs` whose entry occurs in `ys`. */
  function HitIndices(xs: seq<int>, ys: seq<int>): set<nat> {
    set i: nat | i < |xs| && xs[i] in ys
  }

  /** `matches` counts positions, not distinct values: it is the number of
      indices of `numbers` whose entry is a winning number. */
  lemma {:induction false} MatchesCountsPositions(xs: seq<int>, ys: seq<int>)
    ensures CountIn(xs, ys) == |HitIndices(xs, ys)|
    ensures CountIn(xs, ys) <= |xs|
  {
    if xs != [] {
      var n := |xs| - 1;
      assert xs == xs[..n] + [xs[n]];
      CountInSnoc(xs[..n], xs[n], ys);
      MatchesCountsPositions(xs[..n], ys);
      if xs[n] in ys {
        assert HitIndices(xs, ys) == HitIndices(xs[..n], ys) + {n};
      } else {
        assert HitIndices(xs, ys) == HitIndices(xs[..n], ys);
      }
    }
  }

  function Pow2(k: nat): (p: nat)
    ensures p >= 1
  {
    if k == 0 then 1 else 2 * Pow2(k - 1)
  }

  /** The worth of a card with `m` matches: nothing for none, 2^(m-1) otherwise. */
  function Points(m: nat): nat {
    if m == 0 then 0 else Pow2(m - 1)
  }

  /** `score`: the first match is worth one point and every later match
      doubles the worth. */
  method Score(c: Card) returns (acc: int)
    ensures acc == Points(Matches(c))
  {
    acc := 0;
    for i := 0 to |c.numbers|
      invariant acc == Points(CountIn(c.numbers[..i], c.winningNumbers))
    {
      assert c.numbers[..i + 1] == c.numbers[..i] + [c.numbers[i]];
      CountInSnoc(c.numbers[..i], c.numbers[i], c.winningNumbers);
      if c.numbers[i] in c.winningNumbers {
        acc := if acc == 0 then 1 else acc * 2;
      }
    }
    assert c.numbers[..|c.numbers|] == c.numbers;
  }

  /** `pt1`: the sum of the cards' scores. */
  function Pt1(cards: seq<Card>): nat {
    if cards == [] then 0 else Points(Matches(cards[0])) + Pt1(cards[1..])
  }

  /** Part 1 is zero exactly when no card has a match. */
  lemma {:induction false} Pt1ZeroIffNoMatches(cards: seq<Card>)
    ensures Pt1(cards) == 0 <==> forall i :: 0 <= i < |cards| ==> Matches(cards[i]) == 0
  {
    if cards != [] {
      Pt1ZeroIffNoMatches(cards[1..]);
      assert forall i :: 1 <= i < |cards| ==> cards[i] == cards[1..][i - 1];
    }
  }

  // ---------------------------------------------------------------------------
  // pt2

  function MatchCounts(cards: seq<Card>): (ms: seq<nat>)
    ensures |ms| == |cards|
  {
    seq(|cards|, i requires 0 <= i < |cards| => Matches(cards[i]))
  }

  /** Processing card `i` with `m` matches: each of the next `m` cards that
      exists gains one copy per copy of card `i`. */
  function Propagate(pool: seq<int>, i: nat, m: nat): (p: seq<int>)
    requires i < |pool|
    ensures |p| == |pool|
  {
    seq(|pool|, j requires 0 <= j < |pool| => if i < j <= i + m then pool[j] + pool[i] else pool[j])
  }

  /** The pool once the first `k` cards have been processed. */
  function PoolAfter(ms: seq<nat>, k: nat): (p: seq<int>)
    requires k <= |ms|
    ensures |p| == |ms|
  {
    if k == 0 then seq(|ms|, _ => 1)
    else Propagate(PoolAfter(ms, k - 1), k - 1, ms[k - 1])
  }

  /** `pt2`: the pool starts with one copy of every card; card i, once its own
      count is final, adds that count to each of the next `matches` cards. */
  method Pt2(cards: seq<Card>) returns (total: int)
    ensures total == Sum(PoolAfter(MatchCounts(cards), |cards|))
    ensures total >= |cards|
  {
    ghost var ms := MatchCounts(cards);
    var n := |cards|;
    var pool := new int[n](_ => 1);
    assert pool[..] == PoolAfter(ms, 0);
    for i := 0 to n
      invariant pool[..] == PoolAfter(ms, i)
    {
      var matches := Matches(cards[i]);
      assert matches == ms[i];
      ghost var before := pool[..];
      for m := 1 to matches + 1
        invariant pool[i] == before[i]
        invariant forall j :: 0 <= j < n ==> pool[j] == Propagate(before, i, m - 1)[j]
      {
        var count := pool[i];
        if i + m < n {
          pool[i + m] := pool[i + m] + count;
        }
      }
      assert pool[..] == Propagate(before, i, ms[i]);
      assert PoolAfter(ms, i + 1) == Propagate(PoolAfter(ms, i), i, ms[i]);
    }
    total := Sum(pool[..]);
    PoolAtLeastOne(ms, n);
    SumLowerBound(pool[..], 1);
  }

  /** Every pool entry stays at least 1. */
  lemma {:induction false} PoolAtLeastOne(ms: seq<nat>, k: nat)
    requires k <= |ms|
    ensures forall j :: 0 <= j < |ms| ==> PoolAfter(ms, k)[j] >= 1
  {
    if k > 0 {
      PoolAtLeastOne(ms, k - 1);
    }
  }

  /** Processing card k-1 only changes later cards, so the entries at indices
      up to k are final once k cards are processed; in particular card i's
      count is final when card i is processed. */
  lemma {:induction false} PoolPrefixFinal(ms: seq<nat>, k: nat, k': nat, j: nat)
    requires j <= k <= k' <= |ms| && j < |ms|
    ensures PoolAfter(ms, k')[j] == PoolAfter(ms, k)[j]
    decreases k' - k
  {
    if k < k' {
      PoolPrefixFinal(ms, k, k' - 1, j);
    }
  }

  /** Copies card j receives from the first k cards, given final counts f. */
  function Inflow(ms: seq<nat>, f: seq<int>, j: nat, k: nat): int
    requires k <= |ms| == |f|
  {
    if k == 0 then 0
    else Inflow(ms, f, j, k - 1) + (if k - 1 < j <= k - 1 + ms[k - 1] then f[k - 1] else 0)
  }

  /** The final count of card j is its original plus, for every earlier card i
      whose matches reach j, the final count of card i. */
  lemma {:induction false} PoolRecurrence(ms: seq<nat>, j: nat)
    requires j < |ms|
    ensures PoolAfter(ms, |ms|)[j] == 1 + Inflow(ms, PoolAfter(ms, |ms|), j, |ms|)
  {
    PoolPartial(ms, j, |ms|);
  }

  lemma {:induction false} PoolPartial(ms: seq<nat>, j: nat, k: nat)
    requires j < |ms| && k <= |ms|
    ensures PoolAfter(ms, k)[j] == 1 + Inflow(ms, PoolAfter(ms, |ms|), j, k)
  {
    if k > 0 {
      PoolPartial(ms, j, k - 1);
      PoolPrefixFinal(ms, k - 1, |ms|, k - 1);
    }
  }

  // ---------------------------------------------------------------------------
  // The worked example, one lemma per card so that each evaluation stays small

  /** Card 1 has four matches (48, 83, 86, 17) and is worth 8 points. */
  lemma ExampleCard1()
    ensures Matches(Card(1, [41, 48, 83, 86, 17], [83, 86, 6, 31, 17, 9, 48, 53])) == 4
    ensures Points(4) == 8
  {
    var xs := [41, 48, 83, 86, 17];
    var ys := [83, 86, 6, 31, 17, 9, 48, 53];
    assert CountIn(xs[5..], ys) == 0;
    assert xs[4] in ys by { assert ys[4] == 17; }
    assert xs[4..][1..] == xs[5..];
    assert CountIn(xs[4..], ys) == 1;
    assert xs[3] in ys by { assert ys[1] == 86; }
    assert xs[3..][1..] == xs[4..];
    assert CountIn(xs[3..], ys) == 2;
    assert xs[2] in ys by { assert ys[0] == 83; }
    assert xs[2..][1..] == xs[3..];
    assert CountIn(xs[2..], ys) == 3;
    assert xs[1] in ys by { assert ys[6] == 48; }
    assert xs[1..][1..] == xs[2..];
    assert CountIn(xs[1..], ys) == 4;
    assert xs[0] !in ys;
    assert xs[0..][1..] == xs[1..];
    assert CountIn(xs[0..], ys) == 4;
    assert xs[0..] == xs;
  }

  /** Card 2 has two matches and is worth 2 points. */
  lemma ExampleCard2()
    ensures Matches(Card(2, [13, 32, 20, 16, 61], [61, 30, 68, 82, 17, 32, 24, 19])) == 2
    ensures Points(2) == 2
  {
    var xs := [13, 32, 20, 16, 61];
    var ys := [61, 30, 68, 82, 17, 32, 24, 19];
    assert CountIn(xs[5..], ys) == 0;
    assert xs[4] in ys by { assert ys[0] == 61; }
    assert xs[4..][1..] == xs[5..];
    assert CountIn(xs[4..], ys) == 1;
    assert xs[3] !in ys;
    assert xs[3..][1..] == xs[4..];
    assert CountIn(xs[3..], ys) == 1;
    assert xs[2] !in ys;
    assert xs[2..][1..] == xs[3..];
    assert CountIn(xs[2..], ys) == 1;
    assert xs[1] in ys by { assert ys[5] == 32; }
    assert xs[1..][1..] == xs[2..];
    assert CountIn(xs[1..], ys) == 2;
    assert xs[0] !in ys;
    assert xs[0..][1..] == xs[1..];
    assert CountIn(xs[0..], ys) == 2;
    assert xs[0..] == xs;
  }

  /** Card 3 has two matches and is worth 2 points. */
  lemma ExampleCard3()
    ensures Matches(Card(3, [1, 21, 53, 59, 44], [69, 82, 63, 72, 16, 21, 14, 1])) == 2
  {
    var xs := [1, 21, 53, 59, 44];
    var ys := [69, 82, 63, 72, 16, 21, 14, 1];
    assert CountIn(xs[5..], ys) == 0;
    assert xs[4] !in ys;
    assert xs[4..][1..] == xs[5..];
    assert CountIn(xs[4..], ys) == 0;
    assert xs[3] !in ys;
    assert xs[3..][1..] == xs[4..];
    assert CountIn(xs[3..], ys) == 0;
    assert xs[2] !in ys;
    assert xs[2..][1..] == xs[3..];
    assert CountIn(xs[2..], ys) == 0;
    assert xs[1] in ys by { assert ys[5] == 21; }
    assert xs[1..][1..] == xs[2..];
    assert CountIn(xs[1..], ys) == 1;
    assert xs[0] in ys by { assert ys[7] == 1; }
    assert xs[0..][1..] == xs[1..];
    assert CountIn(xs[0..], ys) == 2;
    assert xs[0..] == xs;
  }

  /** Card 4 has one match and is worth 1 point. */
  lemma ExampleCard4()
    ensures Matches(Card(4, [41, 92, 73, 84, 69], [59, 84, 76, 51, 58, 5, 54, 83])) == 1
    ensures Points(1) == 1
  {
    var xs := [41, 92, 73, 84, 69];
    var ys := [59, 84, 76, 51, 58, 5, 54, 83];
    assert CountIn(xs[5..], ys) == 0;
    assert xs[4] !in ys;
    assert xs[4..][1..] == xs[5..];
    assert CountIn(xs[4..], ys) == 0;
    assert xs[3] in ys by { assert ys[1] == 84; }
    assert xs[3..][1..] == xs[4..];
    assert CountIn(xs[3..], ys) == 1;
    assert xs[2] !in ys;
    assert xs[2..][1..] == xs[3..];
    assert CountIn(xs[2..], ys) == 1;
    assert xs[1] !in ys;
    assert xs[1..][1..] == xs[2..];
    assert CountIn(xs[1..], ys) == 1;
    assert xs[0] !in ys;
    assert xs[0..][1..] == xs[1..];
    assert CountIn(xs[0..], ys) == 1;
    assert xs[0..] == xs;
  }

  /** Card 5 has no match and is worth nothing. */
  lemma ExampleCard5()
    ensures Matches(Card(5, [87, 83, 26, 28, 32], [88, 30, 70, 12, 93, 22, 82, 36])) == 0
    ensures Points(0) == 0
  {
    var xs := [87, 83, 26, 28, 32];
    var ys := [88, 30, 70, 12, 93, 22, 82, 36];
    assert CountIn(xs[5..], ys) == 0;
    assert xs[4] !in ys;
    assert xs[4..][1..] == xs[5..];
    assert CountIn(xs[4..], ys) == 0;
    assert xs[3] !in ys;
    assert xs[3..][1..] == xs[4..];
    assert CountIn(xs[3..], ys) == 0;
    assert xs[2] !in ys;
    assert xs[2..][1..] == xs[3..];
    assert CountIn(xs[2..], ys) == 0;
    assert xs[1] !in ys;
    assert xs[1..][1..] == xs[2..];
    assert CountIn(xs[1..], ys) == 0;
    assert xs[0] !in ys;
    assert xs[0..][1..] == xs[1..];
    assert CountIn(xs[0..], ys) == 0;
    assert xs[0..] == xs;
  }

  /** Card 6 has no match either. */
  lemma ExampleCard6()
    ensures Matches(Card(6, [31, 18, 13, 56, 72], [74, 77, 10, 23, 35, 67, 36, 11])) == 0
  {
    var xs := [31, 18, 13, 56, 72];
    var ys := [74, 77, 10, 23, 35, 67, 36, 11];
    assert CountIn(xs[5..], ys) == 0;
    assert xs[4] !in ys;
    assert xs[4..][1..] == xs[5..];
    assert CountIn(xs[4..], ys) == 0;
    assert xs[3] !in ys;
    assert xs[3..][1..] == xs[4..];
    assert CountIn(xs[3..], ys) == 0;
    assert xs[2] !in ys;
    assert xs[2..][1..] == xs[3..];
    assert CountIn(xs[2..], ys) == 0;
    assert xs[1] !in ys;
    assert xs[1..][1..] == xs[2..];
    assert CountIn(xs[1..], ys) == 0;
    assert xs[0] !in ys;
    assert xs[0..][1..] == xs[1..];
    assert CountIn(xs[0..], ys) == 0;
    assert xs[0..] == xs;
  }

  /** With the example's match counts 4, 2, 2, 1, 0, 0 the cards end with 1, 2,
      4, 8, 14 and 1 copies: 30 in all. */
  lemma ExamplePt2()
    ensures PoolAfter([4, 2, 2, 1, 0, 0], 6) == [1, 2, 4, 8, 14, 1]
    ensures Sum(PoolAfter([4, 2, 2, 1, 0, 0], 6)) == 30
  {
    var ms := [4, 2, 2, 1, 0, 0];
    assert PoolAfter(ms, 0) == [1, 1, 1, 1, 1, 1];
    assert PoolAfter(ms, 1) == [1, 2, 2, 2, 2, 1];
    assert PoolAfter(ms, 2) == [1, 2, 4, 4, 2, 1];
    assert PoolAfter(ms, 3) == [1, 2, 4, 8, 6, 1];
    assert PoolAfter(ms, 4) == [1, 2, 4, 8, 14, 1];
    assert PoolAfter(ms, 5) == [1, 2, 4, 8, 14, 1];
  }

  /** `l` spells the example line ` 1 21 53 59 44`. */
  predicate IsExampleLine(l: string) {
    |l| == 14 &&
    l[0] == ' ' &&
    l[1] == '1' &&
    l[2] == ' ' &&
    l[3] == '2' &&
    l[4] == '1' &&
    l[5] == ' ' &&
    l[6] == '5' &&
    l[7] == '3' &&
    l[8] == ' ' &&
    l[9] == '5' &&
    l[10] == '9' &&
    l[11] == ' ' &&
    l[12] == '4' &&
    l[13] == '4'
  }

  lemma ExampleLineNumbers(l: string)
    requires IsExampleLine(l)
    ensures NumberRuns(l, 0) == [1, 21, 53, 59, 44]
  {
    assert NumberRuns(l, 14) == [];
    assert RunEnd(l, 14) == 14;
    assert RunEnd(l, 13) == 14;
    assert RunEnd(l, 12) == 14;
    assert l[12..14] == "44";
    assert DecimalValue("4") == 4;
    assert "44"[1..] == "4";
    assert Pow10(1) == 10;
    assert DecimalValue("44") == 44;
    assert NumberRuns(l, 12) == [44];
    assert NumberRuns(l, 11) == [44];
    assert RunEnd(l, 11) == 11;
    assert RunEnd(l, 10) == 11;
    assert RunEnd(l, 9) == 11;
    assert l[9..11] == "59";
    assert DecimalValue("9") == 9;
    assert "59"[1..] == "9";
    assert Pow10(1) == 10;
    assert DecimalValue("59") == 59;
    assert NumberRuns(l, 9) == [59, 44];
    assert NumberRuns(l, 8) == [59, 44];
    assert RunEnd(l, 8) == 8;
    assert RunEnd(l, 7) == 8;
    assert RunEnd(l, 6) == 8;
    assert l[6..8] == "53";
    assert DecimalValue("3") == 3;
    assert "53"[1..] == "3";
    assert Pow10(1) == 10;
    assert DecimalValue("53") == 53;
    assert NumberRuns(l, 6) == [53, 59, 44];
    assert NumberRuns(l, 5) == [53, 59, 44];
    assert RunEnd(l, 5) == 5;
    assert RunEnd(l, 4) == 5;
    assert RunEnd(l, 3) == 5;
    assert l[3..5] == "21";
    assert DecimalValue("1") == 1;
    assert "21"[1..] == "1";
    assert Pow10(1) == 10;
    assert DecimalValue("21") == 21;
    assert NumberRuns(l, 3) == [21, 53, 59, 44];
    assert NumberRuns(l, 2) == [21, 53, 59, 44];
    assert RunEnd(l, 2) == 2;
    assert RunEnd(l, 1) == 2;
    assert l[1..2] == "1";
    assert DecimalValue("1") == 1;
    assert NumberRuns(l, 1) == [1, 21, 53, 59, 44];
    assert NumberRuns(l, 0) == [1, 21, 53, 59, 44];
  }

  /** A line of space-separated numbers parses to those numbers. */
  lemma ExampleParseNums()
    ensures NumberRuns(" 1 21 53 59 44", 0) == [1, 21, 53, 59, 44]
  {
    ExampleLineNumbers(" 1 21 53 59 44");
  }
}
