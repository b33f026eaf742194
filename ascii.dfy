/** Character classes and decimal numerals shared by the solvers.  Only ASCII
    decimal digits are considered, so `char::is_digit(10)` is '0'..'9'. */
module Ascii {

  predicate IsDigit(c: char) {
    '0' <= c <= '9'
  }

  /** The value `c.to_string().parse()` gives a single digit character. */
  function DigitValue(c: char): (d: nat)
    requires IsDigit(c)
    ensures d < 10
    ensures d == 0 <==> c == '0'
  {
    (c as int) - ('0' as int)
  }

  predicate AllDigits(s: string) {
    forall i :: 0 <= i < |s| ==> IsDigit(s[i])
  }

  function Pow10(k: nat): nat {
    if k == 0 then 1 else 10 * Pow10(k - 1)
  }

  /** The value `parse::<i32>()` gives a digit string, most significant digit
      first; the empty string, which no caller passes, has value 0 here. */
  function DecimalValue(s: string): nat
    requires AllDigits(s)
  {
    if s == [] then 0 else DigitValue(s[0]) * Pow10(|s| - 1) + DecimalValue(s[1..])
  }

  /** A one-digit numeral has the digit's value. */
  lemma DecimalValueOneDigit(c: char)
    requires IsDigit(c)
    ensures DecimalValue([c]) == DigitValue(c)
  {
    assert [c][1..] == [];
  }

  /** The end of the run of digits that starts at `i`: the first index at or
      after `i` that is not a digit, or `|s|`. */
  function RunEnd(s: string, i: nat): (e: nat)
    requires i <= |s|
    ensures i <= e <= |s|
    ensures AllDigits(s[i..e])
    ensures e == |s| || !IsDigit(s[e])
    decreases |s| - i
  {
    if i < |s| && IsDigit(s[i]) then RunEnd(s, i + 1) else i
  }

  /** A run of digits that is followed by a non-digit or the end of the string
      ends where `RunEnd` says. */
  lemma {:induction false} RunEndIsUnique(s: string, i: nat, e: nat)
    requires i <= e <= |s|
    requires AllDigits(s[i..e])
    requires e == |s| || !IsDigit(s[e])
    ensures RunEnd(s, i) == e
    decreases e - i
  {
    if i < e {
      assert IsDigit(s[i..e][0]);
      assert s[i + 1..e] == s[i..e][1..];
      RunEndIsUnique(s, i + 1, e);
    }
  }

  /** A maximal digit run starts at `i`. */
  predicate RunStart(s: string, i: int) {
    0 <= i < |s| && IsDigit(s[i]) && (i == 0 || !IsDigit(s[i - 1]))
  }

  /** The maximal digit runs at or after `i`, as (start, end) pairs, left to
      right.  When `i` is inside a run, the first pair starts at `i`. */
  function Runs(s: string, i: nat): (r: seq<(nat, nat)>)
    requires i <= |s|
    ensures forall k :: 0 <= k < |r| ==>
              i <= r[k].0 < r[k].1 <= |s| && IsDigit(s[r[k].0]) && r[k].1 == RunEnd(s, r[k].0)
    decreases |s| - i
  {
    if i == |s| then []
    else if IsDigit(s[i]) then [(i, RunEnd(s, i))] + Runs(s, RunEnd(s, i))
    else Runs(s, i + 1)
  }

  /** No index strictly inside a run starts a run. */
  lemma NoRunStartInside(s: string, i: nat, j: int)
    requires i <= |s| && i < j < RunEnd(s, i)
    ensures !RunStart(s, j)
  {
    assert IsDigit(s[i..RunEnd(s, i)][j - 1 - i]);
  }

  /** Runs come left to right, separated by at least one non-digit. */
  lemma {:induction false} RunsOrdered(s: string, i: nat)
    requires i <= |s|
    ensures forall k :: 0 <= k < |Runs(s, i)| - 1 ==> Runs(s, i)[k].1 < Runs(s, i)[k + 1].0
    decreases |s| - i
  {
    if i == |s| {
    } else if IsDigit(s[i]) {
      RunsOrdered(s, RunEnd(s, i));
    } else {
      RunsOrdered(s, i + 1);
    }
  }

  /** Every reported run is maximal, except possibly a first one that starts at `i`. */
  lemma {:induction false} RunsMaximal(s: string, i: nat)
    requires i <= |s|
    ensures forall k :: 0 <= k < |Runs(s, i)| ==> Runs(s, i)[k].0 == i || RunStart(s, Runs(s, i)[k].0)
    decreases |s| - i
  {
    if i == |s| {
    } else if IsDigit(s[i]) {
      var e := RunEnd(s, i);
      RunsMaximal(s, e);
    } else {
      RunsMaximal(s, i + 1);
    }
  }

  /** Every maximal run at or after `i` is reported. */
  lemma {:induction false} RunsComplete(s: string, i: nat, j: nat)
    requires i <= j < |s| && RunStart(s, j)
    ensures exists k :: 0 <= k < |Runs(s, i)| && Runs(s, i)[k].0 == j
    decreases |s| - i
  {
    var r := Runs(s, i);
    if IsDigit(s[i]) {
      var e := RunEnd(s, i);
      if j == i {
        assert r[0].0 == j;
      } else {
        if j < e { NoRunStartInside(s, i, j); }
        RunsComplete(s, e, j);
        var k :| 0 <= k < |Runs(s, e)| && Runs(s, e)[k].0 == j;
        assert r[k + 1].0 == j;
      }
    } else {
      RunsComplete(s, i + 1, j);
    }
  }

  /** There are no runs exactly when there is no digit. */
  lemma {:induction false} RunsEmpty(s: string, i: nat)
    requires i <= |s|
    ensures Runs(s, i) == [] <==> forall j :: i <= j < |s| ==> !IsDigit(s[j])
    decreases |s| - i
  {
    if i < |s| && !IsDigit(s[i]) {
      RunsEmpty(s, i + 1);
    }
  }
}
