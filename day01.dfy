/** Day 1, calibration values: the first and last digit of a line (part 1),
    and the first and last digit or spelled-out number word (part 2). */
module Day01 {
  import opened Ascii
  import opened Sums

  // ---------------------------------------------------------------------------
  // Part 1: extract_digits

  /** The values of the digit characters of `s`, left to right. */
  function Digits(s: string): seq<nat> {
    if s == [] then []
    else (if IsDigit(s[0]) then [DigitValue(s[0])] else []) + Digits(s[1..])
  }

  predicate HasDigit(s: string) {
    exists i :: 0 <= i < |s| && IsDigit(s[i])
  }

  lemma {:induction false} DigitsAppend(a: string, b: string)
    ensures Digits(a + b) == Digits(a) + Digits(b)
  {
    if a == [] {
      assert a + b == b;
    } else {
      var t := a[1..];
      assert (a + b)[0] == a[0];
      assert (a + b)[1..] == t + b;
      DigitsAppend(t, b);
      var d := if IsDigit(a[0]) then [DigitValue(a[0])] else [];
      assert Digits(a + b) == d + Digits(t + b);
      assert Digits(a) == d + Digits(t);
      assert d + (Digits(t) + Digits(b)) == (d + Digits(t)) + Digits(b);
    }
  }

  /** Every digit value is below 10, and there is one exactly when the line
      has a digit character. */
  lemma {:induction false} DigitsShape(s: string)
    ensures forall k :: 0 <= k < |Digits(s)| ==> Digits(s)[k] < 10
    ensures Digits(s) != [] <==> HasDigit(s)
  {
    if s != [] {
      DigitsShape(s[1..]);
      assert HasDigit(s) <==> IsDigit(s[0]) || HasDigit(s[1..]) by {
        if HasDigit(s[1..]) {
          var i :| 0 <= i < |s[1..]| && IsDigit(s[1..][i]);
          assert IsDigit(s[i + 1]);
        }
        if HasDigit(s) && !IsDigit(s[0]) {
          var i :| 0 <= i < |s| && IsDigit(s[i]);
          assert IsDigit(s[1..][i - 1]);
        }
      }
    }
  }

  /** `extract_digits`: ten times the first digit plus the last digit; indexing
      the empty digit list panics, hence the precondition. */
  function ExtractDigits(s: string): (v: int)
    requires HasDigit(s)
    ensures 0 <= v <= 99
  {
    DigitsShape(s);
    var digits := Digits(s);
    10 * digits[0] + digits[|digits| - 1]
  }

  /** With no digit before index `i`, the first digit value is that of s[i]. */
  lemma {:induction false} FirstDigit(s: string, i: nat)
    requires i < |s| && IsDigit(s[i])
    requires forall k :: 0 <= k < i ==> !IsDigit(s[k])
    ensures Digits(s) != [] && Digits(s)[0] == DigitValue(s[i])
  {
    if i > 0 {
      assert forall k :: 0 <= k < i - 1 ==> s[1..][k] == s[k + 1];
      FirstDigit(s[1..], i - 1);
    }
  }

  /** With no digit after index `j`, the last digit value is that of s[j]. */
  lemma LastDigit(s: string, j: nat)
    requires j < |s| && IsDigit(s[j])
    requires forall k :: j < k < |s| ==> !IsDigit(s[k])
    ensures Digits(s) != [] && Digits(s)[|Digits(s)| - 1] == DigitValue(s[j])
  {
    assert s == s[..j] + [s[j]] + s[j + 1..];
    DigitsAppend(s[..j] + [s[j]], s[j + 1..]);
    DigitsAppend(s[..j], [s[j]]);
    assert [s[j]][1..] == [];
    DigitsShape(s[j + 1..]);
    var tail := s[j + 1..];
    assert !HasDigit(tail) by {
      forall k | 0 <= k < |tail| ensures !IsDigit(tail[k]) {
        assert tail[k] == s[j + 1 + k];
      }
    }
  }

  /** The part 1 value is made of the digit at the first digit index `i` and
      the digit at the last digit index `j`. */
  lemma ExtractDigitsIsFirstAndLast(s: string, i: nat, j: nat)
    requires i <= j < |s| && IsDigit(s[i]) && IsDigit(s[j])
    requires forall k :: 0 <= k < i ==> !IsDigit(s[k])
    requires forall k :: j < k < |s| ==> !IsDigit(s[k])
    ensures HasDigit(s) && ExtractDigits(s) == 10 * DigitValue(s[i]) + DigitValue(s[j])
  {
    FirstDigit(s, i);
    LastDigit(s, j);
  }

  /** A line with a single digit d gives 11 * d. */
  lemma ExtractDigitsSingle(s: string, i: nat)
    requires i < |s| && IsDigit(s[i])
    requires forall k :: 0 <= k < |s| && k != i ==> !IsDigit(s[k])
    ensures HasDigit(s) && ExtractDigits(s) == 11 * DigitValue(s[i])
  {
    ExtractDigitsIsFirstAndLast(s, i, i);
  }

  lemma Example1abc2()
    ensures HasDigit("1abc2") && ExtractDigits("1abc2") == 12
  {
    assert IsDigit("1abc2"[0]);
  }

  lemma ExamplePqr3stu8vwx()
    ensures HasDigit("pqr3stu8vwx") && ExtractDigits("pqr3stu8vwx") == 38
  {
    assert IsDigit("pqr3stu8vwx"[3]);
  }

  lemma ExampleA1b2c3d4e5f()
    ensures HasDigit("a1b2c3d4e5f") && ExtractDigits("a1b2c3d4e5f") == 15
  {
    assert IsDigit("a1b2c3d4e5f"[1]);
  }

  lemma ExampleTreb7uchet()
    ensures HasDigit("treb7uchet") && ExtractDigits("treb7uchet") == 77
  {
    assert IsDigit("treb7uchet"[4]);
  }

  // ---------------------------------------------------------------------------
  // number_digit_positions

  /** A digit or number word found at `pos`, with the number it stands for. */
  datatype Hit = Hit(pos: nat, value: nat)

  /** (index, value) for every digit character at or after `i`. */
  function DigitPositionsFrom(s: string, i: nat): seq<Hit>
    requires i <= |s|
    decreases |s| - i
  {
    if i == |s| then []
    else (if IsDigit(s[i]) then [Hit(i, DigitValue(s[i]))] else []) + DigitPositionsFrom(s, i + 1)
  }

  /** `number_digit_positions`. */
  function DigitPositions(s: string): seq<Hit> {
    DigitPositionsFrom(s, 0)
  }

  /** The digit hits are exactly the digit characters, each with its value,
      in strictly increasing index order. */
  lemma {:induction false} DigitPositionsFromSpec(s: string, i: nat)
    requires i <= |s|
    ensures forall k :: 0 <= k < |DigitPositionsFrom(s, i)| ==>
              var h := DigitPositionsFrom(s, i)[k];
              i <= h.pos < |s| && IsDigit(s[h.pos]) && h.value == DigitValue(s[h.pos])
    ensures forall k :: 0 <= k < |DigitPositionsFrom(s, i)| - 1 ==>
              DigitPositionsFrom(s, i)[k].pos < DigitPositionsFrom(s, i)[k + 1].pos
    ensures forall j :: i <= j < |s| && IsDigit(s[j]) ==> Hit(j, DigitValue(s[j])) in DigitPositionsFrom(s, i)
    decreases |s| - i
  {
    if i < |s| {
      DigitPositionsFromSpec(s, i + 1);
      var rest := DigitPositionsFrom(s, i + 1);
      if IsDigit(s[i]) {
        var r := [Hit(i, DigitValue(s[i]))] + rest;
        assert forall k :: 1 <= k < |r| ==> r[k] == rest[k - 1];
      }
    }
  }

  lemma DigitPositionsSpec(s: string)
    ensures forall k :: 0 <= k < |DigitPositions(s)| ==>
              var h := DigitPositions(s)[k];
              h.pos < |s| && IsDigit(s[h.pos]) && h.value == DigitValue(s[h.pos])
    ensures forall k :: 0 <= k < |DigitPositions(s)| - 1 ==> DigitPositions(s)[k].pos < DigitPositions(s)[k + 1].pos
    ensures forall j :: 0 <= j < |s| && IsDigit(s[j]) ==> Hit(j, DigitValue(s[j])) in DigitPositions(s)
  {
    DigitPositionsFromSpec(s, 0);
  }

  lemma ExampleDigitPositions()
    ensures DigitPositions("two1nine") == [Hit(3, 1)]
  {
    var s := "two1nine";
    assert DigitPositionsFrom(s, 4) == [] by {
      assert DigitPositionsFrom(s, 8) == [];
      assert DigitPositionsFrom(s, 7) == [];
      assert DigitPositionsFrom(s, 6) == [];
      assert DigitPositionsFrom(s, 5) == [];
    }
    assert DigitPositionsFrom(s, 3) == [Hit(3, 1)];
    assert DigitPositionsFrom(s, 0) == [Hit(3, 1)] by {
      assert DigitPositionsFrom(s, 2) == [Hit(3, 1)];
      assert DigitPositionsFrom(s, 1) == [Hit(3, 1)];
    }
  }

  // ---------------------------------------------------------------------------
  // number_word_positions

  /** `NUMBERS`: the word at index k spells k + 1. */
  const Numbers: seq<string> := ["one", "two", "three", "four", "five", "six", "seven", "eight", "nine"]

  /** The lengths of the nine words: "one" and "two" come first, "three"
      is the first word of five letters, and every word has three to five. */
  lemma NumbersShape()
    ensures |Numbers| == 9
    ensures Numbers[0] == "one" && Numbers[1] == "two" && |Numbers[2]| == 5
    ensures forall k :: 0 <= k < |Numbers| ==> 3 <= |Numbers[k]| <= 5
  {
  }

  /** Every word starts with one of the letters o, t, f, s, e, n (never a
      digit), and the only word that starts with o is "one". */
  lemma NumbersInitials()
    ensures forall k :: 0 <= k < |Numbers| ==> |Numbers[k]| >= 2 && Numbers[k][0] in "otfsen"
    ensures forall k :: 0 <= k < |Numbers| && Numbers[k][0] == 'o' ==> Numbers[k][1] == 'n'
    ensures forall k :: 0 <= k < |Numbers| ==> !IsDigit(Numbers[k][0])
    ensures forall k :: 0 <= k < |Numbers| ==> WordOpening(Numbers[k][0], Numbers[k][1])
  {
  }

  /** `a` and `b` are the first two letters of some number word: "on",
      "tw", "th", "fo", "fi", "si", "se", "ei" or "ni". */
  predicate WordOpening(a: char, b: char) {
    (a == 'o' && b == 'n') || (a == 't' && (b == 'w' || b == 'h')) || (a == 'f' && (b == 'o' || b == 'i')) ||
    (a == 's' && (b == 'i' || b == 'e')) || (a == 'e' && b == 'i') || (a == 'n' && b == 'i')
  }

  /** No two words share their first two letters. */
  lemma NumbersPrefixFree()
    ensures forall k, l :: 0 <= k < |Numbers| && 0 <= l < |Numbers| && k != l ==>
              Numbers[k][0] != Numbers[l][0] || Numbers[k][1] != Numbers[l][1]
  {
  }

  /** The characters of `w` from index `i` on appear in `s` from `p + i` on. */
  predicate MatchesFrom(s: string, p: nat, w: string, i: nat)
    requires i <= |w|
    decreases |w| - i
  {
    i == |w| || (p + i < |s| && s[p + i] == w[i] && MatchesFrom(s, p, w, i + 1))
  }

  /** Word `w` occurs in `s` starting at `p`. */
  predicate MatchesAt(s: string, p: nat, w: string) {
    p + |w| <= |s| && MatchesFrom(s, p, w, 0)
  }

  lemma {:induction false} MatchesFromSpec(s: string, p: nat, w: string, i: nat)
    requires i <= |w| && p + |w| <= |s|
    ensures MatchesFrom(s, p, w, i) <==> forall j :: i <= j < |w| ==> s[p + j] == w[j]
    decreases |w| - i
  {
    if i < |w| {
      MatchesFromSpec(s, p, w, i + 1);
    }
  }

  /** Matching character by character is comparing the slice of the line
      with the word, as the source does. */
  lemma MatchesAtIsSlice(s: string, p: nat, w: string)
    ensures MatchesAt(s, p, w) <==> p + |w| <= |s| && s[p..p + |w|] == w
  {
    if p + |w| <= |s| {
      MatchesFromSpec(s, p, w, 0);
      assert (forall j :: 0 <= j < |w| ==> s[p + j] == w[j]) <==> s[p..p + |w|] == w by {
        if s[p..p + |w|] == w {
          forall j | 0 <= j < |w| ensures s[p + j] == w[j] {
            assert s[p..p + |w|][j] == s[p + j];
          }
        }
      }
    }
  }

  /** The sliding window of `number_word_positions` for one word `w` of
      value `v`, from start position `p` on. */
  function WordHitsFrom(s: string, w: string, v: nat, p: nat): seq<Hit>
    decreases |s| - p
  {
    if p + |w| > |s| then []
    else (if MatchesAt(s, p, w) then [Hit(p, v)] else []) + WordHitsFrom(s, w, v, p + 1)
  }

  /** The outer loop of `number_word_positions` over `words` from index k on,
      as written: the first word longer than the line stops the scan of all
      later words. */
  function ScanWords(s: string, words: seq<string>, k: nat): seq<Hit>
    requires k <= |words|
    decreases |words| - k
  {
    if k == |words| then []
    else if |s| < |words[k]| then []
    else WordHitsFrom(s, words[k], k + 1, 0) + ScanWords(s, words, k + 1)
  }

  /** What `number_word_positions` returns. */
  function WordPositions(s: string): seq<Hit> {
    ScanWords(s, Numbers, 0)
  }

  lemma AppendAssoc(a: seq<Hit>, b: seq<Hit>, c: seq<Hit>)
    ensures a + (b + c) == (a + b) + c
  {
  }

  /** The inner loop of `number_word_positions`: slide a window of the
      word's length over every start position and push each match. */
  method SlideWord(s: string, word: string, value: nat, o: seq<Hit>) returns (out: seq<Hit>)
    requires |word| <= |s|
    ensures out == o + WordHitsFrom(s, word, value, 0)
  {
    out := o;
    var position := 0;
    while position < 1 + |s| - |word|
      invariant 0 <= position <= 1 + |s| - |word|
      invariant out + WordHitsFrom(s, word, value, position) == o + WordHitsFrom(s, word, value, 0)
    {
      if position + |word| > |s| {
        break;
      }
      ghost var window := WordHitsFrom(s, word, value, position + 1);
      MatchesAtIsSlice(s, position, word);
      if s[position..position + |word|] == word {
        assert WordHitsFrom(s, word, value, position) == [Hit(position, value)] + window;
        AppendAssoc(out, [Hit(position, value)], window);
        out := out + [Hit(position, value)];
      } else {
        assert WordHitsFrom(s, word, value, position) == window;
      }
      position := position + 1;
    }
  }

  /** `number_word_positions`: for each word in turn, stop at the first word
      longer than the line, else slide it over the line. */
  method NumberWordPositions(s: string) returns (o: seq<Hit>)
    ensures o == WordPositions(s)
  {
    o := [];
    var i := 0;
    while i < |Numbers|
      invariant 0 <= i <= |Numbers|
      invariant o + ScanWords(s, Numbers, i) == WordPositions(s)
    {
      var word := Numbers[i];
      if |s| < |word| {
        break;
      }
      ghost var later := ScanWords(s, Numbers, i + 1);
      assert ScanWords(s, Numbers, i) == WordHitsFrom(s, word, i + 1, 0) + later;
      AppendAssoc(o, WordHitsFrom(s, word, i + 1, 0), later);
      o := SlideWord(s, word, i + 1, o);
      i := i + 1;
    }
  }

  /** The same scan without the early stop: every word is slid over the line
      (a word longer than the line simply has no window). */
  function AllWordHits(s: string, words: seq<string>, k: nat): seq<Hit>
    requires k <= |words|
    decreases |words| - k
  {
    if k == |words| then [] else WordHitsFrom(s, words[k], k + 1, 0) + AllWordHits(s, words, k + 1)
  }

  /** Every occurrence of every number word, the scan that was meant. */
  function AllWordPositions(s: string): seq<Hit> {
    AllWordHits(s, Numbers, 0)
  }

  /** The window of word `w` reports exactly the occurrences of `w` at or
      after `p`, with value `v`, in strictly increasing position order. */
  lemma WordHitsFromSpec(s: string, w: string, v: nat, p: nat)
    ensures forall h :: h in WordHitsFrom(s, w, v, p) <==> h.value == v && p <= h.pos && MatchesAt(s, h.pos, w)
    ensures forall a, b :: 0 <= a < b < |WordHitsFrom(s, w, v, p)| ==> WordHitsFrom(s, w, v, p)[a].pos < WordHitsFrom(s, w, v, p)[b].pos
  {
    WordHitsFromMembers(s, w, v, p);
    WordHitsFromOrdered(s, w, v, p);
  }

  lemma {:induction false} WordHitsFromMembers(s: string, w: string, v: nat, p: nat)
    ensures forall h :: h in WordHitsFrom(s, w, v, p) <==> h.value == v && p <= h.pos && MatchesAt(s, h.pos, w)
    decreases |s| - p
  {
    if p + |w| <= |s| {
      WordHitsFromMembers(s, w, v, p + 1);
      var rest := WordHitsFrom(s, w, v, p + 1);
      assert WordHitsFrom(s, w, v, p) == (if MatchesAt(s, p, w) then [Hit(p, v)] else []) + rest;
    }
  }

  lemma {:induction false} WordHitsFromAbove(s: string, w: string, v: nat, p: nat)
    ensures forall h :: h in WordHitsFrom(s, w, v, p) ==> p <= h.pos
    decreases |s| - p
  {
    if p + |w| <= |s| {
      WordHitsFromAbove(s, w, v, p + 1);
      assert WordHitsFrom(s, w, v, p) == (if MatchesAt(s, p, w) then [Hit(p, v)] else []) + WordHitsFrom(s, w, v, p + 1);
    }
  }

  lemma WordHitsFromOrdered(s: string, w: string, v: nat, p: nat)
    ensures forall a, b :: 0 <= a < b < |WordHitsFrom(s, w, v, p)| ==> WordHitsFrom(s, w, v, p)[a].pos < WordHitsFrom(s, w, v, p)[b].pos
  {
    WordHitsFromAdjacent(s, w, v, p);
    AdjacentIncreasing(WordHitsFrom(s, w, v, p));
  }

  lemma {:induction false} WordHitsFromAdjacent(s: string, w: string, v: nat, p: nat)
    ensures forall a :: 0 <= a < |WordHitsFrom(s, w, v, p)| - 1 ==> WordHitsFrom(s, w, v, p)[a].pos < WordHitsFrom(s, w, v, p)[a + 1].pos
    decreases |s| - p
  {
    if p + |w| <= |s| {
      WordHitsFromAdjacent(s, w, v, p + 1);
      var rest := WordHitsFrom(s, w, v, p + 1);
      if MatchesAt(s, p, w) {
        WordHitsFromAbove(s, w, v, p + 1);
        if rest != [] {
          assert rest[0] in rest;
        }
        ConsAdjacent(Hit(p, v), rest);
        assert WordHitsFrom(s, w, v, p) == [Hit(p, v)] + rest;
      } else {
        assert WordHitsFrom(s, w, v, p) == rest;
      }
    }
  }

  /** A hit before the first of hits with increasing positions keeps them increasing. */
  lemma ConsAdjacent(x: Hit, rest: seq<Hit>)
    requires rest != [] ==> x.pos < rest[0].pos
    requires forall a :: 0 <= a < |rest| - 1 ==> rest[a].pos < rest[a + 1].pos
    ensures forall a :: 0 <= a < |[x] + rest| - 1 ==> ([x] + rest)[a].pos < ([x] + rest)[a + 1].pos
  {
    var r := [x] + rest;
    forall a | 0 <= a < |r| - 1 ensures r[a].pos < r[a + 1].pos {
      assert r[a + 1] == rest[a];
      if a > 0 {
        assert r[a] == rest[a - 1];
      }
    }
  }

  /** Positions that increase from each hit to the next increase throughout. */
  lemma {:induction false} AdjacentIncreasing(xs: seq<Hit>)
    requires forall a :: 0 <= a < |xs| - 1 ==> xs[a].pos < xs[a + 1].pos
    ensures forall a, b :: 0 <= a < b < |xs| ==> xs[a].pos < xs[b].pos
  {
    if |xs| > 1 {
      var t := xs[1..];
      forall a | 0 <= a < |t| - 1 ensures t[a].pos < t[a + 1].pos {
        assert t[a] == xs[a + 1] && t[a + 1] == xs[a + 2];
      }
      AdjacentIncreasing(t);
      forall a, b | 0 <= a < b < |xs| ensures xs[a].pos < xs[b].pos {
        assert xs[b] == t[b - 1];
        if a > 0 {
          assert xs[a] == t[a - 1];
        } else if b > 1 {
          assert xs[1] == t[0];
        }
      }
    }
  }

  /** Every occurrence of a word of the list (overlapping ones included) is
      reported with its value, and nothing else is. */
  lemma {:induction false} AllWordHitsSpec(s: string, words: seq<string>, k: nat)
    requires k <= |words|
    ensures forall h :: h in AllWordHits(s, words, k) <==> k < h.value <= |words| && MatchesAt(s, h.pos, words[h.value - 1])
    decreases |words| - k
  {
    if k < |words| {
      WordHitsFromSpec(s, words[k], k + 1, 0);
      AllWordHitsSpec(s, words, k + 1);
    }
  }

  /** The hits are grouped by word order, increasing position within a word. */
  lemma {:induction false} AllWordHitsOrdered(s: string, words: seq<string>, k: nat)
    requires k <= |words|
    ensures forall a, b :: 0 <= a < b < |AllWordHits(s, words, k)| ==>
              var x, y := AllWordHits(s, words, k)[a], AllWordHits(s, words, k)[b];
              x.value < y.value || (x.value == y.value && x.pos < y.pos)
    decreases |words| - k
  {
    if k < |words| {
      var w := WordHitsFrom(s, words[k], k + 1, 0);
      var rest := AllWordHits(s, words, k + 1);
      WordHitsFromSpec(s, words[k], k + 1, 0);
      AllWordHitsSpec(s, words, k + 1);
      AllWordHitsOrdered(s, words, k + 1);
      var all: seq<Hit> := w + rest;
      forall a, b | 0 <= a < b < |all|
        ensures all[a].value < all[b].value || (all[a].value == all[b].value && all[a].pos < all[b].pos)
      {
        if b < |w| {
          assert all[a] == w[a] && all[b] == w[b];
        } else if a < |w| {
          assert w[a] in w && all[b] == rest[b - |w|] && rest[b - |w|] in rest;
        } else {
          assert all[a] == rest[a - |w|] && all[b] == rest[b - |w|];
        }
      }
    }
  }

  /** The scan as written is a prefix of the complete scan. */
  lemma {:induction false} ScanWordsIsPrefix(s: string, words: seq<string>, k: nat)
    requires k <= |words|
    ensures ScanWords(s, words, k) <= AllWordHits(s, words, k)
    decreases |words| - k
  {
    if k < |words| && |s| >= |words[k]| {
      ScanWordsIsPrefix(s, words, k + 1);
    }
  }

  /** When no remaining word is longer than the line, the scan as written
      is the complete scan. */
  lemma {:induction false} ScanWordsAllFit(s: string, words: seq<string>, k: nat)
    requires k <= |words|
    requires forall j :: k <= j < |words| ==> |words[j]| <= |s|
    ensures ScanWords(s, words, k) == AllWordHits(s, words, k)
    decreases |words| - k
  {
    if k < |words| {
      ScanWordsAllFit(s, words, k + 1);
    }
  }

  /** On a line of at least five characters no number word is too long, so
      the scan as written finds every occurrence. */
  lemma WordPositionsLongLine(s: string)
    requires |s| >= 5
    ensures WordPositions(s) == AllWordPositions(s)
  {
    NumbersShape();
    ScanWordsAllFit(s, Numbers, 0);
  }

  /** On a shorter line the scan stops at "three": only "one" and "two"
      are looked for, and on a line under three characters nothing is. */
  lemma WordPositionsShortLine(s: string)
    requires |s| < 5
    ensures WordPositions(s) == if |s| < 3 then [] else WordHitsFrom(s, "one", 1, 0) + WordHitsFrom(s, "two", 2, 0)
    ensures forall h :: h in WordPositions(s) ==> h.value == 1 || h.value == 2
  {
    NumbersShape();
    if |s| >= 3 {
      assert ScanWords(s, Numbers, 2) == [];
      assert ScanWords(s, Numbers, 1) == WordHitsFrom(s, "two", 2, 0);
      WordHitsFromSpec(s, "one", 1, 0);
      WordHitsFromSpec(s, "two", 2, 0);
    }
  }

  /** Every hit the scan as written reports is a real occurrence, with the
      word's value. */
  lemma WordPositionsSound(s: string)
    ensures forall h :: h in WordPositions(s) ==> 1 <= h.value <= |Numbers| && MatchesAt(s, h.pos, Numbers[h.value - 1])
  {
    ScanWordsIsPrefix(s, Numbers, 0);
    AllWordHitsSpec(s, Numbers, 0);
    forall h | h in WordPositions(s) ensures h in AllWordPositions(s) {
      var i :| 0 <= i < |WordPositions(s)| && WordPositions(s)[i] == h;
      assert AllWordPositions(s)[i] == h;
    }
  }

  /** The hits of the scan as written are grouped by word, in the order of
      the word list, with increasing positions within each word. */
  lemma WordPositionsOrdered(s: string)
    ensures forall a, b :: 0 <= a < b < |WordPositions(s)| ==>
              var x, y := WordPositions(s)[a], WordPositions(s)[b];
              x.value < y.value || (x.value == y.value && x.pos < y.pos)
  {
    ScanWordsIsPrefix(s, Numbers, 0);
    AllWordHitsOrdered(s, Numbers, 0);
    var ws, all := WordPositions(s), AllWordPositions(s);
    forall a, b | 0 <= a < b < |ws|
      ensures ws[a].value < ws[b].value || (ws[a].value == ws[b].value && ws[a].pos < ws[b].pos)
    {
      assert ws[a] == all[a] && ws[b] == all[b];
    }
  }

  /** The complete scan, word by word. */
  lemma AllWordPositionsUnfolded(s: string)
    ensures AllWordPositions(s) ==
              WordHitsFrom(s, "one", 1, 0) + WordHitsFrom(s, "two", 2, 0) + WordHitsFrom(s, "three", 3, 0) +
              WordHitsFrom(s, "four", 4, 0) + WordHitsFrom(s, "five", 5, 0) + WordHitsFrom(s, "six", 6, 0) +
              WordHitsFrom(s, "seven", 7, 0) + WordHitsFrom(s, "eight", 8, 0) + WordHitsFrom(s, "nine", 9, 0)
  {
    var ws := Numbers;
    assert ws[0] == "one" && ws[1] == "two" && ws[2] == "three" && ws[3] == "four" && ws[4] == "five";
    assert ws[5] == "six" && ws[6] == "seven" && ws[7] == "eight" && ws[8] == "nine";
    AllWordHitsNine(s, ws);
  }

  /** The complete scan over a list of nine words. */
  lemma AllWordHitsNine(s: string, ws: seq<string>)
    requires |ws| == 9
    ensures AllWordHits(s, ws, 0) ==
              WordHitsFrom(s, ws[0], 1, 0) + WordHitsFrom(s, ws[1], 2, 0) + WordHitsFrom(s, ws[2], 3, 0) +
              WordHitsFrom(s, ws[3], 4, 0) + WordHitsFrom(s, ws[4], 5, 0) + WordHitsFrom(s, ws[5], 6, 0) +
              WordHitsFrom(s, ws[6], 7, 0) + WordHitsFrom(s, ws[7], 8, 0) + WordHitsFrom(s, ws[8], 9, 0)
  {
    var w0 := WordHitsFrom(s, ws[0], 1, 0);
    assert AllWordHits(s, ws, 0) == w0 + AllWordHits(s, ws, 1);
    ScanStep(s, ws, 1, w0);
    var w1 := WordHitsFrom(s, ws[1], 2, 0);
    ScanStep(s, ws, 2, w0 + w1);
    var w2 := WordHitsFrom(s, ws[2], 3, 0);
    ScanStep(s, ws, 3, w0 + w1 + w2);
    var w3 := WordHitsFrom(s, ws[3], 4, 0);
    ScanStep(s, ws, 4, w0 + w1 + w2 + w3);
    var w4 := WordHitsFrom(s, ws[4], 5, 0);
    ScanStep(s, ws, 5, w0 + w1 + w2 + w3 + w4);
    var w5 := WordHitsFrom(s, ws[5], 6, 0);
    ScanStep(s, ws, 6, w0 + w1 + w2 + w3 + w4 + w5);
    var w6 := WordHitsFrom(s, ws[6], 7, 0);
    ScanStep(s, ws, 7, w0 + w1 + w2 + w3 + w4 + w5 + w6);
    var w7 := WordHitsFrom(s, ws[7], 8, 0);
    ScanStep(s, ws, 8, w0 + w1 + w2 + w3 + w4 + w5 + w6 + w7);
    var w8 := WordHitsFrom(s, ws[8], 9, 0);
    assert AllWordHits(s, ws, 9) == [];
    assert w0 + w1 + w2 + w3 + w4 + w5 + w6 + w7 + w8 + [] == w0 + w1 + w2 + w3 + w4 + w5 + w6 + w7 + w8;
  }

  /** One more word of the scan, moved into the prefix already unfolded. */
  lemma ScanStep(s: string, ws: seq<string>, k: nat, t: seq<Hit>)
    requires k < |ws| && AllWordHits(s, ws, 0) == t + AllWordHits(s, ws, k)
    ensures AllWordHits(s, ws, 0) == (t + WordHitsFrom(s, ws[k], k + 1, 0)) + AllWordHits(s, ws, k + 1)
  {
    var w, r := WordHitsFrom(s, ws[k], k + 1, 0), AllWordHits(s, ws, k + 1);
    assert AllWordHits(s, ws, k) == w + r;
    assert t + (w + r) == (t + w) + r;
  }

  lemma ExampleWordPositions()
    ensures WordPositions("two1nine") == [Hit(0, 2), Hit(4, 9)]
  {
    WordPositionsLongLine("two1nine");
    AllWordPositionsUnfolded("two1nine");
    TwoOneNineOne();
    TwoOneNineTwo();
    TwoOneNineThree();
    TwoOneNineFour();
    TwoOneNineFive();
    TwoOneNineSix();
    TwoOneNineSeven();
    TwoOneNineEight();
    TwoOneNineNine();
  }

  lemma TwoOneNineOne()
    ensures WordHitsFrom("two1nine", "one", 1, 0) == []
  {
    var s := "two1nine";
    assert WordHitsFrom(s, "one", 1, 5) == [];
    assert WordHitsFrom(s, "one", 1, 4) == [];
    assert WordHitsFrom(s, "one", 1, 3) == [];
    assert WordHitsFrom(s, "one", 1, 2) == [];
    assert WordHitsFrom(s, "one", 1, 1) == [];
  }

  lemma TwoOneNineTwo()
    ensures WordHitsFrom("two1nine", "two", 2, 0) == [Hit(0, 2)]
  {
    var s := "two1nine";
    assert WordHitsFrom(s, "two", 2, 5) == [];
    assert WordHitsFrom(s, "two", 2, 4) == [];
    assert WordHitsFrom(s, "two", 2, 3) == [];
    assert WordHitsFrom(s, "two", 2, 2) == [];
    assert WordHitsFrom(s, "two", 2, 1) == [];
  }

  lemma TwoOneNineThree()
    ensures WordHitsFrom("two1nine", "three", 3, 0) == []
  {
    var s := "two1nine";
    assert WordHitsFrom(s, "three", 3, 3) == [];
    assert WordHitsFrom(s, "three", 3, 2) == [];
    assert WordHitsFrom(s, "three", 3, 1) == [];
  }

  lemma TwoOneNineFour()
    ensures WordHitsFrom("two1nine", "four", 4, 0) == []
  {
    var s := "two1nine";
    assert WordHitsFrom(s, "four", 4, 4) == [];
    assert WordHitsFrom(s, "four", 4, 3) == [];
    assert WordHitsFrom(s, "four", 4, 2) == [];
    assert WordHitsFrom(s, "four", 4, 1) == [];
  }

  lemma TwoOneNineFive()
    ensures WordHitsFrom("two1nine", "five", 5, 0) == []
  {
    var s := "two1nine";
    assert WordHitsFrom(s, "five", 5, 4) == [];
    assert WordHitsFrom(s, "five", 5, 3) == [];
    assert WordHitsFrom(s, "five", 5, 2) == [];
    assert WordHitsFrom(s, "five", 5, 1) == [];
  }

  lemma TwoOneNineSix()
    ensures WordHitsFrom("two1nine", "six", 6, 0) == []
  {
    var s := "two1nine";
    assert WordHitsFrom(s, "six", 6, 5) == [];
    assert WordHitsFrom(s, "six", 6, 4) == [];
    assert WordHitsFrom(s, "six", 6, 3) == [];
    assert WordHitsFrom(s, "six", 6, 2) == [];
    assert WordHitsFrom(s, "six", 6, 1) == [];
  }

  lemma TwoOneNineSeven()
    ensures WordHitsFrom("two1nine", "seven", 7, 0) == []
  {
    var s := "two1nine";
    assert WordHitsFrom(s, "seven", 7, 3) == [];
    assert WordHitsFrom(s, "seven", 7, 2) == [];
    assert WordHitsFrom(s, "seven", 7, 1) == [];
  }

  lemma TwoOneNineEight()
    ensures WordHitsFrom("two1nine", "eight", 8, 0) == []
  {
    var s := "two1nine";
    assert WordHitsFrom(s, "eight", 8, 3) == [];
    assert WordHitsFrom(s, "eight", 8, 2) == [];
    assert WordHitsFrom(s, "eight", 8, 1) == [];
  }

  lemma TwoOneNineNine()
    ensures WordHitsFrom("two1nine", "nine", 9, 0) == [Hit(4, 9)]
  {
    var s := "two1nine";
    assert WordHitsFrom(s, "nine", 9, 4) == [Hit(4, 9)];
    assert WordHitsFrom(s, "nine", 9, 3) == [Hit(4, 9)];
    assert WordHitsFrom(s, "nine", 9, 2) == [Hit(4, 9)];
    assert WordHitsFrom(s, "nine", 9, 1) == [Hit(4, 9)];
  }

  // ---------------------------------------------------------------------------
  // part2_extract

  /** Rust's ordering on (position, value) pairs. */
  predicate LexLe(a: Hit, b: Hit) {
    a.pos < b.pos || (a.pos == b.pos && a.value <= b.value)
  }

  predicate SortedHits(xs: seq<Hit>) {
    forall i, j :: 0 <= i < j < |xs| ==> LexLe(xs[i], xs[j])
  }

  /** A hit below everything in a sorted list can go in front of it. */
  lemma ConsSorted(y: Hit, rest: seq<Hit>)
    requires SortedHits(rest)
    requires forall z :: z in multiset(rest) ==> LexLe(y, z)
    ensures SortedHits([y] + rest)
  {
    var r := [y] + rest;
    forall i, j | 0 <= i < j < |r| ensures LexLe(r[i], r[j]) {
      assert r[j] == rest[j - 1] && rest[j - 1] in multiset(rest);
      if i > 0 {
        assert r[i] == rest[i - 1];
      }
    }
  }

  /** The head of a sorted list is below `x` and below its own tail. */
  lemma HeadBelow(x: Hit, xs: seq<Hit>, rest: seq<Hit>)
    requires xs != [] && SortedHits(xs) && !LexLe(x, xs[0])
    requires multiset(rest) == multiset(xs[1..]) + multiset{x}
    ensures forall z :: z in multiset(rest) ==> LexLe(xs[0], z)
  {
    forall z | z in multiset(rest) ensures LexLe(xs[0], z) {
      if z != x {
        assert z in xs[1..];
        var k :| 0 <= k < |xs[1..]| && xs[1..][k] == z;
        assert xs[k + 1] == z;
      }
    }
  }

  function Insert(x: Hit, xs: seq<Hit>): (r: seq<Hit>)
    requires SortedHits(xs)
    ensures SortedHits(r) && multiset(r) == multiset(xs) + multiset{x}
  {
    if xs == [] then [x]
    else if LexLe(x, xs[0]) then
      ConsSorted(x, xs);
      [x] + xs
    else
      assert SortedHits(xs[1..]);
      var rest := Insert(x, xs[1..]);
      HeadBelow(x, xs, rest);
      ConsSorted(xs[0], rest);
      assert xs == [xs[0]] + xs[1..];
      [xs[0]] + rest
  }

  /** `Vec::sort` on the hits: a sorted permutation. */
  function Sort(xs: seq<Hit>): (r: seq<Hit>)
    ensures SortedHits(r) && multiset(r) == multiset(xs)
  {
    if xs == [] then []
    else
      assert xs == [xs[0]] + xs[1..];
      Insert(xs[0], Sort(xs[1..]))
  }

  /** The least hit in Rust's ordering. */
  function MinHit(xs: seq<Hit>): Hit
    requires xs != []
  {
    if |xs| == 1 then xs[0]
    else
      var m := MinHit(xs[1..]);
      if LexLe(xs[0], m) then xs[0] else m
  }

  /** The greatest hit in Rust's ordering. */
  function MaxHit(xs: seq<Hit>): Hit
    requires xs != []
  {
    if |xs| == 1 then xs[0]
    else
      var m := MaxHit(xs[1..]);
      if LexLe(m, xs[0]) then xs[0] else m
  }

  lemma {:induction false} MinMaxHitSpec(xs: seq<Hit>)
    requires xs != []
    ensures MinHit(xs) in xs && forall h :: h in xs ==> LexLe(MinHit(xs), h)
    ensures MaxHit(xs) in xs && forall h :: h in xs ==> LexLe(h, MaxHit(xs))
  {
    if |xs| > 1 {
      MinMaxHitSpec(xs[1..]);
      assert forall h :: h in xs ==> h == xs[0] || h in xs[1..];
    }
  }

  /** The hits `part2_extract` collects: digit hits, then word hits. */
  function Hits(s: string): seq<Hit> {
    DigitPositions(s) + WordPositions(s)
  }

  /** The part 2 value of a line: ten times the value of the first hit plus
      the value of the last, in (position, value) order. */
  function Part2Value(s: string): (v: int)
    requires Hits(s) != []
  {
    10 * MinHit(Hits(s)).value + MaxHit(Hits(s)).value
  }

  /** The two ends of a sorted permutation are the least and greatest hits. */
  lemma SortedEnds(xs: seq<Hit>, r: seq<Hit>)
    requires xs != [] && SortedHits(r) && multiset(r) == multiset(xs)
    ensures |r| == |xs| && r[0] == MinHit(xs) && r[|r| - 1] == MaxHit(xs)
  {
    assert |r| == |multiset(r)| == |multiset(xs)| == |xs|;
    MinMaxHitSpec(xs);
    assert forall h :: h in r <==> h in xs by {
      forall h ensures h in r <==> h in xs {
        assert h in r <==> h in multiset(r);
        assert h in xs <==> h in multiset(xs);
      }
    }
    assert r[0] in xs && r[|r| - 1] in xs;
    var i :| 0 <= i < |r| && r[i] == MinHit(xs);
    var j :| 0 <= j < |r| && r[j] == MaxHit(xs);
    assert i == 0 || LexLe(r[0], r[i]);
    assert j == |r| - 1 || LexLe(r[j], r[|r| - 1]);
  }

  /** `part2_extract`: gather digit and word hits, sort them, combine the
      first and the last; indexing an empty list panics, hence the
      precondition. */
  method Part2Extract(s: string) returns (v: int)
    requires Hits(s) != []
    ensures v == Part2Value(s)
  {
    var byDigit := DigitPositions(s);
    var byWord := NumberWordPositions(s);
    var positions := Sort(byDigit + byWord);
    SortedEnds(byDigit + byWord, positions);
    var first := positions[0].value;
    var last := positions[|positions| - 1].value;
    v := 10 * first + last;
  }

  /** A word that occurs at `p` starts with the two characters at `p`. */
  lemma MatchStart(s: string, p: nat, w: string)
    requires MatchesAt(s, p, w) && |w| >= 2
    ensures s[p] == w[0] && s[p + 1] == w[1]
  {
    MatchesFromSpec(s, p, w, 0);
  }

  /** Positions `i` and `i + 1` hold the first two letters of some number
      word, and there is room for three letters from `i`. */
  predicate MayStartWord(s: string, i: nat)
  {
    i + 3 <= |s| && WordOpening(s[i], s[i + 1])
  }

  /** No word hit starts where the line does not hold the first two letters
      of some word, and every word hit leaves room for at least three
      letters. */
  lemma WordHitPlaces(s: string, h: Hit)
    requires h in WordPositions(s)
    ensures h.pos + 3 <= |s| && MayStartWord(s, h.pos)
    ensures !IsDigit(s[h.pos])
  {
    WordPositionsSound(s);
    NumbersShape();
    NumbersInitials();
    MatchStart(s, h.pos, Numbers[h.value - 1]);
  }

  /** Two word hits at the same position are the same hit. */
  lemma WordHitsDistinct(s: string, a: Hit, b: Hit)
    requires a in WordPositions(s) && b in WordPositions(s) && a.pos == b.pos
    ensures a == b
  {
    WordPositionsSound(s);
    NumbersShape();
    NumbersPrefixFree();
    MatchStart(s, a.pos, Numbers[a.value - 1]);
    MatchStart(s, b.pos, Numbers[b.value - 1]);
  }

  /** Two digit hits at the same position are the same hit. */
  lemma DigitHitsDistinct(s: string, a: Hit, b: Hit)
    requires a in DigitPositions(s) && b in DigitPositions(s) && a.pos == b.pos
    ensures a == b
  {
    DigitPositionsSpec(s);
    var ia :| 0 <= ia < |DigitPositions(s)| && DigitPositions(s)[ia] == a;
    var ib :| 0 <= ib < |DigitPositions(s)| && DigitPositions(s)[ib] == b;
  }

  /** Two different hits never share a position. */
  lemma HitPositionsDistinct(s: string, a: Hit, b: Hit)
    requires a in Hits(s) && b in Hits(s) && a.pos == b.pos
    ensures a == b
  {
    var ds := DigitPositions(s);
    DigitPositionsSpec(s);
    if a in ds && b in ds {
      DigitHitsDistinct(s, a, b);
    } else if a in ds {
      var ia :| 0 <= ia < |ds| && ds[ia] == a;
      WordHitPlaces(s, b);
    } else if b in ds {
      var ib :| 0 <= ib < |ds| && ds[ib] == b;
      WordHitPlaces(s, a);
    } else {
      WordHitsDistinct(s, a, b);
    }
  }

  /** The part 2 value combines the value of the hit at the smallest position
      and the value of the hit at the largest position. */
  lemma Part2ValueIsFirstAndLast(s: string, first: Hit, last: Hit)
    requires first in Hits(s) && last in Hits(s)
    requires forall h :: h in Hits(s) ==> first.pos <= h.pos <= last.pos
    ensures Part2Value(s) == 10 * first.value + last.value
  {
    MinMaxHitSpec(Hits(s));
    HitPositionsDistinct(s, MinHit(Hits(s)), first);
    HitPositionsDistinct(s, MaxHit(Hits(s)), last);
  }

  lemma ExampleTwo1nine()
    ensures Hits("two1nine") != [] && Part2Value("two1nine") == 29
  {
    ExampleWordPositions();
  }

  /** Past the last digit character there are no digit hits. */
  lemma {:induction false} NoDigitHitsFrom(s: string, i: nat)
    requires i <= |s|
    requires forall k :: i <= k < |s| ==> !IsDigit(s[k])
    ensures DigitPositionsFrom(s, i) == []
    decreases |s| - i
  {
    if i < |s| {
      NoDigitHitsFrom(s, i + 1);
    }
  }

  /** A line without digit characters has no digit hits. */
  lemma NoDigitHits(s: string)
    requires forall i :: 0 <= i < |s| ==> !IsDigit(s[i])
    ensures DigitPositions(s) == []
  {
    NoDigitHitsFrom(s, 0);
  }

  /** From any `i <= j`, a line whose only digit character is at `j` has
      that one digit hit. */
  lemma {:induction false} OnlyDigitHitFrom(s: string, i: nat, j: nat)
    requires i <= j < |s| && IsDigit(s[j])
    requires forall k :: i <= k < |s| && k != j ==> !IsDigit(s[k])
    ensures DigitPositionsFrom(s, i) == [Hit(j, DigitValue(s[j]))]
    decreases |s| - i
  {
    if i < j {
      OnlyDigitHitFrom(s, i + 1, j);
    } else {
      NoDigitHitsFrom(s, j + 1);
    }
  }

  /** A line whose only digit character is at `j` has that one digit hit. */
  lemma OnlyDigitHit(s: string, j: nat)
    requires j < |s| && IsDigit(s[j])
    requires forall i :: 0 <= i < |s| && i != j ==> !IsDigit(s[i])
    ensures DigitPositions(s) == [Hit(j, DigitValue(s[j]))]
  {
    OnlyDigitHitFrom(s, 0, j);
  }

  /** Word hits can start only where a word's first letter sits with room
      for three letters; so when no such place lies outside `lo..hi`, every
      word hit is inside it. */
  lemma WordHitsWithin(s: string, lo: nat, hi: nat)
    requires forall i: nat :: i < lo || hi < i ==> !MayStartWord(s, i)
    ensures forall h :: h in WordPositions(s) ==> lo <= h.pos <= hi
  {
    forall h | h in WordPositions(s) ensures lo <= h.pos <= hi {
      WordHitPlaces(s, h);
    }
  }

  /** `s` spells `t`, character by character. */
  predicate Spells(s: string, t: string) {
    |s| == |t| && forall i :: 0 <= i < |t| ==> s[i] == t[i]
  }

  /** The letters of "eightwothree" hold no digit, and no word can start
      after position 7. */
  lemma EightwothreeHitBounds(s: string)
    requires Spells(s, "eightwothree")
    ensures DigitPositions(s) == []
    ensures forall h :: h in WordPositions(s) ==> h.pos <= 7
  {
    NoDigitHits(s);
    assert s[8] == 'h' && s[9] == 'r';
    WordHitsWithin(s, 0, 7);
  }

  /** On a line of at least five characters, every occurrence of a number
      word is a word hit. */
  lemma WordHitAt(s: string, p: nat, k: nat, v: nat)
    requires |s| >= 5 && k < |Numbers| && v == k + 1 && MatchesAt(s, p, Numbers[k])
    ensures Hit(p, v) in WordPositions(s)
  {
    AllWordHitsHas(s, Numbers, k, p);
    WordPositionsLongLine(s);
  }

  /** An occurrence of word k is among the hits of the complete scan. */
  lemma AllWordHitsHas(s: string, words: seq<string>, k: nat, p: nat)
    requires k < |words| && MatchesAt(s, p, words[k])
    ensures Hit(p, k + 1) in AllWordHits(s, words, 0)
  {
    AllWordHitsSpec(s, words, 0);
    var h := Hit(p, k + 1);
    assert 0 < h.value <= |words| && MatchesAt(s, h.pos, words[h.value - 1]);
  }

  /** "eight" spelled out at `p` is a word hit with value 8. */
  lemma EightAt(s: string, p: nat)
    requires p + 5 <= |s| && s[p] == 'e' && s[p + 1] == 'i' && s[p + 2] == 'g' && s[p + 3] == 'h' && s[p + 4] == 't'
    ensures Hit(p, 8) in WordPositions(s)
  {
    var w := Numbers[7];
    assert w == "eight";
    assert MatchesFrom(s, p, w, 5);
    assert MatchesFrom(s, p, w, 4);
    assert MatchesFrom(s, p, w, 3);
    assert MatchesFrom(s, p, w, 2);
    assert MatchesFrom(s, p, w, 1);
    assert MatchesFrom(s, p, w, 0);
    WordHitAt(s, p, 7, 8);
  }

  /** "three" spelled out at `p` is a word hit with value 3. */
  lemma ThreeAt(s: string, p: nat)
    requires p + 5 <= |s| && s[p] == 't' && s[p + 1] == 'h' && s[p + 2] == 'r' && s[p + 3] == 'e' && s[p + 4] == 'e'
    ensures Hit(p, 3) in WordPositions(s)
  {
    var w := Numbers[2];
    assert w == "three";
    assert MatchesFrom(s, p, w, 5);
    assert MatchesFrom(s, p, w, 4);
    assert MatchesFrom(s, p, w, 3);
    assert MatchesFrom(s, p, w, 2);
    assert MatchesFrom(s, p, w, 1);
    assert MatchesFrom(s, p, w, 0);
    WordHitAt(s, p, 2, 3);
  }

  /** "eightwothree": the overlapping "eight" (at 0) and "two" are both
      found, "three" at 7 is the last hit, and the value is 83. */
  lemma Eightwothree(s: string)
    requires Spells(s, "eightwothree")
    ensures Hits(s) != [] && Part2Value(s) == 83
  {
    assert s[0] == 'e' && s[1] == 'i' && s[2] == 'g' && s[3] == 'h' && s[4] == 't';
    EightAt(s, 0);
    assert s[7] == 't' && s[8] == 'h' && s[9] == 'r' && s[10] == 'e' && s[11] == 'e';
    ThreeAt(s, 7);
    EightwothreeHitBounds(s);
    Part2ValueIsFirstAndLast(s, Hit(0, 8), Hit(7, 3));
  }

  lemma ExampleEightwothree()
    ensures Hits("eightwothree") != [] && Part2Value("eightwothree") == 83
  {
    Eightwothree("eightwothree");
  }

  /** The only digit of "xtwone3four" is the '3' at 6, and no word can
      start before 1 or after 7. */
  lemma Xtwone3fourHitBounds(s: string)
    requires Spells(s, "xtwone3four")
    ensures DigitPositions(s) == [Hit(6, 3)]
    ensures forall h :: h in WordPositions(s) ==> 1 <= h.pos <= 7
  {
    assert s[6] == '3';
    OnlyDigitHit(s, 6);
    assert s[0] == 'x' && s[8] == 'o' && s[9] == 'u';
    WordHitsWithin(s, 1, 7);
  }

  /** "two" spelled out at `p` is a word hit with value 2. */
  lemma TwoAt(s: string, p: nat)
    requires |s| >= 5 && p + 3 <= |s| && s[p] == 't' && s[p + 1] == 'w' && s[p + 2] == 'o'
    ensures Hit(p, 2) in WordPositions(s)
  {
    var w := Numbers[1];
    assert w == "two";
    assert MatchesFrom(s, p, w, 3);
    assert MatchesFrom(s, p, w, 2);
    assert MatchesFrom(s, p, w, 1);
    assert MatchesFrom(s, p, w, 0);
    WordHitAt(s, p, 1, 2);
  }

  /** "four" spelled out at `p` is a word hit with value 4. */
  lemma FourAt(s: string, p: nat)
    requires |s| >= 5 && p + 4 <= |s| && s[p] == 'f' && s[p + 1] == 'o' && s[p + 2] == 'u' && s[p + 3] == 'r'
    ensures Hit(p, 4) in WordPositions(s)
  {
    var w := Numbers[3];
    assert w == "four";
    assert MatchesFrom(s, p, w, 4);
    assert MatchesFrom(s, p, w, 3);
    assert MatchesFrom(s, p, w, 2);
    assert MatchesFrom(s, p, w, 1);
    assert MatchesFrom(s, p, w, 0);
    WordHitAt(s, p, 3, 4);
  }

  /** "xtwone3four": "two" at 1 is the first hit and "four" at 7 the last,
      so the value is 24. */
  lemma Xtwone3four(s: string)
    requires Spells(s, "xtwone3four")
    ensures Hits(s) != [] && Part2Value(s) == 24
  {
    assert s[1] == 't' && s[2] == 'w' && s[3] == 'o';
    TwoAt(s, 1);
    assert s[7] == 'f' && s[8] == 'o' && s[9] == 'u' && s[10] == 'r';
    FourAt(s, 7);
    Xtwone3fourHitBounds(s);
    Part2ValueIsFirstAndLast(s, Hit(1, 2), Hit(7, 4));
  }

  lemma ExampleXtwone3four()
    ensures Hits("xtwone3four") != [] && Part2Value("xtwone3four") == 24
  {
    Xtwone3four("xtwone3four");
  }

  /** Every hit lies on the line. */
  lemma HitsOnLine(s: string)
    ensures forall h :: h in Hits(s) ==> h.pos < |s|
  {
    DigitPositionsSpec(s);
    forall h | h in Hits(s) ensures h.pos < |s| {
      if h in WordPositions(s) {
        WordHitPlaces(s, h);
      } else {
        var i :| 0 <= i < |DigitPositions(s)| && DigitPositions(s)[i] == h;
      }
    }
  }

  /** Every digit character of the line is a hit with its value `d`. */
  lemma DigitHitAt(s: string, j: nat, d: nat)
    requires j < |s| && IsDigit(s[j]) && d == DigitValue(s[j])
    ensures Hit(j, d) in Hits(s)
  {
    DigitPositionsSpec(s);
  }

  /** When no digit character lies outside `lo..hi`, every digit hit is
      inside it. */
  lemma DigitHitsWithin(s: string, lo: nat, hi: nat)
    requires forall i :: 0 <= i < |s| && (i < lo || hi < i) ==> !IsDigit(s[i])
    ensures forall h :: h in DigitPositions(s) ==> lo <= h.pos <= hi
  {
    DigitPositionsSpec(s);
    forall h | h in DigitPositions(s) ensures lo <= h.pos <= hi {
      var i :| 0 <= i < |DigitPositions(s)| && DigitPositions(s)[i] == h;
    }
  }

  /** "one" spelled out at `p` is a word hit with value 1. */
  lemma OneAt(s: string, p: nat)
    requires |s| >= 5 && p + 3 <= |s| && s[p] == 'o' && s[p + 1] == 'n' && s[p + 2] == 'e'
    ensures Hit(p, 1) in WordPositions(s)
  {
    var w := Numbers[0];
    assert w == "one";
    assert MatchesFrom(s, p, w, 3);
    assert MatchesFrom(s, p, w, 2);
    assert MatchesFrom(s, p, w, 1);
    assert MatchesFrom(s, p, w, 0);
    WordHitAt(s, p, 0, 1);
  }

  /** "six" spelled out at `p` is a word hit with value 6. */
  lemma SixAt(s: string, p: nat)
    requires |s| >= 5 && p + 3 <= |s| && s[p] == 's' && s[p + 1] == 'i' && s[p + 2] == 'x'
    ensures Hit(p, 6) in WordPositions(s)
  {
    var w := Numbers[5];
    assert w == "six";
    assert MatchesFrom(s, p, w, 3);
    assert MatchesFrom(s, p, w, 2);
    assert MatchesFrom(s, p, w, 1);
    assert MatchesFrom(s, p, w, 0);
    WordHitAt(s, p, 5, 6);
  }

  /** The only digit of "abcone2threexyz" is the '2' at 6, and no word can
      start before 3 or after 7. */
  lemma Abcone2threexyzHitBounds(s: string)
    requires Spells(s, "abcone2threexyz")
    ensures DigitPositions(s) == [Hit(6, 2)]
    ensures forall h :: h in WordPositions(s) ==> 3 <= h.pos <= 7
  {
    assert s[6] == '2';
    OnlyDigitHit(s, 6);
    assert s[0] == 'a' && s[1] == 'b' && s[2] == 'c';
    assert s[8] == 'h' && s[9] == 'r' && s[10] == 'e' && s[11] == 'e' && s[12] == 'x';
    WordHitsWithin(s, 3, 7);
  }

  /** "abcone2threexyz": "one" at 3 is the first hit and "three" at 7 the
      last, so the value is 13. */
  lemma Abcone2threexyz(s: string)
    requires Spells(s, "abcone2threexyz")
    ensures Hits(s) != [] && Part2Value(s) == 13
  {
    assert s[3] == 'o' && s[4] == 'n' && s[5] == 'e';
    OneAt(s, 3);
    assert s[7] == 't' && s[8] == 'h' && s[9] == 'r' && s[10] == 'e' && s[11] == 'e';
    ThreeAt(s, 7);
    Abcone2threexyzHitBounds(s);
    Part2ValueIsFirstAndLast(s, Hit(3, 1), Hit(7, 3));
  }

  lemma ExampleAbcone2threexyz()
    ensures Hits("abcone2threexyz") != [] && Part2Value("abcone2threexyz") == 13
  {
    Abcone2threexyz("abcone2threexyz");
  }

  /** "4nineeightseven2": the digits at both ends are the first and the last
      hit, whatever words lie between them, so the value is 42. */
  lemma Fournineeightseven2(s: string)
    requires Spells(s, "4nineeightseven2")
    ensures Hits(s) != [] && Part2Value(s) == 42
  {
    assert s[0] == '4' && s[15] == '2';
    DigitHitAt(s, 0, 4);
    DigitHitAt(s, 15, 2);
    HitsOnLine(s);
    Part2ValueIsFirstAndLast(s, Hit(0, 4), Hit(15, 2));
  }

  lemma ExampleFournineeightseven2()
    ensures Hits("4nineeightseven2") != [] && Part2Value("4nineeightseven2") == 42
  {
    Fournineeightseven2("4nineeightseven2");
  }

  /** The first character of "zoneight234" is neither a digit nor the start
      of a word, so every hit lies at 1 or later. */
  lemma Zoneight234HitBounds(s: string)
    requires Spells(s, "zoneight234")
    ensures forall h :: h in DigitPositions(s) ==> 1 <= h.pos <= 10
    ensures forall h :: h in WordPositions(s) ==> 1 <= h.pos <= 10
  {
    assert s[0] == 'z';
    DigitHitsWithin(s, 1, 10);
    WordHitsWithin(s, 1, 10);
  }

  /** "zoneight234": "one" at 1 is the first hit (before the overlapping
      "eight") and the '4' at 10 the last, so the value is 14. */
  lemma Zoneight234(s: string)
    requires Spells(s, "zoneight234")
    ensures Hits(s) != [] && Part2Value(s) == 14
  {
    assert s[1] == 'o' && s[2] == 'n' && s[3] == 'e';
    OneAt(s, 1);
    assert s[10] == '4';
    DigitHitAt(s, 10, 4);
    Zoneight234HitBounds(s);
    Part2ValueIsFirstAndLast(s, Hit(1, 1), Hit(10, 4));
  }

  lemma ExampleZoneight234()
    ensures Hits("zoneight234") != [] && Part2Value("zoneight234") == 14
  {
    Zoneight234("zoneight234");
  }

  /** The only digit of "7pqrstsixteen" is the '7' at 0, and no word can
      start after 6 ("teen" holds no number word). */
  lemma SevenpqrstsixteenHitBounds(s: string)
    requires Spells(s, "7pqrstsixteen")
    ensures DigitPositions(s) == [Hit(0, 7)]
    ensures forall h :: h in WordPositions(s) ==> h.pos <= 6
  {
    assert s[0] == '7';
    OnlyDigitHit(s, 0);
    assert s[7] == 'i' && s[8] == 'x' && s[9] == 't' && s[10] == 'e' && s[11] == 'e';
    WordHitsWithin(s, 0, 6);
  }

  /** "7pqrstsixteen": the '7' at 0 is the first hit and "six" at 6 the
      last, so the value is 76. */
  lemma Sevenpqrstsixteen(s: string)
    requires Spells(s, "7pqrstsixteen")
    ensures Hits(s) != [] && Part2Value(s) == 76
  {
    assert s[6] == 's' && s[7] == 'i' && s[8] == 'x';
    SixAt(s, 6);
    SevenpqrstsixteenHitBounds(s);
    Part2ValueIsFirstAndLast(s, Hit(0, 7), Hit(6, 6));
  }

  lemma ExampleSevenpqrstsixteen()
    ensures Hits("7pqrstsixteen") != [] && Part2Value("7pqrstsixteen") == 76
  {
    Sevenpqrstsixteen("7pqrstsixteen");
  }

  // ---------------------------------------------------------------------------
  // pt1 and pt2

  /** The part 1 value of every line. */
  function Part1Values(lines: seq<string>): (vs: seq<int>)
    requires forall i :: 0 <= i < |lines| ==> HasDigit(lines[i])
    ensures |vs| == |lines|
  {
    seq(|lines|, k requires 0 <= k < |lines| => ExtractDigits(lines[k]))
  }

  /** `pt1`: the sum of the part 1 values of the lines. */
  method Pt1(lines: seq<string>) returns (total: int)
    requires forall i :: 0 <= i < |lines| ==> HasDigit(lines[i])
    ensures total == Sum(Part1Values(lines))
  {
    total := 0;
    for i := 0 to |lines|
      invariant total == Sum(Part1Values(lines)[..i])
    {
      assert Part1Values(lines)[..i + 1] == Part1Values(lines)[..i] + [ExtractDigits(lines[i])];
      SumSnoc(Part1Values(lines)[..i], ExtractDigits(lines[i]));
      total := total + ExtractDigits(lines[i]);
    }
    assert Part1Values(lines)[..|lines|] == Part1Values(lines);
  }

  /** The part 2 value of every line. */
  function Part2Values(lines: seq<string>): (vs: seq<int>)
    requires forall i :: 0 <= i < |lines| ==> Hits(lines[i]) != []
    ensures |vs| == |lines|
  {
    seq(|lines|, k requires 0 <= k < |lines| => Part2Value(lines[k]))
  }

  /** `pt2`: the sum of the part 2 values of the lines. */
  method Pt2(lines: seq<string>) returns (total: int)
    requires forall i :: 0 <= i < |lines| ==> Hits(lines[i]) != []
    ensures total == Sum(Part2Values(lines))
  {
    total := 0;
    ghost var vs := Part2Values(lines);
    for i := 0 to |lines|
      invariant total == Sum(vs[..i])
    {
      var v := Part2Extract(lines[i]);
      SumPrefix(vs, i);
      total := total + v;
    }
    assert vs[..|lines|] == vs;
  }

  // ---------------------------------------------------------------------------
  // The early stop of the word scan

  /** The hits with the complete word scan. */
  function IntendedHits(s: string): seq<Hit> {
    DigitPositions(s) + AllWordPositions(s)
  }

  /** The part 2 value with every number word looked for. */
  function Part2ValueIntended(s: string): (v: int)
    requires IntendedHits(s) != []
  {
    10 * MinHit(IntendedHits(s)).value + MaxHit(IntendedHits(s)).value
  }

  /** Every digit and every number word occurrence is a hit of the complete
      scan, and nothing else is. */
  lemma IntendedHitsSpec(s: string)
    ensures forall h :: h in IntendedHits(s) <==>
              (h.pos < |s| && IsDigit(s[h.pos]) && h.value == DigitValue(s[h.pos])) ||
              (1 <= h.value <= |Numbers| && MatchesAt(s, h.pos, Numbers[h.value - 1]))
  {
    DigitPositionsSpec(s);
    AllWordHitsSpec(s, Numbers, 0);
    forall h | h in DigitPositions(s) ensures h.pos < |s| && IsDigit(s[h.pos]) && h.value == DigitValue(s[h.pos]) {
      var k :| 0 <= k < |DigitPositions(s)| && DigitPositions(s)[k] == h;
    }
  }

  /** Among the digits and all word occurrences, two hits at the same
      position are the same hit. */
  lemma IntendedHitPositionsDistinct(s: string, a: Hit, b: Hit)
    requires a in IntendedHits(s) && b in IntendedHits(s) && a.pos == b.pos
    ensures a == b
  {
    IntendedHitKind(s, a);
    IntendedHitKind(s, b);
    if IsWordHit(s, a) && IsWordHit(s, b) {
      WordsAtSamePlace(s, a, b);
    } else if IsWordHit(s, a) {
      WordHitNotDigit(s, a);
    } else if IsWordHit(s, b) {
      WordHitNotDigit(s, b);
    }
  }

  /** `h` is an occurrence of the word for its value. */
  predicate IsWordHit(s: string, h: Hit)
  {
    1 <= h.value <= |Numbers| && MatchesAt(s, h.pos, Numbers[h.value - 1])
  }

  /** A corrected hit is a digit character with its value or a word occurrence. */
  lemma IntendedHitKind(s: string, h: Hit)
    requires h in IntendedHits(s)
    ensures (h.pos < |s| && IsDigit(s[h.pos]) && h.value == DigitValue(s[h.pos])) || IsWordHit(s, h)
  {
    IntendedHitsSpec(s);
  }

  /** A word occurrence never starts at a digit. */
  lemma WordHitNotDigit(s: string, h: Hit)
    requires IsWordHit(s, h)
    ensures h.pos < |s| && !IsDigit(s[h.pos])
  {
    NumbersInitials();
    MatchStart(s, h.pos, Numbers[h.value - 1]);
  }

  /** Two word occurrences at one position are occurrences of the same word. */
  lemma WordsAtSamePlace(s: string, a: Hit, b: Hit)
    requires IsWordHit(s, a) && IsWordHit(s, b) && a.pos == b.pos
    ensures a == b
  {
    NumbersInitials();
    NumbersPrefixFree();
    MatchStart(s, a.pos, Numbers[a.value - 1]);
    MatchStart(s, b.pos, Numbers[b.value - 1]);
  }

  /** The corrected part 2 value combines the value of the first and the
      value of the last hit, counting every digit and every word occurrence. */
  lemma Part2ValueIntendedIsFirstAndLast(s: string, first: Hit, last: Hit)
    requires first in IntendedHits(s) && last in IntendedHits(s)
    requires forall h :: h in IntendedHits(s) ==> first.pos <= h.pos <= last.pos
    ensures Part2ValueIntended(s) == 10 * first.value + last.value
  {
    MinMaxHitSpec(IntendedHits(s));
    IntendedHitPositionsDistinct(s, MinHit(IntendedHits(s)), first);
    IntendedHitPositionsDistinct(s, MaxHit(IntendedHits(s)), last);
  }

  /** On lines of at least five characters the early stop changes nothing. */
  lemma Part2AgreesOnLongLines(s: string)
    requires |s| >= 5 && Hits(s) != []
    ensures IntendedHits(s) != [] && Part2Value(s) == Part2ValueIntended(s)
  {
    WordPositionsLongLine(s);
  }

  /** Part 2 adds up the intended values when every line has at least five
      characters. */
  lemma Pt2AgreesOnLongLines(lines: seq<string>)
    requires forall i :: 0 <= i < |lines| ==> |lines[i]| >= 5 && Hits(lines[i]) != []
    ensures forall i :: 0 <= i < |lines| ==> IntendedHits(lines[i]) != [] && Part2Values(lines)[i] == Part2ValueIntended(lines[i])
  {
    forall i | 0 <= i < |lines|
      ensures IntendedHits(lines[i]) != [] && Part2Values(lines)[i] == Part2ValueIntended(lines[i])
    {
      Part2AgreesOnLongLines(lines[i]);
    }
  }

  lemma OneSixAsWritten()
    ensures Hits("1six") == [Hit(0, 1)]
  {
    WordPositionsShortLine("1six");
  }

  lemma OneSixIntended()
    ensures IntendedHits("1six") == [Hit(0, 1), Hit(1, 6)]
  {
    var s := "1six";
    AllWordPositionsUnfolded(s);
    assert DigitPositions(s) == [Hit(0, 1)];
  }

  /** "1six": the scan as written stops at "three" (longer than the line), so
      "six" is never looked for and the value is 11 instead of 16. */
  lemma EarlyStopCounterexample()
    ensures Hits("1six") != [] && Part2Value("1six") == 11
    ensures IntendedHits("1six") != [] && Part2ValueIntended("1six") == 16
  {
    OneSixAsWritten();
    OneSixIntended();
  }
}
