# Advent of Code 2023, days 1 to 4, in Dafny

This project models the four puzzle solvers of the repository (`days/day01` to
`days/day04`) and proves what their code promises. Each solver scans lines of
text and counts or combines what it finds.

- **Day 1, calibration values.** Part 1 combines the first and last digit of
  each line. Part 2 also reads spelled-out number words, which may overlap
  ("eightwothree"). It sorts all hits by position.
- **Day 2, cube games.** This day takes a game's componentwise maximum over its
  rounds, tests it against a bag, and reduces the colour tokens of a round to
  a (red, green, blue) triple. Part 1 sums the ids of the games that fit
  (12, 13, 14).
- **Day 3, engine schematic.** A cursor-and-flag tokenizer turns grid rows into
  numbers and symbols with their coordinates. A bounding-box scan then reports
  the numbers next to a symbol.
- **Day 4, scratchcards.** This day covers a digit-run tokenizer, the count of
  winning numbers, the doubling score, and the in-place copy propagation over
  a pool of card counts.

Layout:

- module `Ascii` (`ascii.dfy`) holds digit characters, decimal values and
  maximal digit runs;
- module `Sums` (`sums.dfy`) holds the sum of a sequence;
- module `Wrappers` (`wrappers.dfy`) holds `Option`;
- modules `Day01` to `Day04` hold one solver each.

Code that works by mutation is modelled by methods with loops:

- `extract`/scan loops;
- `parsed_schematic`;
- `numbers_touching_a_symbol` with its labelled `break`;
- `parse_nums`;
- `score`;
- `Game::max`;
- `pt2` of day 4, on an `array`.

Each method is proved equal to a specification function, and the properties
are proved about that function. Iterator chains are modelled as functions.

## Model

| member | source | states |
|---|---|---|
| Day01.Digits | days/day01/src/main.rs:7-11 | the values of the digit characters of the line, left to right; `DigitsShape` and `ExtractDigitsIsFirstAndLast` prove what part 1 takes from them |
| Day01.ExtractDigits | days/day01/src/main.rs:6-15 | the calibration value of a line with a digit lies in 0..99 |
| Day01.DigitsShape | days/day01/src/main.rs:7-11 | the digits kept are single digits, and there is one iff the line contains a digit character |
| Day01.ExtractDigitsIsFirstAndLast | days/day01/src/main.rs:12-14 | the value is ten times the first digit character plus the last one |
| Day01.ExtractDigitsSingle | days/day01/src/main.rs:12-14 | a line with exactly one digit d gives 11·d |
| Day01.Example1abc2 | days/day01/src/main.rs:96 | "1abc2" gives 12 |
| Day01.ExamplePqr3stu8vwx | days/day01/src/main.rs:97 | "pqr3stu8vwx" gives 38 |
| Day01.ExampleA1b2c3d4e5f | days/day01/src/main.rs:98 | "a1b2c3d4e5f" gives 15 |
| Day01.ExampleTreb7uchet | days/day01/src/main.rs:99 | "treb7uchet" gives 77 |
| Day01.DigitPositions | days/day01/src/main.rs:49-61 | the (index, value) pairs of the digit characters; `DigitPositionsSpec` proves them exact and increasing |
| Day01.DigitPositionsSpec | days/day01/src/main.rs:49-61 | every digit hit is a digit character with its value; every digit character is hit; positions strictly increase |
| Day01.ExampleDigitPositions | days/day01/src/main.rs:142-146 | "two1nine" has the single digit hit (3, 1) |
| Day01.NumbersShape | days/day01/src/main.rs:26-28 | there are nine words of three to five letters; "one" and "two" come first and the third word has five letters, so a line shorter than five characters meets the `break` there |
| Day01.SlideWord | days/day01/src/main.rs:36-44 | sliding one word appends exactly its occurrences, with the word's value, to the output |
| Day01.NumberWordPositions | days/day01/src/main.rs:29-47 | the nested loops with the early `break` produce the word scan as written |
| Day01.ScanWords | days/day01/src/main.rs:31-45 | the outer loop over the words as written, which stops at the first word longer than the line; `ScanWordsIsPrefix` relates it to the full scan |
| Day01.WordPositions | days/day01/src/main.rs:29-47 | the word hits the code returns; `WordPositionsSound`, `WordPositionsOrdered` and `WordPositionsLongLine` state what they are |
| Day01.WordHitsFromSpec | days/day01/src/main.rs:36-44 | a word's hits are all of its occurrences, overlapping ones included, in increasing position |
| Day01.AllWordHitsSpec | days/day01/src/main.rs:31-44 | the full scan reports every occurrence of word i with value i+1 and nothing else |
| Day01.AllWordHitsOrdered | days/day01/src/main.rs:31-44 | the hits are grouped by word order, positions increase within a word |
| Day01.ScanWordsIsPrefix | days/day01/src/main.rs:33-35 | the scan with the early stop returns a prefix of the full scan |
| Day01.WordPositionsLongLine | days/day01/src/main.rs:33-35 | on a line of at least five characters nothing is cut off |
| Day01.WordPositionsShortLine | days/day01/src/main.rs:33-35 | on a shorter line only "one" and "two" can be reported |
| Day01.WordPositionsSound | days/day01/src/main.rs:29-47 | every word hit is an occurrence of the word for its value |
| Day01.WordPositionsOrdered | days/day01/src/main.rs:29-47 | the word hits come grouped by word in the order of the word list, with increasing positions within each word |
| Day01.ExampleWordPositions | days/day01/src/main.rs:134-138 | "two1nine" has the word hits (0, 2) and (4, 9) |
| Day01.Sort | days/day01/src/main.rs:67 | sorting the hits yields a sorted permutation in (position, value) order |
| Day01.MinMaxHitSpec | days/day01/src/main.rs:67-69 | the least and the greatest hit are hits and bound all others |
| Day01.SortedEnds | days/day01/src/main.rs:67-69 | the two ends of any sorted permutation are the least and the greatest hit |
| Day01.HitPositionsDistinct | days/day01/src/main.rs:64-66 | no two different hits share a position, so the sort orders them by position |
| Day01.Hits | days/day01/src/main.rs:64-66 | the digit hits followed by the word hits; `HitPositionsDistinct` proves no two of them share a position |
| Day01.Part2Value | days/day01/src/main.rs:63-71 | ten times the value of the least hit plus the value of the greatest; `Part2Extract` and `Part2ValueIsFirstAndLast` prove it is what the sort-and-index code returns |
| Day01.Part2Extract | days/day01/src/main.rs:63-71 | the part 2 value is ten times the first hit's value plus the last hit's value |
| Day01.Part2ValueIsFirstAndLast | days/day01/src/main.rs:63-71 | the value is fixed by the hit with the smallest and the hit with the largest position |
| Day01.ExampleTwo1nine | days/day01/src/main.rs:105 | "two1nine" gives 29 |
| Day01.ExampleEightwothree | days/day01/src/main.rs:106 | overlapping words: "eightwothree" gives 83 |
| Day01.ExampleAbcone2threexyz | days/day01/src/main.rs:107 | "abcone2threexyz" gives 13 |
| Day01.ExampleXtwone3four | days/day01/src/main.rs:108 | overlapping words around a digit: "xtwone3four" gives 24 |
| Day01.ExampleFournineeightseven2 | days/day01/src/main.rs:109 | digits at both ends outrank the words between them: "4nineeightseven2" gives 42 |
| Day01.ExampleZoneight234 | days/day01/src/main.rs:110 | "one" comes before the overlapping "eight": "zoneight234" gives 14 |
| Day01.ExampleSevenpqrstsixteen | days/day01/src/main.rs:111 | "sixteen" counts as "six": "7pqrstsixteen" gives 76 |
| Day01.Pt1 | days/day01/src/main.rs:73-79 | the total is the sum of the lines' part 1 values |
| Day01.Pt2 | days/day01/src/main.rs:81-87 | the total is the sum of the lines' part 2 values |
| Day01.IntendedHitsSpec | days/day01/src/main.rs:29-61 | the corrected hits are exactly the digit characters and all word occurrences |
| Day01.IntendedHitPositionsDistinct | days/day01/src/main.rs:64-66 | among all digits and word occurrences no two different hits share a position |
| Day01.Part2ValueIntendedIsFirstAndLast | days/day01/src/main.rs:63-71 | the corrected value is ten times the value of the first digit or word plus the value of the last one |
| Day01.Part2AgreesOnLongLines | days/day01/src/main.rs:33-35 | on a line of at least five characters the code as written gives the corrected value |
| Day01.Pt2AgreesOnLongLines | days/day01/src/main.rs:81-87 | on lines of at least five characters every part 2 value is the corrected one |
| Day01.EarlyStopCounterexample | days/day01/src/main.rs:33-35 | on "1six" the code as written gives 11 where the corrected scan gives 16 |
| Day02.MaxOf | days/day02/src/main.rs:30-37 | the componentwise maximum of (0, 0, 0) and the rounds; `MaxOfBounds` and `MaxOfIsLeastUpperBound` characterise it |
| Day02.Max | days/day02/src/main.rs:30-37 | the fold over the rounds from (0, 0, 0) computes the componentwise maximum |
| Day02.MaxOfBounds | days/day02/src/main.rs:30-37 | the maximum is at least (0, 0, 0) and every round, and is (0, 0, 0) without rounds |
| Day02.MaxOfIsLeastUpperBound | days/day02/src/main.rs:30-37 | the maximum fits a bag iff (0, 0, 0) and every round fit it |
| Day02.CanBePlayableWith | days/day02/src/main.rs:39-42 | the game's maximum fits the bag componentwise; `PlayableIffEveryRoundFits` and `PlayableMonotone` state what that means |
| Day02.PlayableIffEveryRoundFits | days/day02/src/main.rs:39-42 | a game is playable with a bag iff every round fits the bag componentwise |
| Day02.PlayableMonotone | days/day02/src/main.rs:39-42 | a game that fits a bag fits every larger bag |
| Day02.Contribution | days/day02/src/main.rs:64-69 | the triple one (count, colour) token adds, or none for an unknown colour; `ContributionIsShares` |
| Day02.ContributionIsShares | days/day02/src/main.rs:64-69 | a token contributes its count to its own colour only; an unknown colour fails |
| Day02.Reduce | days/day02/src/main.rs:72-74 | the `reduce` of the remaining tokens onto a running total; `ReduceIsColourTotals` |
| Day02.ReduceIsColourTotals | days/day02/src/main.rs:72-74 | the reduction adds the per-colour totals of the tokens, and fails on any unknown colour |
| Day02.RoundCubes | days/day02/src/main.rs:57-75 | a round's triple, with no triple for an empty round or an unknown colour; `RoundCubesIsColourTotals` and `RoundCubesOrderFree` |
| Day02.RoundCubesIsColourTotals | days/day02/src/main.rs:57-75 | a round's triple is its per-colour totals; an empty round or an unknown colour fails |
| Day02.RoundCubesOrderFree | days/day02/src/main.rs:57-75 | the order of a round's tokens does not change its triple |
| Day02.ParseRounds | days/day02/src/main.rs:54-79 | the triples of a game's rounds, failing if any round fails; `ParseRoundsInOrder` |
| Day02.ParseRoundsInOrder | days/day02/src/main.rs:54-79 | the rounds parse iff each round does, and then to their triples in order |
| Day02.ExampleGameParse | days/day02/src/main.rs:100-108 | the example line's rounds are (20, 8, 6), (4, 13, 5) and (1, 5, 0) |
| Day02.FittingIds | days/day02/src/main.rs:88-90 | the ids of the games that fit (12, 13, 14), in order; `FittingIdsSum` |
| Day02.FittingIdsSum | days/day02/src/main.rs:86-92 | the kept ids sum to the ids of the playable games, and none is kept iff no game fits |
| Day02.Pt1 | days/day02/src/main.rs:86-92 | the sum of the fitting ids, or no answer when none fits; `Pt1IsFittingIdSum` |
| Day02.Pt1IsFittingIdSum | days/day02/src/main.rs:86-92 | part 1 fails exactly when no game fits (12, 13, 14), else it is the sum of the fitting ids |
| Day02.ExamplePt1 | days/day02/src/main.rs:123-124 | the five example games give 8 |
| Day03.RowParts | days/day03/src/main.rs:35-68 | the entries of one row: a number per digit run, a symbol per character other than a digit or '.'; `RowPartsSound`, `RowPartsComplete`, `RowPartsMembers` and `RowPartsOrdered` |
| Day03.Schematic | days/day03/src/main.rs:29-71 | the entries of all rows, row after row; `ParsedSchematic` computes it and `SchematicMembers` and `SchematicOrdered` state what it holds |
| Day03.ParsedSchematic | days/day03/src/main.rs:29-71 | the cursor-and-flag row scan yields the schematic's entries, row after row |
| Day03.RowPartsSound | days/day03/src/main.rs:35-61 | every entry of a row lies on that row and is a whole digit run or one symbol character |
| Day03.RowPartsComplete | days/day03/src/main.rs:35-68 | every maximal digit run and every symbol of a row is an entry, whether or not the run ends the row |
| Day03.RowPartsMembers | days/day03/src/main.rs:35-68 | an entry is in a row's parts iff it is a maximal run at its start column or a symbol other than '.' |
| Day03.RowPartsOrdered | days/day03/src/main.rs:35-61 | within a row the columns of the entries strictly increase |
| Day03.NumberBeforeItsTerminator | days/day03/src/main.rs:47-58 | a number is followed directly by the symbol that ends it |
| Day03.SchematicMembers | days/day03/src/main.rs:31-69 | an entry is in the schematic iff it is a part of its own row |
| Day03.SchematicOrdered | days/day03/src/main.rs:31-69 | the entries come in reading order: by row, then by column |
| Day03.SchematicNumerals | days/day03/src/main.rs:47-53 | every number's text is a numeral, so parsing it cannot fail |
| Day03.SymbolCoords | days/day03/src/main.rs:75-82 | the coordinates of the entries that are not numbers; `SymbolCoordsOfSchematic` |
| Day03.SymbolCoordsOfSchematic | days/day03/src/main.rs:75-82 | the lookup built from the parse holds exactly the cells that carry a symbol |
| Day03.TouchingParts | days/day03/src/main.rs:83-99 | the number entries, in order, whose box holds a symbol coordinate; `TouchingPartsMembers`, `TouchingPartsLength` and `TouchingPartsOrdered` |
| Day03.TouchingNumbers | days/day03/src/main.rs:73-102 | the values of those entries; `NumbersTouchingASymbol` computes them |
| Day03.NumbersTouchingASymbol | days/day03/src/main.rs:73-102 | the nested box loops with the labelled break report, in parse order, the values of the numbers whose box holds a symbol |
| Day03.TouchingPartsMembers | days/day03/src/main.rs:89-99 | a number is reported iff a symbol coordinate lies in [x-1, x+len] × [y-1, y+1] |
| Day03.BoxIsAdjacency | days/day03/src/main.rs:89-93 | that box holds a symbol iff some symbol is next to one of the number's digits |
| Day03.TouchingPartsLength | days/day03/src/main.rs:83-99 | each number is reported at most once: there are no more reports than numbers |
| Day03.TouchingPartsOrdered | days/day03/src/main.rs:83-99 | the reported numbers keep the reading order of the parse |
| Day03.Pt1 | days/day03/src/main.rs:17-21 | part 1 is the sum of the numbers touching a symbol |
| Day03.ExampleEngine | days/day03/src/main.rs:126-131 | the example grid reports 467, 35, 633, 617, 592, 755, 664, 598, which sum to 4361 |
| Day03.ExampleEdge | days/day03/src/main.rs:141-144 | the grid with numbers on its edges reports 88 and 777 |
| Day04.NumberRuns | days/day04/src/main.rs:96-131 | the values of the maximal digit runs of a line, left to right; `NumberRunsAreRunValues`, `NumberRunsAreMaximalRuns` and `NumberRunsEmpty` |
| Day04.ParseNums | days/day04/src/main.rs:96-131 | the cursor scanner returns the values of the digit runs, including one that ends the line |
| Day04.NumberRunsAreRunValues | days/day04/src/main.rs:96-131 | the k-th number is the value of the k-th digit run |
| Day04.NumberRunsAreMaximalRuns | days/day04/src/main.rs:96-131 | the runs are maximal, left to right, and every maximal run is found |
| Day04.NumberRunsEmpty | days/day04/src/main.rs:96-131 | the list is empty iff the line has no digit |
| Day04.ExampleParseNums | days/day04/src/main.rs:202-205 | " 1 21 53 59 44" parses to 1, 21, 53, 59, 44 |
| Day04.Matches | days/day04/src/main.rs:61-66 | how many of the player's numbers are winning numbers; `MatchesCountsPositions` |
| Day04.MatchesCountsPositions | days/day04/src/main.rs:61-66 | the matches are the player's numbers, counted with multiplicity, that are winning numbers, at most as many as the player has |
| Day04.Points | days/day04/src/main.rs:51-59 | nothing for no match, 2^(m-1) for m matches; `Score` computes it |
| Day04.Score | days/day04/src/main.rs:51-59 | the doubling loop scores 0 without a match and 2^(m-1) with m matches |
| Day04.Pt1 | days/day04/src/main.rs:16-22 | the sum of the cards' points; `Pt1ZeroIffNoMatches` |
| Day04.Pt1ZeroIffNoMatches | days/day04/src/main.rs:16-22 | part 1 is zero exactly when no card has a match |
| Day04.MatchCounts | days/day04/src/main.rs:32 | one match count per card |
| Day04.Propagate | days/day04/src/main.rs:33-38 | card i with m matches gives each of the next m cards that exist as many copies as card i has |
| Day04.PoolAfter | days/day04/src/main.rs:29-39 | the pool once the first k cards are processed; `PoolAtLeastOne`, `PoolPrefixFinal` and `PoolRecurrence` state its properties |
| Day04.Pt2 | days/day04/src/main.rs:24-41 | the in-place propagation over the pool totals the final pool, which is at least the number of cards |
| Day04.PoolAtLeastOne | days/day04/src/main.rs:29-30 | every pool entry stays at least 1 |
| Day04.PoolPrefixFinal | days/day04/src/main.rs:31-39 | once card k is processed the entries up to k never change again, so card i's count is final when it is used |
| Day04.PoolRecurrence | days/day04/src/main.rs:31-39 | a card's final count is 1 plus the final counts of the earlier cards whose matches reach it |
| Day04.ExampleCard1 | days/day04/src/main.rs:162-166 | card 1 has 4 matches and is worth 8 |
| Day04.ExampleCard2 | days/day04/src/main.rs:168 | card 2 has 2 matches and is worth 2 |
| Day04.ExampleCard3 | days/day04/src/main.rs:169 | card 3 has 2 matches |
| Day04.ExampleCard4 | days/day04/src/main.rs:170 | card 4 has 1 match and is worth 1 |
| Day04.ExampleCard5 | days/day04/src/main.rs:171 | card 5 has no match and is worth 0 |
| Day04.ExampleCard6 | days/day04/src/main.rs:172 | card 6 has no match |
| Day04.ExamplePt2 | days/day04/src/main.rs:197-198 | the example's match counts end with pools 1, 2, 4, 8, 14, 1, which total 30 |

## Left out

- The `main` functions: they read a file and print the answers.
- `days/day05`: it holds type declarations, a `todo!()` and a part 1 that returns 0, so there is no behaviour to model.
- The string plumbing of `Game::from_str` and `Card::from_str` (headers, `split`, `strip_prefix`, id parsing). Day 2 rounds are taken as lists of (count, colour) tokens and day 4 cards as their two number lists. Of `Card::from_str` only `parse_nums` is modelled.
- Integer widths: `i32` and `usize` are unbounded integers, so `parse::<i32>()` overflow and overflowing sums are not modelled.
- Text encoding: lines are sequences of characters and digits are '0' to '9'. Rust's byte-indexed slicing in `number_word_positions` agrees with this on ASCII lines only.
- Panics are preconditions where the code simply crashes:
  - day 1 lines without a digit, or without any hit;
  - day 3 number texts that are not numerals, which the parser never produces.

  They are `None` where the property is about the failure: an unknown colour, an empty round, and part 1 of day 2 with no fitting game.
- `HashSet` is a mathematical set. `Vec::sort` is a functional insertion sort proved to return a sorted permutation, so the in-place sort is not modelled.
- The `flat_map` that selects the number entries in `numbers_touching_a_symbol` is a loop over all entries that skips symbols. The order is the same.

## Findings

| source | as written | input that shows it | evidently intended | confidence | as-written member | corrected member |
|---|---|---|---|---|---|---|
| days/day01/src/main.rs:33-35 | `break` leaves the loop over all nine words at the first word longer than the line | "1six": "three" is longer than the line, so "six" is never looked for and the value is 11 | skip only the word that does not fit (`continue`), giving 16 | medium, not executed | Day01.EarlyStopCounterexample | Day01.Part2ValueIntendedIsFirstAndLast |

`Day01.WordPositions` and `Day01.Part2Value` follow the code as written, and
`Day01.Pt2` sums them. `Day01.AllWordPositions` and
`Day01.Part2ValueIntended` are the corrected scan. `Day01.IntendedHitsSpec`
proves that this scan finds every digit character and every word occurrence.
`Day01.Part2ValueIntendedIsFirstAndLast` proves that the corrected value is
made of the first and the last of them, which is what part 2 asks for.
`Day01.Part2AgreesOnLongLines` and `Day01.Pt2AgreesOnLongLines` prove the two
agree on every line of at least five characters. So the difference shows only
on lines of up to four characters.
