/** Day 3, engine schematic: a row-by-row tokenizer that turns a character
    grid into numbers and symbols with their coordinates, and the search for
    the numbers that have a symbol in the box around them. */
module Day03 {
  import opened Ascii
  import opened Sums

  /** `Part`: the text of a number (its digits) or of a symbol (one character). */
  datatype Part = Num(text: string) | Symbol(text: string)

  /** One item of the parsed schematic: the column and row of its first
      character, and the part. */
  datatype Entry = Entry(x: int, y: int, part: Part)

  // ---------------------------------------------------------------------------
  // parsed_schematic

  /** The entries row `y` yields from column `i` on: a number for each run of
      digits (from `i` to its end when `i` is inside a run), a symbol for each
      character that is neither a digit nor '.', nothing for '.'. */
  function RowParts(line: string, y: int, i: nat): seq<Entry>
    requires i <= |line|
    decreases |line| - i
  {
    if i == |line| then []
    else if IsDigit(line[i]) then [Entry(i, y, Num(line[i..RunEnd(line, i)]))] + RowParts(line, y, RunEnd(line, i))
    else if line[i] == '.' then RowParts(line, y, i + 1)
    else [Entry(i, y, Symbol([line[i]]))] + RowParts(line, y, i + 1)
  }

  /** The entries of the whole grid, row after row. */
  function Schematic(lines: seq<string>): seq<Entry>
  {
    if lines == [] then []
    else Schematic(lines[..|lines| - 1]) + RowParts(lines[|lines| - 1], |lines| - 1, 0)
  }

  /** `parsed_schematic`: for each row a cursor `c` marks where the current
      number started while `inNumber` is set; a number is pushed when a
      non-digit or the end of the row closes it. */
  method ParsedSchematic(lines: seq<string>) returns (out: seq<Entry>)
    ensures out == Schematic(lines)
  {
    out := [];
    for y := 0 to |lines|
      invariant out == Schematic(lines[..y])
    {
      var line := lines[y];
      var c := 0;
      var inNumber := false;
      ghost var target := out + RowParts(line, y, 0);
      for end := 0 to |line|
        invariant c <= end
        invariant inNumber ==> c < end && AllDigits(line[c..end])
        invariant out + RowParts(line, y, if inNumber then c else end) == target
      {
        var current := line[end];
        if IsDigit(current) {
          if inNumber {
            DigitRunGrows(line, c, end);
            continue;
          } else {
            inNumber := true;
            c := end;
            assert line[c..end + 1] == [current];
          }
        } else {
          if inNumber {
            inNumber := false;
            NumberEndsAt(line, y, c, end);
            var e := Entry(c, y, Num(line[c..end]));
            AppendRegroup(out, e, RowParts(line, y, end));
            out := out + [e];
          }
          NonDigitStep(line, y, end);
          if current != '.' {
            var e := Entry(end, y, Symbol([current]));
            AppendRegroup(out, e, RowParts(line, y, end + 1));
            out := out + [e];
          }
          c := end;
        }
      }
      if inNumber {
        NumberEndsAt(line, y, c, |line|);
        out := out + [Entry(c, y, Num(line[c..|line|]))];
      }
      SchematicStep(lines, y);
    }
    assert lines[..|lines|] == lines;
  }

  lemma AppendRegroup(a: seq<Entry>, e: Entry, b: seq<Entry>)
    ensures a + [e] + b == a + ([e] + b)
  {
  }

  lemma DigitRunGrows(line: string, c: nat, end: nat)
    requires c <= end < |line| && AllDigits(line[c..end]) && IsDigit(line[end])
    ensures AllDigits(line[c..end + 1])
  {
    assert line[c..end + 1] == line[c..end] + [line[end]];
  }

  /** A digit run from `c` that stops at `end` is read as one number. */
  lemma NumberEndsAt(line: string, y: int, c: nat, end: nat)
    requires c < end <= |line| && AllDigits(line[c..end])
    requires end == |line| || !IsDigit(line[end])
    ensures RowParts(line, y, c) == [Entry(c, y, Num(line[c..end]))] + RowParts(line, y, end)
  {
    assert line[c..end][0] == line[c];
    RunEndIsUnique(line, c, end);
  }

  /** A character that is not a digit is skipped if it is '.' and read as a
      symbol otherwise. */
  lemma NonDigitStep(line: string, y: int, i: nat)
    requires i < |line| && !IsDigit(line[i])
    ensures RowParts(line, y, i) == (if line[i] == '.' then [] else [Entry(i, y, Symbol([line[i]]))]) + RowParts(line, y, i + 1)
  {
  }

  /** What an entry of row `y` found from column `i` on looks like: it lies
      on that row at or after `i`; a number is a whole run of digits (maximal,
      unless it is the part of a run from `i` on); a symbol is one character
      that is neither a digit nor '.'. */
  predicate RowEntry(line: string, y: int, i: nat, e: Entry) {
    e.y == y && i <= e.x < |line| &&
    (e.part.Num? ==> IsDigit(line[e.x]) && (e.x == i || RunStart(line, e.x)) && e.part.text == line[e.x..RunEnd(line, e.x)]) &&
    (e.part.Symbol? ==> !IsDigit(line[e.x]) && line[e.x] != '.' && e.part.text == [line[e.x]])
  }

  lemma {:induction false} RowPartsSound(line: string, y: int, i: nat)
    requires i <= |line|
    ensures forall k :: 0 <= k < |RowParts(line, y, i)| ==> RowEntry(line, y, i, RowParts(line, y, i)[k])
    decreases |line| - i
  {
    if i < |line| {
      var r := RowParts(line, y, i);
      var j := if IsDigit(line[i]) then RunEnd(line, i) else i + 1;
      RowPartsSound(line, y, j);
      var rest := RowParts(line, y, j);
      assert r == rest || r == [r[0]] + rest;
      forall k | 0 <= k < |rest| ensures RowEntry(line, y, i, rest[k]) {
        assert RowEntry(line, y, j, rest[k]);
      }
    }
  }

  /** Within a row, columns strictly increase. */
  lemma {:induction false} RowPartsOrdered(line: string, y: int, i: nat)
    requires i <= |line|
    ensures forall k :: 0 <= k < |RowParts(line, y, i)| - 1 ==>
              RowParts(line, y, i)[k].x < RowParts(line, y, i)[k + 1].x
    decreases |line| - i
  {
    if i < |line| {
      var j := if IsDigit(line[i]) then RunEnd(line, i) else i + 1;
      RowPartsOrdered(line, y, j);
      RowPartsSound(line, y, j);
    }
  }

  /** Every maximal run and every symbol character at or after `i` is found. */
  lemma {:induction false} RowPartsComplete(line: string, y: int, i: nat, j: nat)
    requires i <= j < |line|
    ensures RunStart(line, j) ==> Entry(j, y, Num(line[j..RunEnd(line, j)])) in RowParts(line, y, i)
    ensures !IsDigit(line[j]) && line[j] != '.' ==> Entry(j, y, Symbol([line[j]])) in RowParts(line, y, i)
    decreases |line| - i
  {
    if IsDigit(line[i]) {
      var e := RunEnd(line, i);
      if j < e {
        if i < j { NoRunStartInside(line, i, j); }
        assert IsDigit(line[i..e][j - i]);
      } else {
        RowPartsComplete(line, y, e, j);
      }
    } else if i < j {
      RowPartsComplete(line, y, i + 1, j);
    }
  }

  /** The entries a row yields, characterised without reference to the scan. */
  predicate IsRowPart(line: string, y: int, e: Entry) {
    e.y == y && 0 <= e.x < |line| &&
    match e.part
    case Num(t) => RunStart(line, e.x) && t == line[e.x..RunEnd(line, e.x)]
    case Symbol(t) => !IsDigit(line[e.x]) && line[e.x] != '.' && t == [line[e.x]]
  }

  /** A row yields exactly one number per maximal run of digits, at the run's
      first column and with the run as text, and exactly one symbol per
      character that is neither a digit nor '.'. */
  lemma RowPartsMembers(line: string, y: int)
    ensures forall e :: e in RowParts(line, y, 0) <==> IsRowPart(line, y, e)
  {
    RowPartsSound(line, y, 0);
    forall e | IsRowPart(line, y, e) ensures e in RowParts(line, y, 0) {
      RowPartsComplete(line, y, 0, e.x as nat);
    }
  }

  /** A number is pushed just before the symbol that ends it. */
  lemma {:induction false} NumberBeforeItsTerminator(line: string, y: int, i: nat, k: nat)
    requires i <= |line| && k < |RowParts(line, y, i)|
    requires RowParts(line, y, i)[k].part.Num?
    requires var e := RowParts(line, y, i)[k];
             0 <= e.x && e.x + |e.part.text| < |line| && line[e.x + |e.part.text|] != '.'
    ensures k + 1 < |RowParts(line, y, i)|
    ensures var e := RowParts(line, y, i)[k];
            var t := e.x + |e.part.text|;
            RowParts(line, y, i)[k + 1] == Entry(t, y, Symbol([line[t]]))
    decreases |line| - i
  {
    var r := RowParts(line, y, i);
    if IsDigit(line[i]) {
      var e := RunEnd(line, i);
      if k > 0 {
        NumberBeforeItsTerminator(line, y, e, k - 1);
      }
    } else if line[i] == '.' {
      NumberBeforeItsTerminator(line, y, i + 1, k);
    } else if k > 0 {
      NumberBeforeItsTerminator(line, y, i + 1, k - 1);
    }
  }

  /** The grid's entries are exactly the row parts of its rows. */
  lemma {:induction false} SchematicMembers(lines: seq<string>)
    ensures forall e :: e in Schematic(lines) <==> 0 <= e.y < |lines| && IsRowPart(lines[e.y], e.y, e)
    decreases |lines|
  {
    if lines != [] {
      var n := |lines| - 1;
      var front := lines[..n];
      SchematicMembers(front);
      RowPartsMembers(lines[n], n);
      forall e ensures e in Schematic(lines) <==> 0 <= e.y < |lines| && IsRowPart(lines[e.y], e.y, e) {
        if 0 <= e.y < n {
          assert front[e.y] == lines[e.y];
        }
      }
    }
  }

  /** `a` comes before `b` in reading order: an earlier row, or the same row
      and an earlier column. */
  predicate Before(a: Entry, b: Entry) {
    a.y < b.y || (a.y == b.y && a.x < b.x)
  }

  /** The grid's entries come in strict reading order, so no two share a
      coordinate. */
  lemma {:induction false} SchematicOrdered(lines: seq<string>)
    ensures InReadingOrder(Schematic(lines))
    decreases |lines|
  {
    if lines != [] {
      var n := |lines| - 1;
      var front, row := Schematic(lines[..n]), RowParts(lines[n], n, 0);
      SchematicOrdered(lines[..n]);
      SchematicMembers(lines[..n]);
      RowPartsSound(lines[n], n, 0);
      RowPartsOrdered(lines[n], n, 0);
      var all := front + row;
      forall k | 0 <= k < |all| - 1 ensures Before(all[k], all[k + 1]) {
        if k + 1 < |front| {
          assert all[k] == front[k] && all[k + 1] == front[k + 1];
        } else if k + 1 == |front| {
          assert all[k] in front;
          assert all[k + 1] == row[0];
        } else {
          assert all[k] == row[k - |front|] && all[k + 1] == row[k + 1 - |front|];
        }
      }
    }
  }

  // ---------------------------------------------------------------------------
  // numbers_touching_a_symbol

  /** The `lookup` set: the coordinates of every entry that is not a number. */
  function SymbolCoords(parsed: seq<Entry>): set<(int, int)> {
    set e | e in parsed && !e.part.Num? :: (e.x, e.y)
  }

  /** Some coordinate of `lookup` lies in the box from (x - 1, y - 1) to
      (x + len, y + 1), both corners included. */
  predicate InBox(lookup: set<(int, int)>, x: int, y: int, len: int) {
    exists ix, iy :: (ix, iy) in lookup && y - 1 <= iy <= y + 1 && x - 1 <= ix <= x + len
  }

  /** The number entries of `parsed`, in order, whose box holds a coordinate
      of `lookup`. */
  function TouchingParts(parsed: seq<Entry>, lookup: set<(int, int)>): seq<Entry>
  {
    if parsed == [] then []
    else
      var e := parsed[|parsed| - 1];
      TouchingParts(parsed[..|parsed| - 1], lookup) +
      (if e.part.Num? && InBox(lookup, e.x, e.y, |e.part.text|) then [e] else [])
  }

  /** Every number entry's text is a numeral, as every entry the parser
      yields is; `parse::<i32>().unwrap()` panics otherwise. */
  predicate Numerals(parsed: seq<Entry>) {
    forall k :: 0 <= k < |parsed| && parsed[k].part.Num? ==> AllDigits(parsed[k].part.text)
  }

  /** Every entry is a number whose text is a numeral. */
  predicate NumeralEntries(es: seq<Entry>) {
    forall k :: 0 <= k < |es| ==> es[k].part.Num? && AllDigits(es[k].part.text)
  }

  /** The values of a list of number entries. */
  function Values(es: seq<Entry>): seq<int>
    requires NumeralEntries(es)
  {
    seq(|es|, k requires 0 <= k < |es| => DecimalValue(es[k].part.text))
  }

  /** The entries `TouchingParts` keeps are number entries of `parsed`. */
  lemma {:induction false} TouchingPartsFrom(parsed: seq<Entry>, lookup: set<(int, int)>)
    ensures forall k :: 0 <= k < |TouchingParts(parsed, lookup)| ==>
              TouchingParts(parsed, lookup)[k] in parsed && TouchingParts(parsed, lookup)[k].part.Num?
    decreases |parsed|
  {
    if parsed != [] {
      var front := parsed[..|parsed| - 1];
      TouchingPartsFrom(front, lookup);
      forall k | 0 <= k < |TouchingParts(front, lookup)| ensures TouchingParts(front, lookup)[k] in parsed {
        var e := TouchingParts(front, lookup)[k];
        var j :| 0 <= j < |front| && front[j] == e;
        assert parsed[j] == e;
      }
    }
  }

  /** On numeral entries, the kept entries have values. */
  lemma TouchingPartsNumerals(parsed: seq<Entry>, lookup: set<(int, int)>)
    requires Numerals(parsed)
    ensures NumeralEntries(TouchingParts(parsed, lookup))
  {
    TouchingPartsFrom(parsed, lookup);
    forall k | 0 <= k < |TouchingParts(parsed, lookup)|
      ensures AllDigits(TouchingParts(parsed, lookup)[k].part.text)
    {
      var j :| 0 <= j < |parsed| && parsed[j] == TouchingParts(parsed, lookup)[k];
    }
  }

  /** The values of the touching numbers, in parse order. */
  function TouchingNumbers(parsed: seq<Entry>): seq<int>
    requires Numerals(parsed)
  {
    TouchingPartsNumerals(parsed, SymbolCoords(parsed));
    Values(TouchingParts(parsed, SymbolCoords(parsed)))
  }

  /** `numbers_touching_a_symbol`: for each number, in parse order, the box
      around it is scanned row by row; the first coordinate found in `lookup`
      pushes the number's value and the labelled `break` leaves the box. */
  method NumbersTouchingASymbol(parsed: seq<Entry>) returns (numbers: seq<int>)
    requires Numerals(parsed)
    ensures numbers == TouchingNumbers(parsed)
  {
    numbers := [];
    var lookup := SymbolCoords(parsed);
    for i := 0 to |parsed|
      invariant Numerals(parsed[..i])
      invariant numbers == (TouchingPartsNumerals(parsed[..i], lookup); Values(TouchingParts(parsed[..i], lookup)))
    {
      TouchingStep(parsed, lookup, i);
      if parsed[i].part.Num? {
        var x, y, num := parsed[i].x, parsed[i].y, parsed[i].part.text;
        var upperLeft := (x - 1, y - 1);
        var bottomRight := (x + |num|, y + 1);
        ghost var before := numbers;
        label checkingThisNum:
        for iy := upperLeft.1 to bottomRight.1 + 1
          invariant numbers == before
          invariant forall jy, jx :: upperLeft.1 <= jy < iy && upperLeft.0 <= jx <= bottomRight.0 ==> (jx, jy) !in lookup
        {
          for ix := upperLeft.0 to bottomRight.0 + 1
            invariant numbers == before
            invariant forall jx :: upperLeft.0 <= jx < ix ==> (jx, iy) !in lookup
          {
            if (ix, iy) in lookup {
              assert InBox(lookup, x, y, |num|);
              numbers := numbers + [DecimalValue(num)];
              break checkingThisNum;
            }
          }
        }
      }
    }
    assert parsed[..|parsed|] == parsed;
  }

  /** One more entry: its value is appended when it is a number whose box
      holds a coordinate of `lookup`. */
  lemma TouchingStep(parsed: seq<Entry>, lookup: set<(int, int)>, i: nat)
    requires i < |parsed| && Numerals(parsed)
    ensures Numerals(parsed[..i]) && Numerals(parsed[..i + 1])
    ensures NumeralEntries(TouchingParts(parsed[..i], lookup)) && NumeralEntries(TouchingParts(parsed[..i + 1], lookup))
    ensures parsed[i].part.Num? ==> AllDigits(parsed[i].part.text)
    ensures Values(TouchingParts(parsed[..i + 1], lookup)) ==
            Values(TouchingParts(parsed[..i], lookup)) +
            (if parsed[i].part.Num? && InBox(lookup, parsed[i].x, parsed[i].y, |parsed[i].part.text|)
             then [DecimalValue(parsed[i].part.text)] else [])
  {
    assert parsed[..i + 1][..i] == parsed[..i];
    TouchingPartsNumerals(parsed[..i], lookup);
    TouchingPartsNumerals(parsed[..i + 1], lookup);
  }

  /** A number entry is reported exactly when its box holds a symbol. */
  lemma {:induction false} TouchingPartsMembers(parsed: seq<Entry>, lookup: set<(int, int)>)
    ensures forall e :: e in TouchingParts(parsed, lookup) <==>
              e in parsed && e.part.Num? && InBox(lookup, e.x, e.y, |e.part.text|)
    decreases |parsed|
  {
    if parsed != [] {
      var front := parsed[..|parsed| - 1];
      TouchingPartsMembers(front, lookup);
      assert parsed == front + [parsed[|parsed| - 1]];
    }
  }

  /** The number of number entries. */
  function NumCount(parsed: seq<Entry>): nat {
    if parsed == [] then 0
    else NumCount(parsed[..|parsed| - 1]) + (if parsed[|parsed| - 1].part.Num? then 1 else 0)
  }

  /** At most one value per number entry is reported. */
  lemma {:induction false} TouchingPartsLength(parsed: seq<Entry>, lookup: set<(int, int)>)
    ensures |TouchingParts(parsed, lookup)| <= NumCount(parsed) <= |parsed|
    decreases |parsed|
  {
    if parsed != [] {
      TouchingPartsLength(parsed[..|parsed| - 1], lookup);
    }
  }

  /** Entries in strict reading order, adjacent pairs suffice. */
  predicate InReadingOrder(es: seq<Entry>) {
    forall k :: 0 <= k < |es| - 1 ==> Before(es[k], es[k + 1])
  }

  /** In reading order, every earlier entry comes before every later one. */
  lemma {:induction false} ReadingOrderAll(es: seq<Entry>, i: nat, j: nat)
    requires InReadingOrder(es) && i < j < |es|
    ensures Before(es[i], es[j])
    decreases j - i
  {
    if i + 1 < j {
      ReadingOrderAll(es, i + 1, j);
    }
  }

  /** Reporting keeps the parse order: from entries in reading order, the
      reported ones are in reading order too, so none is reported twice. */
  lemma {:induction false} TouchingPartsOrdered(parsed: seq<Entry>, lookup: set<(int, int)>)
    requires InReadingOrder(parsed)
    ensures InReadingOrder(TouchingParts(parsed, lookup))
    decreases |parsed|
  {
    if parsed != [] {
      var n := |parsed| - 1;
      var front := parsed[..n];
      assert InReadingOrder(front) by {
        forall k | 0 <= k < |front| - 1 ensures Before(front[k], front[k + 1]) {
          assert front[k] == parsed[k] && front[k + 1] == parsed[k + 1];
        }
      }
      TouchingPartsOrdered(front, lookup);
      var r := TouchingParts(front, lookup);
      if |r| > 0 && parsed[n].part.Num? && InBox(lookup, parsed[n].x, parsed[n].y, |parsed[n].part.text|) {
        TouchingPartsFrom(front, lookup);
        var j :| 0 <= j < |front| && front[j] == r[|r| - 1];
        ReadingOrderAll(parsed, j, n);
        var all := r + [parsed[n]];
        forall k | 0 <= k < |all| - 1 ensures Before(all[k], all[k + 1]) {
          if k + 1 < |r| {
            assert all[k] == r[k] && all[k + 1] == r[k + 1];
          }
        }
      }
    }
  }

  /** (sx, sy) is one of the eight neighbours of (j, y), or (j, y) itself. */
  predicate Neighbour(sx: int, sy: int, j: int, y: int) {
    j - 1 <= sx <= j + 1 && y - 1 <= sy <= y + 1
  }

  /** The box around a number of `len >= 1` digits holds a symbol exactly
      when some symbol is a neighbour of one of its digits. */
  lemma BoxIsAdjacency(lookup: set<(int, int)>, x: int, y: int, len: int)
    requires len >= 1
    ensures InBox(lookup, x, y, len) <==>
            exists sx, sy, j :: (sx, sy) in lookup && x <= j < x + len && Neighbour(sx, sy, j, y)
  {
    if InBox(lookup, x, y, len) {
      var ix, iy :| (ix, iy) in lookup && y - 1 <= iy <= y + 1 && x - 1 <= ix <= x + len;
      var j := if ix < x then x else if ix >= x + len then x + len - 1 else ix;
      assert x <= j < x + len && Neighbour(ix, iy, j, y);
    }
  }

  /** Every number the parser yields is a numeral, so the values exist. */
  lemma SchematicNumerals(lines: seq<string>)
    ensures Numerals(Schematic(lines))
  {
    SchematicMembers(lines);
    var p := Schematic(lines);
    forall k | 0 <= k < |p| && p[k].part.Num? ensures AllDigits(p[k].part.text) {
      assert p[k] in p;
    }
  }

  // ---------------------------------------------------------------------------
  // pt1

  /** `pt1`: the sum of the numbers that touch a symbol; it is never negative. */
  method Pt1(lines: seq<string>) returns (total: int)
    ensures (SchematicNumerals(lines); total == Sum(TouchingNumbers(Schematic(lines))))
    ensures total >= 0
  {
    var p := ParsedSchematic(lines);
    SchematicNumerals(lines);
    var n := NumbersTouchingASymbol(p);
    total := Sum(n);
    SumLowerBound(n, 0);
  }

  // ---------------------------------------------------------------------------
  // Composing the results row by row

  /** One more row adds its parts at the end. */
  lemma SchematicStep(lines: seq<string>, k: nat)
    requires k < |lines|
    ensures Schematic(lines[..k + 1]) == Schematic(lines[..k]) + RowParts(lines[k], k, 0)
  {
    assert lines[..k + 1][..k] == lines[..k];
  }

  /** The symbols of two lists of entries together. */
  lemma SymbolCoordsAppend(a: seq<Entry>, b: seq<Entry>)
    ensures SymbolCoords(a + b) == SymbolCoords(a) + SymbolCoords(b)
  {
    forall c | c in SymbolCoords(a) + SymbolCoords(b) ensures c in SymbolCoords(a + b) {
      if c in SymbolCoords(a) {
        var e :| e in a && !e.part.Num? && c == (e.x, e.y);
        assert e in a + b;
      } else {
        var e :| e in b && !e.part.Num? && c == (e.x, e.y);
        assert e in a + b;
      }
    }
  }

  /** Selecting from two lists of entries one after the other. */
  lemma {:induction false} TouchingPartsAppend(a: seq<Entry>, b: seq<Entry>, lookup: set<(int, int)>)
    ensures TouchingParts(a + b, lookup) == TouchingParts(a, lookup) + TouchingParts(b, lookup)
    decreases |b|
  {
    if b == [] {
      assert a + b == a;
    } else {
      var front := b[..|b| - 1];
      assert (a + b)[..|a + b| - 1] == a + front;
      TouchingPartsAppend(a, front, lookup);
    }
  }

  /** The values of two lists of number entries one after the other. */
  lemma ValuesAppend(a: seq<Entry>, b: seq<Entry>)
    requires NumeralEntries(a) && NumeralEntries(b)
    ensures NumeralEntries(a + b)
    ensures Values(a + b) == Values(a) + Values(b)
  {
  }

  /** The cell at column `ix` of row `iy` exists and holds a symbol. */
  predicate SymbolAt(lines: seq<string>, ix: int, iy: int) {
    0 <= iy < |lines| && 0 <= ix < |lines[iy]| && !IsDigit(lines[iy][ix]) && lines[iy][ix] != '.'
  }

  /** `lookup` holds exactly the cells of `lines` with a symbol. */
  ghost predicate SymbolCellsAre(lookup: set<(int, int)>, lines: seq<string>) {
    forall ix, iy :: (ix, iy) in lookup <==> SymbolAt(lines, ix, iy)
  }

  /** The `lookup` set of a parsed grid holds exactly the cells with a symbol. */
  lemma SymbolCoordsOfSchematic(lines: seq<string>)
    ensures SymbolCellsAre(SymbolCoords(Schematic(lines)), lines)
  {
    SchematicMembers(lines);
    forall ix, iy | SymbolAt(lines, ix, iy) ensures (ix, iy) in SymbolCoords(Schematic(lines)) {
      var e := Entry(ix, iy, Symbol([lines[iy][ix]]));
      assert IsRowPart(lines[iy], iy, e);
    }
  }

  /** No column from `lo` to `hi` of `line` exists and holds a symbol. */
  predicate SpanClear(line: string, lo: int, hi: int)
    decreases hi - lo + 1
  {
    lo > hi || ((lo < 0 || lo >= |line| || IsDigit(line[lo]) || line[lo] == '.') && SpanClear(line, lo + 1, hi))
  }

  lemma {:induction false} SpanClearSpec(lines: seq<string>, iy: int, lo: int, hi: int)
    requires 0 <= iy < |lines| && SpanClear(lines[iy], lo, hi)
    ensures forall ix :: lo <= ix <= hi ==> !SymbolAt(lines, ix, iy)
    decreases hi - lo + 1
  {
    if lo <= hi {
      SpanClearSpec(lines, iy, lo + 1, hi);
    }
  }

  /** A box whose rows hold no symbol between its columns touches none. */
  lemma BoxClear(lines: seq<string>, lookup: set<(int, int)>, x: int, y: int, len: int)
    requires SymbolCellsAre(lookup, lines)
    requires 0 <= y - 1 < |lines| ==> SpanClear(lines[y - 1], x - 1, x + len)
    requires 0 <= y < |lines| ==> SpanClear(lines[y], x - 1, x + len)
    requires 0 <= y + 1 < |lines| ==> SpanClear(lines[y + 1], x - 1, x + len)
    ensures !InBox(lookup, x, y, len)
  {
    if 0 <= y - 1 < |lines| { SpanClearSpec(lines, y - 1, x - 1, x + len); }
    if 0 <= y < |lines| { SpanClearSpec(lines, y, x - 1, x + len); }
    if 0 <= y + 1 < |lines| { SpanClearSpec(lines, y + 1, x - 1, x + len); }
  }

  /** The reported values of a grid, one row more at a time. */
  lemma NumbersStep(lines: seq<string>, k: nat, lookup: set<(int, int)>)
    requires k < |lines|
    ensures NumeralEntries(TouchingParts(Schematic(lines[..k]), lookup))
    ensures NumeralEntries(TouchingParts(RowParts(lines[k], k, 0), lookup))
    ensures NumeralEntries(TouchingParts(Schematic(lines[..k + 1]), lookup))
    ensures Values(TouchingParts(Schematic(lines[..k + 1]), lookup)) ==
            Values(TouchingParts(Schematic(lines[..k]), lookup)) + Values(TouchingParts(RowParts(lines[k], k, 0), lookup))
  {
    SchematicStep(lines, k);
    SchematicNumerals(lines[..k]);
    SchematicNumerals(lines[..k + 1]);
    TouchingPartsNumerals(Schematic(lines[..k]), lookup);
    TouchingPartsNumerals(Schematic(lines[..k + 1]), lookup);
    RowPartsSound(lines[k], k, 0);
    assert Numerals(RowParts(lines[k], k, 0));
    TouchingPartsNumerals(RowParts(lines[k], k, 0), lookup);
    TouchingPartsAppend(Schematic(lines[..k]), RowParts(lines[k], k, 0), lookup);
    ValuesAppend(TouchingParts(Schematic(lines[..k]), lookup), TouchingParts(RowParts(lines[k], k, 0), lookup));
  }

  /** The concatenation of a list of lists, first to last. */
  function Concat(vss: seq<seq<int>>): seq<int> {
    if vss == [] then [] else Concat(vss[..|vss| - 1]) + vss[|vss| - 1]
  }

  /** When the numbers reported of each row `y`, taken alone, are `vs[y]`,
      the numbers reported of the grid are those lists one after the other. */
  lemma {:induction false} ComposeRows(lines: seq<string>, lookup: set<(int, int)>, vs: seq<seq<int>>, k: nat)
    requires k <= |lines| == |vs|
    requires forall y :: 0 <= y < |lines| ==>
               NumeralEntries(TouchingParts(RowParts(lines[y], y, 0), lookup)) &&
               Values(TouchingParts(RowParts(lines[y], y, 0), lookup)) == vs[y]
    ensures NumeralEntries(TouchingParts(Schematic(lines[..k]), lookup))
    ensures Values(TouchingParts(Schematic(lines[..k]), lookup)) == Concat(vs[..k])
    decreases k
  {
    if k == 0 {
      assert lines[..0] == [];
      assert vs[..0] == [];
    } else {
      ComposeRows(lines, lookup, vs, k - 1);
      NumbersStep(lines, k - 1, lookup);
      assert Values(TouchingParts(RowParts(lines[k - 1], k - 1, 0), lookup)) == vs[k - 1];
      assert vs[..k][..k - 1] == vs[..k - 1];
      assert Concat(vs[..k]) == Concat(vs[..k - 1]) + vs[k - 1];
    }
  }

  // ---------------------------------------------------------------------------
  // Values of the numerals in the two example grids

  lemma DecimalOf35()
    ensures DecimalValue("35") == 35
  {
    assert DecimalValue("5") == 5;
    assert "35"[1..] == "5";
    assert Pow10(1) == 10;
    assert DecimalValue("35") == 35;
  }

  lemma DecimalOf88()
    ensures DecimalValue("88") == 88
  {
    assert DecimalValue("8") == 8;
    assert "88"[1..] == "8";
    assert Pow10(1) == 10;
    assert DecimalValue("88") == 88;
  }

  lemma DecimalOf467()
    ensures DecimalValue("467") == 467
  {
    assert DecimalValue("7") == 7;
    assert "67"[1..] == "7";
    assert Pow10(1) == 10;
    assert DecimalValue("67") == 67;
    assert "467"[1..] == "67";
    assert Pow10(2) == 100;
    assert DecimalValue("467") == 467;
  }

  lemma DecimalOf592()
    ensures DecimalValue("592") == 592
  {
    assert DecimalValue("2") == 2;
    assert "92"[1..] == "2";
    assert Pow10(1) == 10;
    assert DecimalValue("92") == 92;
    assert "592"[1..] == "92";
    assert Pow10(2) == 100;
    assert DecimalValue("592") == 592;
  }

  lemma DecimalOf598()
    ensures DecimalValue("598") == 598
  {
    assert DecimalValue("8") == 8;
    assert "98"[1..] == "8";
    assert Pow10(1) == 10;
    assert DecimalValue("98") == 98;
    assert "598"[1..] == "98";
    assert Pow10(2) == 100;
    assert DecimalValue("598") == 598;
  }

  lemma DecimalOf617()
    ensures DecimalValue("617") == 617
  {
    assert DecimalValue("7") == 7;
    assert "17"[1..] == "7";
    assert Pow10(1) == 10;
    assert DecimalValue("17") == 17;
    assert "617"[1..] == "17";
    assert Pow10(2) == 100;
    assert DecimalValue("617") == 617;
  }

  lemma DecimalOf633()
    ensures DecimalValue("633") == 633
  {
    assert DecimalValue("3") == 3;
    assert "33"[1..] == "3";
    assert Pow10(1) == 10;
    assert DecimalValue("33") == 33;
    assert "633"[1..] == "33";
    assert Pow10(2) == 100;
    assert DecimalValue("633") == 633;
  }

  lemma DecimalOf664()
    ensures DecimalValue("664") == 664
  {
    assert DecimalValue("4") == 4;
    assert "64"[1..] == "4";
    assert Pow10(1) == 10;
    assert DecimalValue("64") == 64;
    assert "664"[1..] == "64";
    assert Pow10(2) == 100;
    assert DecimalValue("664") == 664;
  }

  lemma DecimalOf755()
    ensures DecimalValue("755") == 755
  {
    assert DecimalValue("5") == 5;
    assert "55"[1..] == "5";
    assert Pow10(1) == 10;
    assert DecimalValue("55") == 55;
    assert "755"[1..] == "55";
    assert Pow10(2) == 100;
    assert DecimalValue("755") == 755;
  }

  lemma DecimalOf777()
    ensures DecimalValue("777") == 777
  {
    assert DecimalValue("7") == 7;
    assert "77"[1..] == "7";
    assert Pow10(1) == 10;
    assert DecimalValue("77") == 77;
    assert "777"[1..] == "77";
    assert Pow10(2) == 100;
    assert DecimalValue("777") == 777;
  }

  // ---------------------------------------------------------------------------
  // The grid with numbers on its edges

  const EdgeGrid: seq<string> := [
    "...*......",
    "....88....",
    "...89..777",
    "......-..."
  ]

  /** The numbers each row of `EdgeGrid` reports. */
  const EdgeRowValues: seq<seq<int>> := [[], [88], [777], []]

  /** `g` has the rows of `EdgeGrid`. */
  predicate IsEdgeGrid(g: seq<string>) {
    |g| == 4 &&
    g[0] == "...*......" &&
    g[1] == "....88...." &&
    g[2] == "...89..777" &&
    g[3] == "......-..."
  }

  lemma EdgeRow0()
    ensures RowParts("...*......", 0, 0) == [Entry(3, 0, Symbol("*"))]
  {
    var s := "...*......";
    assert RowParts(s, 0, 10) == [];
    assert RowParts(s, 0, 9) == [];
    assert RowParts(s, 0, 8) == [];
    assert RowParts(s, 0, 7) == [];
    assert RowParts(s, 0, 6) == [];
    assert RowParts(s, 0, 5) == [];
    assert RowParts(s, 0, 4) == [];
    assert [s[3]] == "*";
    assert RowParts(s, 0, 3) == [Entry(3, 0, Symbol("*"))];
    assert RowParts(s, 0, 2) == [Entry(3, 0, Symbol("*"))];
    assert RowParts(s, 0, 1) == [Entry(3, 0, Symbol("*"))];
    assert RowParts(s, 0, 0) == [Entry(3, 0, Symbol("*"))];
  }

  lemma EdgeRow0Touching(l: set<(int, int)>)
    ensures NumeralEntries(TouchingParts([Entry(3, 0, Symbol("*"))], l)) && Values(TouchingParts([Entry(3, 0, Symbol("*"))], l)) == []
  {
    var r := [Entry(3, 0, Symbol("*"))];
    assert r[..1][..0] == r[..0];
    assert TouchingParts(r[..1], l) == [];
    assert r[..1] == r;
  }

  lemma EdgeRow0Numbers(g: seq<string>, l: set<(int, int)>)
    requires IsEdgeGrid(g) && SymbolCellsAre(l, g)
    ensures NumeralEntries(TouchingParts(RowParts(g[0], 0, 0), l)) && Values(TouchingParts(RowParts(g[0], 0, 0), l)) == []
  {
    EdgeRow0();
    EdgeRow0Touching(l);
  }

  lemma EdgeRow1()
    ensures RowParts("....88....", 1, 0) == [Entry(4, 1, Num("88"))]
  {
    var s := "....88....";
    assert RowParts(s, 1, 10) == [];
    assert RowParts(s, 1, 9) == [];
    assert RowParts(s, 1, 8) == [];
    assert RowParts(s, 1, 7) == [];
    assert RowParts(s, 1, 6) == [];
    assert RunEnd(s, 4) == 6;
    assert s[4..6] == "88";
    assert RowParts(s, 1, 4) == [Entry(4, 1, Num("88"))];
    assert RowParts(s, 1, 3) == [Entry(4, 1, Num("88"))];
    assert RowParts(s, 1, 2) == [Entry(4, 1, Num("88"))];
    assert RowParts(s, 1, 1) == [Entry(4, 1, Num("88"))];
    assert RowParts(s, 1, 0) == [Entry(4, 1, Num("88"))];
  }

  /** The number at column 4 of row 1 touches the symbol at (3, 0). */
  lemma EdgeRow1Col4(g: seq<string>, l: set<(int, int)>)
    requires IsEdgeGrid(g) && SymbolCellsAre(l, g)
    ensures InBox(l, 4, 1, 2)
  {
    assert SymbolAt(g, 3, 0);
    assert (3, 0) in l;
  }

  lemma EdgeRow1Touching(l: set<(int, int)>)
    requires InBox(l, 4, 1, 2)
    ensures NumeralEntries(TouchingParts([Entry(4, 1, Num("88"))], l)) && Values(TouchingParts([Entry(4, 1, Num("88"))], l)) == [88]
  {
    var r := [Entry(4, 1, Num("88"))];
    assert r[..1][..0] == r[..0];
    assert TouchingParts(r[..1], l) == [r[0]];
    assert r[..1] == r;
    DecimalOf88();
  }

  lemma EdgeRow1Numbers(g: seq<string>, l: set<(int, int)>)
    requires IsEdgeGrid(g) && SymbolCellsAre(l, g)
    ensures NumeralEntries(TouchingParts(RowParts(g[1], 1, 0), l)) && Values(TouchingParts(RowParts(g[1], 1, 0), l)) == [88]
  {
    EdgeRow1();
    EdgeRow1Col4(g, l);
    EdgeRow1Touching(l);
  }

  lemma EdgeRow2()
    ensures RowParts("...89..777", 2, 0) == [Entry(3, 2, Num("89")), Entry(7, 2, Num("777"))]
  {
    var s := "...89..777";
    assert RowParts(s, 2, 10) == [];
    assert RunEnd(s, 7) == 10;
    assert s[7..10] == "777";
    assert RowParts(s, 2, 7) == [Entry(7, 2, Num("777"))];
    assert RowParts(s, 2, 6) == [Entry(7, 2, Num("777"))];
    assert RowParts(s, 2, 5) == [Entry(7, 2, Num("777"))];
    assert RunEnd(s, 3) == 5;
    assert s[3..5] == "89";
    assert RowParts(s, 2, 3) == [Entry(3, 2, Num("89")), Entry(7, 2, Num("777"))];
    assert RowParts(s, 2, 2) == [Entry(3, 2, Num("89")), Entry(7, 2, Num("777"))];
    assert RowParts(s, 2, 1) == [Entry(3, 2, Num("89")), Entry(7, 2, Num("777"))];
    assert RowParts(s, 2, 0) == [Entry(3, 2, Num("89")), Entry(7, 2, Num("777"))];
  }

  /** No symbol is next to the number at column 3 of row 2. */
  lemma EdgeRow2Col3(g: seq<string>, l: set<(int, int)>)
    requires IsEdgeGrid(g) && SymbolCellsAre(l, g)
    ensures !InBox(l, 3, 2, 2)
  {
    assert SpanClear("....88....", 2, 5);
    assert SpanClear("...89..777", 2, 5);
    assert SpanClear("......-...", 2, 5);
    BoxClear(g, l, 3, 2, 2);
  }

  /** The number at column 7 of row 2 touches the symbol at (6, 3). */
  lemma EdgeRow2Col7(g: seq<string>, l: set<(int, int)>)
    requires IsEdgeGrid(g) && SymbolCellsAre(l, g)
    ensures InBox(l, 7, 2, 3)
  {
    assert SymbolAt(g, 6, 3);
    assert (6, 3) in l;
  }

  lemma EdgeRow2Touching(l: set<(int, int)>)
    requires !InBox(l, 3, 2, 2) && InBox(l, 7, 2, 3)
    ensures NumeralEntries(TouchingParts([Entry(3, 2, Num("89")), Entry(7, 2, Num("777"))], l)) && Values(TouchingParts([Entry(3, 2, Num("89")), Entry(7, 2, Num("777"))], l)) == [777]
  {
    var r := [Entry(3, 2, Num("89")), Entry(7, 2, Num("777"))];
    assert r[..1][..0] == r[..0];
    assert TouchingParts(r[..1], l) == [];
    assert r[..2][..1] == r[..1];
    assert TouchingParts(r[..2], l) == [r[1]];
    assert r[..2] == r;
    DecimalOf777();
  }

  lemma EdgeRow2Numbers(g: seq<string>, l: set<(int, int)>)
    requires IsEdgeGrid(g) && SymbolCellsAre(l, g)
    ensures NumeralEntries(TouchingParts(RowParts(g[2], 2, 0), l)) && Values(TouchingParts(RowParts(g[2], 2, 0), l)) == [777]
  {
    EdgeRow2();
    EdgeRow2Col3(g, l);
    EdgeRow2Col7(g, l);
    EdgeRow2Touching(l);
  }

  lemma EdgeRow3()
    ensures RowParts("......-...", 3, 0) == [Entry(6, 3, Symbol("-"))]
  {
    var s := "......-...";
    assert RowParts(s, 3, 10) == [];
    assert RowParts(s, 3, 9) == [];
    assert RowParts(s, 3, 8) == [];
    assert RowParts(s, 3, 7) == [];
    assert [s[6]] == "-";
    assert RowParts(s, 3, 6) == [Entry(6, 3, Symbol("-"))];
    assert RowParts(s, 3, 5) == [Entry(6, 3, Symbol("-"))];
    assert RowParts(s, 3, 4) == [Entry(6, 3, Symbol("-"))];
    assert RowParts(s, 3, 3) == [Entry(6, 3, Symbol("-"))];
    assert RowParts(s, 3, 2) == [Entry(6, 3, Symbol("-"))];
    assert RowParts(s, 3, 1) == [Entry(6, 3, Symbol("-"))];
    assert RowParts(s, 3, 0) == [Entry(6, 3, Symbol("-"))];
  }

  lemma EdgeRow3Touching(l: set<(int, int)>)
    ensures NumeralEntries(TouchingParts([Entry(6, 3, Symbol("-"))], l)) && Values(TouchingParts([Entry(6, 3, Symbol("-"))], l)) == []
  {
    var r := [Entry(6, 3, Symbol("-"))];
    assert r[..1][..0] == r[..0];
    assert TouchingParts(r[..1], l) == [];
    assert r[..1] == r;
  }

  lemma EdgeRow3Numbers(g: seq<string>, l: set<(int, int)>)
    requires IsEdgeGrid(g) && SymbolCellsAre(l, g)
    ensures NumeralEntries(TouchingParts(RowParts(g[3], 3, 0), l)) && Values(TouchingParts(RowParts(g[3], 3, 0), l)) == []
  {
    EdgeRow3();
    EdgeRow3Touching(l);
  }

  lemma EdgeRowNumbers(g: seq<string>, l: set<(int, int)>, y: int)
    requires IsEdgeGrid(g) && SymbolCellsAre(l, g) && 0 <= y < 4
    ensures NumeralEntries(TouchingParts(RowParts(g[y], y, 0), l)) && Values(TouchingParts(RowParts(g[y], y, 0), l)) == EdgeRowValues[y]
  {
    if y == 0 {
      EdgeRow0Numbers(g, l);
    } else if y == 1 {
      EdgeRow1Numbers(g, l);
    } else if y == 2 {
      EdgeRow2Numbers(g, l);
    } else if y == 3 {
      EdgeRow3Numbers(g, l);
    }
  }

  lemma EdgeConcat()
    ensures Concat(EdgeRowValues) == [88, 777]
  {
    var vs := EdgeRowValues;
    assert vs[..0] == [];
    assert vs[..1][..0] == vs[..0];
    assert Concat(vs[..1]) == [];
    assert vs[..2][..1] == vs[..1];
    assert Concat(vs[..2]) == [88];
    assert vs[..3][..2] == vs[..2];
    assert Concat(vs[..3]) == [88, 777];
    assert vs[..4][..3] == vs[..3];
    assert Concat(vs[..4]) == [88, 777];
    assert vs[..4] == vs;
  }

  lemma EdgeNumbers(g: seq<string>)
    requires IsEdgeGrid(g)
    ensures Numerals(Schematic(g)) && TouchingNumbers(Schematic(g)) == [88, 777]
  {
    SchematicNumerals(g);
    var l := SymbolCoords(Schematic(g));
    SymbolCoordsOfSchematic(g);
    forall y | 0 <= y < |g|
      ensures NumeralEntries(TouchingParts(RowParts(g[y], y, 0), l)) && Values(TouchingParts(RowParts(g[y], y, 0), l)) == EdgeRowValues[y]
    {
      EdgeRowNumbers(g, l, y);
    }
    ComposeRows(g, l, EdgeRowValues, |g|);
    assert g[..|g|] == g;
    assert EdgeRowValues[..|g|] == EdgeRowValues;
    EdgeConcat();
    var vs := Values(TouchingParts(Schematic(g), l));
    assert vs == Concat(EdgeRowValues);
    assert TouchingNumbers(Schematic(g)) == vs;
  }

  /** On the edge grid, 88 (below the '*') and 777 (above the '-') touch a
      symbol and 89 touches none, so the reported numbers are 88 and 777. */
  lemma ExampleEdge()
    ensures Numerals(Schematic(EdgeGrid)) && TouchingNumbers(Schematic(EdgeGrid)) == [88, 777]
  {
    EdgeNumbers(EdgeGrid);
  }

  // ---------------------------------------------------------------------------
  // The engine schematic of the puzzle statement

  const EngineGrid: seq<string> := [
    "467..114..",
    "...*......",
    "..35..633.",
    "......#...",
    "617*......",
    ".....+.58.",
    "..592.....",
    "......755.",
    "...$.*....",
    ".664.598.."
  ]

  /** The numbers each row of `EngineGrid` reports. */
  const EngineRowValues: seq<seq<int>> := [[467], [], [35, 633], [], [617], [], [592], [755], [], [664, 598]]

  /** `g` has the rows of `EngineGrid`. */
  predicate IsEngineGrid(g: seq<string>) {
    |g| == 10 &&
    g[0] == "467..114.." &&
    g[1] == "...*......" &&
    g[2] == "..35..633." &&
    g[3] == "......#..." &&
    g[4] == "617*......" &&
    g[5] == ".....+.58." &&
    g[6] == "..592....." &&
    g[7] == "......755." &&
    g[8] == "...$.*...." &&
    g[9] == ".664.598.."
  }

  lemma EngineRow0()
    ensures RowParts("467..114..", 0, 0) == [Entry(0, 0, Num("467")), Entry(5, 0, Num("114"))]
  {
    var s := "467..114..";
    assert RowParts(s, 0, 10) == [];
    assert RowParts(s, 0, 9) == [];
    assert RowParts(s, 0, 8) == [];
    assert RunEnd(s, 5) == 8;
    assert s[5..8] == "114";
    assert RowParts(s, 0, 5) == [Entry(5, 0, Num("114"))];
    assert RowParts(s, 0, 4) == [Entry(5, 0, Num("114"))];
    assert RowParts(s, 0, 3) == [Entry(5, 0, Num("114"))];
    assert RunEnd(s, 0) == 3;
    assert s[0..3] == "467";
    assert RowParts(s, 0, 0) == [Entry(0, 0, Num("467")), Entry(5, 0, Num("114"))];
  }

  /** The number at column 0 of row 0 touches the symbol at (3, 1). */
  lemma EngineRow0Col0(g: seq<string>, l: set<(int, int)>)
    requires IsEngineGrid(g) && SymbolCellsAre(l, g)
    ensures InBox(l, 0, 0, 3)
  {
    assert SymbolAt(g, 3, 1);
    assert (3, 1) in l;
  }

  /** No symbol is next to the number at column 5 of row 0. */
  lemma EngineRow0Col5(g: seq<string>, l: set<(int, int)>)
    requires IsEngineGrid(g) && SymbolCellsAre(l, g)
    ensures !InBox(l, 5, 0, 3)
  {
    assert SpanClear("467..114..", 4, 8);
    assert SpanClear("...*......", 4, 8);
    BoxClear(g, l, 5, 0, 3);
  }

  lemma EngineRow0Touching(l: set<(int, int)>)
    requires InBox(l, 0, 0, 3) && !InBox(l, 5, 0, 3)
    ensures NumeralEntries(TouchingParts([Entry(0, 0, Num("467")), Entry(5, 0, Num("114"))], l)) && Values(TouchingParts([Entry(0, 0, Num("467")), Entry(5, 0, Num("114"))], l)) == [467]
  {
    var r := [Entry(0, 0, Num("467")), Entry(5, 0, Num("114"))];
    assert r[..1][..0] == r[..0];
    assert TouchingParts(r[..1], l) == [r[0]];
    assert r[..2][..1] == r[..1];
    assert TouchingParts(r[..2], l) == [r[0]];
    assert r[..2] == r;
    DecimalOf467();
  }

  lemma EngineRow0Numbers(g: seq<string>, l: set<(int, int)>)
    requires IsEngineGrid(g) && SymbolCellsAre(l, g)
    ensures NumeralEntries(TouchingParts(RowParts(g[0], 0, 0), l)) && Values(TouchingParts(RowParts(g[0], 0, 0), l)) == [467]
  {
    EngineRow0();
    EngineRow0Col0(g, l);
    EngineRow0Col5(g, l);
    EngineRow0Touching(l);
  }

  lemma EngineRow1()
    ensures RowParts("...*......", 1, 0) == [Entry(3, 1, Symbol("*"))]
  {
    var s := "...*......";
    assert RowParts(s, 1, 10) == [];
    assert RowParts(s, 1, 9) == [];
    assert RowParts(s, 1, 8) == [];
    assert RowParts(s, 1, 7) == [];
    assert RowParts(s, 1, 6) == [];
    assert RowParts(s, 1, 5) == [];
    assert RowParts(s, 1, 4) == [];
    assert [s[3]] == "*";
    assert RowParts(s, 1, 3) == [Entry(3, 1, Symbol("*"))];
    assert RowParts(s, 1, 2) == [Entry(3, 1, Symbol("*"))];
    assert RowParts(s, 1, 1) == [Entry(3, 1, Symbol("*"))];
    assert RowParts(s, 1, 0) == [Entry(3, 1, Symbol("*"))];
  }

  lemma EngineRow1Touching(l: set<(int, int)>)
    ensures NumeralEntries(TouchingParts([Entry(3, 1, Symbol("*"))], l)) && Values(TouchingParts([Entry(3, 1, Symbol("*"))], l)) == []
  {
    var r := [Entry(3, 1, Symbol("*"))];
    assert r[..1][..0] == r[..0];
    assert TouchingParts(r[..1], l) == [];
    assert r[..1] == r;
  }

  lemma EngineRow1Numbers(g: seq<string>, l: set<(int, int)>)
    requires IsEngineGrid(g) && SymbolCellsAre(l, g)
    ensures NumeralEntries(TouchingParts(RowParts(g[1], 1, 0), l)) && Values(TouchingParts(RowParts(g[1], 1, 0), l)) == []
  {
    EngineRow1();
    EngineRow1Touching(l);
  }

  lemma EngineRow2()
    ensures RowParts("..35..633.", 2, 0) == [Entry(2, 2, Num("35")), Entry(6, 2, Num("633"))]
  {
    var s := "..35..633.";
    assert RowParts(s, 2, 10) == [];
    assert RowParts(s, 2, 9) == [];
    assert RunEnd(s, 6) == 9;
    assert s[6..9] == "633";
    assert RowParts(s, 2, 6) == [Entry(6, 2, Num("633"))];
    assert RowParts(s, 2, 5) == [Entry(6, 2, Num("633"))];
    assert RowParts(s, 2, 4) == [Entry(6, 2, Num("633"))];
    assert RunEnd(s, 2) == 4;
    assert s[2..4] == "35";
    assert RowParts(s, 2, 2) == [Entry(2, 2, Num("35")), Entry(6, 2, Num("633"))];
    assert RowParts(s, 2, 1) == [Entry(2, 2, Num("35")), Entry(6, 2, Num("633"))];
    assert RowParts(s, 2, 0) == [Entry(2, 2, Num("35")), Entry(6, 2, Num("633"))];
  }

  /** The number at column 2 of row 2 touches the symbol at (3, 1). */
  lemma EngineRow2Col2(g: seq<string>, l: set<(int, int)>)
    requires IsEngineGrid(g) && SymbolCellsAre(l, g)
    ensures InBox(l, 2, 2, 2)
  {
    assert SymbolAt(g, 3, 1);
    assert (3, 1) in l;
  }

  /** The number at column 6 of row 2 touches the symbol at (6, 3). */
  lemma EngineRow2Col6(g: seq<string>, l: set<(int, int)>)
    requires IsEngineGrid(g) && SymbolCellsAre(l, g)
    ensures InBox(l, 6, 2, 3)
  {
    assert SymbolAt(g, 6, 3);
    assert (6, 3) in l;
  }

  lemma EngineRow2Touching(l: set<(int, int)>)
    requires InBox(l, 2, 2, 2) && InBox(l, 6, 2, 3)
    ensures NumeralEntries(TouchingParts([Entry(2, 2, Num("35")), Entry(6, 2, Num("633"))], l)) && Values(TouchingParts([Entry(2, 2, Num("35")), Entry(6, 2, Num("633"))], l)) == [35, 633]
  {
    var r := [Entry(2, 2, Num("35")), Entry(6, 2, Num("633"))];
    assert r[..1][..0] == r[..0];
    assert TouchingParts(r[..1], l) == [r[0]];
    assert r[..2][..1] == r[..1];
    assert TouchingParts(r[..2], l) == [r[0], r[1]];
    assert r[..2] == r;
    DecimalOf35();
    DecimalOf633();
  }

  lemma EngineRow2Numbers(g: seq<string>, l: set<(int, int)>)
    requires IsEngineGrid(g) && SymbolCellsAre(l, g)
    ensures NumeralEntries(TouchingParts(RowParts(g[2], 2, 0), l)) && Values(TouchingParts(RowParts(g[2], 2, 0), l)) == [35, 633]
  {
    EngineRow2();
    EngineRow2Col2(g, l);
    EngineRow2Col6(g, l);
    EngineRow2Touching(l);
  }

  lemma EngineRow3()
    ensures RowParts("......#...", 3, 0) == [Entry(6, 3, Symbol("#"))]
  {
    var s := "......#...";
    assert RowParts(s, 3, 10) == [];
    assert RowParts(s, 3, 9) == [];
    assert RowParts(s, 3, 8) == [];
    assert RowParts(s, 3, 7) == [];
    assert [s[6]] == "#";
    assert RowParts(s, 3, 6) == [Entry(6, 3, Symbol("#"))];
    assert RowParts(s, 3, 5) == [Entry(6, 3, Symbol("#"))];
    assert RowParts(s, 3, 4) == [Entry(6, 3, Symbol("#"))];
    assert RowParts(s, 3, 3) == [Entry(6, 3, Symbol("#"))];
    assert RowParts(s, 3, 2) == [Entry(6, 3, Symbol("#"))];
    assert RowParts(s, 3, 1) == [Entry(6, 3, Symbol("#"))];
    assert RowParts(s, 3, 0) == [Entry(6, 3, Symbol("#"))];
  }

  lemma EngineRow3Touching(l: set<(int, int)>)
    ensures NumeralEntries(TouchingParts([Entry(6, 3, Symbol("#"))], l)) && Values(TouchingParts([Entry(6, 3, Symbol("#"))], l)) == []
  {
    var r := [Entry(6, 3, Symbol("#"))];
    assert r[..1][..0] == r[..0];
    assert TouchingParts(r[..1], l) == [];
    assert r[..1] == r;
  }

  lemma EngineRow3Numbers(g: seq<string>, l: set<(int, int)>)
    requires IsEngineGrid(g) && SymbolCellsAre(l, g)
    ensures NumeralEntries(TouchingParts(RowParts(g[3], 3, 0), l)) && Values(TouchingParts(RowParts(g[3], 3, 0), l)) == []
  {
    EngineRow3();
    EngineRow3Touching(l);
  }

  lemma EngineRow4()
    ensures RowParts("617*......", 4, 0) == [Entry(0, 4, Num("617")), Entry(3, 4, Symbol("*"))]
  {
    var s := "617*......";
    assert RowParts(s, 4, 10) == [];
    assert RowParts(s, 4, 9) == [];
    assert RowParts(s, 4, 8) == [];
    assert RowParts(s, 4, 7) == [];
    assert RowParts(s, 4, 6) == [];
    assert RowParts(s, 4, 5) == [];
    assert RowParts(s, 4, 4) == [];
    assert [s[3]] == "*";
    assert RowParts(s, 4, 3) == [Entry(3, 4, Symbol("*"))];
    assert RunEnd(s, 0) == 3;
    assert s[0..3] == "617";
    assert RowParts(s, 4, 0) == [Entry(0, 4, Num("617")), Entry(3, 4, Symbol("*"))];
  }

  /** The number at column 0 of row 4 touches the symbol at (3, 4). */
  lemma EngineRow4Col0(g: seq<string>, l: set<(int, int)>)
    requires IsEngineGrid(g) && SymbolCellsAre(l, g)
    ensures InBox(l, 0, 4, 3)
  {
    assert SymbolAt(g, 3, 4);
    assert (3, 4) in l;
  }

  lemma EngineRow4Touching(l: set<(int, int)>)
    requires InBox(l, 0, 4, 3)
    ensures NumeralEntries(TouchingParts([Entry(0, 4, Num("617")), Entry(3, 4, Symbol("*"))], l)) && Values(TouchingParts([Entry(0, 4, Num("617")), Entry(3, 4, Symbol("*"))], l)) == [617]
  {
    var r := [Entry(0, 4, Num("617")), Entry(3, 4, Symbol("*"))];
    assert r[..1][..0] == r[..0];
    assert TouchingParts(r[..1], l) == [r[0]];
    assert r[..2][..1] == r[..1];
    assert TouchingParts(r[..2], l) == [r[0]];
    assert r[..2] == r;
    DecimalOf617();
  }

  lemma EngineRow4Numbers(g: seq<string>, l: set<(int, int)>)
    requires IsEngineGrid(g) && SymbolCellsAre(l, g)
    ensures NumeralEntries(TouchingParts(RowParts(g[4], 4, 0), l)) && Values(TouchingParts(RowParts(g[4], 4, 0), l)) == [617]
  {
    EngineRow4();
    EngineRow4Col0(g, l);
    EngineRow4Touching(l);
  }

  lemma EngineRow5()
    ensures RowParts(".....+.58.", 5, 0) == [Entry(5, 5, Symbol("+")), Entry(7, 5, Num("58"))]
  {
    var s := ".....+.58.";
    assert RowParts(s, 5, 10) == [];
    assert RowParts(s, 5, 9) == [];
    assert RunEnd(s, 7) == 9;
    assert s[7..9] == "58";
    assert RowParts(s, 5, 7) == [Entry(7, 5, Num("58"))];
    assert RowParts(s, 5, 6) == [Entry(7, 5, Num("58"))];
    assert [s[5]] == "+";
    assert RowParts(s, 5, 5) == [Entry(5, 5, Symbol("+")), Entry(7, 5, Num("58"))];
    assert RowParts(s, 5, 4) == [Entry(5, 5, Symbol("+")), Entry(7, 5, Num("58"))];
    assert RowParts(s, 5, 3) == [Entry(5, 5, Symbol("+")), Entry(7, 5, Num("58"))];
    assert RowParts(s, 5, 2) == [Entry(5, 5, Symbol("+")), Entry(7, 5, Num("58"))];
    assert RowParts(s, 5, 1) == [Entry(5, 5, Symbol("+")), Entry(7, 5, Num("58"))];
    assert RowParts(s, 5, 0) == [Entry(5, 5, Symbol("+")), Entry(7, 5, Num("58"))];
  }

  /** No symbol is next to the number at column 7 of row 5. */
  lemma EngineRow5Col7(g: seq<string>, l: set<(int, int)>)
    requires IsEngineGrid(g) && SymbolCellsAre(l, g)
    ensures !InBox(l, 7, 5, 2)
  {
    assert SpanClear("617*......", 6, 9);
    assert SpanClear(".....+.58.", 6, 9);
    assert SpanClear("..592.....", 6, 9);
    BoxClear(g, l, 7, 5, 2);
  }

  lemma EngineRow5Touching(l: set<(int, int)>)
    requires !InBox(l, 7, 5, 2)
    ensures NumeralEntries(TouchingParts([Entry(5, 5, Symbol("+")), Entry(7, 5, Num("58"))], l)) && Values(TouchingParts([Entry(5, 5, Symbol("+")), Entry(7, 5, Num("58"))], l)) == []
  {
    var r := [Entry(5, 5, Symbol("+")), Entry(7, 5, Num("58"))];
    assert r[..1][..0] == r[..0];
    assert TouchingParts(r[..1], l) == [];
    assert r[..2][..1] == r[..1];
    assert TouchingParts(r[..2], l) == [];
    assert r[..2] == r;
  }

  lemma EngineRow5Numbers(g: seq<string>, l: set<(int, int)>)
    requires IsEngineGrid(g) && SymbolCellsAre(l, g)
    ensures NumeralEntries(TouchingParts(RowParts(g[5], 5, 0), l)) && Values(TouchingParts(RowParts(g[5], 5, 0), l)) == []
  {
    EngineRow5();
    EngineRow5Col7(g, l);
    EngineRow5Touching(l);
  }

  lemma EngineRow6()
    ensures RowParts("..592.....", 6, 0) == [Entry(2, 6, Num("592"))]
  {
    var s := "..592.....";
    assert RowParts(s, 6, 10) == [];
    assert RowParts(s, 6, 9) == [];
    assert RowParts(s, 6, 8) == [];
    assert RowParts(s, 6, 7) == [];
    assert RowParts(s, 6, 6) == [];
    assert RowParts(s, 6, 5) == [];
    assert RunEnd(s, 2) == 5;
    assert s[2..5] == "592";
    assert RowParts(s, 6, 2) == [Entry(2, 6, Num("592"))];
    assert RowParts(s, 6, 1) == [Entry(2, 6, Num("592"))];
    assert RowParts(s, 6, 0) == [Entry(2, 6, Num("592"))];
  }

  /** The number at column 2 of row 6 touches the symbol at (5, 5). */
  lemma EngineRow6Col2(g: seq<string>, l: set<(int, int)>)
    requires IsEngineGrid(g) && SymbolCellsAre(l, g)
    ensures InBox(l, 2, 6, 3)
  {
    assert SymbolAt(g, 5, 5);
    assert (5, 5) in l;
  }

  lemma EngineRow6Touching(l: set<(int, int)>)
    requires InBox(l, 2, 6, 3)
    ensures NumeralEntries(TouchingParts([Entry(2, 6, Num("592"))], l)) && Values(TouchingParts([Entry(2, 6, Num("592"))], l)) == [592]
  {
    var r := [Entry(2, 6, Num("592"))];
    assert r[..1][..0] == r[..0];
    assert TouchingParts(r[..1], l) == [r[0]];
    assert r[..1] == r;
    DecimalOf592();
  }

  lemma EngineRow6Numbers(g: seq<string>, l: set<(int, int)>)
    requires IsEngineGrid(g) && SymbolCellsAre(l, g)
    ensures NumeralEntries(TouchingParts(RowParts(g[6], 6, 0), l)) && Values(TouchingParts(RowParts(g[6], 6, 0), l)) == [592]
  {
    EngineRow6();
    EngineRow6Col2(g, l);
    EngineRow6Touching(l);
  }

  lemma EngineRow7()
    ensures RowParts("......755.", 7, 0) == [Entry(6, 7, Num("755"))]
  {
    var s := "......755.";
    assert RowParts(s, 7, 10) == [];
    assert RowParts(s, 7, 9) == [];
    assert RunEnd(s, 6) == 9;
    assert s[6..9] == "755";
    assert RowParts(s, 7, 6) == [Entry(6, 7, Num("755"))];
    assert RowParts(s, 7, 5) == [Entry(6, 7, Num("755"))];
    assert RowParts(s, 7, 4) == [Entry(6, 7, Num("755"))];
    assert RowParts(s, 7, 3) == [Entry(6, 7, Num("755"))];
    assert RowParts(s, 7, 2) == [Entry(6, 7, Num("755"))];
    assert RowParts(s, 7, 1) == [Entry(6, 7, Num("755"))];
    assert RowParts(s, 7, 0) == [Entry(6, 7, Num("755"))];
  }

  /** The number at column 6 of row 7 touches the symbol at (5, 8). */
  lemma EngineRow7Col6(g: seq<string>, l: set<(int, int)>)
    requires IsEngineGrid(g) && SymbolCellsAre(l, g)
    ensures InBox(l, 6, 7, 3)
  {
    assert SymbolAt(g, 5, 8);
    assert (5, 8) in l;
  }

  lemma EngineRow7Touching(l: set<(int, int)>)
    requires InBox(l, 6, 7, 3)
    ensures NumeralEntries(TouchingParts([Entry(6, 7, Num("755"))], l)) && Values(TouchingParts([Entry(6, 7, Num("755"))], l)) == [755]
  {
    var r := [Entry(6, 7, Num("755"))];
    assert r[..1][..0] == r[..0];
    assert TouchingParts(r[..1], l) == [r[0]];
    assert r[..1] == r;
    DecimalOf755();
  }

  lemma EngineRow7Numbers(g: seq<string>, l: set<(int, int)>)
    requires IsEngineGrid(g) && SymbolCellsAre(l, g)
    ensures NumeralEntries(TouchingParts(RowParts(g[7], 7, 0), l)) && Values(TouchingParts(RowParts(g[7], 7, 0), l)) == [755]
  {
    EngineRow7();
    EngineRow7Col6(g, l);
    EngineRow7Touching(l);
  }

  lemma EngineRow8()
    ensures RowParts("...$.*....", 8, 0) == [Entry(3, 8, Symbol("$")), Entry(5, 8, Symbol("*"))]
  {
    var s := "...$.*....";
    assert RowParts(s, 8, 10) == [];
    assert RowParts(s, 8, 9) == [];
    assert RowParts(s, 8, 8) == [];
    assert RowParts(s, 8, 7) == [];
    assert RowParts(s, 8, 6) == [];
    assert [s[5]] == "*";
    assert RowParts(s, 8, 5) == [Entry(5, 8, Symbol("*"))];
    assert RowParts(s, 8, 4) == [Entry(5, 8, Symbol("*"))];
    assert [s[3]] == "$";
    assert RowParts(s, 8, 3) == [Entry(3, 8, Symbol("$")), Entry(5, 8, Symbol("*"))];
    assert RowParts(s, 8, 2) == [Entry(3, 8, Symbol("$")), Entry(5, 8, Symbol("*"))];
    assert RowParts(s, 8, 1) == [Entry(3, 8, Symbol("$")), Entry(5, 8, Symbol("*"))];
    assert RowParts(s, 8, 0) == [Entry(3, 8, Symbol("$")), Entry(5, 8, Symbol("*"))];
  }

  lemma EngineRow8Touching(l: set<(int, int)>)
    ensures NumeralEntries(TouchingParts([Entry(3, 8, Symbol("$")), Entry(5, 8, Symbol("*"))], l)) && Values(TouchingParts([Entry(3, 8, Symbol("$")), Entry(5, 8, Symbol("*"))], l)) == []
  {
    var r := [Entry(3, 8, Symbol("$")), Entry(5, 8, Symbol("*"))];
    assert r[..1][..0] == r[..0];
    assert TouchingParts(r[..1], l) == [];
    assert r[..2][..1] == r[..1];
    assert TouchingParts(r[..2], l) == [];
    assert r[..2] == r;
  }

  lemma EngineRow8Numbers(g: seq<string>, l: set<(int, int)>)
    requires IsEngineGrid(g) && SymbolCellsAre(l, g)
    ensures NumeralEntries(TouchingParts(RowParts(g[8], 8, 0), l)) && Values(TouchingParts(RowParts(g[8], 8, 0), l)) == []
  {
    EngineRow8();
    EngineRow8Touching(l);
  }

  lemma EngineRow9()
    ensures RowParts(".664.598..", 9, 0) == [Entry(1, 9, Num("664")), Entry(5, 9, Num("598"))]
  {
    var s := ".664.598..";
    assert RowParts(s, 9, 10) == [];
    assert RowParts(s, 9, 9) == [];
    assert RowParts(s, 9, 8) == [];
    assert RunEnd(s, 5) == 8;
    assert s[5..8] == "598";
    assert RowParts(s, 9, 5) == [Entry(5, 9, Num("598"))];
    assert RowParts(s, 9, 4) == [Entry(5, 9, Num("598"))];
    assert RunEnd(s, 1) == 4;
    assert s[1..4] == "664";
    assert RowParts(s, 9, 1) == [Entry(1, 9, Num("664")), Entry(5, 9, Num("598"))];
    assert RowParts(s, 9, 0) == [Entry(1, 9, Num("664")), Entry(5, 9, Num("598"))];
  }

  /** The number at column 1 of row 9 touches the symbol at (3, 8). */
  lemma EngineRow9Col1(g: seq<string>, l: set<(int, int)>)
    requires IsEngineGrid(g) && SymbolCellsAre(l, g)
    ensures InBox(l, 1, 9, 3)
  {
    assert SymbolAt(g, 3, 8);
    assert (3, 8) in l;
  }

  /** The number at column 5 of row 9 touches the symbol at (5, 8). */
  lemma EngineRow9Col5(g: seq<string>, l: set<(int, int)>)
    requires IsEngineGrid(g) && SymbolCellsAre(l, g)
    ensures InBox(l, 5, 9, 3)
  {
    assert SymbolAt(g, 5, 8);
    assert (5, 8) in l;
  }

  lemma EngineRow9Touching(l: set<(int, int)>)
    requires InBox(l, 1, 9, 3) && InBox(l, 5, 9, 3)
    ensures NumeralEntries(TouchingParts([Entry(1, 9, Num("664")), Entry(5, 9, Num("598"))], l)) && Values(TouchingParts([Entry(1, 9, Num("664")), Entry(5, 9, Num("598"))], l)) == [664, 598]
  {
    var r := [Entry(1, 9, Num("664")), Entry(5, 9, Num("598"))];
    assert r[..1][..0] == r[..0];
    assert TouchingParts(r[..1], l) == [r[0]];
    assert r[..2][..1] == r[..1];
    assert TouchingParts(r[..2], l) == [r[0], r[1]];
    assert r[..2] == r;
    DecimalOf664();
    DecimalOf598();
  }

  lemma EngineRow9Numbers(g: seq<string>, l: set<(int, int)>)
    requires IsEngineGrid(g) && SymbolCellsAre(l, g)
    ensures NumeralEntries(TouchingParts(RowParts(g[9], 9, 0), l)) && Values(TouchingParts(RowParts(g[9], 9, 0), l)) == [664, 598]
  {
    EngineRow9();
    EngineRow9Col1(g, l);
    EngineRow9Col5(g, l);
    EngineRow9Touching(l);
  }

  lemma EngineRowNumbers(g: seq<string>, l: set<(int, int)>, y: int)
    requires IsEngineGrid(g) && SymbolCellsAre(l, g) && 0 <= y < 10
    ensures NumeralEntries(TouchingParts(RowParts(g[y], y, 0), l)) && Values(TouchingParts(RowParts(g[y], y, 0), l)) == EngineRowValues[y]
  {
    if y == 0 {
      EngineRow0Numbers(g, l);
    } else if y == 1 {
      EngineRow1Numbers(g, l);
    } else if y == 2 {
      EngineRow2Numbers(g, l);
    } else if y == 3 {
      EngineRow3Numbers(g, l);
    } else if y == 4 {
      EngineRow4Numbers(g, l);
    } else if y == 5 {
      EngineRow5Numbers(g, l);
    } else if y == 6 {
      EngineRow6Numbers(g, l);
    } else if y == 7 {
      EngineRow7Numbers(g, l);
    } else if y == 8 {
      EngineRow8Numbers(g, l);
    } else if y == 9 {
      EngineRow9Numbers(g, l);
    }
  }

  lemma EngineConcat()
    ensures Concat(EngineRowValues) == [467, 35, 633, 617, 592, 755, 664, 598]
  {
    var vs := EngineRowValues;
    assert vs[..0] == [];
    assert vs[..1][..0] == vs[..0];
    assert Concat(vs[..1]) == [467];
    assert vs[..2][..1] == vs[..1];
    assert Concat(vs[..2]) == [467];
    assert vs[..3][..2] == vs[..2];
    assert Concat(vs[..3]) == [467, 35, 633];
    assert vs[..4][..3] == vs[..3];
    assert Concat(vs[..4]) == [467, 35, 633];
    assert vs[..5][..4] == vs[..4];
    assert Concat(vs[..5]) == [467, 35, 633, 617];
    assert vs[..6][..5] == vs[..5];
    assert Concat(vs[..6]) == [467, 35, 633, 617];
    assert vs[..7][..6] == vs[..6];
    assert Concat(vs[..7]) == [467, 35, 633, 617, 592];
    assert vs[..8][..7] == vs[..7];
    assert Concat(vs[..8]) == [467, 35, 633, 617, 592, 755];
    assert vs[..9][..8] == vs[..8];
    assert Concat(vs[..9]) == [467, 35, 633, 617, 592, 755];
    assert vs[..10][..9] == vs[..9];
    assert Concat(vs[..10]) == [467, 35, 633, 617, 592, 755, 664, 598];
    assert vs[..10] == vs;
  }

  lemma SumOfEngine()
    ensures Sum([467, 35, 633, 617, 592, 755, 664, 598]) == 4361
  {
    assert Sum([598]) == 598;
    assert Sum([664, 598]) == 1262;
    assert Sum([755, 664, 598]) == 2017;
    assert Sum([592, 755, 664, 598]) == 2609;
    assert Sum([617, 592, 755, 664, 598]) == 3226;
    assert Sum([633, 617, 592, 755, 664, 598]) == 3859;
    assert Sum([35, 633, 617, 592, 755, 664, 598]) == 3894;
    assert Sum([467, 35, 633, 617, 592, 755, 664, 598]) == 4361;
  }

  lemma EngineNumbers(g: seq<string>)
    requires IsEngineGrid(g)
    ensures Numerals(Schematic(g)) && TouchingNumbers(Schematic(g)) == [467, 35, 633, 617, 592, 755, 664, 598]
    ensures Numerals(Schematic(g)) && Sum(TouchingNumbers(Schematic(g))) == 4361
  {
    SchematicNumerals(g);
    var l := SymbolCoords(Schematic(g));
    SymbolCoordsOfSchematic(g);
    forall y | 0 <= y < |g|
      ensures NumeralEntries(TouchingParts(RowParts(g[y], y, 0), l)) && Values(TouchingParts(RowParts(g[y], y, 0), l)) == EngineRowValues[y]
    {
      EngineRowNumbers(g, l, y);
    }
    ComposeRows(g, l, EngineRowValues, |g|);
    assert g[..|g|] == g;
    assert EngineRowValues[..|g|] == EngineRowValues;
    EngineConcat();
    var vs := Values(TouchingParts(Schematic(g), l));
    assert vs == Concat(EngineRowValues);
    assert TouchingNumbers(Schematic(g)) == vs;
    SumOfEngine();
  }

  /** On the example schematic, the numbers touching a symbol are 467, 35,
      633, 617, 592, 755, 664 and 598 in reading order, and they sum to 4361. */
  lemma ExampleEngine()
    ensures Numerals(Schematic(EngineGrid)) && TouchingNumbers(Schematic(EngineGrid)) == [467, 35, 633, 617, 592, 755, 664, 598]
    ensures Numerals(Schematic(EngineGrid)) && Sum(TouchingNumbers(Schematic(EngineGrid))) == 4361
  {
    EngineNumbers(EngineGrid);
  }
}
