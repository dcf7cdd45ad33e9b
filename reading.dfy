/** The record-building part of `read_input_file`, over lines that are
    already in memory: every line is either the integers it splits into or
    a line that does not parse. */
module Reading {
  import opened Errors
  import opened Records

  /** One input line after `[int(x) for x in line.split(' ')]`. */
  datatype Line = Ints(values: seq<int>) | Malformed

  /** The line `readline` returns at position i. Past the end of the file it
      returns the empty string, on which `int('')` raises ValueError. */
  function LineAt(lines: seq<Line>, i: nat): Line
  {
    if i < |lines| then lines[i] else Malformed
  }

  /** The number of iterations of `range(n)`. */
  function Max0(n: int): nat
  {
    if n < 0 then 0 else n
  }

  /** The line unpacks into exactly `arity` names. */
  predicate HeaderOk(line: Line, arity: nat)
  {
    line.Ints? && |line.values| == arity
  }

  /** Every line of the block of `range(count)` lines starting at `start` parses. */
  predicate BlockParses(lines: seq<Line>, start: nat, count: int)
  {
    forall l :: start <= l < start + Max0(count) ==> LineAt(lines, l).Ints?
  }

  /** l is the first line of that block that does not parse. */
  predicate FirstBadLine(lines: seq<Line>, start: nat, count: int, l: nat)
  {
    start <= l < start + Max0(count) && LineAt(lines, l).Malformed? &&
    forall i :: start <= i < l ==> LineAt(lines, i).Ints?
  }

  /** recs is what the loop builds from the block: one record per iteration,
      record k being line start + k's integers followed by k. */
  predicate RecordsOf(recs: seq<Record>, lines: seq<Line>, start: nat, count: int)
  {
    |recs| == Max0(count) &&
    forall k :: 0 <= k < |recs| ==>
      LineAt(lines, start + k).Ints? && recs[k] == LineAt(lines, start + k).values + [k]
  }

  /** The loops of main.py:37-41 and main.py:47-51. */
  method ReadRecords(lines: seq<Line>, start: nat, count: int) returns (r: Result<seq<Record>>)
    ensures r.Ok? <==> BlockParses(lines, start, count)
    ensures r.Ok? ==> RecordsOf(r.value, lines, start, count)
    ensures r.Err? ==> r.error.ValueError? && FirstBadLine(lines, start, count, r.error.line)
  {
    var records: seq<Record> := [];
    var index := 0;
    while index < count
      invariant 0 <= index <= Max0(count)
      invariant |records| == index
      invariant forall l :: start <= l < start + index ==> LineAt(lines, l).Ints?
      invariant forall k :: 0 <= k < index ==>
        LineAt(lines, start + k).Ints? && records[k] == LineAt(lines, start + k).values + [k]
    {
      var info := LineAt(lines, start + index);
      if info.Malformed? {
        return Err(ValueError(start + index));
      }
      records := records + [info.values + [index]];
      index := index + 1;
    }
    return Ok(records);
  }

  /** What `read_input_file` returns (width, height, buildings, antennas,
      reward), together with the two declared counts, which the count
      checks compare against. */
  datatype InputData = InputData(
    width: int, height: int,
    buildingsNumber: int, antennasNumber: int, reward: int,
    buildings: seq<Record>, antennas: seq<Record>)

  predicate HeadersOk(lines: seq<Line>)
  {
    HeaderOk(LineAt(lines, 0), 2) && HeaderOk(LineAt(lines, 1), 3)
  }

  /** The declared number of buildings, N. */
  function DeclaredBuildings(lines: seq<Line>): int
    requires HeadersOk(lines)
  {
    LineAt(lines, 1).values[0]
  }

  /** The declared number of antennas, M. */
  function DeclaredAntennas(lines: seq<Line>): int
    requires HeadersOk(lines)
  {
    LineAt(lines, 1).values[1]
  }

  /** The line the antenna block starts at, after the building loop ran. */
  function AntennaStart(lines: seq<Line>): nat
    requires HeadersOk(lines)
  {
    2 + Max0(DeclaredBuildings(lines))
  }

  /** Every line the reader reads parses. */
  predicate Parses(lines: seq<Line>)
  {
    HeadersOk(lines) &&
    BlockParses(lines, 2, DeclaredBuildings(lines)) &&
    BlockParses(lines, AntennaStart(lines), DeclaredAntennas(lines))
  }

  /** d is the tuple the reader builds from these lines. */
  predicate ReadsAs(lines: seq<Line>, d: InputData)
  {
    HeadersOk(lines) &&
    var grid, counts := LineAt(lines, 0).values, LineAt(lines, 1).values;
    d.width == grid[0] && d.height == grid[1] &&
    d.buildingsNumber == counts[0] && d.antennasNumber == counts[1] && d.reward == counts[2] &&
    RecordsOf(d.buildings, lines, 2, counts[0]) &&
    RecordsOf(d.antennas, lines, AntennaStart(lines), counts[1])
  }

  /** e is the exception the reader raises on these lines, as written: the
      first line that does not parse or unpack, in reading order. */
  predicate FailsWith(lines: seq<Line>, e: Error)
  {
    if !HeaderOk(LineAt(lines, 0), 2) then e == ValueError(0)
    else if !HeaderOk(LineAt(lines, 1), 3) then e == ValueError(1)
    else if !BlockParses(lines, 2, DeclaredBuildings(lines)) then
      e.ValueError? && FirstBadLine(lines, 2, DeclaredBuildings(lines), e.line)
    else
      e.ValueError? && FirstBadLine(lines, AntennaStart(lines), DeclaredAntennas(lines), e.line)
  }

  /** `read_input_file` as written: the count checks build an exception
      object and drop it, so a count never stops the reader. */
  method ReadInputFile(lines: seq<Line>) returns (r: Result<InputData>)
    ensures r.Ok? <==> Parses(lines)
    ensures r.Ok? ==> ReadsAs(lines, r.value)
    ensures r.Err? ==> r.error.ValueError? && FailsWith(lines, r.error)
  {
    var grid := LineAt(lines, 0);
    if !HeaderOk(grid, 2) {
      return Err(ValueError(0));
    }
    var counts := LineAt(lines, 1);
    if !HeaderOk(counts, 3) {
      return Err(ValueError(1));
    }
    var buildingsNumber, antennasNumber := counts.values[0], counts.values[1];
    var b := ReadRecords(lines, 2, buildingsNumber);
    if b.Err? {
      return Err(b.error);
    }
    var buildings := b.value;
    if |buildings| != buildingsNumber {
      var dropped := CountMismatch(buildingsNumber, |buildings|);
    }
    var a := ReadRecords(lines, 2 + |buildings|, antennasNumber);
    if a.Err? {
      return Err(a.error);
    }
    var antennas := a.value;
    if |antennas| != antennasNumber {
      var dropped := CountMismatch(antennasNumber, |antennas|);
    }
    return Ok(InputData(grid.values[0], grid.values[1], buildingsNumber, antennasNumber,
                        counts.values[2], buildings, antennas));
  }

  /** The lines determine the result: reading is a function of the input. */
  lemma ReadsAsUnique(lines: seq<Line>, d1: InputData, d2: InputData)
    requires ReadsAs(lines, d1) && ReadsAs(lines, d2)
    ensures d1 == d2
  {
  }

  /** The appended element of every record is its 0-based position, so no
      two records of one block are equal. */
  lemma IndexIsLastField(recs: seq<Record>, lines: seq<Line>, start: nat, count: int)
    requires RecordsOf(recs, lines, start, count)
    ensures forall k :: 0 <= k < |recs| ==> |recs[k]| > 0 && recs[k][|recs[k]| - 1] == k
    ensures forall k1, k2 :: 0 <= k1 < k2 < |recs| ==> recs[k1] != recs[k2]
  {
  }

  /** The condition of the count checks (main.py:42, main.py:52) holds
      exactly when the declared count is negative: `range` of a negative
      number is empty. Even then the reader returns normally. */
  lemma CountCheckFiresOnlyOnNegativeCount(lines: seq<Line>, d: InputData)
    requires ReadsAs(lines, d)
    ensures |d.buildings| != d.buildingsNumber <==> d.buildingsNumber < 0
    ensures |d.antennas| != d.antennasNumber <==> d.antennasNumber < 0
  {
  }

  /** A declared building count of -1 gives no buildings and no error. */
  lemma NegativeCountIsNotReported()
    ensures var lines, d := [Ints([4, 4]), Ints([-1, 0, 7])], InputData(4, 4, -1, 0, 7, [], []);
      Parses(lines) && ReadsAs(lines, d) && |d.buildings| != d.buildingsNumber
  {
  }

  /** e is what the reader raises once the count checks raise their
      exception, as they evidently were meant to. */
  predicate FailsCheckedWith(lines: seq<Line>, e: Error)
  {
    if !HeaderOk(LineAt(lines, 0), 2) then e == ValueError(0)
    else if !HeaderOk(LineAt(lines, 1), 3) then e == ValueError(1)
    else if !BlockParses(lines, 2, DeclaredBuildings(lines)) then
      e.ValueError? && FirstBadLine(lines, 2, DeclaredBuildings(lines), e.line)
    else if DeclaredBuildings(lines) < 0 then e == CountMismatch(DeclaredBuildings(lines), 0)
    else if !BlockParses(lines, AntennaStart(lines), DeclaredAntennas(lines)) then
      e.ValueError? && FirstBadLine(lines, AntennaStart(lines), DeclaredAntennas(lines), e.line)
    else
      DeclaredAntennas(lines) < 0 && e == CountMismatch(DeclaredAntennas(lines), 0)
  }

  /** `read_input_file` with `raise` before the two count-mismatch
      exceptions: the record lists then always have the declared lengths. */
  method ReadInputFileChecked(lines: seq<Line>) returns (r: Result<InputData>)
    ensures r.Ok? <==> Parses(lines) && DeclaredBuildings(lines) >= 0 && DeclaredAntennas(lines) >= 0
    ensures r.Ok? ==> ReadsAs(lines, r.value)
    ensures r.Ok? ==> |r.value.buildings| == r.value.buildingsNumber && |r.value.antennas| == r.value.antennasNumber
    ensures r.Err? ==> FailsCheckedWith(lines, r.error)
  {
    var grid := LineAt(lines, 0);
    if !HeaderOk(grid, 2) {
      return Err(ValueError(0));
    }
    var counts := LineAt(lines, 1);
    if !HeaderOk(counts, 3) {
      return Err(ValueError(1));
    }
    var buildingsNumber, antennasNumber := counts.values[0], counts.values[1];
    var b := ReadRecords(lines, 2, buildingsNumber);
    if b.Err? {
      return Err(b.error);
    }
    var buildings := b.value;
    if |buildings| != buildingsNumber {
      return Err(CountMismatch(buildingsNumber, |buildings|));
    }
    var a := ReadRecords(lines, 2 + |buildings|, antennasNumber);
    if a.Err? {
      return Err(a.error);
    }
    var antennas := a.value;
    if |antennas| != antennasNumber {
      return Err(CountMismatch(antennasNumber, |antennas|));
    }
    return Ok(InputData(grid.values[0], grid.values[1], buildingsNumber, antennasNumber,
                        counts.values[2], buildings, antennas));
  }
}
