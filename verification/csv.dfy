/**
 * The CSV export of the history: a fixed header line, then one line per stored entry
 * with six comma-separated fields, lines separated by `\n`. No field is quoted.
 */
module Csv {
  import opened Seqs
  import opened Text
  import opened Js

  /** A stored history row as the export reads it; `bodyweight` is optional. */
  datatype Row = Row(
    exercise: string,
    setNumber: Number,
    weight: Number,
    bodyweight: Option<Number>,
    reps: Number,
    timestamp: string)

  /** A renderer for finite numbers (`Number#toString` on a finite value). */
  type Renderer = real -> string

  /** The column names, in order. */
  const COLUMNS: seq<string> := ["exercise", "setNumber", "weight", "bodyweight", "reps", "timestamp"]

  /** The header line, `exercise,setNumber,weight,bodyweight,reps,timestamp`. */
  const HEADER: string := Join(COLUMNS, ',')

  /**
   * `n.toString()`: the renderer for finite values, JavaScript's fixed words otherwise;
   * never empty and free of commas and line breaks when the renderer is.
   */
  function NumberText(n: Number, render: Renderer): (text: string)
    ensures n.Finite? ==> text == render(n.value)
    ensures Plain(render) ==> text != [] && ',' !in text && '\n' !in text
  {
    match n
    case Finite(x) => render(x)
    case NaN => "NaN"
    case PositiveInfinity => "Infinity"
    case NegativeInfinity => "-Infinity"
  }

  /**
   * What `Number#toString` guarantees of finite values: a non-empty text with neither
   * a comma nor a line break.
   */
  ghost predicate Plain(render: Renderer) {
    forall x :: render(x) != [] && ',' !in render(x) && '\n' !in render(x)
  }

  /**
   * The bodyweight field: the number when it is present and finite, else empty. With
   * a plain renderer it is empty exactly when there is no finite bodyweight.
   */
  function BodyweightText(bodyweight: Option<Number>, render: Renderer): (text: string)
    ensures bodyweight.Some? && IsFinite(bodyweight.value) ==> text == render(bodyweight.value.value)
    ensures bodyweight.None? || !IsFinite(bodyweight.value) ==> text == []
    ensures Plain(render) ==> ',' !in text && '\n' !in text
    ensures Plain(render) ==> (text == [] <==> bodyweight.None? || !IsFinite(bodyweight.value))
  {
    if bodyweight.Some? && IsFinite(bodyweight.value) then NumberText(bodyweight.value, render)
    else ""
  }

  /**
   * The text a row holds under the column named `column`, and nothing under a name
   * that is not a column.
   */
  function Column(row: Row, column: string, render: Renderer): string {
    if column == "exercise" then row.exercise
    else if column == "setNumber" then NumberText(row.setNumber, render)
    else if column == "weight" then NumberText(row.weight, render)
    else if column == "bodyweight" then BodyweightText(row.bodyweight, render)
    else if column == "reps" then NumberText(row.reps, render)
    else if column == "timestamp" then row.timestamp
    else ""
  }

  /**
   * The six fields of a row's line, each under the column the header names at its
   * position: the exercise name and the timestamp verbatim, the four numeric fields
   * free of commas and line breaks.
   */
  function RowFields(row: Row, render: Renderer): (fields: seq<string>)
    ensures |fields| == |COLUMNS|
    ensures forall i :: 0 <= i < |COLUMNS| ==> fields[i] == Column(row, COLUMNS[i], render)
    ensures |fields| == 6
    ensures fields[0] == row.exercise && fields[5] == row.timestamp
    ensures Plain(render) ==> forall i :: 1 <= i < 5 ==> ',' !in fields[i] && '\n' !in fields[i]
  {
    [row.exercise,
     NumberText(row.setNumber, render),
     NumberText(row.weight, render),
     BodyweightText(row.bodyweight, render),
     NumberText(row.reps, render),
     row.timestamp]
  }

  /**
   * One row's line: its fields joined by commas. It splits back into the fields when
   * neither the exercise name nor the timestamp holds a comma, and it holds no line
   * break when neither of them does.
   */
  function Line(row: Row, render: Renderer): (line: string)
    ensures (Plain(render) && ',' !in row.exercise && ',' !in row.timestamp)
              ==> Split(line, ',') == RowFields(row, render)
    ensures Plain(render) && '\n' !in row.exercise && '\n' !in row.timestamp ==> '\n' !in line
  {
    var fields := RowFields(row, render);
    assert (Plain(render) && ',' !in row.exercise && ',' !in row.timestamp)
             ==> Split(Join(fields, ','), ',') == fields by {
      if Plain(render) && ',' !in row.exercise && ',' !in row.timestamp {
        SplitJoin(fields, ',');
      }
    }
    assert (Plain(render) && '\n' !in row.exercise && '\n' !in row.timestamp)
             ==> '\n' !in Join(fields, ',') by {
      if Plain(render) && '\n' !in row.exercise && '\n' !in row.timestamp {
        JoinWithout(fields, ',', '\n');
      }
    }
    Join(fields, ',')
  }

  /** `toCsv`: the header and one line per row, joined by line breaks. */
  function ToCsv(rows: seq<Row>, render: Renderer): (csv: string)
    ensures |csv| >= |HEADER|
  {
    var lines := MapSeq((row: Row) => Line(row, render), rows);
    JoinFront(HEADER, lines, '\n');
    Join([HEADER] + lines, '\n')
  }

  /** Joining a first part with more parts puts the first part and a separator in front. */
  lemma JoinFront(first: string, rest: seq<string>, sep: char)
    ensures Join([first] + rest, sep) == if rest == [] then first else first + [sep] + Join(rest, sep)
  {
    if rest != [] {
      assert ([first] + rest)[1..] == rest;
    }
  }

  /** The header splits back into the column names, one per field of a row. */
  lemma HeaderColumns(row: Row, render: Renderer)
    ensures Split(HEADER, ',') == COLUMNS
    ensures |RowFields(row, render)| == |COLUMNS|
    ensures '\n' !in HEADER
  {
    forall i | 0 <= i < |COLUMNS|
      ensures ',' !in COLUMNS[i] && '\n' !in COLUMNS[i]
    {
    }
    SplitJoin(COLUMNS, ',');
    JoinWithout(COLUMNS, ',', '\n');
  }

  /**
   * A line read back under the header: with no comma in the exercise name or the
   * timestamp, the line has a field per header column, and each field is the row's
   * text for the column the header names at that position.
   */
  lemma LineUnderHeader(row: Row, render: Renderer)
    requires Plain(render)
    requires ',' !in row.exercise && ',' !in row.timestamp
    ensures |Split(Line(row, render), ',')| == |Split(HEADER, ',')|
    ensures forall i :: 0 <= i < |Split(HEADER, ',')| ==>
              Split(Line(row, render), ',')[i] == Column(row, Split(HEADER, ',')[i], render)
  {
    HeaderColumns(row, render);
  }

  /** The export starts with the header, and is only the header exactly when there are no rows. */
  lemma {:induction false} HeaderFirst(rows: seq<Row>, render: Renderer)
    ensures ToCsv(rows, render)[..|HEADER|] == HEADER
    ensures rows == [] <==> ToCsv(rows, render) == HEADER
  {
    var lines := MapSeq((row: Row) => Line(row, render), rows);
    JoinFront(HEADER, lines, '\n');
    if rows != [] {
      assert ToCsv(rows, render) == HEADER + ['\n'] + Join(lines, '\n');
      assert (HEADER + ['\n'] + Join(lines, '\n'))[..|HEADER|] == HEADER;
    }
  }

  /**
   * A line splits back into its six fields exactly when neither the exercise name nor
   * the timestamp holds a comma; each comma in them adds a field.
   */
  lemma {:induction false} LineFields(row: Row, render: Renderer)
    requires Plain(render)
    ensures |Split(Line(row, render), ',')| == 6 + Count(row.exercise, ',') + Count(row.timestamp, ',')
  {
    var fields := RowFields(row, render);
    CountAbsent(fields[1], ',');
    CountAbsent(fields[2], ',');
    CountAbsent(fields[3], ',');
    CountAbsent(fields[4], ',');
    SplitCount(Line(row, render), ',');
    CountJoin(fields, ',', ',');
    SumCountsSix(fields, ',');
  }

  /** The separators inside six parts, written out. */
  lemma SumCountsSix(parts: seq<string>, sep: char)
    requires |parts| == 6
    ensures SumCounts(parts, sep) == Count(parts[0], sep) + Count(parts[1], sep) + Count(parts[2], sep)
                                     + Count(parts[3], sep) + Count(parts[4], sep) + Count(parts[5], sep)
  {
    var p1 := parts[1..];
    var p2 := p1[1..];
    var p3 := p2[1..];
    var p4 := p3[1..];
    var p5 := p4[1..];
    assert p5[1..] == [];
    assert SumCounts(p5, sep) == Count(parts[5], sep);
    assert SumCounts(p4, sep) == Count(parts[4], sep) + SumCounts(p5, sep);
    assert SumCounts(p3, sep) == Count(parts[3], sep) + SumCounts(p4, sep);
    assert SumCounts(p2, sep) == Count(parts[2], sep) + SumCounts(p3, sep);
    assert SumCounts(p1, sep) == Count(parts[1], sep) + SumCounts(p2, sep);
  }

  /** Splitting undoes joining a first part with more parts, none holding the separator. */
  lemma SplitJoinFront(first: string, rest: seq<string>, sep: char)
    requires sep !in first
    requires forall i :: 0 <= i < |rest| ==> sep !in rest[i]
    ensures Split(Join([first] + rest, sep), sep) == [first] + rest
  {
    var all := [first] + rest;
    assert forall i :: 1 <= i < |all| ==> all[i] == rest[i - 1];
    SplitJoin(all, sep);
  }

  /**
   * With no line break in any exercise name or timestamp, the export splits back into
   * the header and one line per row, in order.
   */
  lemma CsvLines(rows: seq<Row>, render: Renderer)
    requires Plain(render)
    requires forall i :: 0 <= i < |rows| ==> '\n' !in rows[i].exercise && '\n' !in rows[i].timestamp
    ensures Split(ToCsv(rows, render), '\n') == [HEADER] + MapSeq((row: Row) => Line(row, render), rows)
  {
    var lines := MapSeq((row: Row) => Line(row, render), rows);
    HeaderColumns(Row("", NaN, NaN, None, NaN, ""), render);
    SplitJoinFront(HEADER, lines, '\n');
  }

  /** Every line of the export is non-empty: the header, and each row's five commas. */
  lemma LinesNonEmpty(rows: seq<Row>, render: Renderer)
    ensures HEADER != []
    ensures forall i :: 0 <= i < |rows| ==> Line(rows[i], render) != []
  {
    JoinFront(COLUMNS[0], COLUMNS[1..], ',');
    assert [COLUMNS[0]] + COLUMNS[1..] == COLUMNS;
    forall i | 0 <= i < |rows|
      ensures Line(rows[i], render) != []
    {
      var fields := RowFields(rows[i], render);
      JoinFront(fields[0], fields[1..], ',');
      assert [fields[0]] + fields[1..] == fields;
    }
  }

  /**
   * With no line break in any exercise name or timestamp, the export does not end in
   * a line break: the rows are joined, not terminated.
   */
  lemma NoTrailingLineBreak(rows: seq<Row>, render: Renderer)
    requires Plain(render)
    requires forall i :: 0 <= i < |rows| ==> '\n' !in rows[i].exercise && '\n' !in rows[i].timestamp
    ensures ToCsv(rows, render)[|ToCsv(rows, render)| - 1] != '\n'
  {
    var lines := MapSeq((row: Row) => Line(row, render), rows);
    HeaderColumns(Row("", NaN, NaN, None, NaN, ""), render);
    LinesNonEmpty(rows, render);
    JoinFrontNoTrailingSep(HEADER, lines, '\n');
  }

  /** `JoinNoTrailingSep` for a first part followed by more parts. */
  lemma JoinFrontNoTrailingSep(first: string, rest: seq<string>, sep: char)
    requires first != [] && sep !in first
    requires forall i :: 0 <= i < |rest| ==> rest[i] != [] && sep !in rest[i]
    ensures Join([first] + rest, sep) != []
    ensures Join([first] + rest, sep)[|Join([first] + rest, sep)| - 1] != sep
  {
    var parts := [first] + rest;
    assert forall i :: 1 <= i < |parts| ==> parts[i] == rest[i - 1];
    JoinNoTrailingSep(parts, sep);
  }

  /** The line breaks inside the exercise names and timestamps of `rows`. */
  function TextBreaks(rows: seq<Row>): nat {
    if rows == [] then 0
    else Count(rows[0].exercise, '\n') + Count(rows[0].timestamp, '\n') + TextBreaks(rows[1..])
  }

  /** A row's line holds exactly the line breaks of its exercise name and timestamp. */
  lemma LineBreaks(row: Row, render: Renderer)
    requires Plain(render)
    ensures Count(Line(row, render), '\n') == Count(row.exercise, '\n') + Count(row.timestamp, '\n')
  {
    var fields := RowFields(row, render);
    CountJoin(fields, ',', '\n');
    SumCountsSix(fields, '\n');
    CountAbsent(fields[1], '\n');
    CountAbsent(fields[2], '\n');
    CountAbsent(fields[3], '\n');
    CountAbsent(fields[4], '\n');
  }

  /** The lines of `rows` together hold the line breaks of the rows' text fields. */
  lemma {:induction false} LinesBreaks(rows: seq<Row>, render: Renderer, lines: seq<string>)
    requires Plain(render)
    requires |lines| == |rows|
    requires forall i :: 0 <= i < |rows| ==> lines[i] == Line(rows[i], render)
    ensures SumCounts(lines, '\n') == TextBreaks(rows)
  {
    if rows != [] {
      LineBreaks(rows[0], render);
      LinesBreaks(rows[1..], render, lines[1..]);
    }
  }

  /**
   * The export has a line for the header and one per row, plus one more for each line
   * break inside an exercise name or timestamp.
   */
  lemma {:induction false} LineBreaksAddLines(rows: seq<Row>, render: Renderer)
    requires Plain(render)
    ensures |Split(ToCsv(rows, render), '\n')| == 1 + |rows| + TextBreaks(rows)
  {
    var lines := MapSeq((row: Row) => Line(row, render), rows);
    var parts := [HEADER] + lines;
    assert ToCsv(rows, render) == Join(parts, '\n');
    SplitCount(Join(parts, '\n'), '\n');
    CountJoin(parts, '\n', '\n');
    assert parts[1..] == lines;
    HeaderColumns(Row("", NaN, NaN, None, NaN, ""), render);
    CountAbsent(HEADER, '\n');
    LinesBreaks(rows, render, lines);
  }
}
