/** The statement builder of the Postgres plugins: one tuple of seven placeholders per
    event that survives its transformation, and one flat argument list. */
module Postgres {
  import opened Wrappers
  import opened Sequences

  const COLUMNS: nat := 7

  /** The columns named in the statement, in its order. */
  function Names(): (names: seq<string>)
    ensures |names| == COLUMNS
  {
    ["namespace", "user_id", "event_id", "timestamp", "server_timestamp", "payload", "source_ip"]
  }

  predicate HasColumns(m: map<string, string>) {
    forall j :: 0 <= j < COLUMNS ==> Names()[j] in m
  }

  /** One transformed event: a value for every column name. */
  type Row = m: map<string, string> | HasColumns(m)
    witness map["namespace" := "", "user_id" := "", "event_id" := "", "timestamp" := "",
                "server_timestamp" := "", "payload" := "", "source_ip" := ""]

  /** The arguments for one event. */
  type RowArgs = r: seq<string> | |r| == COLUMNS witness ["", "", "", "", "", "", ""]

  datatype WriteError = AllFailed

  /** What is sent to the database: the column list, the VALUES text and the arguments. */
  datatype Statement = Statement(columns: seq<string>, values: string, args: seq<string>)

  /** The lookups the loop makes. */
  function Lookups(row: Row): (args: RowArgs)
    ensures forall j :: 0 <= j < COLUMNS ==> Names()[j] in row && args[j] == row[Names()[j]]
  {
    seq(COLUMNS, j requires 0 <= j < COLUMNS => assert HasColumns(row); row[Names()[j]])
  }

  // ----- decimal numbers

  function Digit(d: nat): char
    requires d < 10
  {
    ('0' as int + d) as char
  }

  function Decimal(n: nat): string {
    if n < 10 then [Digit(n)] else Decimal(n / 10) + [Digit(n % 10)]
  }

  predicate IsDigit(c: char) {
    '0' <= c <= '9'
  }

  function DigitValue(c: char): nat {
    if IsDigit(c) then c as int - '0' as int else 0
  }

  /** The number a string of digits denotes. */
  function Number(s: string): nat {
    if s == "" then 0 else 10 * Number(s[..|s| - 1]) + DigitValue(s[|s| - 1])
  }

  predicate AllDigits(s: string) {
    forall i :: 0 <= i < |s| ==> IsDigit(s[i])
  }

  lemma {:induction false} DecimalReadsBack(n: nat)
    ensures AllDigits(Decimal(n)) && Decimal(n) != "" && Number(Decimal(n)) == n
  {
    if n < 10 {
      assert Decimal(n)[..0] == "";
    } else {
      DecimalReadsBack(n / 10);
      assert Decimal(n)[..|Decimal(n)| - 1] == Decimal(n / 10);
    }
  }

  // ----- the builder

  function Placeholder(n: nat): string {
    "$" + Decimal(n)
  }

  function Join(parts: seq<string>, separator: string): string {
    if parts == [] then ""
    else if |parts| == 1 then parts[0]
    else parts[0] + separator + Join(parts[1..], separator)
  }

  function Placeholders(numbers: seq<nat>): seq<string> {
    seq(|numbers|, i requires 0 <= i < |numbers| => Placeholder(numbers[i]))
  }

  /** "($a,$b,...)" */
  function TupleText(numbers: seq<nat>): string {
    "(" + Join(Placeholders(numbers), ",") + ")"
  }

  /** The seven consecutive positions of one row. */
  function Seven(n: nat): seq<nat> {
    [n, n + 1, n + 2, n + 3, n + 4, n + 5, n + 6]
  }

  /** The arguments for the events whose transformation succeeded, in batch order. */
  function Surviving(batch: seq<Option<Row>>): seq<RowArgs> {
    if batch == [] then []
    else
      Surviving(batch[..|batch| - 1])
      + if batch[|batch| - 1].Some? then [Lookups(batch[|batch| - 1].value)] else []
  }

  /** How many events of the batch were transformed. */
  function Transformed(batch: seq<Option<Row>>): nat {
    if batch == [] then 0
    else Transformed(batch[..|batch| - 1]) + if batch[|batch| - 1].Some? then 1 else 0
  }

  /** The positions of `k` rows: 1 to 7, 8 to 14, and so on. */
  function Numbering(k: nat): seq<seq<nat>> {
    seq(k, i requires 0 <= i < k => Seven(COLUMNS * i + 1))
  }

  function TupleTexts(rows: seq<seq<nat>>): seq<string> {
    seq(|rows|, i requires 0 <= i < |rows| => TupleText(rows[i]))
  }

  lemma OneMoreTuple(k: nat)
    ensures TupleTexts(Numbering(k + 1)) == TupleTexts(Numbering(k)) + [TupleText(Seven(COLUMNS * k + 1))]
  {
  }

  lemma SurvivingStep(batch: seq<Option<Row>>, i: nat)
    requires i < |batch|
    ensures Surviving(batch[..i + 1])
         == if batch[i].Some? then Surviving(batch[..i]) + [Lookups(batch[i].value)] else Surviving(batch[..i])
  {
    assert batch[..i + 1][..i] == batch[..i];
    if batch[i].None? {
      assert Surviving(batch[..i]) + [] == Surviving(batch[..i]);
    }
  }

  // ----- reading the text back

  /** The length of the longest prefix of digits. */
  function DigitRun(s: string): (n: nat)
    ensures n <= |s| && AllDigits(s[..n]) && (n < |s| ==> !IsDigit(s[n]))
  {
    if s == "" || !IsDigit(s[0]) then 0
    else
      var n := 1 + DigitRun(s[1..]);
      assert s[..n] == [s[0]] + s[1..][..n - 1];
      n
  }

  /** A strict reader of a list of placeholders up to the closing parenthesis. */
  function ReadTuple(s: string): Option<(seq<nat>, string)>
    decreases |s|
  {
    if s == "" || s[0] != '$' then None
    else
      var n := DigitRun(s[1..]);
      var number, rest := Number(s[1..][..n]), s[1..][n..];
      if n == 0 || rest == "" then None
      else if rest[0] == ')' then Some(([number], rest[1..]))
      else if rest[0] != ',' then None
      else
        match ReadTuple(rest[1..])
        case None => None
        case Some((numbers, left)) => Some(([number] + numbers, left))
  }

  lemma {:induction false} ReadTupleShortens(s: string)
    requires ReadTuple(s).Some?
    ensures |ReadTuple(s).value.1| < |s|
    decreases |s|
  {
    var n := DigitRun(s[1..]);
    var rest := s[1..][n..];
    if rest[0] == ',' {
      ReadTupleShortens(rest[1..]);
    }
  }

  /** A strict reader of comma-separated tuples: the placeholder numbers of each tuple. */
  function ReadValues(s: string): Option<seq<seq<nat>>>
    decreases |s|
  {
    if s == "" || s[0] != '(' then None
    else
      match ReadTuple(s[1..])
      case None => None
      case Some((numbers, left)) =>
        ReadTupleShortens(s[1..]);
        if left == "" then Some([numbers])
        else if left[0] != ',' then None
        else
          match ReadValues(left[1..])
          case None => None
          case Some(more) => Some([numbers] + more)
  }

  lemma DigitRunStops(digits: string, rest: string)
    requires AllDigits(digits) && rest != "" && !IsDigit(rest[0])
    ensures DigitRun(digits + rest) == |digits|
  {
    var s, n := digits + rest, DigitRun(digits + rest);
    assert s[|digits|] == rest[0] && forall k :: 0 <= k < |digits| ==> s[k] == digits[k];
    assert forall k :: 0 <= k < n ==> s[..n][k] == s[k];
  }

  lemma ReadPlaceholder(n: nat, rest: string)
    requires rest != "" && (rest[0] == ',' || rest[0] == ')')
    ensures var s := Placeholder(n) + rest;
            && s[0] == '$' && DigitRun(s[1..]) == |Decimal(n)| > 0
            && Number(s[1..][..|Decimal(n)|]) == n && s[1..][|Decimal(n)|..] == rest
  {
    var s := Placeholder(n) + rest;
    DecimalReadsBack(n);
    assert s[1..] == Decimal(n) + rest;
    DigitRunStops(Decimal(n), rest);
  }

  lemma ReadLast(n: nat, left: string)
    ensures ReadTuple(Placeholder(n) + (")" + left)) == Some(([n], left))
  {
    ReadPlaceholder(n, ")" + left);
    assert (")" + left)[1..] == left;
  }

  lemma ReadNext(n: nat, rest: string)
    requires ReadTuple(rest).Some?
    ensures ReadTuple(Placeholder(n) + ("," + rest))
         == Some(([n] + ReadTuple(rest).value.0, ReadTuple(rest).value.1))
  {
    ReadPlaceholder(n, "," + rest);
    assert ("," + rest)[1..] == rest;
  }

  lemma {:induction false} ReadJoined(numbers: seq<nat>, left: string)
    requires numbers != []
    ensures ReadTuple(Join(Placeholders(numbers), ",") + (")" + left)) == Some((numbers, left))
  {
    var n, rest := numbers[0], numbers[1..];
    if rest == [] {
      assert numbers == [n] && Placeholders(numbers) == [Placeholder(n)];
      ReadLast(n, left);
    } else {
      var tail := Join(Placeholders(rest), ",") + (")" + left);
      assert Placeholders(numbers)[1..] == Placeholders(rest);
      assert Join(Placeholders(numbers), ",") == (Placeholder(n) + ",") + Join(Placeholders(rest), ",");
      ReadJoined(rest, left);
      ReadNext(n, tail);
      Associative(Placeholder(n) + ",", Join(Placeholders(rest), ","), ")" + left);
      Associative(Placeholder(n), ",", tail);
      assert numbers == [n] + rest;
    }
  }

  lemma Parenthesized(body: string, left: string)
    ensures ("(" + body + ")") + left == "(" + (body + (")" + left))
    ensures ("(" + (body + (")" + left)))[1..] == body + (")" + left)
  {
  }

  lemma ReadTupleText(numbers: seq<nat>, left: string)
    requires numbers != []
    ensures var s := TupleText(numbers) + left;
            |s| > 0 && s[0] == '(' && ReadTuple(s[1..]) == Some((numbers, left))
  {
    ReadJoined(numbers, left);
    hide Join, ReadTuple;
    Parenthesized(Join(Placeholders(numbers), ","), left);
  }

  lemma ReadValuesStep(s: string, row: seq<nat>, tail: string)
    requires |s| > 0 && s[0] == '(' && ReadTuple(s[1..]) == Some((row, "," + tail))
    requires ReadValues(tail).Some?
    ensures ReadValues(s) == Some([row] + ReadValues(tail).value)
  {
    hide ReadTuple;
    assert ("," + tail)[1..] == tail;
  }

  lemma ReadOneMore(row: seq<nat>, tail: string)
    requires row != [] && ReadValues(tail).Some?
    ensures ReadValues(TupleText(row) + ("," + tail)) == Some([row] + ReadValues(tail).value)
  {
    hide *;
    ReadTupleText(row, "," + tail);
    ReadValuesStep(TupleText(row) + ("," + tail), row, tail);
  }

  lemma JoinStep(parts: seq<string>, separator: string)
    requires |parts| >= 2
    ensures Join(parts, separator) == parts[0] + (separator + Join(parts[1..], separator))
  {
    Associative(parts[0], separator, Join(parts[1..], separator));
  }

  lemma ReadOnly(row: seq<nat>)
    requires row != []
    ensures ReadValues(Join([TupleText(row)], ",")) == Some([row])
  {
    ReadTupleText(row, "");
    hide TupleText, ReadTuple;
    assert TupleText(row) + "" == TupleText(row);
  }

  /** The reader recovers any list of non-empty tuples from its text. */
  lemma {:induction false} TextReadsBack(rows: seq<seq<nat>>)
    requires rows != [] && [] !in rows
    ensures ReadValues(Join(TupleTexts(rows), ",")) == Some(rows)
  {
    hide ReadValues, Join, TupleText;
    var row, rest := rows[0], rows[1..];
    if rest == [] {
      assert rows == [row] && TupleTexts(rows) == [TupleText(row)];
      ReadOnly(row);
    } else {
      TextReadsBack(rest);
      assert TupleTexts(rows)[1..] == TupleTexts(rest);
      JoinStep(TupleTexts(rows), ",");
      ReadOneMore(row, Join(TupleTexts(rest), ","));
      assert rows == [row] + rest;
    }
  }

  lemma {:induction false} FlatRowAt(rows: seq<RowArgs>, i: nat, j: nat)
    requires i < |rows| && j < COLUMNS
    ensures |Flat(rows)| == COLUMNS * |rows|
    ensures Flat(rows)[COLUMNS * i + j] == rows[i][j]
  {
    var front := rows[..|rows| - 1];
    FlatLength(rows);
    FlatLength(front);
    if i < |front| {
      FlatRowAt(front, i, j);
    }
  }

  lemma {:induction false} FlatLength(rows: seq<RowArgs>)
    ensures |Flat(rows)| == COLUMNS * |rows|
  {
    if rows != [] {
      FlatLength(rows[..|rows| - 1]);
    }
  }

  lemma SevenAt(n: nat, j: nat)
    requires j < COLUMNS
    ensures Seven(n)[j] == n + j
  {
    assert j == 0 || j == 1 || j == 2 || j == 3 || j == 4 || j == 5 || j == 6;
  }

  lemma {:induction false} FlatNumbering(k: nat)
    ensures |Flat(Numbering(k))| == COLUMNS * k
    ensures forall m :: 0 <= m < COLUMNS * k ==> Flat(Numbering(k))[m] == m + 1
  {
    if k > 0 {
      FlatNumbering(k - 1);
      assert Numbering(k) == Numbering(k - 1) + [Seven(COLUMNS * (k - 1) + 1)];
      FlatAppend(Numbering(k - 1), Seven(COLUMNS * (k - 1) + 1));
    }
  }

  /** The placeholder in column `j` of tuple `i` refers to column `j` of row `i`. */
  ghost predicate Refers(rows: seq<RowArgs>, i: nat, j: nat)
    requires i < |rows| && j < COLUMNS
  {
    var position := Numbering(|rows|)[i][j];
    1 <= position <= |Flat(rows)| && Flat(rows)[position - 1] == rows[i][j]
  }

  lemma PositionRefers(rows: seq<RowArgs>, i: nat, j: nat)
    requires i < |rows| && j < COLUMNS
    ensures Refers(rows, i, j)
  {
    FlatRowAt(rows, i, j);
    SevenAt(COLUMNS * i + 1, j);
    hide Flat, Seven;
    assert Numbering(|rows|)[i] == Seven(COLUMNS * i + 1);
  }

  /** For every list of surviving rows, and so for every batch and every pattern of failed
      transformations that leaves a row: the VALUES text reads back as the placeholders 1 to 7k
      in order, there are 7k arguments, and every placeholder refers to its own column. */
  lemma PlaceholdersMatchArguments(rows: seq<RowArgs>)
    requires rows != []
    ensures ReadValues(Join(TupleTexts(Numbering(|rows|)), ",")) == Some(Numbering(|rows|))
    ensures |Flat(rows)| == COLUMNS * |rows| == |Flat(Numbering(|rows|))|
    ensures forall m :: 0 <= m < COLUMNS * |rows| ==> Flat(Numbering(|rows|))[m] == m + 1
    ensures forall i, j :: 0 <= i < |rows| && 0 <= j < COLUMNS ==> Refers(rows, i, j)
  {
    TextReadsBack(Numbering(|rows|));
    FlatLength(rows);
    FlatNumbering(|rows|);
    hide *;
    forall i, j | 0 <= i < |rows| && 0 <= j < COLUMNS
      ensures Refers(rows, i, j)
    {
      PositionRefers(rows, i, j);
    }
  }

  lemma {:induction false} SurvivorsCounted(batch: seq<Option<Row>>)
    ensures |Surviving(batch)| == Transformed(batch) <= |batch|
    ensures Transformed(batch) == 0 <==> forall i :: 0 <= i < |batch| ==> batch[i].None?
  {
    if batch != [] {
      SurvivorsCounted(batch[..|batch| - 1]);
    }
  }

  /** The event at position `i`, if it was transformed, is the survivor after those before it. */
  lemma {:induction false} SurvivorAt(batch: seq<Option<Row>>, i: nat)
    requires i < |batch| && batch[i].Some?
    ensures Transformed(batch[..i]) < |Surviving(batch)|
    ensures Surviving(batch)[Transformed(batch[..i])] == Lookups(batch[i].value)
  {
    var n := |batch| - 1;
    SurvivorsCounted(batch[..n]);
    if i < n {
      assert batch[..n][..i] == batch[..i];
      SurvivorAt(batch[..n], i);
    }
  }

  /** The arguments of the statement: for each transformed event its values, by column name. */
  lemma ArgumentAt(batch: seq<Option<Row>>, i: nat, j: nat)
    requires i < |batch| && batch[i].Some? && j < COLUMNS
    ensures var args, k := Flat(Surviving(batch)), Transformed(batch[..i]);
            && COLUMNS * k + j < |args| && Names()[j] in batch[i].value
            && args[COLUMNS * k + j] == batch[i].value[Names()[j]]
  {
    SurvivorAt(batch, i);
    FlatRowAt(Surviving(batch), Transformed(batch[..i]), j);
  }

  /** The text is a list of tuples, one per row, that number the placeholders consecutively. */
  ghost predicate NumbersConsecutively(values: string, rows: nat, columns: nat) {
    && ReadValues(values).Some?
    && var tuples := ReadValues(values).value;
       && |tuples| == rows
       && forall i :: 0 <= i < rows ==>
            |tuples[i]| == columns && forall j :: 0 <= j < columns ==> tuples[i][j] == columns * i + j + 1
  }

  lemma NumberingAt(k: nat, i: nat)
    requires i < k
    ensures |Numbering(k)| == k && |Numbering(k)[i]| == COLUMNS
    ensures forall j :: 0 <= j < COLUMNS ==> Numbering(k)[i][j] == COLUMNS * i + j + 1
  {
    forall j | 0 <= j < COLUMNS
      ensures Numbering(k)[i][j] == COLUMNS * i + j + 1
    {
      SevenAt(COLUMNS * i + 1, j);
    }
  }

  lemma NumberingConsecutive(k: nat)
    requires k > 0
    ensures NumbersConsecutively(Join(TupleTexts(Numbering(k)), ","), k, COLUMNS)
  {
    hide ReadValues, Join, TupleTexts, Numbering;
    NumberingAt(k, 0);
    forall i | 0 <= i < k
      ensures |Numbering(k)[i]| == COLUMNS
      ensures forall j :: 0 <= j < COLUMNS ==> Numbering(k)[i][j] == COLUMNS * i + j + 1
    {
      NumberingAt(k, i);
    }
    TextReadsBack(Numbering(k));
  }

  // ----- the builder as a whole

  predicate ArgumentIs(args: seq<string>, position: nat, row: Row, name: string) {
    position < |args| && name in row && args[position] == row[name]
  }

  lemma ArgumentHolds(batch: seq<Option<Row>>, args: seq<string>, i: nat, j: nat)
    requires i < |batch| && batch[i].Some? && j < COLUMNS && args == Flat(Surviving(batch))
    ensures ArgumentIs(args, COLUMNS * Transformed(batch[..i]) + j, batch[i].value, Names()[j])
  {
    ArgumentAt(batch, i, j);
  }

  /** Every argument is where it belongs. */
  ghost predicate ArgumentsRight(batch: seq<Option<Row>>, args: seq<string>) {
    forall i, j :: 0 <= i < |batch| && batch[i].Some? && 0 <= j < COLUMNS ==>
      ArgumentIs(args, COLUMNS * Transformed(batch[..i]) + j, batch[i].value, Names()[j])
  }

  lemma ArgumentsHold(batch: seq<Option<Row>>, args: seq<string>)
    requires args == Flat(Surviving(batch))
    ensures ArgumentsRight(batch, args)
  {
    hide Flat, Surviving, Transformed, ArgumentIs, Names, HasColumns;
    forall i, j | 0 <= i < |batch| && batch[i].Some? && 0 <= j < COLUMNS
      ensures ArgumentIs(args, COLUMNS * Transformed(batch[..i]) + j, batch[i].value, Names()[j])
    {
      ArgumentHolds(batch, args, i, j);
    }
  }

  lemma StatementIsRight(batch: seq<Option<Row>>, values: string, args: seq<string>)
    requires Transformed(batch) > 0
    requires values == Join(TupleTexts(Numbering(Transformed(batch))), ",") && args == Flat(Surviving(batch))
    ensures NumbersConsecutively(values, Transformed(batch), COLUMNS)
    ensures |args| == COLUMNS * Transformed(batch)
    ensures ArgumentsRight(batch, args)
  {
    hide *;
    NumberingConsecutive(Transformed(batch));
    SurvivorsCounted(batch);
    FlatLength(Surviving(batch));
    ArgumentsHold(batch, args);
  }

  /** The loop of `WriteBatch`. An empty batch is not an error and sends nothing; a batch without
      a transformed event is an error. Otherwise the text numbers seven placeholders for each
      transformed event, there is an argument for each of them, and the one for column `j` of
      event `i` is the event's value for the name of column `j`. */
  method BuildInsert(batch: seq<Option<Row>>) returns (result: Result<Option<Statement>, WriteError>)
    ensures batch == [] ==> result == Ok(None)
    ensures batch != [] && Transformed(batch) == 0 ==> result == Err(AllFailed)
    ensures Transformed(batch) > 0 ==>
              && result.Ok? && result.value.Some?
              && var statement := result.value.value;
                 && statement.columns == Names() && |Names()| == COLUMNS
                 && NumbersConsecutively(statement.values, Transformed(batch), COLUMNS)
                 && |statement.args| == COLUMNS * Transformed(batch)
                 && ArgumentsRight(batch, statement.args)
  {
    hide *;
    if |batch| == 0 {
      NothingTransformed();
      return Ok(None);
    }
    var valueStrings, valueArgs := BuildRows(batch);
    SurvivorsCounted(batch);
    TupleCount(|Surviving(batch)|);
    if |valueStrings| == 0 {
      return Err(AllFailed);
    }
    StatementIsRight(batch, Join(valueStrings, ","), valueArgs);
    return Ok(Some(Statement(Names(), Join(valueStrings, ","), valueArgs)));
  }

  lemma NothingTransformed()
    ensures Transformed([]) == 0
  {
  }

  lemma TupleCount(k: nat)
    ensures |TupleTexts(Numbering(k))| == k
  {
  }

  /** The loop itself. */
  method BuildRows(batch: seq<Option<Row>>) returns (valueStrings: seq<string>, valueArgs: seq<string>)
    ensures valueStrings == TupleTexts(Numbering(|Surviving(batch)|)) && valueArgs == Flat(Surviving(batch))
  {
    var argPos := 1;
    valueStrings, valueArgs := [], [];
    for i := 0 to |batch|
      invariant argPos == COLUMNS * |Surviving(batch[..i])| + 1
      invariant valueStrings == TupleTexts(Numbering(|Surviving(batch[..i])|))
      invariant valueArgs == Flat(Surviving(batch[..i]))
    {
      hide Flat, TupleText, Numbering, Names, Lookups, HasColumns, Surviving;
      SurvivingStep(batch, i);
      if batch[i].Some? {
        var row := batch[i].value;
        FlatAppend(Surviving(batch[..i]), Lookups(row));
        OneMoreTuple(|Surviving(batch[..i])|);
        valueStrings := valueStrings + [TupleText(Seven(argPos))];
        valueArgs := valueArgs + Lookups(row);
        argPos := argPos + 7;
      }
    }
    assert batch[..|batch|] == batch;
  }
}
