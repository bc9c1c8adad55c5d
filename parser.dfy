/** The line parser of `procesarCSV` (app.js lines 9-18): the text is trimmed and cut into
    lines, the first line names the columns, and every later line becomes one object that
    maps each trimmed column name to the trimmed field at the same position. There is no
    quoting: a comma always separates fields. */
module Parser {
  import opened Text
  import opened Js

  /** `valores[i]?.trim()`: the trimmed i-th field, or `undefined` past the end of the line. */
  function FieldAt(values: seq<string>, i: nat): Value {
    if i < |values| then Str(Trim(values[i])) else Undefined
  }

  /** `h.trim()` for every header: the key each column is stored under. */
  function Names(headers: seq<string>): (names: seq<string>)
    ensures |names| == |headers|
    ensures forall i :: 0 <= i < |headers| ==> names[i] == Trim(headers[i])
  {
    seq(|headers|, i requires 0 <= i < |headers| => Trim(headers[i]))
  }

  /** The first `n` names with repeats dropped, in order of first appearance: the key
      order of every parsed row. */
  function Distinct(names: seq<string>, n: nat): (keys: seq<string>)
    requires n <= |names|
  {
    if n == 0 then []
    else
      WithKey(Distinct(names, n - 1), names[n - 1])
  }

  /** Dropping repeats keeps exactly the names that occur, each once. */
  lemma {:induction false} DistinctNames(names: seq<string>, n: nat)
    requires n <= |names|
    ensures forall k :: k in Distinct(names, n) <==> k in names[..n]
    ensures forall a, b :: 0 <= a < b < |Distinct(names, n)| ==>
      Distinct(names, n)[a] != Distinct(names, n)[b]
  {
    if n > 0 {
      DistinctNames(names, n - 1);
      assert names[..n] == names[..n - 1] + [names[n - 1]];
    }
  }

  /** Among the first `n` names, every occurrence of `b` comes after some occurrence of
      `a`: `a` appears first. */
  predicate FirstBefore(names: seq<string>, n: nat, a: string, b: string)
    requires n <= |names|
  {
    forall j :: 0 <= j < n && names[j] == b ==> exists i :: 0 <= i < j && names[i] == a
  }

  /** Dropping repeats lists the names in the order of their first appearance. */
  lemma {:induction false} DistinctOrder(names: seq<string>, n: nat)
    requires n <= |names|
    ensures forall a, b :: 0 <= a < b < |Distinct(names, n)| ==>
      FirstBefore(names, n, Distinct(names, n)[a], Distinct(names, n)[b])
  {
    if n > 0 {
      DistinctOrder(names, n - 1);
      DistinctNames(names, n - 1);
      var d, d', last := Distinct(names, n - 1), Distinct(names, n), names[n - 1];
      forall a, b | 0 <= a < b < |d'|
        ensures FirstBefore(names, n, d'[a], d'[b])
      {
        assert d'[a] in names[..n - 1] by {
          assert d'[a] == d[a];
        }
        var i :| 0 <= i < n - 1 && names[..n - 1][i] == d'[a];
        forall j | 0 <= j < n && names[j] == d'[b]
          ensures exists i :: 0 <= i < j && names[i] == d'[a]
        {
          if j == n - 1 {
            assert names[i] == d'[a];
          } else {
            assert names[..n - 1][j] == names[j];
            assert FirstBefore(names, n - 1, d[a], d[b]);
          }
        }
      }
    }
  }

  /** No later name among the first `n` equals name `i`, so the value stored under that
      name is the one from position `i`. */
  predicate LastWithName(names: seq<string>, n: nat, i: nat)
    requires i < n <= |names|
  {
    forall j :: i < j < n ==> names[j] != names[i]
  }

  /** The value stored for each column of a line: `valores[i]?.trim()` for every header
      position `i`. */
  function Cells(values: seq<string>, count: nat): (cells: seq<Value>)
    ensures |cells| == count
    ensures forall i :: 0 <= i < count ==> cells[i] == FieldAt(values, i)
  {
    seq(count, i requires 0 <= i < count => FieldAt(values, i))
  }

  /** The object `obj` after the inner `forEach` has stored the first `n` cells. */
  function BuildRow(names: seq<string>, cells: seq<Value>, n: nat): (row: Row)
    requires n <= |names| && n <= |cells|
    ensures DistinctKeys(row)
    ensures Keys(row) == Distinct(names, n)
  {
    if n == 0 then []
    else
      var row := BuildRow(names, cells, n - 1);
      PutKeys(row, names[n - 1], cells[n - 1]);
      PutDistinct(row, names[n - 1], cells[n - 1]);
      Put(row, names[n - 1], cells[n - 1])
  }

  /** The key of column `i` holds its cell when no later column has the same name. */
  lemma {:induction false} BuildRowValue(names: seq<string>, cells: seq<Value>, n: nat, i: nat)
    requires i < n <= |names| && n <= |cells| && LastWithName(names, n, i)
    ensures Field(BuildRow(names, cells, n), names[i]) == cells[i]
  {
    var row := BuildRow(names, cells, n - 1);
    assert BuildRow(names, cells, n) == Put(row, names[n - 1], cells[n - 1]);
    FieldPut(row, names[n - 1], cells[n - 1], names[i]);
    if i < n - 1 {
      assert names[n - 1] != names[i];
      assert LastWithName(names, n - 1, i);
      BuildRowValue(names, cells, n - 1, i);
    }
  }

  /** Each key holds the cell of the last column with that name. */
  lemma BuildRowValues(names: seq<string>, cells: seq<Value>, n: nat)
    requires n <= |names| && n <= |cells|
    ensures forall i :: 0 <= i < n && LastWithName(names, n, i) ==>
      Field(BuildRow(names, cells, n), names[i]) == cells[i]
  {
    forall i | 0 <= i < n && LastWithName(names, n, i)
      ensures Field(BuildRow(names, cells, n), names[i]) == cells[i]
    {
      BuildRowValue(names, cells, n, i);
    }
  }

  /** Every property of the built object reads one of the first `n` cells, or
      `undefined`. */
  lemma {:induction false} BuildRowFrom(names: seq<string>, cells: seq<Value>, n: nat, k: string)
    requires n <= |names| && n <= |cells|
    ensures Field(BuildRow(names, cells, n), k).Undefined? ||
      exists i :: 0 <= i < n && Field(BuildRow(names, cells, n), k) == cells[i]
  {
    if n > 0 {
      var row := BuildRow(names, cells, n - 1);
      assert BuildRow(names, cells, n) == Put(row, names[n - 1], cells[n - 1]);
      FieldPut(row, names[n - 1], cells[n - 1], k);
      BuildRowFrom(names, cells, n - 1, k);
    }
  }

  /** The lines of the trimmed text; the first is the header line. */
  function Lines(text: string): (lines: seq<string>)
    ensures |lines| >= 1
  {
    Split(Trim(text), '\n')
  }

  /** The column headers: the header line split on commas, not yet trimmed. */
  function Headers(text: string): seq<string> {
    Split(Lines(text)[0], ',')
  }

  /** The row built from line `j + 1` of the text (`j`-th data line). */
  function RowOf(text: string, j: nat): Row
    requires j + 1 < |Lines(text)|
  {
    var names := Names(Headers(text));
    BuildRow(names, Cells(Split(Lines(text)[j + 1], ','), |names|), |names|)
  }

  /** `rawData`: one row per line after the header line. */
  function ParseCsv(text: string): (rows: seq<Row>)
    ensures |rows| == |Lines(text)| - 1
    ensures forall j :: 0 <= j < |rows| ==> rows[j] == RowOf(text, j)
  {
    seq(|Lines(text)| - 1, j requires 0 <= j < |Lines(text)| - 1 => RowOf(text, j))
  }

  /** Every parsed row has exactly the trimmed header names as keys, each once, in order
      of first appearance, and holds under each name the trimmed field at the position of
      the last header with that name, or `undefined` when the line is shorter. */
  lemma ParsedRows(text: string)
    ensures forall j :: 0 <= j < |ParseCsv(text)| ==>
      DistinctKeys(ParseCsv(text)[j]) && Keys(ParseCsv(text)[j]) == Distinct(Names(Headers(text)), |Headers(text)|)
    ensures forall j, i ::
      0 <= j < |ParseCsv(text)| && 0 <= i < |Headers(text)| && LastWithName(Names(Headers(text)), |Headers(text)|, i)
      ==> Field(ParseCsv(text)[j], Trim(Headers(text)[i])) == FieldAt(Split(Lines(text)[j + 1], ','), i)
  {
    var names := Names(Headers(text));
    forall j | 0 <= j < |ParseCsv(text)|
      ensures forall i :: 0 <= i < |Headers(text)| && LastWithName(names, |names|, i) ==>
        Field(ParseCsv(text)[j], Trim(Headers(text)[i])) == FieldAt(Split(Lines(text)[j + 1], ','), i)
    {
      BuildRowValues(names, Cells(Split(Lines(text)[j + 1], ','), |names|), |names|);
    }
  }

  /** Every property of a parsed row reads `undefined` or a trimmed string. */
  lemma ParsedValues(text: string, j: nat, k: string)
    requires j < |ParseCsv(text)|
    ensures var v := Field(ParseCsv(text)[j], k);
      v.Undefined? || (v.Str? && IsTrimmed(v.s))
  {
    var names := Names(Headers(text));
    var cells := Cells(Split(Lines(text)[j + 1], ','), |names|);
    BuildRowFrom(names, cells, |names|, k);
  }
}
