/** The download of `prepararDescarga` (app.js lines 185-187): the cleaned rows written
    back as CSV text, a header line with the keys of the first row and one line per row
    with its values, joined by commas and the lines by line feeds. */
module Export {
  import opened Text
  import opened Js

  /** How `Array.prototype.join` writes one value: `undefined` as the empty string, a
      number as `String(x)`, a string as itself. */
  function Render(v: Value, p: Platform): string {
    match v
    case Undefined => ""
    case Str(s) => s
    case Num(NaN) => "NaN"
    case Num(Fin(r)) => p.numberText(r)
  }

  /** `Object.values(r)`, each as `join` writes it. */
  function Texts(row: Row, p: Platform): (ts: seq<string>)
    ensures |ts| == |row|
    ensures forall i :: 0 <= i < |row| ==> ts[i] == Render(row[i].value, p)
  {
    seq(|row|, i requires 0 <= i < |row| => Render(row[i].value, p))
  }

  /** `Object.values(r).join(',')`. */
  function Line(row: Row, p: Platform): string {
    Join(Texts(row, p), ',')
  }

  /** `data.map(r => Object.values(r).join(','))`. */
  function RowLines(data: seq<Row>, p: Platform): (ls: seq<string>)
    ensures |ls| == |data|
    ensures forall i :: 0 <= i < |data| ==> ls[i] == Line(data[i], p)
  {
    seq(|data|, i requires 0 <= i < |data| => Line(data[i], p))
  }

  /** The text of the download. With no rows, `Object.keys(data[0])` is
      `Object.keys(undefined)`, which throws. */
  function ExportCsv(data: seq<Row>, p: Platform): (r: Outcome<string>)
    ensures r.Thrown? <==> data == []
  {
    if data == [] then Thrown(TypeError)
    else Completed(Join([Join(Keys(data[0]), ',')] + RowLines(data, p), '\n'))
  }

  /** No key of the first row and no written value contains `c`. */
  predicate Avoids(data: seq<Row>, c: char, p: Platform) {
    && (data != [] ==> forall k :: 0 <= k < |data[0]| ==> c !in data[0][k].key)
    && forall i, k :: 0 <= i < |data| && 0 <= k < |data[i]| ==> c !in Render(data[i][k].value, p)
  }

  /** When no key or value holds a line feed, the download has one header line and one
      line per row: splitting it at line feeds gives the header and the row lines back. */
  lemma ExportLines(data: seq<Row>, p: Platform)
    requires data != [] && Avoids(data, '\n', p)
    ensures ExportCsv(data, p).Completed?
    ensures var ls := Split(ExportCsv(data, p).value, '\n');
      && |ls| == 1 + |data|
      && ls[0] == Join(Keys(data[0]), ',')
      && forall i :: 0 <= i < |data| ==> ls[i + 1] == Line(data[i], p)
  {
    var header := Join(Keys(data[0]), ',');
    var lines := RowLines(data, p);
    JoinAvoids(Keys(data[0]), ',', '\n');
    forall i | 0 <= i < |data|
      ensures '\n' !in lines[i]
    {
      JoinAvoids(Texts(data[i], p), ',', '\n');
    }
    var all := [header] + lines;
    assert forall i :: 0 <= i < |all| ==> '\n' !in all[i] by {
      forall i | 0 <= i < |all|
        ensures '\n' !in all[i]
      {
        if i > 0 {
          assert all[i] == lines[i - 1];
        }
      }
    }
    SplitJoin(all, '\n');
  }

  /** When no value holds a comma, each row line splits at commas into the values of the
      row, one per property, in property order. */
  lemma ExportFields(data: seq<Row>, i: nat, p: Platform)
    requires i < |data| && 0 < |data[i]| && Avoids(data, ',', p)
    ensures Split(Line(data[i], p), ',') == Texts(data[i], p)
  {
    SplitJoin(Texts(data[i], p), ',');
  }
}
