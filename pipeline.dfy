/** `procesarCSV` end to end (app.js lines 9-33): parse the text, clean the rows, and
    compute from the cleaned rows the row counts, the two totals, the three groupings,
    the top five products and the text of the download. */
module Pipeline {
  import opened Js
  import Parser
  import Cleaning
  import Aggregates
  import Export

  /** Everything the page shows or offers for the loaded text. */
  datatype Report = Report(
    before: nat,
    after: nat,
    revenue: Number,
    units: Number,
    byProduct: Dict,
    bySlot: Dict,
    byFamily: Dict,
    top: Dict,
    download: Outcome<string>)

  /** The figures of the cleaned rows, as `calcularKPIs`, `crearGraficos` and
      `prepararDescarga` compute them. */
  function Figures(raw: seq<Row>, clean: seq<Row>, p: Platform): Report
    requires Aggregates.NumericColumn(clean, "importe") && Aggregates.NumericColumn(clean, "unidades")
  {
    var byProduct := Aggregates.GroupBy(clean, "producto", p);
    Report(|raw|, |clean|, Aggregates.TotalRevenue(clean), Aggregates.TotalUnits(clean),
           byProduct, Aggregates.GroupBy(clean, "franja", p), Aggregates.GroupBy(clean, "familia", p),
           Aggregates.TopProducts(byProduct), Export.ExportCsv(clean, p))
  }

  /** Cleaned rows carry numbers in `importe` and `unidades`. */
  lemma CleanNumeric(raw: seq<Row>, p: Platform)
    requires Cleaning.CleanSpec(raw, p).Completed?
    ensures var clean := Cleaning.CleanSpec(raw, p).value;
      Aggregates.NumericColumn(clean, "importe") && Aggregates.NumericColumn(clean, "unidades")
  {
    Cleaning.CleanNormal(raw, p);
  }

  /** The whole run: the TypeError of the cleaning pass, or the report. */
  function ReportOf(text: string, p: Platform): Outcome<Report> {
    var raw := Parser.ParseCsv(text);
    var cleaned := Cleaning.CleanSpec(raw, p);
    if cleaned.Thrown? then Thrown(cleaned.error)
    else
      CleanNumeric(raw, p);
      Completed(Figures(raw, cleaned.value, p))
  }

  /** `procesarCSV(texto)`, step by step. */
  method Process(text: string, p: Platform) returns (result: Outcome<Report>)
    ensures result == ReportOf(text, p)
  {
    var raw := Parser.ParseCsv(text);
    var cleaned := Cleaning.Clean(raw, p);
    if cleaned.Thrown? {
      return Thrown(cleaned.error);
    }
    var clean := cleaned.value;
    CleanNumeric(raw, p);
    var revenue := Aggregates.TotalRevenue(clean);
    var units := Aggregates.TotalUnits(clean);
    var byProduct, bySlot, byFamily := Aggregates.Charts(clean, p);
    var top := Aggregates.TopProducts(byProduct);
    result := Completed(Report(|raw|, |clean|, revenue, units, byProduct, bySlot, byFamily, top,
                               Export.ExportCsv(clean, p)));
  }

  /** The run fails exactly when some raw row makes the cleaning throw; otherwise the
      counts shown are one per data line before and at most as many after. */
  lemma ReportCounts(text: string, p: Platform)
    ensures ReportOf(text, p).Thrown? <==>
      exists i :: 0 <= i < |Parser.ParseCsv(text)| && Cleaning.Throws(Parser.ParseCsv(text)[i], p)
    ensures ReportOf(text, p).Completed? ==>
      && ReportOf(text, p).value.before == |Parser.Lines(text)| - 1
      && ReportOf(text, p).value.after <= ReportOf(text, p).value.before
  {
    var raw := Parser.ParseCsv(text);
    Cleaning.CleanThrows(raw, p);
    if Cleaning.CleanSpec(raw, p).Completed? {
      Cleaning.CleanSelects(raw, p);
    }
  }

  /** Every cleaned row of a parsed text has a non-empty product. */
  lemma ParsedProductsNonEmpty(text: string, p: Platform)
    requires Cleaning.CleanSpec(Parser.ParseCsv(text), p).Completed?
    ensures var clean := Cleaning.CleanSpec(Parser.ParseCsv(text), p).value;
      forall k :: 0 <= k < |clean| ==> Field(clean[k], "producto") != Str("")
  {
    var raw := Parser.ParseCsv(text);
    var clean := Cleaning.CleanSpec(raw, p).value;
    Cleaning.CleanSelects(raw, p);
    var idx: seq<int> :| Cleaning.Selection(raw, p, clean, idx);
    forall k | 0 <= k < |clean|
      ensures Field(clean[k], "producto") != Str("")
    {
      Parser.ParsedValues(text, idx[k], "producto");
      Cleaning.KeptProductNonEmpty(raw[idx[k]], p);
    }
  }

  /** Every cleaned row is in normal form. */
  predicate AllNormal(clean: seq<Row>, p: Platform) {
    forall k :: 0 <= k < |clean| ==> Cleaning.NormalForm(clean[k], p)
  }

  /** Rows in normal form carry numbers in `importe` and `unidades`. */
  lemma NormalNumeric(clean: seq<Row>, p: Platform)
    requires AllNormal(clean, p)
    ensures Aggregates.NumericColumn(clean, "importe") && Aggregates.NumericColumn(clean, "unidades")
  {
    assert forall k :: 0 <= k < |clean| ==> Cleaning.NormalForm(clean[k], p);
  }

  /** The revenue is NaN exactly when a row has a NaN amount; otherwise each of the three
      groupings adds up to it, and the top five are among the products with the largest
      sums. The units are NaN, 0 for no rows, or positive. */
  lemma FiguresTotals(raw: seq<Row>, clean: seq<Row>, p: Platform)
    requires AllNormal(clean, p) && Aggregates.NumericColumn(clean, "importe") && Aggregates.NumericColumn(clean, "unidades")
    ensures var r := Figures(raw, clean, p);
      && (r.revenue.NaN? <==> exists i :: 0 <= i < |clean| && Field(clean[i], "importe") == Num(NaN))
      && (r.revenue.Fin? ==>
           && Aggregates.AllFinite(r.byProduct) && r.revenue.r == Aggregates.RealTotal(r.byProduct)
           && Aggregates.AllFinite(r.bySlot) && r.revenue.r == Aggregates.RealTotal(r.bySlot)
           && Aggregates.AllFinite(r.byFamily) && r.revenue.r == Aggregates.RealTotal(r.byFamily)
           && (forall e :: e in r.top ==> e in r.byProduct)
           && (forall e, x :: e in r.byProduct && e !in r.top && x in r.top ==>
                 x.value.Fin? && e.value.Fin? && x.value.r >= e.value.r))
      && (r.units.NaN? || (r.after == 0 && r.units == Fin(0.0)) || (r.after > 0 && r.units.r > 0.0))
  {
    var amounts := Aggregates.Amounts(clean, "importe");
    Aggregates.TotalNaN(amounts, |clean|);
    if Aggregates.TotalRevenue(clean).Fin? {
      Aggregates.GroupTotal(Aggregates.KeysOf(clean, "producto", p), amounts, |clean|);
      Aggregates.GroupTotal(Aggregates.KeysOf(clean, "franja", p), amounts, |clean|);
      Aggregates.GroupTotal(Aggregates.KeysOf(clean, "familia", p), amounts, |clean|);
      Aggregates.TopProductsBest(Aggregates.GroupBy(clean, "producto", p));
    }
    var units := Aggregates.Amounts(clean, "unidades");
    forall i | 0 <= i < |units|
      ensures !AtMostZero(units[i])
    {
      assert Cleaning.NormalForm(clean[i], p);
    }
    Aggregates.TotalPositive(units, |clean|);
  }

  /** Among the rows, every sale of product `b` comes after some sale of product `a`. */
  predicate SoldFirst(clean: seq<Row>, a: string, b: string) {
    forall m :: 0 <= m < |clean| && Field(clean[m], "producto") == Str(b) ==>
      exists l :: 0 <= l < m && Field(clean[l], "producto") == Str(a)
  }

  /** Ties among the top five: products with equal sums are listed in the order in which
      they first appear among the cleaned rows. */
  lemma FiguresTopOrder(raw: seq<Row>, clean: seq<Row>, p: Platform)
    requires AllNormal(clean, p) && Aggregates.NumericColumn(clean, "importe") && Aggregates.NumericColumn(clean, "unidades")
    requires Figures(raw, clean, p).revenue.Fin?
    ensures var r := Figures(raw, clean, p);
      forall i, j :: 0 <= i < j < |r.top| && r.top[i].value == r.top[j].value ==>
        SoldFirst(clean, r.top[i].key, r.top[j].key)
  {
    var top := Aggregates.TopProducts(Aggregates.GroupBy(clean, "producto", p));
    assert Figures(raw, clean, p).top == top;
    Aggregates.TotalNaN(Aggregates.Amounts(clean, "importe"), |clean|);
    Aggregates.TopProductsOrder(clean, p);
    forall i, j | 0 <= i < j < |top| && top[i].value == top[j].value
      ensures SoldFirst(clean, top[i].key, top[j].key)
    {
      ProductsSoldFirst(clean, p, top[i].key, top[j].key);
    }
  }

  /** For rows in normal form, first appearance among the product keys is first
      appearance among the sales. */
  lemma ProductsSoldFirst(clean: seq<Row>, p: Platform, a: string, b: string)
    requires AllNormal(clean, p)
    requires Parser.FirstBefore(Aggregates.KeysOf(clean, "producto", p), |clean|, a, b)
    ensures SoldFirst(clean, a, b)
  {
    var products := Aggregates.KeysOf(clean, "producto", p);
    forall m | 0 <= m < |clean| && Field(clean[m], "producto") == Str(b)
      ensures exists l :: 0 <= l < m && Field(clean[l], "producto") == Str(a)
    {
      assert products[m] == b;
      var l :| 0 <= l < m && products[l] == a;
      assert Cleaning.NormalForm(clean[l], p);
      assert Field(clean[l], "producto") == Str(a);
    }
  }

  /** One product category per product of the rows, each once; only the two slot names
      and the four family names as the other categories. */
  lemma FiguresCategories(raw: seq<Row>, clean: seq<Row>, p: Platform)
    requires AllNormal(clean, p) && Aggregates.NumericColumn(clean, "importe") && Aggregates.NumericColumn(clean, "unidades")
    ensures var r := Figures(raw, clean, p);
      && DistinctKeys(r.byProduct) && DistinctKeys(r.bySlot) && DistinctKeys(r.byFamily)
      && (forall k :: k in Keys(r.byProduct) <==> exists i :: 0 <= i < |clean| && Field(clean[i], "producto") == Str(k))
      && (forall k :: k in Keys(r.bySlot) ==> k in Cleaning.Slots)
      && (forall k :: k in Keys(r.byFamily) ==> k in Cleaning.Families)
  {
    forall i | 0 <= i < |clean|
      ensures Field(clean[i], "producto").Str? && Field(clean[i], "franja").Str? && Field(clean[i], "familia").Str?
    {
      assert Cleaning.NormalForm(clean[i], p);
    }
    Aggregates.GroupByKeys(clean, "producto", p);
    Aggregates.GroupByKeys(clean, "franja", p);
    Aggregates.GroupByKeys(clean, "familia", p);
    forall k | k in Keys(Aggregates.GroupBy(clean, "franja", p))
      ensures k in Cleaning.Slots
    {
      var i :| 0 <= i < |clean| && Field(clean[i], "franja") == Str(k);
      assert Cleaning.NormalForm(clean[i], p);
    }
    forall k | k in Keys(Aggregates.GroupBy(clean, "familia", p))
      ensures k in Cleaning.Families
    {
      var i :| 0 <= i < |clean| && Field(clean[i], "familia") == Str(k);
      assert Cleaning.NormalForm(clean[i], p);
    }
  }

  /** The figures shown for the loaded text are those of rows in normal form, so
      `FiguresTotals` and `FiguresCategories` apply to them. */
  lemma ReportFigures(text: string, p: Platform)
    requires ReportOf(text, p).Completed?
    ensures var clean := Cleaning.CleanSpec(Parser.ParseCsv(text), p).value;
      && AllNormal(clean, p)
      && Aggregates.NumericColumn(clean, "importe") && Aggregates.NumericColumn(clean, "unidades")
      && ReportOf(text, p).value == Figures(Parser.ParseCsv(text), clean, p)
  {
    var raw := Parser.ParseCsv(text);
    Cleaning.CleanNormal(raw, p);
    NormalNumeric(Cleaning.CleanSpec(raw, p).value, p);
  }
}
