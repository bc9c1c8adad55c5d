/** `limpiarDatos` (app.js lines 39-79): one `filter` pass over the raw rows that rewrites
    each row field by field, drops the rows that fail a rule, and drops every row whose
    JSON text was already seen. A rule that reads a field of the wrong kind raises a
    TypeError, which ends the whole pass. */
module Cleaning {
  import opened Text
  import opened Js
  import opened Dates

  /** Why a row is dropped (the source returns `false` without a reason). */
  datatype Reason = InvalidDate | MissingProduct | UnknownFamily | NotPositive

  /** What the filter callback does with one row before the duplicate test. */
  datatype Verdict = Keep(row: Row) | Drop(reason: Reason) | Throw

  /** The four family names a kept row can carry. */
  const Families: set<string> := {"Bebida", "Entrante", "Principal", "Postre"}

  /** The two time-slot names a kept row can carry. */
  const Slots: set<string> := {"Desayuno", "Comida"}

  /** `new Date(v)` followed by `toISOString().split('T')[0]`; `new Date(undefined)` is
      always an Invalid Date. */
  function DateText(v: Value, p: Platform): Option<string> {
    if v.Undefined? then None
    else match p.parseDate(v)
      case None => None
      case Some(t) => Some(CalendarDay(t))
  }

  /** A valid date is stored as a day text. */
  lemma DateTextForm(v: Value, p: Platform)
    requires DateText(v, p).Some?
    ensures IsDayText(DateText(v, p).value)
  {
    CalendarDayText(p.parseDate(v).value);
  }

  /** The ordered substring tests on the lower-cased family: the first of `beb`, `entra`,
      `prin`, `post` that occurs decides. */
  function Classify(fam: string): (f: Option<string>)
    ensures f.Some? ==> f.value in Families
  {
    if Contains(fam, "beb") then Some("Bebida")
    else if Contains(fam, "entra") then Some("Entrante")
    else if Contains(fam, "prin") then Some("Principal")
    else if Contains(fam, "post") then Some("Postre")
    else None
  }

  /** The time slot of a raw value: breakfast when its lower-cased text contains `desa`,
      lunch otherwise (a catch-all, never a rejection). */
  function SlotName(slot: string): (name: string)
    ensures name in Slots
    ensures name == "Desayuno" <==> Contains(Lower(slot), "desa")
  {
    if Contains(Lower(slot), "desa") then "Desayuno" else "Comida"
  }

  /** `+(units * price).toFixed(2)`: NaN stays NaN, a finite product is rounded. */
  function Amount(units: Number, price: Number, p: Platform): Number {
    if units.Fin? && price.Fin? then Fin(p.round2(units.r * price.r)) else NaN
  }

  /** The columns the cleaning pass writes. */
  const Written: set<string> :=
    {"fecha", "producto", "franja", "familia", "unidades", "precio_unitario", "importe"}

  /** The written columns are seven different names. */
  lemma WrittenDiffer()
    ensures "unidades" != "fecha" && "unidades" != "producto" && "unidades" != "franja" && "unidades" != "familia"
    ensures "precio_unitario" != "fecha" && "precio_unitario" != "producto"
    ensures "precio_unitario" != "franja" && "precio_unitario" != "familia"
  {
    assert "unidades"[0] != "producto"[0];
  }

  /** The four text assignments of a successful pass (app.js lines 46-61). */
  function RewriteText(row: Row, date: string, product: string, slot: string, family: string): (out: Row)
    ensures Field(out, "fecha") == Str(date)
    ensures Field(out, "producto") == Str(product)
    ensures Field(out, "franja") == Str(slot)
    ensures Field(out, "familia") == Str(family)
    ensures forall k :: k != "fecha" && k != "producto" && k != "franja" && k != "familia" ==>
      Field(out, k) == Field(row, k)
  {
    Put(Put(Put(Put(row, "fecha", Str(date)), "producto", Str(product)), "franja", Str(slot)),
        "familia", Str(family))
  }

  /** The three number assignments of a successful pass (app.js lines 65-70). */
  function RewriteNumbers(row: Row, units: Number, price: Number, amount: Number): (out: Row)
    ensures Field(out, "unidades") == Num(units)
    ensures Field(out, "precio_unitario") == Num(price)
    ensures Field(out, "importe") == Num(amount)
    ensures forall k :: k != "unidades" && k != "precio_unitario" && k != "importe" ==>
      Field(out, k) == Field(row, k)
  {
    Put(Put(Put(row, "unidades", Num(units)), "precio_unitario", Num(price)), "importe", Num(amount))
  }

  /** The row after the seven assignments of a successful pass, in the source's order. */
  function Rewrite(row: Row, date: string, product: string, slot: string, family: string,
                   units: Number, price: Number, amount: Number): (out: Row)
    ensures Field(out, "fecha") == Str(date)
    ensures Field(out, "producto") == Str(product)
    ensures Field(out, "franja") == Str(slot)
    ensures Field(out, "familia") == Str(family)
    ensures Field(out, "unidades") == Num(units)
    ensures Field(out, "precio_unitario") == Num(price)
    ensures Field(out, "importe") == Num(amount)
    ensures forall k :: k !in Written ==> Field(out, k) == Field(row, k)
  {
    RewriteNumbers(RewriteText(row, date, product, slot, family), units, price, amount)
  }

  /** The key order after the seven assignments: the raw row's keys, then whichever of the
      written columns were missing, in the order they are written. */
  function RewrittenKeys(ks: seq<string>): seq<string> {
    WithKey(WithKey(WithKey(WithKey(WithKey(WithKey(WithKey(ks,
      "fecha"), "producto"), "franja"), "familia"), "unidades"), "precio_unitario"), "importe")
  }

  /** The rewritten row's keys depend only on the raw row's keys, and stay distinct. */
  lemma RewriteKeys(row: Row, date: string, product: string, slot: string, family: string,
                    units: Number, price: Number, amount: Number)
    ensures Keys(Rewrite(row, date, product, slot, family, units, price, amount)) == RewrittenKeys(Keys(row))
    ensures DistinctKeys(row) ==> DistinctKeys(Rewrite(row, date, product, slot, family, units, price, amount))
  {
    var r1 := Put(row, "fecha", Str(date));
    var r2 := Put(r1, "producto", Str(product));
    var r3 := Put(r2, "franja", Str(slot));
    var r4 := Put(r3, "familia", Str(family));
    var r5 := Put(r4, "unidades", Num(units));
    var r6 := Put(r5, "precio_unitario", Num(price));
    var r7 := Put(r6, "importe", Num(amount));
    PutKeys(row, "fecha", Str(date));
    PutKeys(r1, "producto", Str(product));
    PutKeys(r2, "franja", Str(slot));
    PutKeys(r3, "familia", Str(family));
    PutKeys(r4, "unidades", Num(units));
    PutKeys(r5, "precio_unitario", Num(price));
    PutKeys(r6, "importe", Num(amount));
    if DistinctKeys(row) {
      PutDistinct(row, "fecha", Str(date));
      PutDistinct(r1, "producto", Str(product));
      PutDistinct(r2, "franja", Str(slot));
      PutDistinct(r3, "familia", Str(family));
      PutDistinct(r4, "unidades", Num(units));
      PutDistinct(r5, "precio_unitario", Num(price));
      PutDistinct(r6, "importe", Num(amount));
    }
  }

  /** The conditions under which the pass keeps a row (before the duplicate test). */
  predicate Accepted(row: Row, p: Platform) {
    var product := Field(row, "producto");
    var slot := Field(row, "franja");
    var family := Field(row, "familia");
    && DateText(Field(row, "fecha"), p).Some?
    && product.Str? && product.s != ""
    && slot.Str?
    && family.Str? && Classify(Lower(family.s)).Some?
    && !AtMostZero(ToNumber(Field(row, "unidades"), p))
    && !AtMostZero(ToNumber(Field(row, "precio_unitario"), p))
  }

  /** The conditions under which the pass raises a TypeError on a row: the date is valid
      and the product truthy, but the product is not a string (`trim` is not a function
      of a number), the time slot is missing or not a string (`includes` on `undefined`),
      or the family is a number (`toLowerCase` is not a function of a number). */
  predicate Throws(row: Row, p: Platform) {
    var product := Field(row, "producto");
    && DateText(Field(row, "fecha"), p).Some?
    && Truthy(product)
    && (!product.Str? || !Field(row, "franja").Str? || Field(row, "familia").Num?)
  }

  /** The invariants of a cleaned row: a date, a trimmed lower-case product, one of the
      two slots, one of the four families, units and price for which `<= 0` is false,
      and the amount recomputed from them. */
  predicate NormalForm(r: Row, p: Platform) {
    && Field(r, "fecha").Str? && IsDayText(Field(r, "fecha").s)
    && Field(r, "producto").Str? && IsTrimmed(Field(r, "producto").s)
    && Lower(Field(r, "producto").s) == Field(r, "producto").s
    && Field(r, "franja").Str? && Field(r, "franja").s in Slots
    && Field(r, "familia").Str? && Field(r, "familia").s in Families
    && Field(r, "unidades").Num? && !AtMostZero(Field(r, "unidades").n)
    && Field(r, "precio_unitario").Num? && !AtMostZero(Field(r, "precio_unitario").n)
    && Field(r, "importe") == Num(Amount(Field(r, "unidades").n, Field(r, "precio_unitario").n, p))
  }

  /** How each written field of the kept row `out` derives from the raw row, and that
      every other field is left as it was. */
  ghost predicate DerivedFrom(out: Row, row: Row, p: Platform) {
    var units := ToNumber(Field(row, "unidades"), p);
    var price := ToNumber(Field(row, "precio_unitario"), p);
    && DateText(Field(row, "fecha"), p).Some?
    && Field(out, "fecha") == Str(DateText(Field(row, "fecha"), p).value)
    && Field(row, "producto").Str?
    && Field(out, "producto") == Str(Lower(Trim(Field(row, "producto").s)))
    && Field(row, "franja").Str?
    && Field(out, "franja") == Str(SlotName(Field(row, "franja").s))
    && Field(row, "familia").Str? && Classify(Lower(Field(row, "familia").s)).Some?
    && Field(out, "familia") == Str(Classify(Lower(Field(row, "familia").s)).value)
    && Field(out, "unidades") == Num(units)
    && Field(out, "precio_unitario") == Num(price)
    && Field(out, "importe") == Num(Amount(units, price, p))
    && (forall k :: k !in Written ==> Field(out, k) == Field(row, k))
  }

  /** The first four rules (app.js lines 44-62), each reading a field of the raw row:
      a date is required, a truthy product is trimmed and lower-cased, the time slot is
      classified, the family is classified or the row dropped. */
  function TextRules(row: Row, p: Platform): (v: Verdict)
    ensures v.Keep? ==>
      && DateText(Field(row, "fecha"), p).Some?
      && Field(row, "producto").Str? && Field(row, "franja").Str? && Field(row, "familia").Str?
      && Classify(Lower(Field(row, "familia").s)).Some?
      && v.row == RewriteText(row, DateText(Field(row, "fecha"), p).value,
      Lower(Trim(Field(row, "producto").s)), SlotName(Field(row, "franja").s),
      Classify(Lower(Field(row, "familia").s)).value)
  {
    var date := DateText(Field(row, "fecha"), p);
    var product := Field(row, "producto");
    var slot := Field(row, "franja");
    var family := Field(row, "familia");
    if date.None? then Drop(InvalidDate)
    else if !Truthy(product) then Drop(MissingProduct)
    else if !product.Str? || !slot.Str? || family.Num? then Throw
    else if family.Undefined? || Classify(Lower(family.s)).None? then Drop(UnknownFamily)
    else Keep(RewriteText(row, date.value, Lower(Trim(product.s)), SlotName(slot.s), Classify(Lower(family.s)).value))
  }

  /** The filter callback of `limpiarDatos` up to the duplicate test: the text rules, then
      the number rules on the row they leave. */
  function Normalize(row: Row, p: Platform): Verdict {
    var t := TextRules(row, p);
    if t.Keep? then NumberRules(t.row, p) else t
  }

  lemma RewriteTextNumbers(row: Row, date: string, product: string, slot: string, family: string)
    ensures Field(RewriteText(row, date, product, slot, family), "unidades") == Field(row, "unidades")
    ensures Field(RewriteText(row, date, product, slot, family), "precio_unitario") == Field(row, "precio_unitario")
  {
    WrittenDiffer();
  }

  /** The text rules leave units and price as the raw row has them. */
  lemma TextRulesKeepNumbers(row: Row, p: Platform)
    requires TextRules(row, p).Keep?
    ensures Field(TextRules(row, p).row, "unidades") == Field(row, "unidades")
    ensures Field(TextRules(row, p).row, "precio_unitario") == Field(row, "precio_unitario")
  {
    RewriteTextNumbers(row, DateText(Field(row, "fecha"), p).value,
      Lower(Trim(Field(row, "producto").s)), SlotName(Field(row, "franja").s),
      Classify(Lower(Field(row, "familia").s)).value);
  }

  /** A row is kept by the rules exactly when it meets every condition of `Accepted`. */
  lemma NormalizeAccepts(row: Row, p: Platform)
    ensures Normalize(row, p).Keep? <==> Accepted(row, p)
  {
    if TextRules(row, p).Keep? {
      TextRulesKeepNumbers(row, p);
    }
  }

  /** A row makes the rules throw exactly under the conditions of `Throws`. */
  lemma NormalizeThrows(row: Row, p: Platform)
    ensures Normalize(row, p).Throw? <==> Throws(row, p)
  {
  }

  /** A kept row whose product was already trimmed, as every parsed row's is, keeps a
      non-empty product: the presence test rejects only the empty string, and neither
      trimming nor lower-casing shortens a trimmed text. */
  lemma KeptProductNonEmpty(row: Row, p: Platform)
    requires Normalize(row, p).Keep?
    requires Field(row, "producto").Str? ==> IsTrimmed(Field(row, "producto").s)
    ensures Field(Normalize(row, p).row, "producto") != Str("")
  {
    NormalizeAccepts(row, p);
    NormalizeKeeps(row, p);
    var s := Field(row, "producto").s;
    assert Trim(s) == s;
    assert |Lower(Trim(s))| == |s| > 0;
  }

  /** A kept row is in normal form, each written field derived from the raw row by its
      rule and every other field untouched; its keys are the raw keys followed by the
      written columns that were missing, and stay distinct. */
  lemma NormalizeKeeps(row: Row, p: Platform)
    requires Normalize(row, p).Keep?
    ensures var out := Normalize(row, p).row;
      && NormalForm(out, p) && DerivedFrom(out, row, p)
      && Keys(out) == RewrittenKeys(Keys(row))
      && (DistinctKeys(row) ==> DistinctKeys(out))
  {
    var t := TextRules(row, p);
    TextRulesKeepNumbers(row, p);
    var date := DateText(Field(row, "fecha"), p).value;
    var name := Lower(Trim(Field(row, "producto").s));
    var slot := SlotName(Field(row, "franja").s);
    var fam := Classify(Lower(Field(row, "familia").s)).value;
    var units := ToNumber(Field(row, "unidades"), p);
    var price := ToNumber(Field(row, "precio_unitario"), p);
    assert t.row == RewriteText(row, date, name, slot, fam);
    assert Normalize(row, p).row == Rewrite(row, date, name, slot, fam, units, price, Amount(units, price, p));
    LowerKeepsTrimmed(Trim(Field(row, "producto").s));
    LowerIdempotent(Trim(Field(row, "producto").s));
    DateTextForm(Field(row, "fecha"), p);
    RewriteKeys(row, date, name, slot, fam, units, price, Amount(units, price, p));
  }

  /** The last two rules, on the row the text rules left: units and price are coerced to
      numbers and written back, a row for which either is `<= 0` is dropped, and the
      amount is recomputed. */
  function NumberRules(r: Row, p: Platform): (v: Verdict)
    ensures v.Keep? ==> v.row == RewriteNumbers(r, ToNumber(Field(r, "unidades"), p),
                                   ToNumber(Field(r, "precio_unitario"), p),
                                   Amount(ToNumber(Field(r, "unidades"), p), ToNumber(Field(r, "precio_unitario"), p), p))
  {
    var units := ToNumber(Field(r, "unidades"), p);
    var price := ToNumber(Field(r, "precio_unitario"), p);
    if AtMostZero(units) || AtMostZero(price) then Drop(NotPositive)
    else Keep(RewriteNumbers(r, units, price, Amount(units, price, p)))
  }

  /** The substrings the family rule looks for, in the order it tries them, and the
      family each one selects. */
  const Needles: seq<string> := ["beb", "entra", "prin", "post"]
  const FamilyNames: seq<string> := ["Bebida", "Entrante", "Principal", "Postre"]

  /** The family rule picks the first needle that occurs, and rejects when none does. */
  lemma ClassifyFirstMatch(fam: string)
    ensures Classify(fam).None? <==> forall i :: 0 <= i < |Needles| ==> !Contains(fam, Needles[i])
    ensures forall i :: 0 <= i < |Needles| ==>
      (Classify(fam) == Some(FamilyNames[i]) <==>
         Contains(fam, Needles[i]) && forall j :: 0 <= j < i ==> !Contains(fam, Needles[j]))
  {
    assert Needles[0] == "beb" && Needles[1] == "entra" && Needles[2] == "prin" && Needles[3] == "post";
    assert FamilyNames[0] == "Bebida" && FamilyNames[1] == "Entrante";
    assert FamilyNames[2] == "Principal" && FamilyNames[3] == "Postre";
    assert "Bebida" != "Entrante" && "Bebida" != "Principal" && "Bebida" != "Postre";
    assert "Entrante" != "Principal" && "Entrante" != "Postre" && "Principal" != "Postre" by {
      assert "Entrante"[0] != "Principal"[0] && "Entrante"[0] != "Postre"[0];
      assert "Principal"[2] != "Postre"[2];
    }
  }

  /** A row without a family is never kept; once the earlier rules pass, it is dropped
      for its family. */
  lemma MissingFamilyDropped(row: Row, p: Platform)
    requires Field(row, "familia") == Undefined
    ensures !Normalize(row, p).Keep?
    ensures DateText(Field(row, "fecha"), p).Some? && Truthy(Field(row, "producto"))
            && Field(row, "producto").Str? && Field(row, "franja").Str?
            ==> Normalize(row, p) == Drop(UnknownFamily)
  {
    NormalizeAccepts(row, p);
  }

  /** The time slot never decides whether a row is kept: two rows that agree on every
      other column and both carry a string time slot are kept or dropped alike. */
  lemma SlotNeverRejects(a: Row, b: Row, p: Platform)
    requires forall k :: k != "franja" ==> Field(a, k) == Field(b, k)
    requires Field(a, "franja").Str? && Field(b, "franja").Str?
    ensures Normalize(a, p).Keep? <==> Normalize(b, p).Keep?
  {
    NormalizeAccepts(a, p);
    NormalizeAccepts(b, p);
    assert "fecha"[1] != "franja"[1] && "familia"[1] != "franja"[1];
    assert Field(a, "fecha") == Field(b, "fecha");
    assert Field(a, "producto") == Field(b, "producto");
    assert Field(a, "familia") == Field(b, "familia");
    assert Field(a, "unidades") == Field(b, "unidades");
    assert Field(a, "precio_unitario") == Field(b, "precio_unitario");
  }

  /** A row whose units or price are not numeric is not dropped for them: `NaN <= 0` is
      false, so the row is kept and its amount is NaN. */
  lemma NaNPasses(row: Row, p: Platform)
    requires DateText(Field(row, "fecha"), p).Some?
    requires Field(row, "producto").Str? && Field(row, "producto").s != ""
    requires Field(row, "franja").Str?
    requires Field(row, "familia").Str? && Classify(Lower(Field(row, "familia").s)).Some?
    requires ToNumber(Field(row, "unidades"), p).NaN? || ToNumber(Field(row, "precio_unitario"), p).NaN?
    requires !AtMostZero(ToNumber(Field(row, "unidades"), p)) && !AtMostZero(ToNumber(Field(row, "precio_unitario"), p))
    ensures Normalize(row, p).Keep? && Field(Normalize(row, p).row, "importe") == Num(NaN)
  {
    NormalizeAccepts(row, p);
    NormalizeKeeps(row, p);
  }

  /** A product made only of spaces is truthy, so a row that meets the other rules passes
      the presence test and is kept, with its product stored empty. */
  lemma BlankProductKept(row: Row, p: Platform, s: string)
    requires Field(row, "producto") == Str(s) && s != [] && forall i :: 0 <= i < |s| ==> IsSpace(s[i])
    requires DateText(Field(row, "fecha"), p).Some?
    requires Field(row, "franja").Str?
    requires Field(row, "familia").Str? && Classify(Lower(Field(row, "familia").s)).Some?
    requires !AtMostZero(ToNumber(Field(row, "unidades"), p)) && !AtMostZero(ToNumber(Field(row, "precio_unitario"), p))
    ensures Normalize(row, p).Keep? && Field(Normalize(row, p).row, "producto") == Str("")
  {
    NormalizeAccepts(row, p);
    NormalizeKeeps(row, p);
    TrimBlank(s);
  }

  /** The filter callback up to the duplicate test as the source runs it: the row is
      rewritten field by field, each rule reading the field as the earlier rules left it. */
  method NormalizeRow(row: Row, p: Platform) returns (v: Verdict)
    ensures v == Normalize(row, p)
  {
    v := ApplyTextRules(row, p);
    if v.Keep? {
      v := ApplyNumberRules(v.row, p);
    }
  }

  /** The first four rules as the source runs them. */
  method ApplyTextRules(row: Row, p: Platform) returns (v: Verdict)
    ensures v == TextRules(row, p)
  {
    var r := row;
    // the date, reduced to its calendar day
    var date := DateText(Field(r, "fecha"), p);
    if date.None? { return Drop(InvalidDate); }
    r := Put(r, "fecha", Str(date.value));
    assert Field(r, "producto") == Field(row, "producto");
    assert Field(r, "franja") == Field(row, "franja");
    assert Field(r, "familia") == Field(row, "familia");
    // the product must be truthy; only then is it trimmed and lower-cased
    var product := Field(r, "producto");
    if !Truthy(product) { return Drop(MissingProduct); }
    if !product.Str? { return Throw; }
    r := Put(r, "producto", Str(Lower(Trim(product.s))));
    ghost var r2 := r;
    assert Field(r, "franja") == Field(row, "franja");
    assert Field(r, "familia") == Field(row, "familia");
    // the time slot: lower-cased, then classified; `undefined` has no `includes`
    var slot := Field(r, "franja");
    if !slot.Str? { return Throw; }
    r := Put(r, "franja", Str(Lower(slot.s)));
    var lowered := Field(r, "franja").s;
    r := Put(r, "franja", Str(if Contains(lowered, "desa") then "Desayuno" else "Comida"));
    PutTwice(r2, "franja", Str(Lower(slot.s)), Str(SlotName(slot.s)));
    assert Field(r, "familia") == Field(row, "familia");
    // the family, by the first substring that matches
    var family := Field(r, "familia");
    if family.Num? { return Throw; }
    if family.Undefined? { return Drop(UnknownFamily); }
    var fam := Lower(family.s);
    if Contains(fam, "beb") {
      r := Put(r, "familia", Str("Bebida"));
    } else if Contains(fam, "entra") {
      r := Put(r, "familia", Str("Entrante"));
    } else if Contains(fam, "prin") {
      r := Put(r, "familia", Str("Principal"));
    } else if Contains(fam, "post") {
      r := Put(r, "familia", Str("Postre"));
    } else {
      return Drop(UnknownFamily);
    }
    assert r == RewriteText(row, date.value, Lower(Trim(product.s)), SlotName(slot.s), Classify(fam).value);
    return Keep(r);
  }

  /** The last two rules as the source runs them on the partly rewritten row. */
  method ApplyNumberRules(row: Row, p: Platform) returns (v: Verdict)
    ensures v == NumberRules(row, p)
  {
    var r := row;
    r := Put(r, "unidades", Num(ToNumber(Field(r, "unidades"), p)));
    assert Field(r, "precio_unitario") == Field(row, "precio_unitario");
    r := Put(r, "precio_unitario", Num(ToNumber(Field(r, "precio_unitario"), p)));
    var units := Field(r, "unidades").n;
    var price := Field(r, "precio_unitario").n;
    assert units == ToNumber(Field(row, "unidades"), p);
    if AtMostZero(units) || AtMostZero(price) { return Drop(NotPositive); }
    // the amount, always recomputed
    r := Put(r, "importe", Num(Amount(units, price, p)));
    return Keep(r);
  }

  // ---------------------------------------------------------------------------
  // The duplicate test (app.js lines 40 and 73-77)

  /** The part of a row that `JSON.stringify` writes: its own properties in insertion
      order, leaving out those whose value is `undefined`. Equal keys stand for equal JSON
      texts: the text is an injective rendering of these entries (NaN is the only value
      written `null`, and strings are quoted). */
  function JsonKey(row: Row): (key: Row)
    ensures |key| <= |row|
    ensures forall i :: 0 <= i < |key| ==> key[i].value != Undefined
  {
    if row == [] then []
    else if row[0].value == Undefined then JsonKey(row[1..])
    else [row[0]] + JsonKey(row[1..])
  }

  /** A key the row does not have is absent from its JSON text too. */
  lemma {:induction false} JsonKeyMissing(row: Row, k: string)
    requires k !in Keys(row)
    ensures Field(JsonKey(row), k) == Undefined
  {
    if row != [] {
      assert Keys(row) == [row[0].key] + Keys(row[1..]);
      JsonKeyMissing(row[1..], k);
    }
  }

  /** Every column of a row can be read back from its JSON key: a property present with
      value `undefined` and a missing property both read `undefined`. */
  lemma {:induction false} JsonKeyField(row: Row, k: string)
    requires DistinctKeys(row)
    ensures Field(JsonKey(row), k) == Field(row, k)
  {
    if row != [] {
      assert DistinctKeys(row[1..]);
      JsonKeyField(row[1..], k);
      if row[0].key == k {
        assert Keys(row) == [row[0].key] + Keys(row[1..]);
        assert k !in Keys(row[1..]);
        JsonKeyMissing(row[1..], k);
      }
    }
  }

  /** In a row without repeated keys, the `i`-th entry is the one a lookup of its key finds. */
  lemma {:induction false} GetAt<V>(d: seq<Entry<V>>, i: int)
    requires DistinctKeys(d) && 0 <= i < |d|
    ensures Get(d, d[i].key) == Some(d[i].value)
  {
    if i > 0 {
      assert d[0].key != d[i].key;
      assert DistinctKeys(d[1..]);
      assert d[1..][i - 1] == d[i];
      GetAt(d[1..], i - 1);
    }
  }

  /** The key covers every column: of two rows with the same columns in the same order,
      the JSON keys agree exactly when the rows are equal. */
  lemma JsonKeyExact(a: Row, b: Row)
    requires DistinctKeys(a) && Keys(a) == Keys(b)
    ensures JsonKey(a) == JsonKey(b) <==> a == b
  {
    if JsonKey(a) == JsonKey(b) {
      assert DistinctKeys(b) by {
        assert forall i :: 0 <= i < |b| ==> b[i].key == Keys(a)[i];
      }
      forall i | 0 <= i < |a|
        ensures a[i] == b[i]
      {
        assert a[i].key == Keys(a)[i] == b[i].key;
        GetAt(a, i);
        GetAt(b, i);
        JsonKeyField(a, a[i].key);
        JsonKeyField(b, a[i].key);
        assert Field(a, a[i].key) == a[i].value;
      }
    }
  }

  /** Rows with equal JSON keys read the same in every column. */
  lemma JsonKeyFields(a: Row, b: Row, k: string)
    requires DistinctKeys(a) && DistinctKeys(b) && JsonKey(a) == JsonKey(b)
    ensures Field(a, k) == Field(b, k)
  {
    JsonKeyField(a, k);
    JsonKeyField(b, k);
  }

  /** The verdict of each raw row, before the duplicate test. */
  function Verdicts(data: seq<Row>, p: Platform): (vs: seq<Verdict>)
    ensures |vs| == |data|
  {
    if data == [] then [] else Verdicts(data[..|data| - 1], p) + [Normalize(data[|data| - 1], p)]
  }

  /** Verdict `i` is the verdict of raw row `i`. */
  lemma {:induction false} VerdictAt(data: seq<Row>, p: Platform, i: int)
    requires 0 <= i < |data|
    ensures Verdicts(data, p)[i] == Normalize(data[i], p)
  {
    if i < |data| - 1 {
      VerdictAt(data[..|data| - 1], p, i);
    }
  }

  /** The filter callback on raw row `i`, as a step of the pass. */
  method NormalizeAt(data: seq<Row>, p: Platform, i: int) returns (v: Verdict)
    requires 0 <= i < |data|
    ensures v == Verdicts(data, p)[i]
  {
    v := NormalizeRow(data[i], p);
    VerdictAt(data, p, i);
  }

  /** Verdict `i` is kept by the pass: it keeps a row and no earlier verdict kept a row
      with the same JSON key. This is the first-occurrence rule, stated without the `Set`. */
  predicate FirstOfKey(vs: seq<Verdict>, i: int)
    requires 0 <= i < |vs|
  {
    && vs[i].Keep?
    && forall j :: 0 <= j < i ==> !(vs[j].Keep? && JsonKey(vs[j].row) == JsonKey(vs[i].row))
  }

  /** The rows the pass keeps among the first `n` verdicts, in order. */
  function Cleaned(vs: seq<Verdict>, n: nat): (out: seq<Row>)
    requires n <= |vs|
    ensures |out| <= n
  {
    if n == 0 then []
    else Cleaned(vs, n - 1) + (if FirstOfKey(vs, n - 1) then [vs[n - 1].row] else [])
  }

  /** The raw positions of the rows `Cleaned` keeps. */
  function CleanedIndices(vs: seq<Verdict>, n: nat): (idx: seq<int>)
    requires n <= |vs|
    ensures |idx| == |Cleaned(vs, n)|
  {
    if n == 0 then []
    else CleanedIndices(vs, n - 1) + (if FirstOfKey(vs, n - 1) then [n - 1] else [])
  }

  /** The keys of the rows kept so far: the contents of `vistos` after `n` rows. */
  function SeenKeys(vs: seq<Verdict>, n: nat): set<Row>
    requires n <= |vs|
  {
    set j | 0 <= j < n && vs[j].Keep? :: JsonKey(vs[j].row)
  }

  /** Some raw row makes the pass throw. */
  predicate SomeThrow(vs: seq<Verdict>) {
    exists i :: 0 <= i < |vs| && vs[i].Throw?
  }

  /** `limpiarDatos(data)`: the TypeError of any row that throws, or the kept rows. */
  function CleanSpec(data: seq<Row>, p: Platform): Outcome<seq<Row>> {
    var vs := Verdicts(data, p);
    if SomeThrow(vs) then Thrown(TypeError) else Completed(Cleaned(vs, |vs|))
  }

  /** One step of the pass: the seen set grows by the key of a kept row, and a row is kept
      exactly when its key was not seen. */
  lemma SeenStep(vs: seq<Verdict>, i: nat)
    requires i < |vs|
    ensures SeenKeys(vs, i + 1) == SeenKeys(vs, i) + (if vs[i].Keep? then {JsonKey(vs[i].row)} else {})
    ensures FirstOfKey(vs, i) <==> vs[i].Keep? && JsonKey(vs[i].row) !in SeenKeys(vs, i)
  {
    if vs[i].Keep? {
      assert JsonKey(vs[i].row) in SeenKeys(vs, i + 1);
    }
  }

  /** The filter pass with its `vistos` set, as the source runs it. */
  method Clean(data: seq<Row>, p: Platform) returns (result: Outcome<seq<Row>>)
    ensures result == CleanSpec(data, p)
  {
    ghost var vs := Verdicts(data, p);
    var seen: set<Row> := {};
    var kept: seq<Row> := [];
    for i := 0 to |data|
      invariant forall j :: 0 <= j < i ==> !vs[j].Throw?
      invariant kept == Cleaned(vs, i)
      invariant seen == SeenKeys(vs, i)
    {
      var v := NormalizeAt(data, p, i);
      SeenStep(vs, i);
      if v.Throw? {
        return Thrown(TypeError);
      }
      if v.Keep? {
        var key := JsonKey(v.row);
        if key !in seen {
          seen := seen + {key};
          kept := kept + [v.row];
        }
      }
    }
    return Completed(kept);
  }

  /** The cleaned rows are an order-preserving selection of the verdicts: position `k` of
      the output is the row of verdict `CleanedIndices(vs, n)[k]`, the positions strictly
      increase, and they are exactly the first occurrences among the first `n`. */
  lemma {:induction false} CleanedOrigin(vs: seq<Verdict>, n: nat)
    requires n <= |vs|
    ensures var out, idx := Cleaned(vs, n), CleanedIndices(vs, n);
      && |idx| == |out|
      && (forall k :: 0 <= k < |idx| ==> 0 <= idx[k] < n && FirstOfKey(vs, idx[k]) && vs[idx[k]].row == out[k])
      && (forall k, l :: 0 <= k < l < |idx| ==> idx[k] < idx[l])
      && (forall i :: 0 <= i < n && FirstOfKey(vs, i) ==> i in idx)
  {
    if n > 0 {
      CleanedOrigin(vs, n - 1);
    }
  }

  /** No two cleaned rows have the same JSON key. */
  lemma CleanedUnique(vs: seq<Verdict>, n: nat)
    requires n <= |vs|
    ensures var out := Cleaned(vs, n);
      forall k, l :: 0 <= k < l < |out| ==> JsonKey(out[k]) != JsonKey(out[l])
  {
    CleanedOrigin(vs, n);
    var out, idx := Cleaned(vs, n), CleanedIndices(vs, n);
    forall k, l | 0 <= k < l < |out|
      ensures JsonKey(out[k]) != JsonKey(out[l])
    {
      assert FirstOfKey(vs, idx[l]) && idx[k] < idx[l];
      assert vs[idx[k]].Keep?;
    }
  }

  /** The earliest verdict at or before `i` that keeps a row with the key of verdict `i`. */
  lemma {:induction false} EarliestWithKey(vs: seq<Verdict>, i: int) returns (j: int)
    requires 0 <= i < |vs| && vs[i].Keep?
    ensures 0 <= j <= i && FirstOfKey(vs, j) && JsonKey(vs[j].row) == JsonKey(vs[i].row)
    decreases i
  {
    if FirstOfKey(vs, i) {
      j := i;
    } else {
      var e :| 0 <= e < i && vs[e].Keep? && JsonKey(vs[e].row) == JsonKey(vs[i].row);
      j := EarliestWithKey(vs, e);
    }
  }

  /** Every key of a row that passes the rules among the first `n` is the key of a cleaned
      row, and that cleaned row comes from the earliest raw row with that key. */
  lemma CleanedCovers(vs: seq<Verdict>, n: nat, i: int)
    requires n <= |vs| && 0 <= i < n && vs[i].Keep?
    ensures exists k :: 0 <= k < |Cleaned(vs, n)| && JsonKey(Cleaned(vs, n)[k]) == JsonKey(vs[i].row)
              && CleanedIndices(vs, n)[k] <= i
              && forall j :: 0 <= j < CleanedIndices(vs, n)[k] ==> !(vs[j].Keep? && JsonKey(vs[j].row) == JsonKey(vs[i].row))
  {
    CleanedOrigin(vs, n);
    var idx := CleanedIndices(vs, n);
    var j := EarliestWithKey(vs, i);
    var k :| 0 <= k < |idx| && idx[k] == j;
    assert JsonKey(Cleaned(vs, n)[k]) == JsonKey(vs[i].row);
  }

  /** `idx` lists, in increasing order, one raw position per row of `out`, and the rules
      keep the raw row at that position as that row of `out`. */
  predicate Selection(data: seq<Row>, p: Platform, out: seq<Row>, idx: seq<int>) {
    && |idx| == |out|
    && (forall k, l :: 0 <= k < l < |idx| ==> idx[k] < idx[l])
    && (forall k :: 0 <= k < |idx| ==> 0 <= idx[k] < |data| && Normalize(data[idx[k]], p) == Keep(out[k]))
  }

  /** When the pass completes, its output is an order-preserving selection of the raw
      rows, each the kept rewriting of its raw row. */
  lemma CleanSelects(data: seq<Row>, p: Platform)
    requires CleanSpec(data, p).Completed?
    ensures var out := CleanSpec(data, p).value;
      && |out| <= |data|
      && exists idx: seq<int> :: Selection(data, p, out, idx)
  {
    var vs := Verdicts(data, p);
    var out, idx := Cleaned(vs, |vs|), CleanedIndices(vs, |vs|);
    assert CleanSpec(data, p).value == out;
    CleanedOrigin(vs, |vs|);
    assert forall k :: 0 <= k < |idx| ==> 0 <= idx[k] < |data| && vs[idx[k]] == Keep(out[k]);
    KeptVerdicts(data, p, idx, out);
    assert Selection(data, p, out, idx);
  }

  /** Verdicts that keep a row are the verdicts of the rules on the raw row. */
  lemma KeptVerdicts(data: seq<Row>, p: Platform, idx: seq<int>, out: seq<Row>)
    requires |idx| == |out|
    requires forall k :: 0 <= k < |idx| ==> 0 <= idx[k] < |data| && Verdicts(data, p)[idx[k]] == Keep(out[k])
    ensures forall k :: 0 <= k < |idx| ==> Normalize(data[idx[k]], p) == Keep(out[k])
  {
    forall k | 0 <= k < |idx|
      ensures Normalize(data[idx[k]], p) == Keep(out[k])
    {
      VerdictAt(data, p, idx[k]);
    }
  }

  /** When the pass completes, every output row is in normal form. */
  lemma CleanNormal(data: seq<Row>, p: Platform)
    requires CleanSpec(data, p).Completed?
    ensures forall k :: 0 <= k < |CleanSpec(data, p).value| ==> NormalForm(CleanSpec(data, p).value[k], p)
  {
    var vs := Verdicts(data, p);
    var out, idx := Cleaned(vs, |vs|), CleanedIndices(vs, |vs|);
    CleanedOrigin(vs, |vs|);
    forall k | 0 <= k < |out|
      ensures NormalForm(out[k], p)
    {
      VerdictAt(data, p, idx[k]);
      NormalizeKeeps(data[idx[k]], p);
    }
  }

  /** The pass completes exactly when no raw row throws. */
  lemma CleanThrows(data: seq<Row>, p: Platform)
    ensures CleanSpec(data, p).Thrown? <==> exists i :: 0 <= i < |data| && Throws(data[i], p)
  {
    var vs := Verdicts(data, p);
    if exists i :: 0 <= i < |data| && Throws(data[i], p) {
      var i :| 0 <= i < |data| && Throws(data[i], p);
      NormalizeThrows(data[i], p);
      VerdictAt(data, p, i);
    }
    if SomeThrow(vs) {
      var i :| 0 <= i < |vs| && vs[i].Throw?;
      NormalizeThrows(data[i], p);
      VerdictAt(data, p, i);
    }
  }

  /** When the pass completes, no two output rows have the same JSON key. */
  lemma CleanUnique(data: seq<Row>, p: Platform)
    requires CleanSpec(data, p).Completed?
    ensures var out := CleanSpec(data, p).value;
      forall k, l :: 0 <= k < l < |out| ==> JsonKey(out[k]) != JsonKey(out[l])
  {
    var vs := Verdicts(data, p);
    var out := Cleaned(vs, |vs|);
    assert CleanSpec(data, p).value == out;
    CleanedUnique(vs, |vs|);
    forall k, l | 0 <= k < l < |out|
      ensures JsonKey(out[k]) != JsonKey(out[l])
    {
      assert 0 <= k < l < |Cleaned(vs, |vs|)|;
      assert JsonKey(Cleaned(vs, |vs|)[k]) != JsonKey(Cleaned(vs, |vs|)[l]);
    }
  }

  /** When the pass completes, every raw row the rules keep has its JSON key among the
      output rows, carried by the rewriting of the earliest raw row with that key. */
  lemma CleanKeepsFirst(data: seq<Row>, p: Platform, i: int)
    requires CleanSpec(data, p).Completed? && 0 <= i < |data| && Normalize(data[i], p).Keep?
    ensures var out := CleanSpec(data, p).value;
      exists k :: 0 <= k < |out| && JsonKey(out[k]) == JsonKey(Normalize(data[i], p).row)
        && EarliestWithKeyOf(data, p, out[k])
  {
    var vs := Verdicts(data, p);
    var out := Cleaned(vs, |vs|);
    assert CleanSpec(data, p).value == out;
    VerdictAt(data, p, i);
    var j := EarliestWithKey(vs, i);
    var k := CleanedHas(vs, |vs|, j);
    FirstKeptAt(data, p, j);
    VerdictAt(data, p, j);
    assert KeptFirstAt(data, p, j, out[k]);
  }

  /** A first occurrence among the first `n` verdicts is one of the cleaned rows. */
  lemma {:induction false} CleanedHas(vs: seq<Verdict>, n: nat, j: int) returns (k: int)
    requires n <= |vs| && 0 <= j < n && FirstOfKey(vs, j)
    ensures 0 <= k < |Cleaned(vs, n)| && Cleaned(vs, n)[k] == vs[j].row
  {
    if j == n - 1 {
      k := |Cleaned(vs, n - 1)|;
    } else {
      k := CleanedHas(vs, n - 1, j);
    }
  }

  /** Raw row `j` is kept by the rules as `row`, and no earlier raw row is kept with the
      same JSON key. */
  predicate KeptFirstAt(data: seq<Row>, p: Platform, j: int, row: Row) {
    && 0 <= j < |data| && Normalize(data[j], p) == Keep(row)
    && forall e :: 0 <= e < j ==> !(Normalize(data[e], p).Keep? && JsonKey(Normalize(data[e], p).row) == JsonKey(row))
  }

  /** `row` is what the rules make of the earliest raw row kept with its JSON key. */
  ghost predicate EarliestWithKeyOf(data: seq<Row>, p: Platform, row: Row) {
    exists j :: KeptFirstAt(data, p, j, row)
  }

  /** A first occurrence among the verdicts is a first occurrence among the raw rows. */
  lemma FirstKeptAt(data: seq<Row>, p: Platform, j: int)
    requires 0 <= j < |data| && FirstOfKey(Verdicts(data, p), j)
    ensures KeptFirstAt(data, p, j, Verdicts(data, p)[j].row)
  {
    var vs := Verdicts(data, p);
    VerdictAt(data, p, j);
    forall e | 0 <= e < j
      ensures !(Normalize(data[e], p).Keep? && JsonKey(Normalize(data[e], p).row) == JsonKey(vs[j].row))
    {
      VerdictAt(data, p, e);
    }
  }

  /** When every raw row has the same columns and none twice, as the parser's rows do, so
      do the output rows, and no two of them are equal. */
  lemma CleanDistinct(data: seq<Row>, p: Platform, columns: seq<string>)
    requires CleanSpec(data, p).Completed?
    requires forall i :: 0 <= i < |data| ==> DistinctKeys(data[i]) && Keys(data[i]) == columns
    ensures var out := CleanSpec(data, p).value;
      && (forall k :: 0 <= k < |out| ==> DistinctKeys(out[k]) && Keys(out[k]) == RewrittenKeys(columns))
      && (forall k, l :: 0 <= k < l < |out| ==> out[k] != out[l])
  {
    var vs := Verdicts(data, p);
    var out, idx := Cleaned(vs, |vs|), CleanedIndices(vs, |vs|);
    CleanedOrigin(vs, |vs|);
    CleanedUnique(vs, |vs|);
    forall k | 0 <= k < |out|
      ensures DistinctKeys(out[k]) && Keys(out[k]) == RewrittenKeys(columns)
    {
      VerdictAt(data, p, idx[k]);
      NormalizeKeeps(data[idx[k]], p);
    }
    forall k, l | 0 <= k < l < |out|
      ensures out[k] != out[l]
    {
      JsonKeyExact(out[k], out[l]);
    }
  }
}
