/** The figures computed from the cleaned rows: the two totals of `calcularKPIs`
    (app.js lines 85-87), and the three category sums and the top-five products of
    `crearGraficos` (app.js lines 102-115). The folds are stated over the column of
    amounts and the column of category keys the rows supply. */
module Aggregates {
  import opened Js
  import Parser

  /** Every row has a number in column `col`, as every cleaned row has in `importe` and
      `unidades`. */
  predicate NumericColumn(data: seq<Row>, col: string) {
    forall i :: 0 <= i < |data| ==> Field(data[i], col).Num?
  }

  /** `data.map(r => r[col])` for a numeric column. */
  function Amounts(data: seq<Row>, col: string): (xs: seq<Number>)
    requires NumericColumn(data, col)
    ensures |xs| == |data|
    ensures forall i :: 0 <= i < |data| ==> xs[i] == Field(data[i], col).n
  {
    seq(|data|, i requires 0 <= i < |data| && NumericColumn(data, col) => Field(data[i], col).n)
  }

  /** `xs.slice(0, n).reduce((sum, x) => sum + x, 0)`. */
  function Total(xs: seq<Number>, n: nat): Number
    requires n <= |xs|
  {
    if n == 0 then Fin(0.0) else Add(Total(xs, n - 1), xs[n - 1])
  }

  /** `ventasTotales`. */
  function TotalRevenue(data: seq<Row>): Number
    requires NumericColumn(data, "importe")
  {
    Total(Amounts(data, "importe"), |data|)
  }

  /** `unidadesTotales`. */
  function TotalUnits(data: seq<Row>): Number
    requires NumericColumn(data, "unidades")
  {
    Total(Amounts(data, "unidades"), |data|)
  }

  /** None of the first `n` amounts is NaN. */
  predicate NoNaN(xs: seq<Number>, n: nat)
    requires n <= |xs|
  {
    forall i :: 0 <= i < n ==> xs[i].Fin?
  }

  /** A sum is NaN exactly when one of its terms is. */
  lemma {:induction false} TotalNaN(xs: seq<Number>, n: nat)
    requires n <= |xs|
    ensures Total(xs, n).NaN? <==> !NoNaN(xs, n)
  {
    if n > 0 {
      TotalNaN(xs, n - 1);
    }
  }

  /** Amounts for which `<= 0` is false add up to NaN, to 0 when there are none, or to a
      positive total. */
  lemma {:induction false} TotalPositive(xs: seq<Number>, n: nat)
    requires n <= |xs|
    requires forall i :: 0 <= i < |xs| ==> !AtMostZero(xs[i])
    ensures var s := Total(xs, n);
      s.NaN? || (n == 0 && s == Fin(0.0)) || (n > 0 && s.r > 0.0)
  {
    if n > 0 {
      TotalPositive(xs, n - 1);
    }
  }

  /** The property key `String(v)` under which `obj[v]` stores a value. */
  function PropertyKey(v: Value, p: Platform): string {
    match v
    case Undefined => "undefined"
    case Str(s) => s
    case Num(NaN) => "NaN"
    case Num(Fin(r)) => p.numberText(r)
  }

  /** The category key of every row for column `col`. */
  function KeysOf(data: seq<Row>, col: string, p: Platform): (ks: seq<string>)
    ensures |ks| == |data|
    ensures forall i :: 0 <= i < |data| ==> ks[i] == PropertyKey(Field(data[i], col), p)
  {
    seq(|data|, i requires 0 <= i < |data| => PropertyKey(Field(data[i], col), p))
  }

  /** One step of the `forEach`: `dict[key] = (dict[key] || 0) + amount`. */
  function Accumulate(d: Dict, key: string, amount: Number): Dict {
    Put(d, key, Add(OrZero(Get(d, key)), amount))
  }

  /** The dictionary after the first `n` steps, row `i` adding `amounts[i]` to the
      category `keys[i]`. */
  function Group(keys: seq<string>, amounts: seq<Number>, n: nat): Dict
    requires n <= |keys| && n <= |amounts|
  {
    if n == 0 then [] else Accumulate(Group(keys, amounts, n - 1), keys[n - 1], amounts[n - 1])
  }

  /** `porProducto`, `porFranja` or `porFamilia`: the summed `importe` of the rows by their
      value in column `col`. */
  function GroupBy(data: seq<Row>, col: string, p: Platform): Dict
    requires NumericColumn(data, "importe")
  {
    Group(KeysOf(data, col, p), Amounts(data, "importe"), |data|)
  }

  /** One accumulation step adds its key if new. */
  lemma AccumulateKeys(d: Dict, key: string, a: Number)
    ensures forall k :: k in Keys(Accumulate(d, key, a)) <==> k in Keys(d) || k == key
  {
    PutKeys(d, key, Add(OrZero(Get(d, key)), a));
  }

  /** One accumulation step keeps the keys distinct. */
  lemma AccumulateDistinct(d: Dict, key: string, a: Number)
    requires DistinctKeys(d)
    ensures DistinctKeys(Accumulate(d, key, a))
  {
    PutDistinct(d, key, Add(OrZero(Get(d, key)), a));
  }

  /** One accumulation step adds its amount to its own key and leaves the others. */
  lemma AccumulateGet(d: Dict, key: string, a: Number, k: string)
    ensures Get(Accumulate(d, key, a), k) == if k == key then Some(Add(OrZero(Get(d, key)), a)) else Get(d, k)
  {
  }

  /** No category appears twice. */
  lemma {:induction false} GroupDistinct(keys: seq<string>, amounts: seq<Number>, n: nat)
    requires n <= |keys| && n <= |amounts|
    ensures DistinctKeys(Group(keys, amounts, n))
  {
    if n > 0 {
      GroupDistinct(keys, amounts, n - 1);
      AccumulateDistinct(Group(keys, amounts, n - 1), keys[n - 1], amounts[n - 1]);
    }
  }

  /** The categories are exactly the keys of the rows seen, in the order of their first
      appearance among the rows. */
  lemma {:induction false} GroupKeys(keys: seq<string>, amounts: seq<Number>, n: nat)
    requires n <= |keys| && n <= |amounts|
    ensures Keys(Group(keys, amounts, n)) == Parser.Distinct(keys, n)
    ensures forall k :: k in Keys(Group(keys, amounts, n)) <==> k in keys[..n]
  {
    if n > 0 {
      GroupKeys(keys, amounts, n - 1);
      var d := Group(keys, amounts, n - 1);
      PutKeys(d, keys[n - 1], Add(OrZero(Get(d, keys[n - 1])), amounts[n - 1]));
    }
    Parser.DistinctNames(keys, n);
  }

  /** When every row has a string in column `col`, the grouping has one category per
      string that occurs there, each once. */
  lemma GroupByKeys(data: seq<Row>, col: string, p: Platform)
    requires NumericColumn(data, "importe")
    requires forall i :: 0 <= i < |data| ==> Field(data[i], col).Str?
    ensures DistinctKeys(GroupBy(data, col, p))
    ensures forall k :: k in Keys(GroupBy(data, col, p)) <==>
      exists i :: 0 <= i < |data| && Field(data[i], col) == Str(k)
  {
    var keys, amounts := KeysOf(data, col, p), Amounts(data, "importe");
    GroupDistinct(keys, amounts, |data|);
    GroupKeys(keys, amounts, |data|);
    assert keys[..|data|] == keys;
    forall k
      ensures k in keys <==> exists i :: 0 <= i < |data| && Field(data[i], col) == Str(k)
    {
      if k in keys {
        var i :| 0 <= i < |data| && keys[i] == k;
        assert Field(data[i], col) == Str(k);
      }
      if i :| 0 <= i < |data| && Field(data[i], col) == Str(k) {
        assert keys[i] == k;
      }
    }
  }

  /** The categories of a grouping come in the order in which the rows first show them. */
  lemma GroupByOrder(data: seq<Row>, col: string, p: Platform)
    requires NumericColumn(data, "importe")
    ensures Keys(GroupBy(data, col, p)) == Parser.Distinct(KeysOf(data, col, p), |data|)
    ensures forall a, b :: 0 <= a < b < |GroupBy(data, col, p)| ==>
      Parser.FirstBefore(KeysOf(data, col, p), |data|, GroupBy(data, col, p)[a].key, GroupBy(data, col, p)[b].key)
  {
    var keys := KeysOf(data, col, p);
    GroupKeys(keys, Amounts(data, "importe"), |data|);
    Parser.DistinctOrder(keys, |data|);
  }

  /** Without NaN amounts, products with equal sums in the top five come in the order in
      which the rows first show them. */
  lemma TopProductsOrder(data: seq<Row>, p: Platform)
    requires NumericColumn(data, "importe") && NoNaN(Amounts(data, "importe"), |data|)
    ensures var top := TopProducts(GroupBy(data, "producto", p));
      forall i, j :: 0 <= i < j < |top| && top[i].value == top[j].value ==>
        Parser.FirstBefore(KeysOf(data, "producto", p), |data|, top[i].key, top[j].key)
  {
    var d := GroupBy(data, "producto", p);
    var top := TopProducts(d);
    GroupTotal(KeysOf(data, "producto", p), Amounts(data, "importe"), |data|);
    TopProductsBest(d);
    GroupByOrder(data, "producto", p);
    forall i, j | 0 <= i < j < |top| && top[i].value == top[j].value
      ensures Parser.FirstBefore(KeysOf(data, "producto", p), |data|, top[i].key, top[j].key)
    {
      assert Precedes(d, top[i], top[j]);
      var a, b :| 0 <= a < b < |d| && d[a] == top[i] && d[b] == top[j];
    }
  }

  /** The sum of the amounts of the first `n` rows whose key is `k`: the reference value
      of one category. */
  function SumWhere(keys: seq<string>, amounts: seq<Number>, k: string, n: nat): Number
    requires n <= |keys| && n <= |amounts|
  {
    if n == 0 then Fin(0.0)
    else if keys[n - 1] == k then Add(SumWhere(keys, amounts, k, n - 1), amounts[n - 1])
    else SumWhere(keys, amounts, k, n - 1)
  }

  /** Without NaN amounts, each category holds the sum of the amounts of its rows, and
      a key no row has is absent. */
  lemma {:induction false} GroupValue(keys: seq<string>, amounts: seq<Number>, k: string, n: nat)
    requires n <= |keys| && n <= |amounts| && NoNaN(amounts, n)
    ensures OrZero(Get(Group(keys, amounts, n), k)) == SumWhere(keys, amounts, k, n)
    ensures Get(Group(keys, amounts, n), k).Some? ==> Get(Group(keys, amounts, n), k).value.Fin?
  {
    if n > 0 {
      GroupValue(keys, amounts, k, n - 1);
      AccumulateGet(Group(keys, amounts, n - 1), keys[n - 1], amounts[n - 1], k);
    }
  }

  /** Every amount in the dictionary is a number distinct from NaN. */
  predicate AllFinite(d: Dict) {
    forall i :: 0 <= i < |d| ==> d[i].value.Fin?
  }

  /** The sum of the amounts of a dictionary without NaN. */
  function RealTotal(d: Dict): real
    requires AllFinite(d)
  {
    if d == [] then 0.0 else d[0].value.r + RealTotal(d[1..])
  }

  /** The value a lookup contributes to a total: the number present, or nothing. */
  function Present(x: Option<Number>): real {
    if x.Some? && x.value.Fin? then x.value.r else 0.0
  }

  /** Lookups in a dictionary without NaN find numbers distinct from NaN. */
  lemma {:induction false} GetFinite(d: Dict, k: string)
    requires AllFinite(d)
    ensures Get(d, k).Some? ==> Get(d, k).value.Fin?
  {
    if d != [] && d[0].key != k {
      GetFinite(d[1..], k);
    }
  }

  /** Assigning `v` to key `k` changes the total by `v` minus what `k` held. */
  lemma {:induction false} TotalPut(d: Dict, k: string, v: real)
    requires AllFinite(d)
    ensures AllFinite(Put(d, k, Fin(v)))
    ensures RealTotal(Put(d, k, Fin(v))) == RealTotal(d) - Present(Get(d, k)) + v
  {
    if d != [] && d[0].key != k {
      TotalPut(d[1..], k, v);
      var r := Put(d, k, Fin(v));
      assert r == [d[0]] + Put(d[1..], k, Fin(v));
      assert r[1..] == Put(d[1..], k, Fin(v));
    } else if d != [] {
      var r := Put(d, k, Fin(v));
      assert r[1..] == d[1..];
    }
  }

  /** One accumulation step adds its amount to the total. */
  lemma AccumulateTotal(d: Dict, key: string, a: real)
    requires AllFinite(d)
    ensures AllFinite(Accumulate(d, key, Fin(a)))
    ensures RealTotal(Accumulate(d, key, Fin(a))) == RealTotal(d) + a
  {
    GetFinite(d, key);
    assert OrZero(Get(d, key)) == Fin(Present(Get(d, key)));
    TotalPut(d, key, Present(Get(d, key)) + a);
  }

  /** Sum conservation: without NaN amounts, the categories add up to the total of the
      same amounts, whatever the keys. */
  lemma {:induction false} GroupTotal(keys: seq<string>, amounts: seq<Number>, n: nat)
    requires n <= |keys| && n <= |amounts| && NoNaN(amounts, n)
    ensures AllFinite(Group(keys, amounts, n))
    ensures Total(amounts, n) == Fin(RealTotal(Group(keys, amounts, n)))
  {
    if n > 0 {
      GroupTotal(keys, amounts, n - 1);
      var a := amounts[n - 1];
      assert a == Fin(a.r);
      AccumulateTotal(Group(keys, amounts, n - 1), keys[n - 1], a.r);
    }
  }

  /** Without the no-NaN condition conservation fails: `(NaN || 0)` restarts a category
      at 0, so after a NaN sale of bread and a sale of 5 the bread category holds 5 while
      the total is NaN. */
  lemma NaNRestartsCategory()
    ensures Group(["pan", "pan"], [NaN, Fin(5.0)], 2) == [Entry("pan", Fin(5.0))]
    ensures Total([NaN, Fin(5.0)], 2) == NaN
  {
    var keys, amounts := ["pan", "pan"], [NaN, Fin(5.0)];
    var g1 := Group(keys, amounts, 1);
    assert g1 == Accumulate([], "pan", NaN);
    assert g1 == [Entry("pan", NaN)];
    assert Group(keys, amounts, 2) == Accumulate(g1, "pan", Fin(5.0));
  }

  /** The `forEach` of `crearGraficos`: one pass over the rows that adds each `importe`
      to the category of its product, of its slot and of its family. */
  method Charts(data: seq<Row>, p: Platform) returns (byProduct: Dict, bySlot: Dict, byFamily: Dict)
    requires NumericColumn(data, "importe")
    ensures byProduct == GroupBy(data, "producto", p)
    ensures bySlot == GroupBy(data, "franja", p)
    ensures byFamily == GroupBy(data, "familia", p)
  {
    ghost var amounts := Amounts(data, "importe");
    ghost var products, slots, families := KeysOf(data, "producto", p), KeysOf(data, "franja", p), KeysOf(data, "familia", p);
    byProduct, bySlot, byFamily := [], [], [];
    for i := 0 to |data|
      invariant byProduct == Group(products, amounts, i)
      invariant bySlot == Group(slots, amounts, i)
      invariant byFamily == Group(families, amounts, i)
    {
      var r := data[i];
      var amount := Field(r, "importe").n;
      byProduct := Accumulate(byProduct, PropertyKey(Field(r, "producto"), p), amount);
      bySlot := Accumulate(bySlot, PropertyKey(Field(r, "franja"), p), amount);
      byFamily := Accumulate(byFamily, PropertyKey(Field(r, "familia"), p), amount);
    }
  }

  /** The comparator `(a, b) => b[1] - a[1]` puts `a` first exactly when the difference is
      negative; a NaN difference counts as a tie. */
  predicate Before(a: Entry<Number>, b: Entry<Number>) {
    a.value.Fin? && b.value.Fin? && a.value.r > b.value.r
  }

  /** Places `e` after every entry it does not precede, so that ties keep their order. */
  function Insert(e: Entry<Number>, s: Dict): (r: Dict)
    ensures |r| == |s| + 1
  {
    if s == [] then [e]
    else if Before(e, s[0]) then [e] + s
    else [s[0]] + Insert(e, s[1..])
  }

  /** `entries.sort(compare)`: a stable sort, here by insertion from the left. */
  function SortDesc(d: Dict): (r: Dict)
    ensures |r| == |d|
  {
    if d == [] then [] else Insert(d[|d| - 1], SortDesc(d[..|d| - 1]))
  }

  /** Insertion adds exactly the inserted entry. */
  lemma {:induction false} InsertPermutes(e: Entry<Number>, s: Dict)
    ensures multiset(Insert(e, s)) == multiset(s) + multiset{e}
  {
    if s != [] && !Before(e, s[0]) {
      InsertPermutes(e, s[1..]);
      assert s == [s[0]] + s[1..];
    }
  }

  /** The sort rearranges the entries: it neither adds, drops nor repeats one. */
  lemma {:induction false} SortDescPermutes(d: Dict)
    ensures multiset(SortDesc(d)) == multiset(d)
  {
    if d != [] {
      SortDescPermutes(d[..|d| - 1]);
      InsertPermutes(d[|d| - 1], SortDesc(d[..|d| - 1]));
      assert d == d[..|d| - 1] + [d[|d| - 1]];
    }
  }

  /** Amounts never increase along `s`. */
  predicate NonIncreasing(s: Dict)
    requires AllFinite(s)
  {
    forall i, j :: 0 <= i < j < |s| ==> s[i].value.r >= s[j].value.r
  }

  predicate Finite(e: Entry<Number>) {
    e.value.Fin?
  }

  /** Inserting an amount into a list sorted by amount keeps it sorted. */
  lemma {:induction false} InsertSorted(e: Entry<Number>, s: Dict)
    requires Finite(e) && AllFinite(s) && NonIncreasing(s)
    ensures AllFinite(Insert(e, s)) && NonIncreasing(Insert(e, s))
  {
    if s != [] && !Before(e, s[0]) {
      InsertSorted(e, s[1..]);
      var r := Insert(e, s);
      var t := Insert(e, s[1..]);
      assert r == [s[0]] + t;
      InsertPermutes(e, s[1..]);
      forall j | 0 < j < |r|
        ensures r[0].value.r >= r[j].value.r
      {
        assert r[j] == t[j - 1];
        assert t[j - 1] in multiset(t);
        if t[j - 1] != e {
          assert t[j - 1] in multiset(s[1..]);
          var m :| 0 <= m < |s[1..]| && s[1..][m] == t[j - 1];
          assert s[m + 1] == t[j - 1];
        }
      }
    }
  }

  /** Without NaN the sorted entries run from the largest amount down. */
  lemma {:induction false} SortDescSorted(d: Dict)
    requires AllFinite(d)
    ensures AllFinite(SortDesc(d)) && NonIncreasing(SortDesc(d))
  {
    if d != [] {
      SortDescSorted(d[..|d| - 1]);
      InsertSorted(d[|d| - 1], SortDesc(d[..|d| - 1]));
    }
  }

  /** `[e]` when `e` has amount `v`, otherwise nothing. */
  function TieOf(e: Entry<Number>, v: Number): Dict {
    if e.value == v then [e] else []
  }

  /** The entries of `s` whose amount is `v`, in order. */
  function Ties(s: Dict, v: Number): Dict {
    if s == [] then [] else TieOf(s[0], v) + Ties(s[1..], v)
  }

  lemma {:induction false} TiesAppend(a: Dict, b: Dict, v: Number)
    ensures Ties(a + b, v) == Ties(a, v) + Ties(b, v)
  {
    if a == [] {
      assert a + b == b;
    } else {
      var ab := a + b;
      assert ab[0] == a[0] && ab[1..] == a[1..] + b;
      TiesAppend(a[1..], b, v);
    }
  }

  /** A sorted list whose largest amount is below `v` has no entry of amount `v`. */
  lemma {:induction false} TiesBelow(s: Dict, v: real)
    requires AllFinite(s) && NonIncreasing(s) && s != [] && s[0].value.r < v
    ensures Ties(s, Fin(v)) == []
  {
    assert TieOf(s[0], Fin(v)) == [];
    if |s| > 1 {
      SortedTail(s);
      assert s[1..][0] == s[1];
      TiesBelow(s[1..], v);
    }
  }

  /** The tail of a sorted list is sorted. */
  lemma SortedTail(s: Dict)
    requires AllFinite(s) && NonIncreasing(s) && s != []
    ensures AllFinite(s[1..]) && NonIncreasing(s[1..])
  {
    var t := s[1..];
    forall i, j | 0 <= i < j < |t|
      ensures t[i].value.r >= t[j].value.r
    {
      assert t[i] == s[i + 1] && t[j] == s[j + 1];
    }
  }

  /** Into a sorted list, `e` goes after every entry of its own amount. */
  lemma {:induction false} InsertTies(e: Entry<Number>, s: Dict, v: Number)
    requires Finite(e) && AllFinite(s) && NonIncreasing(s)
    ensures Ties(Insert(e, s), v) == Ties(s, v) + TieOf(e, v)
  {
    if s == [] {
      assert Insert(e, s) == [e];
      assert Ties([e], v) == TieOf(e, v) + Ties([], v);
    } else if Before(e, s[0]) {
      var r := Insert(e, s);
      assert r == [e] + s;
      assert r[0] == e && r[1..] == s;
      if e.value == v {
        TiesBelow(s, e.value.r);
      }
    } else {
      SortedTail(s);
      InsertTies(e, s[1..], v);
      var r := Insert(e, s);
      assert r == [s[0]] + Insert(e, s[1..]);
      assert r[0] == s[0] && r[1..] == Insert(e, s[1..]);
    }
  }

  /** The sort is stable: entries with the same amount keep their relative order. */
  lemma {:induction false} SortDescStable(d: Dict, v: Number)
    requires AllFinite(d)
    ensures Ties(SortDesc(d), v) == Ties(d, v)
  {
    if d != [] {
      var init := d[..|d| - 1];
      var last := d[|d| - 1];
      var sorted := SortDesc(init);
      assert Ties(sorted, v) == Ties(init, v) && AllFinite(sorted) && NonIncreasing(sorted) by {
        SortDescStable(init, v);
        SortDescSorted(init);
      }
      assert Ties(d, v) == Ties(init, v) + TieOf(last, v) by {
        assert d == init + [last];
        TiesAppend(init, [last], v);
        assert Ties([last], v) == TieOf(last, v) + Ties([], v);
      }
      assert SortDesc(d) == Insert(last, sorted);
      assert Ties(Insert(last, sorted), v) == Ties(sorted, v) + TieOf(last, v) by {
        InsertTies(last, sorted, v);
      }
    }
  }

  /** `x` sits before `y` in `s`. */
  predicate Precedes(s: Dict, x: Entry<Number>, y: Entry<Number>) {
    exists a, b :: 0 <= a < b < |s| && s[a] == x && s[b] == y
  }

  /** The entries of `s` with amount `v` are entries of `s`, and every entry of `s` with
      amount `v` is among them. */
  lemma {:induction false} TiesMembers(s: Dict, v: Number)
    ensures forall e :: e in Ties(s, v) <==> e in s && e.value == v
  {
    if s != [] {
      TiesMembers(s[1..], v);
      assert s == [s[0]] + s[1..];
    }
  }

  /** Two entries of amount `v` keep their order in the entries of amount `v`. */
  lemma {:induction false} TiesKeepOrder(s: Dict, v: Number, i: nat, j: nat)
    requires i < j < |s| && s[i].value == v && s[j].value == v
    ensures Precedes(Ties(s, v), s[i], s[j])
  {
    var t, head, rest := Ties(s, v), TieOf(s[0], v), Ties(s[1..], v);
    assert t == head + rest;
    if i == 0 {
      TiesMembers(s[1..], v);
      assert s[j] == s[1..][j - 1];
      var b :| 0 <= b < |rest| && rest[b] == s[j];
      assert t[0] == s[0] && t[b + 1] == s[j];
    } else {
      TiesKeepOrder(s[1..], v, i - 1, j - 1);
      var a, b :| 0 <= a < b < |rest| && rest[a] == s[1..][i - 1] && rest[b] == s[1..][j - 1];
      assert t[a + |head|] == s[i] && t[b + |head|] == s[j];
    }
  }

  /** The order among the entries of amount `v` is their order in `s`. */
  lemma {:induction false} TiesOrderOf(s: Dict, v: Number, x: Entry<Number>, y: Entry<Number>)
    requires Precedes(Ties(s, v), x, y)
    ensures Precedes(s, x, y)
  {
    var t, head, rest := Ties(s, v), TieOf(s[0], v), Ties(s[1..], v);
    assert t == head + rest;
    var a, b :| 0 <= a < b < |t| && t[a] == x && t[b] == y;
    if a < |head| {
      TiesMembers(s[1..], v);
      assert y == rest[b - 1] && y in s[1..];
      var m :| 0 <= m < |s[1..]| && s[1..][m] == y;
      assert s[0] == x && s[m + 1] == y;
    } else {
      assert rest[a - |head|] == x && rest[b - |head|] == y;
      TiesOrderOf(s[1..], v, x, y);
      var c, d :| 0 <= c < d < |s[1..]| && s[1..][c] == x && s[1..][d] == y;
      assert s[c + 1] == x && s[d + 1] == y;
    }
  }

  /** Stability by position: of two sorted entries with the same finite amount, the
      earlier one came earlier in the dictionary. */
  lemma SortDescOrder(d: Dict, i: nat, j: nat)
    requires AllFinite(d) && i < j < |SortDesc(d)| && SortDesc(d)[i].value == SortDesc(d)[j].value
    ensures Precedes(d, SortDesc(d)[i], SortDesc(d)[j])
  {
    var s, v := SortDesc(d), SortDesc(d)[i].value;
    TiesKeepOrder(s, v, i, j);
    SortDescStable(d, v);
    TiesOrderOf(d, v, s[i], s[j]);
  }

  /** The entries of amount `v` in a prefix are the first ones of the whole list. */
  lemma TiesPrefix(s: Dict, m: nat, v: Number)
    requires m <= |s|
    ensures Ties(s[..m], v) <= Ties(s, v)
  {
    assert s == s[..m] + s[m..];
    TiesAppend(s[..m], s[m..], v);
  }

  /** `Object.entries(porProducto).sort(...).slice(0, 5)`. */
  function TopProducts(d: Dict): (top: Dict)
    ensures |top| == if |d| < 5 then |d| else 5
  {
    var s := SortDesc(d);
    if |s| < 5 then s else s[..5]
  }

  /** The top five are entries of the grouping, at most five of them, with their amounts
      in decreasing order, and no entry left out has a larger amount than one kept. */
  lemma TopProductsBest(d: Dict)
    requires AllFinite(d)
    ensures forall e :: e in TopProducts(d) ==> e in d
    ensures AllFinite(TopProducts(d)) && NonIncreasing(TopProducts(d))
    ensures forall e, x :: e in d && e !in TopProducts(d) && x in TopProducts(d) ==>
      x.value.Fin? && e.value.Fin? && x.value.r >= e.value.r
    ensures forall i, j :: 0 <= i < j < |TopProducts(d)| && TopProducts(d)[i].value == TopProducts(d)[j].value ==>
      Precedes(d, TopProducts(d)[i], TopProducts(d)[j])
    ensures forall v :: Ties(TopProducts(d), v) <= Ties(d, v)
  {
    var s := SortDesc(d);
    SortDescSorted(d);
    SortDescPermutes(d);
    var top := TopProducts(d);
    assert top == s[..|top|];
    PrefixSorted(s, |top|);
    forall e | e in top
      ensures e in d
    {
      assert e in multiset(s);
    }
    forall e, x | e in d && e !in top && x in top
      ensures x.value.Fin? && e.value.Fin? && x.value.r >= e.value.r
    {
      assert e in multiset(s);
      PrefixBeats(s, |top|, e, x);
    }
    forall i, j | 0 <= i < j < |top| && top[i].value == top[j].value
      ensures Precedes(d, top[i], top[j])
    {
      SortDescOrder(d, i, j);
    }
    forall v
      ensures Ties(top, v) <= Ties(d, v)
    {
      TiesPrefix(s, |top|, v);
      SortDescStable(d, v);
    }
  }

  /** A prefix of a sorted list is sorted. */
  lemma PrefixSorted(s: Dict, m: nat)
    requires AllFinite(s) && NonIncreasing(s) && m <= |s|
    ensures AllFinite(s[..m]) && NonIncreasing(s[..m])
  {
  }

  /** In a sorted list, an entry outside a prefix has no larger amount than one inside. */
  lemma PrefixBeats(s: Dict, m: nat, e: Entry<Number>, x: Entry<Number>)
    requires AllFinite(s) && NonIncreasing(s) && m <= |s|
    requires e in s && e !in s[..m] && x in s[..m]
    ensures x.value.Fin? && e.value.Fin? && x.value.r >= e.value.r
  {
    var j :| 0 <= j < |s| && s[j] == e;
    var i :| 0 <= i < m && s[..m][i] == x;
  }
}
