# Bi-Angel sales dashboard: a Dafny model of its data pipeline

The dashboard loads a CSV of restaurant sales (`ventas_raw.csv`) and runs one
JavaScript function over its text, `procesarCSV`. That function:

- parses the lines into row objects;
- cleans them (`limpiarDatos`):
  - a valid date becomes `YYYY-MM-DD`;
  - the product must be truthy, and is trimmed and lower-cased;
  - the time slot becomes `Desayuno` or `Comida`;
  - the family becomes one of `Bebida`, `Entrante`, `Principal`, `Postre`, or the row is dropped;
  - units and price are coerced to numbers and must not be `<= 0`;
  - the amount is recomputed as `+(units * price).toFixed(2)`;
  - a row whose JSON text was already seen is dropped;
- computes the two KPI totals: revenue and units;
- builds the three groupings that feed the charts: by product, by time slot, by family;
- picks the five best-selling products;
- prepares the cleaned rows as CSV text for download.

This project models that pipeline in Dafny and proves what it produces.

## Modules

- `Text` (`text.dfy`) holds the string built-ins the code calls:
  - `trim`;
  - `toLowerCase`;
  - `includes`;
  - `split` and `join` with a one-character separator.
- `Dates` (`dates.dfy`) holds `toISOString().split('T')[0]` on a valid date.
- `Js` (`js.dfy`) holds the JavaScript values involved:
  - numbers: NaN or an exact real;
  - `undefined`, strings and numbers as property values;
  - plain objects as ordered key/value lists, with lookup and assignment;
  - the TypeError;
  - the platform functions the code relies on but does not define. These are parameters: date parsing, `Number(string)`, `toFixed(2)` and `String(number)`.
- `Parser` (`parser.dfy`) holds the line parser of `procesarCSV`.
- `Cleaning` (`cleaning.dfy`) holds `limpiarDatos`:
  - each rule as a function;
  - the filter callback as methods that rewrite the row step by step;
  - the pass with its seen set as a method with loop invariants.
- `Aggregates` (`aggregates.dfy`) holds `calcularKPIs` and the dictionaries, sort and slice of `crearGraficos`. The `forEach` over the rows is a method with a loop.
- `Export` (`export.dfy`) holds the CSV text built in `prepararDescarga`.
- `Pipeline` (`pipeline.dfy`) holds `procesarCSV` end to end: a method and the function that specifies it.

### Where the code departs from the intended behaviour

The model follows the code. It reproduces these points where the code does not do what such a pipeline is normally expected to do.

- A non-numeric unit count or price becomes NaN, and `NaN <= 0` is false. Such a row is kept, with a NaN amount (`NaNPasses`). A NaN amount then makes the revenue NaN (`FiguresTotals`).
- Because of `|| 0`, a NaN in a category's running sum restarts that sum from zero (`NaNRestartsCategory`).
- Presence of the product is checked before trimming. So a product made only of spaces is kept as the empty string (`BlankProductKept`). The parser already trims every field, so this only arises for rows that do not come from the parser: a row parsed from the text and kept has a non-empty product (`ParsedProductsNonEmpty`).
- Some rows raise a TypeError instead of being rejected, once the date is valid and the product truthy (`Throws`, `TextRules`):
  - a missing time slot, at `undefined.includes` (app.js:54);
  - a numeric time slot, at `toLowerCase` (app.js:53);
  - a numeric family, at `toLowerCase` (app.js:57);
  - a truthy numeric product, at `trim` (app.js:50). A product of 0 or NaN is falsy and drops the row before that (app.js:49).

  The TypeError aborts the whole run (`CleanThrows`, `ReportCounts`).
- A missing family drops the row (`MissingFamilyDropped`).
- The time slot itself never causes a rejection (`SlotNeverRejects`).
- The duplicate test compares whole JSON texts, after the rewrites, over every column.
- With no cleaned rows, the download handler reads `Object.keys(undefined)` and throws (`ExportCsv`).

## Model

| member | source | states |
|---|---|---|
| Text.Trim | app.js:16 | the result is a slice of the input with only space characters cut off before and after it, it neither starts nor ends with a space, and a string already trimmed is returned unchanged |
| Text.TrimShape | app.js:16 | the cut made by removing leading then trailing spaces is such a slice, trimmed, and the identity on a trimmed string |
| Text.TrimIdempotent | app.js:50 | trimming twice is trimming once |
| Text.Lower | app.js:50 | same length, each character mapped by the lower-case mapping |
| Text.LowerKeepsTrimmed | app.js:50 | lower-casing a trimmed string leaves it trimmed |
| Text.Contains | app.js:54 | `includes` is true exactly when some position starts an occurrence of the substring |
| Text.Join | app.js:185-187 | `parts.join(sep)`: the pieces with one separator between neighbours; no pieces give the empty string |
| Text.Split | app.js:10-14 | at least one piece, and no piece contains the separator |
| Text.JoinSplit | app.js:10-14 | joining the pieces of a split gives the text back |
| Text.SplitJoin | app.js:185-187 | splitting a join of separator-free pieces gives the pieces back |
| Text.JoinAvoids | app.js:185-187 | a join of pieces free of a character (not the separator) is free of it |
| Dates.DigitsRoundTrip | app.js:46 | the zero-padded digits of a number below 10^w read back as that number |
| Dates.YearText | app.js:46 | the year as `toISOString` writes it: four digits for years 0 to 9999, otherwise a sign and six digits |
| Dates.DayText | app.js:46 | the day part of `toISOString`: year, month and day joined by `-` |
| Dates.TimeText | app.js:46 | the time part of `toISOString`: hours, minutes, seconds, milliseconds and `Z` |
| Dates.IsoString | app.js:46 | `toISOString()`: the day part, `T`, then the time part |
| Dates.CalendarDay | app.js:46 | `toISOString().split('T')[0]`: the first piece of the ISO text cut at `T` |
| Dates.CalendarDayIsDayText | app.js:46 | the part of the ISO text before the first `T` is the day part |
| Dates.CalendarDayText | app.js:44-46 | the stored date is a day text from which the date's year, month and day read back, ten characters long exactly for four-digit years |
| Js.Keys | app.js:185 | `Object.keys(d)`: the keys in entry order, one per entry |
| Js.Get | app.js:107-109 | the property read `d[k]` on an own entry: the value of the entry with key `k`, or nothing |
| Js.Field | app.js:44-67 | the property read `row.k`: the value stored under `k`, or `undefined` when the row has no such key |
| Js.Put | app.js:16 | after an assignment the key reads the new value and every other key reads what it read before |
| Js.PutKeys | app.js:16 | an assignment keeps an existing key in place and appends a new key at the end |
| Js.PutTwice | app.js:53-54 | a second assignment to a key overwrites the first in place |
| Js.PutDistinct | app.js:16 | assignment never duplicates a key |
| Js.KeyPresent | app.js:16 | a lookup succeeds exactly for the keys present |
| Js.FieldPut | app.js:46-70 | after `row[k] = v`, field `k` reads `v` and every other field is unchanged |
| Js.Add | app.js:86 | NaN absorbs; otherwise the sum of the two values |
| Js.OrZero | app.js:107-109 | `undefined` and NaN read as 0, a finite number as itself |
| Js.Truthy | app.js:49 | truthiness: `undefined`, the empty string, 0 and NaN are falsy, everything else truthy |
| Js.ToNumber | app.js:65-66 | `Number(v)`: `undefined` gives NaN, a number is itself, a string goes through the platform's number parsing |
| Js.AtMostZero | app.js:67 | `n <= 0`, false for NaN |
| Parser.DistinctNames | app.js:16 | the key order lists exactly the header names that occur, each once |
| Parser.DistinctOrder | app.js:16 | the names in the key order come in the order of their first appearance |
| Parser.Names | app.js:16 | `h.trim()` for every header: one name per header, each the trimmed header |
| Parser.FieldAt | app.js:16 | `valores[i]?.trim()`: the trimmed field at position `i`, or `undefined` past the end of the line |
| Parser.Cells | app.js:16 | `valores[i]?.trim()` for every header position `i`: one cell per header |
| Parser.BuildRow | app.js:15-17 | the built object has no repeated key, and its keys are the distinct names in order of first appearance |
| Parser.BuildRowValue | app.js:16 | a column's key holds its cell when no later column has the same name |
| Parser.BuildRowValues | app.js:16 | each key holds the cell of the last column with that name |
| Parser.BuildRowFrom | app.js:15-17 | every property of the built object reads one of the cells, or `undefined` |
| Parser.Lines | app.js:10 | the trimmed text has at least one line |
| Parser.Headers | app.js:11 | `filas[0].split(',')`: the first line cut at every comma, the pieces not yet trimmed |
| Parser.RowOf | app.js:13-17 | the `map` callback on data line `j`: the object built from the trimmed headers and the trimmed fields of that line |
| Parser.ParseCsv | app.js:9-18 | one row per line after the header line, each built from its line |
| Parser.ParsedValues | app.js:13-17 | every property of a parsed row reads `undefined` or a trimmed string |
| Parser.ParsedRows | app.js:11-18 | every row has exactly the trimmed headers as keys, each once, and under each key the trimmed field of the last header with that name, or `undefined` |
| Cleaning.DateTextForm | app.js:44-46 | a valid date is stored as `YYYY-MM-DD` (or `±YYYYYY-MM-DD`) |
| Cleaning.DateText | app.js:44-46 | `new Date(v)` then the day part of `toISOString`; `undefined` and Invalid Dates give no date |
| Cleaning.Classify | app.js:57-62 | a classified family is one of the four family names |
| Cleaning.ClassifyFirstMatch | app.js:57-62 | the family is rejected exactly when no needle occurs; otherwise the first needle that occurs, in the order `beb`, `entra`, `prin`, `post`, picks the family |
| Cleaning.SlotName | app.js:53-54 | the slot is `Desayuno` exactly when the lower-cased value contains `desa`, otherwise `Comida` |
| Cleaning.SlotNeverRejects | app.js:53-54 | two rows that differ only in a string time slot are kept or dropped alike |
| Cleaning.RewriteText | app.js:46-61 | the four text assignments set date, product, slot and family and leave every other field as it was |
| Cleaning.RewriteNumbers | app.js:65-70 | the three number assignments set units, price and amount and leave every other field as it was |
| Cleaning.Rewrite | app.js:46-70 | the seven assignments set the seven written columns and leave every other field as it was |
| Cleaning.RewriteKeys | app.js:46-70 | the keys of the rewritten row are the raw keys followed by the missing written columns, and stay distinct |
| Cleaning.RewriteTextNumbers | app.js:46-61 | the text assignments leave units and price untouched |
| Cleaning.TextRules | app.js:43-62 | a row the text rules keep has a valid date, a string product, slot and family, a recognised family, and is rewritten with the four derived values |
| Cleaning.TextRulesKeepNumbers | app.js:43-65 | the number rules read the raw units and price |
| Cleaning.NumberRules | app.js:65-70 | a row the number rules keep is rewritten with the coerced units and price and the recomputed amount |
| Cleaning.Amount | app.js:70 | `+(units * price).toFixed(2)`: NaN when either factor is NaN, otherwise the rounded product |
| Cleaning.Normalize | app.js:43-70 | the filter callback up to the duplicate test: the text rules on the raw row, then the number rules on the row they leave |
| Cleaning.NormalizeAccepts | app.js:42-70 | the callback keeps a row before the duplicate test exactly when it meets every rule |
| Cleaning.NormalizeThrows | app.js:44-57 | the callback throws exactly when the date is valid and the product truthy, but the product is not a string, the slot is not a string, or the family is a number |
| Cleaning.NormalizeKeeps | app.js:43-70 | a kept row is in normal form, each written field is derived from the raw row by its rule, every other field is untouched, and the keys stay distinct |
| Cleaning.MissingFamilyDropped | app.js:57-62 | a row with no family is never kept, and is dropped for its family once the earlier rules pass |
| Cleaning.NaNPasses | app.js:65-70 | a row whose units or price coerce to NaN is kept, with a NaN amount |
| Cleaning.BlankProductKept | app.js:49-50 | a row whose product is only spaces and which meets every other rule passes the presence test and is kept, its product stored as the empty string |
| Cleaning.KeptProductNonEmpty | app.js:49-50 | a kept row whose product was already trimmed keeps a non-empty product |
| Cleaning.NormalizeRow | app.js:43-70 | the step-by-step rewrite of one row gives the verdict of the rules |
| Cleaning.ApplyTextRules | app.js:43-62 | the in-order rewrite of date, product, slot and family gives the verdict of the text rules |
| Cleaning.ApplyNumberRules | app.js:65-70 | the in-order rewrite of units, price and amount gives the verdict of the number rules |
| Cleaning.JsonKey | app.js:73 | the JSON key keeps at most the row's entries and no `undefined` value |
| Cleaning.JsonKeyMissing | app.js:73 | a key the row lacks is absent from its JSON key |
| Cleaning.JsonKeyField | app.js:73 | every column of a row reads back from its JSON key |
| Cleaning.GetAt | app.js:73 | in a row without repeated keys, a lookup of an entry's key finds that entry |
| Cleaning.JsonKeyExact | app.js:73 | of two rows with the same columns, the JSON keys agree exactly when the rows are equal |
| Cleaning.JsonKeyFields | app.js:73 | rows with equal JSON keys read the same in every column |
| Cleaning.VerdictAt | app.js:42 | verdict `i` is the callback's verdict on raw row `i` |
| Cleaning.NormalizeAt | app.js:42 | the callback on raw row `i` gives verdict `i` |
| Cleaning.Cleaned | app.js:42-78 | the pass over `n` rows keeps at most `n` rows |
| Cleaning.CleanSpec | app.js:39-79 | `limpiarDatos(data)`: the TypeError when some row throws, otherwise the rows whose verdict keeps them and whose JSON key no earlier kept row has, in input order |
| Cleaning.SeenStep | app.js:73-75 | the seen set grows by the key of each kept row, and a row is kept exactly when its key was not seen |
| Cleaning.Clean | app.js:39-79 | the pass with its seen set returns the TypeError of a throwing row or the kept rows, as specified |
| Cleaning.CleanedOrigin | app.js:42-78 | the kept rows sit at strictly increasing raw positions, each is the first row with its key, and every first occurrence is kept |
| Cleaning.CleanedUnique | app.js:73-75 | no two kept rows have the same JSON key |
| Cleaning.EarliestWithKey | app.js:73-75 | every kept-by-the-rules verdict has an earliest verdict with its JSON key, at or before it |
| Cleaning.CleanedCovers | app.js:73-75 | every key of a row the rules keep is the key of an output row, and that row comes from the earliest raw row with that key |
| Cleaning.CleanSelects | app.js:39-79 | the output is no longer than the input and is an order-preserving selection of raw rows, each output row the rewritten raw row |
| Cleaning.KeptVerdicts | app.js:42 | verdicts that keep a row are the callback's verdicts on the raw rows |
| Cleaning.CleanNormal | app.js:39-79 | every output row is in normal form |
| Cleaning.CleanThrows | app.js:39-79 | the pass throws exactly when some raw row makes the callback throw |
| Cleaning.CleanUnique | app.js:73-77 | no two output rows have the same JSON key |
| Cleaning.CleanKeepsFirst | app.js:73-77 | the key of every raw row the rules keep is carried by an output row, which is the rewriting of the earliest raw row kept with that key |
| Cleaning.CleanedHas | app.js:73-77 | every first occurrence is among the kept rows |
| Cleaning.FirstKeptAt | app.js:73-77 | a first occurrence among the verdicts is a first occurrence among the raw rows |
| Cleaning.CleanDistinct | app.js:39-79 | for rows with the same distinct columns, the output rows have the rewritten columns, each once, and no two output rows are equal |
| Aggregates.TotalNaN | app.js:86-87 | a total is NaN exactly when one of its terms is NaN |
| Aggregates.TotalPositive | app.js:87 | over terms none of which is `<= 0`, the total is NaN, 0 for no terms, or positive |
| Aggregates.Amounts | app.js:86-87 | `r.importe` or `r.unidades` for every row: one number per row, the row's own |
| Aggregates.Total | app.js:86-87 | `reduce((sum, x) => sum + x, 0)` over the first `n` numbers, from the left |
| Aggregates.TotalRevenue | app.js:86 | `ventasTotales`: the total of the `importe` column |
| Aggregates.TotalUnits | app.js:87 | `unidadesTotales`: the total of the `unidades` column |
| Aggregates.PropertyKey | app.js:107-109 | `String(v)` as a property name: `undefined` and NaN by their names, a string as itself, a finite number by the platform's `String(x)` |
| Aggregates.KeysOf | app.js:107-109 | the property key of `r.producto`, `r.franja` or `r.familia` for every row: one key per row |
| Aggregates.Accumulate | app.js:107-109 | one `forEach` step: `dict[key] = (dict[key] \|\| 0) + amount` |
| Aggregates.Group | app.js:106-110 | the dictionary after the first `n` steps, row `i` adding its amount to its category |
| Aggregates.GroupBy | app.js:106-110 | `porProducto`, `porFranja` or `porFamilia`: the `importe` of the rows summed by their value in the column |
| Aggregates.AccumulateKeys | app.js:107-109 | an accumulation adds its key and keeps the others |
| Aggregates.AccumulateDistinct | app.js:107-109 | an accumulation never duplicates a key |
| Aggregates.AccumulateGet | app.js:107-109 | an accumulation adds the amount to its key's previous value (or to 0) and leaves every other key |
| Aggregates.GroupDistinct | app.js:102-110 | a grouping has no repeated key |
| Aggregates.GroupKeys | app.js:102-110 | the keys of a grouping are the category values that occur, each once, in the order of their first appearance among the rows |
| Aggregates.GroupByOrder | app.js:106-113 | the categories of a grouping, as `Object.entries` lists them, come in the order in which the rows first show them |
| Aggregates.GroupByKeys | app.js:102-110 | on a string column, a grouping has no repeated key and its keys are exactly the column's values |
| Aggregates.GroupValue | app.js:102-110 | with no NaN amount, each category holds the sum of the amounts of its rows |
| Aggregates.GetFinite | app.js:102-110 | a dictionary of finite numbers reads finite numbers |
| Aggregates.TotalPut | app.js:102-110 | assigning a finite value to a key changes the dictionary's total by the difference |
| Aggregates.AccumulateTotal | app.js:102-110 | adding an amount to a category adds it to the dictionary's total |
| Aggregates.GroupTotal | app.js:85-110 | with no NaN amount, the grouping is finite and its categories add up to the revenue |
| Aggregates.NaNRestartsCategory | app.js:107 | a NaN followed by 5 in one category leaves 5 in the grouping, while the revenue is NaN |
| Aggregates.Charts | app.js:102-110 | the `forEach` over the rows fills the three dictionaries with the groupings by product, slot and family |
| Aggregates.Before | app.js:114 | the comparator `b[1] - a[1]` puts `a` first exactly when its sum is larger; a NaN difference is a tie |
| Aggregates.Insert | app.js:114 | inserting one entry adds one to the length |
| Aggregates.SortDesc | app.js:114 | sorting keeps the length |
| Aggregates.InsertPermutes | app.js:114 | inserting an entry adds exactly that entry |
| Aggregates.SortDescPermutes | app.js:113-114 | the sorted entries are a permutation of the dictionary's entries |
| Aggregates.InsertSorted | app.js:114 | inserting a finite entry into a non-increasing list keeps it non-increasing |
| Aggregates.SortDescSorted | app.js:114 | over finite sums, the sorted entries are non-increasing |
| Aggregates.TiesAppend | app.js:114 | the entries with a given sum in a concatenation are those of each part, in order |
| Aggregates.TiesBelow | app.js:114 | a non-increasing list whose first sum is below a value has no entry with that value |
| Aggregates.SortedTail | app.js:114 | the tail of a non-increasing list is non-increasing |
| Aggregates.InsertTies | app.js:114 | an inserted entry goes after the entries with the same sum |
| Aggregates.SortDescStable | app.js:114 | the sort is stable: entries with equal sums keep their insertion order |
| Aggregates.TiesMembers | app.js:114 | the entries with a given sum are exactly the list's entries with that sum |
| Aggregates.TiesKeepOrder | app.js:114 | two entries with a given sum keep their order among the entries with that sum |
| Aggregates.TiesOrderOf | app.js:114 | the order among the entries with a given sum is their order in the list |
| Aggregates.SortDescOrder | app.js:113-114 | of two sorted entries with the same finite sum, the earlier one came earlier in the dictionary |
| Aggregates.TiesPrefix | app.js:115 | the entries with a given sum in a prefix are the first entries with that sum in the whole list |
| Aggregates.TopProducts | app.js:113-115 | the top list has five entries, or all entries when there are fewer |
| Aggregates.TopProductsBest | app.js:113-115 | over finite sums, each top entry is a product and its sum, the list is non-increasing, no product left out has a larger sum than one taken, top entries with equal sums keep their dictionary order, and the top entries with a given sum are the first ones with that sum in the dictionary |
| Aggregates.TopProductsOrder | app.js:106-115 | with no NaN amount, products with equal sums in the top five come in the order in which the rows first show them |
| Aggregates.PrefixSorted | app.js:115 | a prefix of a non-increasing list is non-increasing |
| Aggregates.PrefixBeats | app.js:115 | in a non-increasing list, an entry of a prefix is at least any entry after it |
| Export.ExportCsv | app.js:185-187 | the download fails exactly when there are no rows |
| Export.Texts | app.js:186 | `Object.values(r)` in property order, each value as `join` writes it |
| Export.Render | app.js:186 | how `join` writes a value: `undefined` as the empty string, NaN as `NaN`, a finite number by the platform's `String(x)`, a string as itself |
| Export.Line | app.js:186 | `Object.values(r).join(',')` |
| Export.RowLines | app.js:186 | one line per row, each the row's values joined by commas |
| Export.ExportLines | app.js:185-187 | with no line feed in the keys or values, the text has one header line and one line per row: the first row's keys, then each row's values |
| Export.ExportFields | app.js:186 | with no comma in the values, each row line splits back into its values in property order |
| Pipeline.CleanNumeric | app.js:23 | cleaned rows carry numbers in `importe` and `unidades` |
| Pipeline.Process | app.js:9-33 | the run computes the report of the text, as specified |
| Pipeline.ReportOf | app.js:9-33 | the run: parse, clean, and either the TypeError of the cleaning or the figures of the cleaned rows |
| Pipeline.Figures | app.js:22-32 | the row counts before and after, the two totals, the three groupings, the top five products and the download text |
| Pipeline.ReportCounts | app.js:9-27 | the run fails exactly when a raw row makes the cleaning throw; otherwise it shows one row per data line before cleaning and at most as many after |
| Pipeline.ParsedProductsNonEmpty | app.js:9-79 | every cleaned row of a parsed text has a non-empty product |
| Pipeline.NormalNumeric | app.js:23 | rows in normal form carry numbers in `importe` and `unidades` |
| Pipeline.FiguresTotals | app.js:85-115 | the revenue is NaN exactly when some amount is NaN; otherwise each grouping adds up to it and the top five products are ones with the largest sums; the units total is NaN, 0 with no rows, or positive |
| Pipeline.FiguresTopOrder | app.js:102-115 | when the revenue is a number, products with equal sums in the top five are listed in the order in which they are first sold among the cleaned rows |
| Pipeline.ProductsSoldFirst | app.js:107 | for rows in normal form, first appearance among the product keys is first appearance among the sales |
| Pipeline.FiguresCategories | app.js:102-110 | each grouping has no repeated key; the product categories are exactly the products of the rows, and the slot and family categories are among the two slot names and the four family names |
| Pipeline.ReportFigures | app.js:9-33 | the report of a run is the figures of rows in normal form |

## Left out

- Loading the file with `fetch` (app.js:5-7): its text is the input of `Process`.
- The DOM: the tables of `mostrarTabla`, the row counts and KPI texts written into the page, and the text formatting in `toFixed(2)` on the revenue (app.js:20-29, 89-93, 153-177). The model computes the values the page shows.
- The three Chart.js charts (app.js:117-146): the model computes their labels and data.
- The Blob, object URL and click of the download (app.js:189-197): the model computes the CSV text.
- Date parsing (`new Date(v)`), `Number(string)`, `toFixed(2)` and `String(number)`: these are parameters of the platform. The model states only what the code does with their results. It does model the ISO rendering of a valid date.
- IEEE double arithmetic: finite numbers are exact reals, with no rounding of sums or products. Infinities and negative zero are not modelled. The model restricts the platform's number parsing to NaN or a finite value, whereas `Number("Infinity")` and `Number("1e999")` give Infinity; such cells are outside the model.
- `toLowerCase` covers ASCII and Latin-1 capitals only; the rest of Unicode case mapping is not modelled.
- The rules rewrite the caller's row objects in place. A row dropped or rejected part-way keeps its earlier rewrites in `rawData`. Rows are modelled as values, so that aliasing is not captured; only the kept rows are observed afterwards.
- `JsonKey` models only what equality of the `JSON.stringify` texts decides, not the JSON text.
- Objects are modelled with their own keys in insertion order. JavaScript lists keys that look like array indices (`"2"`, `"1"`) first, in numeric order, and an assignment to `__proto__` creates no own key. Neither rule is modelled. So the model does not describe the program where such a key occurs: the key order and the missing `__proto__` key of parsed rows (`Parser.BuildRow`, `Parser.ParsedRows`) for such a header; the JSON key of the duplicate test (`Cleaning.JsonKey`); the header line of the download (app.js:185, `Export.ExportLines`); and the `Object.entries` order that feeds the stable sort (app.js:113, `Aggregates.GroupByOrder`, `Aggregates.TopProductsOrder`, `Pipeline.FiguresTopOrder`) for a product named like an index.
- Aggregates.PropertyKey: a non-string category value is a property name only through the platform's `String(number)`. Cleaned rows only have string categories.
- Aggregates.Accumulate: a dictionary read sees only the dictionary's own entries. In JavaScript `porProducto[k]` also finds the properties of `Object.prototype`: products are lower-cased, so the names that matter are `constructor` and `__proto__`. For a product named `constructor` the sum becomes a string, and for `__proto__` the assignment creates no entry. Products with such names are outside the model, and Aggregates.GroupTotal, Pipeline.FiguresTotals, Aggregates.TopProductsBest, Aggregates.TopProductsOrder and Pipeline.FiguresTopOrder do not describe the program for them.
- Aggregates.GroupBy, Aggregates.TotalRevenue, Aggregates.TotalUnits: require numeric `importe` and `unidades` columns, as cleaned rows have. The string concatenation `+` would perform on other values is not modelled.
- Aggregates.SortDesc: sorting is stated for finite sums. With a NaN sum, the order `Array.prototype.sort` gives is engine-defined; the model uses one stable insertion order.
- Export.ExportLines: assumes no key or value text contains a line feed, because the code does not escape them; Export.ExportFields assumes the same for commas.
