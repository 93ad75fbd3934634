# Purchase-order generator, modelled in Dafny

This project models the non-UI logic of a small purchase-order generator. The generator is a Tkinter desktop application (`main.py`) with a back end (`backend.py`). It has five parts:

- **Size extraction** (`extract_base_name_and_size`) splits an order line's item name into a base product name and an optional size code. The size is recognised by two end-anchored patterns, `-` first, then `/`.
- **Order aggregation** (`load_orders`) folds the rows of an order export into a map from base name to size (or the `'N/A'` bucket) to a summed quantity.
- **Document composition** (`generate_pdf_po`) builds the text of the purchase order:
  - the company, vendor and ship-to line lists;
  - the logo slot and the date rows;
  - one block per selected product, each holding a size/quantity table that ends in a `TOTAL` row.
- **The saved-vendor registry** (`save_settings`, `on_vendor_selected`):
  - saving upserts the vendor form into the list of saved vendors;
  - selecting a saved vendor loads it back into the vendor form.
- **The product list and the output name** (`refresh_product_list`, `load_csv`, `generate_po`):
  - the products, sorted by name, each with its total;
  - the products picked from that list;
  - the default file name offered for the document.

The Dafny modules follow that split:

| module | file | what it holds |
|---|---|---|
| `Wrappers` | `wrappers.dfy` | `Option` and `Result` |
| `Text` | `text.dfy` | ASCII `str.strip()`, `\s`, `str.isalnum()`, `int()` and `str()` on decimal integers |
| `Ordering` | `ordering.dfy` | Python's string order, the `(rank, string)` key order, the items of a dictionary in key order, and `sum(d.values())` |
| `SizeExtraction` | `size_extraction.dfy` | the two patterns as a hand-written recogniser, the leftmost-match search, and `extract_base_name_and_size` |
| `Orders` | `orders.dfy` | the row filter, the fold, and the imperative row loop of `load_orders` |
| `PurchaseOrder` | `purchase_order.dfy` | contact blocks, size tables and the story of the document |
| `App` | `app.dfy` | the application class `POGenerator`, plus pure helpers: upsert, vendor selection, product listing and default file name |

Code that updates state step by step is modelled as methods with loops proved against a specifying function:

- the `load_orders` row loop;
- the size-table loop and the product loop of `generate_pdf_po`;
- the `save_settings` search with its `found` flag;
- the field-by-field copy of `on_vendor_selected`;
- the `refresh_product_list` loop;
- the selection loop of `generate_po`.

The application object is a class. Its methods modify only the fields the source changes.

Some consequences of the code are easy to miss; the model states each one:

- `A2` is not a size, because the size group admits only digits, `X`, `S`, `M` and `L`. So the rows `Gi - A2` keep their whole name as the base name and land in the no-size bucket (`Orders.UnsizedCodeExample`, `Orders.UnsizedCodeRow`).
- The no-size bucket is the string `'N/A'`. It is shown as `No Size` only in the size table.
- Sizes of equal length sort by code point, so `M` comes before `S` (`PurchaseOrder.SizeOrderExample`).
- Whitespace around the separator is optional: `Shirt-M` has the size `M`.
- `int()` accepts negative quantities, so bucket sums and totals can be negative.
- The no-size bucket is guaranteed to sort last only while every size is shorter than 999 characters. Its rank is 999, so a longer size ranks after it, and a size of exactly 999 characters is compared with `N/A` as a string (`PurchaseOrder.NoSizeLast` carries that precondition).
- `save_settings` upserts into the list that `self.settings` already holds. So the vendor list changes in memory even when writing the settings file fails. The rest of the settings and the vendor box change only after a successful write.

## Model

| member | source | states |
|---|---|---|
| Text.IsSpace | backend.py:27-28 | the whitespace of `\s` and `str.isspace()` on ASCII: code points 9-13, 28-31 and 32 |
| Text.IsAlnum | main.py:331 | `str.isalnum()` on ASCII: a decimal digit or an ASCII letter |
| Text.Strip | backend.py:52-53 | `str.strip()`: the input without its leading and trailing whitespace runs |
| Text.ParseInt | backend.py:59 | `int()` on stripped text: an optional `+` or `-`, then one or more decimal digits; anything else is the `ValueError` case |
| Text.IntToString | backend.py:270 | `str()` of an integer: `-` before a negative value, then its decimal digits without leading zeros |
| Text.StripPadded | backend.py:52-53 | `strip()` returns the input without its leading and trailing whitespace: it sits in the input right after the leading run and has no whitespace at either end |
| Text.StripUnique | backend.py:52-53 | whatever the offset, a trimmed string padded with whitespace strips back to itself, so `strip()` is determined by the padding |
| Text.StripIgnoresTrailingSpace | backend.py:35 | whitespace appended to a string does not change what `strip()` returns |
| Text.IntToStringRoundTrip | backend.py:270-273 | `int(str(n)) == n` for every integer, and `str(n)` has no whitespace at either end |
| Text.ParsedIsTrimmed | backend.py:53-59 | text that `int()` accepts is non-empty and is left alone by `strip()` |
| Ordering.LexLess | main.py:178 | Python's `<` on `str`: the first differing character decides by code point, and a proper prefix comes first |
| Ordering.KeyBefore | backend.py:263-266 | the order of the key tuples `(rank(s), s)`: the lower rank first, ties broken by string order |
| Ordering.SortedKeys | main.py:178 | the keys in increasing key order, taking the least remaining key each time |
| Ordering.Total | backend.py:272 | `sum(d.values())`, adding the values in key order |
| Ordering.KeyBeforeIrreflexive | backend.py:263-266 | no key comes before itself |
| Ordering.LexLessIrreflexive | main.py:178 | no string is less than itself in Python's string order |
| Ordering.LexLessAsymmetric | main.py:178 | string order is asymmetric |
| Ordering.LexLessTransitive | main.py:178 | string order is transitive |
| Ordering.LexLessTotal | main.py:178 | of two distinct strings one is less than the other |
| Ordering.KeyBeforeAsymmetric | backend.py:263-266 | the `(rank, string)` key order is asymmetric |
| Ordering.KeyBeforeTransitive | backend.py:263-266 | the key order is transitive |
| Ordering.KeyBeforeTotal | backend.py:263-266 | of two distinct strings one comes before the other in the key order |
| Ordering.LeastExists | backend.py:263-266 | every non-empty set of keys has a member that comes before all the others |
| Ordering.LeastIsLeast | backend.py:263-266 | `Least` picks that member, and it is the only one |
| Ordering.SortedKeysIncreasing | main.py:178 | the sorted keys are strictly increasing in the key order and contain every key |
| Ordering.SortedKeysUnique | main.py:178 | any strictly increasing listing of the keys is the sorted listing, so `sorted` has exactly one possible result |
| Ordering.SortedEntries | main.py:178 | `sorted(d.items(), key=...)` holds as many items as `d` has keys, each a key of `d` with its value |
| Ordering.SortedEntriesOrder | main.py:178 | the items are in strictly increasing key order, and every key of `d` is among them |
| Ordering.SumOverRemove | backend.py:272 | taking any one key out first gives the same sum, so the sum does not depend on the order the values are visited in |
| Ordering.SumOverFrame | backend.py:272 | a sum over keys does not see values stored under other keys |
| Ordering.MapSumUpdate | backend.py:63 | `d[k] = v` changes the sum of the values by `v` less the old value of `k` (zero for a missing key) |
| Ordering.TotalIsSum | backend.py:272 | `sum(sizes.values())`, added up in key order, equals the sum of the values |
| SizeExtraction.IsSizeToken | backend.py:27-28 | the group `\d*X*[SML]+`, read greedily: digits, then `X`s, then one or more of `S`, `M`, `L` |
| SizeExtraction.IsMatch | backend.py:27-28 | a match of `\s*SEP\s*(group)\s*$`: whitespace, the separator, whitespace, a size and whitespace running to the end of the name |
| SizeExtraction.Split | backend.py:34-35 | the base and size for a match: the group, and the name with the matched suffix removed, stripped (`re.sub(...).strip()`) |
| SizeExtraction.SizeTokenIsShape | backend.py:27-28 | the greedy recogniser accepts exactly the strings `\d*X*[SML]+` matches |
| SizeExtraction.SizeTokenAlphabet | backend.py:27-28 | a size is non-empty and made only of digits, `X`, `S`, `M` and `L`; lower-case sizes and codes such as `A2` are not sizes |
| SizeExtraction.LastIndexOf | backend.py:27-28 | the index found is the last occurrence of the separator, and `None` means there is none |
| SizeExtraction.Search | backend.py:32 | a search result brackets a size token after the separator |
| SizeExtraction.SearchSound | backend.py:32 | what the search finds is a match of the whole pattern: whitespace, the separator, whitespace, a size, whitespace to the end |
| SizeExtraction.MatchSepIsLast | backend.py:27-28 | the separator of any match is the last occurrence of that separator |
| SizeExtraction.MatchBounds | backend.py:27-28 | the group of a match lies between the whitespace runs after the separator and at the end |
| SizeExtraction.SearchFindsLeftmost | backend.py:32 | every match has the separator and group of the one the search finds and starts no further left: the search finds `re.search`'s leftmost match |
| SizeExtraction.SearchComplete | backend.py:32-33 | the search finds nothing exactly when the name has no match |
| SizeExtraction.FirstMatch | backend.py:31-38 | the first pattern with a match decides; when none matches, the name comes back unchanged with no size |
| SizeExtraction.ExtractWith | backend.py:31-38 | the patterns are tried in order; the first whose search succeeds gives the base and size; otherwise `(name, None)` |
| SizeExtraction.Extract | backend.py:24-38 | without a size the name is returned as it is; a size is a non-empty run of digits, `X`, `S`, `M` and `L` |
| SizeExtraction.ExtractCases | backend.py:31-38 | the `-` pattern decides when it matches, otherwise the `/` pattern, otherwise there is no size |
| SizeExtraction.ExtractFound | backend.py:26-36 | a size is found exactly when the name ends in a separator, a size token and whitespace |
| SizeExtraction.SlashExcludesDash | backend.py:27-28 | a name that matches the `/` pattern never matches the `-` pattern |
| SizeExtraction.ExtractAnyMatch | backend.py:34-35 | for any match, the size is its group and the base is the text before its separator, stripped |
| SizeExtraction.ComposedMatch | backend.py:27-28 | a base, whitespace, a separator, whitespace, a size and whitespace form a match at the separator |
| SizeExtraction.ExtractComposed | backend.py:26-36 | round trip: extracting from `base + ws + sep + ws + size + ws` gives `(strip(base), size)` |
| Orders.SizeKey | backend.py:62-65 | the bucket a row goes to: its extracted size, or `'N/A'` when it has none |
| Orders.Add | backend.py:63-65 | `products[base][size] += quantity` on nested `defaultdict(int)`: a missing product or size starts at zero |
| Orders.Tally | backend.py:51-68 | the rows folded in order, each adding what the row filter makes of it |
| Orders.Aggregate | backend.py:46-70 | the map `load_orders` returns for the rows of an existing file |
| Orders.SizeKeyInjective | backend.py:62-65 | no extracted size equals `'N/A'`, so the no-size bucket holds exactly the rows without a size |
| Orders.NoSeparatorNoSize | backend.py:38 | a name without `-` or `/` has no size and is returned unchanged |
| Orders.UnsizedCodeExample | backend.py:26-38 | `Gi - A2` has no size; its base name is the whole name |
| Orders.UnsizedCodeRow | backend.py:52-65 | the row `Gi - A2`, `3` is counted as 3 in the no-size bucket of `Gi - A2` |
| Orders.Accept | backend.py:52-68 | a row counts exactly when its stripped name is non-empty and its stripped quantity parses as an integer; it then adds that integer to the bucket of the extracted base name and size, or of `'N/A'` |
| Orders.AggregateStep | backend.py:51-65 | each row updates the map built from the rows before it by its own entry, or leaves it alone |
| Orders.LoadOrders | backend.py:41-70 | an empty or missing path gives `{}`; otherwise the row loop builds the fold of the rows |
| Orders.TallyBucket | backend.py:58-65 | a bucket exists exactly when some accepted row is counted in it, and it holds the sum of those rows' quantities |
| Orders.TallyNoEmptyProduct | backend.py:60-65 | every base name in the map has at least one size bucket |
| Orders.BucketSumRemove | backend.py:63-65 | taking any one row out of a bucket's sum subtracts exactly that row's contribution |
| Orders.BucketSumPermutation | backend.py:63-65 | a bucket's sum depends only on the multiset of rows |
| Orders.TallyOrderIndependent | backend.py:51-65 | the map does not depend on the order of the rows |
| Orders.AggregateBucket | backend.py:58-65 | `products[base][size]` exists exactly when some accepted row has that base and size key, and it equals the sum of their quantities |
| Orders.AggregateNoEmptyProduct | backend.py:59-65 | every base name in the result has at least one size bucket |
| Orders.AggregateOrderIndependent | backend.py:51-65 | the result of `load_orders` does not depend on the order of the rows |
| PurchaseOrder.Get | backend.py:151-157 | `info[key]`: the value, or the `KeyError` naming the key when it is absent |
| PurchaseOrder.Lookup | backend.py:216 | `info.get(key)`: the value, or `None` when the key is absent |
| PurchaseOrder.DateRows | backend.py:163-170 | the `Date` row and the `P.O. #` row, whose value is the timestamp |
| PurchaseOrder.SizeRank | backend.py:264 | the first sort key of a size: its length, or 999 for `'N/A'` |
| PurchaseOrder.SizeLabel | backend.py:269 | `No Size` for `'N/A'`, every other size as it is |
| PurchaseOrder.SizeTable | backend.py:262-273 | the header, one row per bucket in `(rank, size)` order, and the `TOTAL` row |
| PurchaseOrder.ProductParts | backend.py:255-290 | the `Item Details` heading, the product line and the size table of one product |
| PurchaseOrder.CompanyLines | backend.py:151-157 | the company block is always five lines: the bold name, the address, the city, `Phone: ` and `Fax: `; a missing key is the `KeyError` |
| PurchaseOrder.VendorText | backend.py:201-209 | the website line is left out exactly when the website is empty; the other four vendor lines are always there, in order |
| PurchaseOrder.VendorLines | backend.py:201-209 | the vendor block exists exactly when the five keys are present; otherwise the error names a missing key |
| PurchaseOrder.ShipToText | backend.py:211-219 | the city line is left out exactly when the city is missing or empty; the other four ship-to lines are always there, in order |
| PurchaseOrder.ShipToLines | backend.py:211-219 | the ship-to block needs `attn`, `company`, `address` and `phone`; the city is read with `.get` and never raises |
| PurchaseOrder.LogoSlot | backend.py:129-148 | the logo is drawn exactly when the path is non-empty, exists and loads; a load failure shows `[Logo Error]`; otherwise the slot is blank |
| PurchaseOrder.SizeRows | backend.py:268-270 | one row per item, in the given order, holding the label (`No Size` for `'N/A'`) and the quantity |
| PurchaseOrder.SizeTableLayout | backend.py:262-273 | the size table has the header row first, one row per bucket, and last the `TOTAL` row, whose quantity reads back as the sum of all quantities |
| PurchaseOrder.SizeTableRows | backend.py:263-270 | between header and total, each bucket appears once in `(rank, size)` order, with its label and quantity |
| PurchaseOrder.AppendSizeRows | backend.py:268-270 | the row loop appends exactly the rows of the sorted buckets |
| PurchaseOrder.BuildSizeTable | backend.py:262-273 | the table the loops build is the size table |
| PurchaseOrder.NoSizeNotBefore | backend.py:264 | the no-size rank comes after every size shorter than 999 characters |
| PurchaseOrder.NoSizeLast | backend.py:263-266 | when every size is shorter than 999 characters, the `'N/A'` bucket is listed last |
| PurchaseOrder.NoSizeRow | backend.py:262-273 | in that case the row just before `TOTAL` is the `No Size` row |
| PurchaseOrder.SizeOrderExample | backend.py:263-266 | `{S, 2XL, N/A, M, XL}` sorts as `M, S, XL, 2XL, N/A` |
| PurchaseOrder.Blocks | backend.py:253-294 | three parts per product |
| PurchaseOrder.BlocksAt | backend.py:253-294 | one block per product in the caller's order: the parts at `3*i` are the heading, the product line and the size table of product `i` |
| PurchaseOrder.ProductSection | backend.py:253-294 | the product loop appends exactly those blocks to the story |
| PurchaseOrder.ContactError | backend.py:151-219 | the document fails exactly when a block misses a key it reads |
| PurchaseOrder.ComposeStory | backend.py:124-294 | the story is the top table, the vendor / ship-to sections, then the product blocks (`2 + 3n` parts); or the first `KeyError` |
| App.FormFields | main.py:203-218 | a form built from its field list: each key shows the saved value, or the default when none is saved |
| App.Startup | main.py:185-301 | the three forms and the logo path as start-up shows them |
| App.TrimmedName | main.py:64-65 | the vendor form's name, `''` when missing, stripped |
| App.RowRaisesTotal | backend.py:63-65 | a row raises its product's total, the figure the product list shows, by exactly its quantity, and no other product changes |
| App.ListingLine | main.py:181-182 | the product-list line `<name> (<total> units)` |
| App.POGenerator.Valid | main.py:178-183 | the product list shows the products sorted by name, one line each |
| App.FormFieldsKeys | main.py:205-217 | a form has exactly the keys of its field list |
| App.FormFieldShows | main.py:203-217 | each field shows the saved value, or its default when none is saved |
| App.FormsComplete | main.py:203-301 | the forms built at start-up carry every key the document reads, so generation never raises `KeyError` for them |
| App.NameIs | main.py:71 | `v.get('name') == name`: a record without a name matches no name |
| App.Saveable | main.py:67 | a vendor is saved unless its trimmed name is empty or `[VENDOR NAME]` |
| App.Names | main.py:86-88 | the names the saved-vendor box offers: `v.get('name')` of each saved vendor, in list order |
| App.FirstNamed | main.py:69-74 | the index found is the first record named like the vendor; `None` means no record has that name |
| App.Upsert | main.py:63-77 | the list keeps its length or grows by one, and a saveable vendor is in it afterwards |
| App.UpsertSkips | main.py:64-67 | an empty or `[VENDOR NAME]` trimmed name leaves the list unchanged |
| App.UpsertReplacesFirst | main.py:69-74 | with a record named like the vendor, only the first such record is replaced, and the length and all other records stay |
| App.UpsertAppends | main.py:76-77 | with no such record, the vendor is appended at the end |
| App.UpsertIdempotent | main.py:63-77 | saving a vendor whose name is already trimmed a second time changes nothing more |
| App.UpsertPaddedNameAppendsAgain | main.py:65-77 | a name with surrounding whitespace never matches its own stored record, so every save appends it again |
| App.Load | main.py:272-276 | loading a record keeps the form's keys: a field the record has takes its value, the others keep theirs |
| App.Selected | main.py:267-277 | selecting keeps the form's keys; it loads the first record with the selected name, or changes nothing |
| App.SaveThenSelect | main.py:63-77 | saving a vendor with a trimmed name and then selecting that name fills the form with exactly what was saved |
| App.Listing | main.py:180-183 | one line per product |
| App.ListingStep | main.py:180-183 | each loop pass appends the line of the next product |
| App.ListingAt | main.py:180-183 | line `i` is the line of product `i` |
| App.ProductListOrder | main.py:178 | the product list holds every product once, in strictly increasing name order |
| App.ProductLineAt | main.py:179-183 | line `i` reads `<name> (<t> units)`, where `t` reads back as the sum of that product's bucket quantities |
| App.SafeName | main.py:331 | same length; a letter or digit is kept, and every other character becomes `_` |
| App.DefaultFilename | main.py:329-334 | the name is `PO_`, then the safe product name for one product or `Multiple_Items` otherwise, then `_<timestamp>.pdf` |
| App.POGenerator.constructor | main.py:20-37 | start-up: the forms show the saved settings over the defaults, the vendor box offers the saved names, the products are what `load_orders("orders_export.csv")` gives (nothing when the file is missing), and the product list shows them sorted |
| App.POGenerator.SaveSettings | main.py:52-91 | the vendor list is the upsert of the old list even when the write fails; the settings and the vendor box change only when the write succeeds |
| App.POGenerator.OnVendorSelected | main.py:267-277 | the vendor form becomes `Selected` of the old form: the first saved vendor with the name is loaded field by field, or nothing changes |
| App.POGenerator.RefreshProductList | main.py:176-183 | afterwards the list holds the products sorted by name and one line per product (`Valid`) |
| App.POGenerator.LoadCsv | main.py:161-174 | a cancelled dialog or a file without products changes nothing; otherwise the products become the fold of the file's rows, and the count is reported |
| App.POGenerator.SelectedProducts | main.py:316-318 | one product per selected index, in selection order: the sorted entry at that index |
| App.POGenerator.CollectSelected | main.py:316-318 | the selected products are the sorted entries at the selected indices, in selection order |
| App.POGenerator.GeneratePo | main.py:305-349 | an empty selection changes nothing; otherwise the vendor is saved first, with the vendor list upserted and the settings and vendor box updated exactly when the write succeeds; a cancelled dialog stops there; the default name is `DefaultFilename` of the selection; generation fails, with the missing key, exactly when a block misses a key; otherwise the document holds the top table and contact sections of the forms and, in selection order, one block per selected product |

## Left out

- Tkinter: widgets, dialogs, message boxes and layout. The answers they give are parameters: the chosen file names (empty when cancelled) and the selected indices.
- Settings file I/O: reading `settings.json` at start-up and writing it in `save_settings`. The saved settings are a constructor parameter, and whether the write succeeds is a parameter of `SaveSettings`.
- CSV decoding (`csv.DictReader`, file encoding). `load_orders` receives the rows already read as `(name, quantity)` pairs, with a missing column as `""`. A file that exists but cannot be opened or decoded makes `load_orders` raise (backend.py:48-49); the model cannot express that, because the rows are a parameter.
- A short row whose field comes back as `None` would crash on `.strip()`. This is not modelled.
- `os.path.exists` and image loading are boolean parameters.
- `datetime.now()` timestamps are string parameters.
- ReportLab: styles, colours, column widths, spacers, `doc.build` and the PDF file. A flowable is modelled by the text it shows, and spacers are left out.
- Logo scaling is floating-point arithmetic on the image size and is not modelled.
- `generate_pdf_po` can raise exceptions other than `KeyError` (a missing image library, an unwritable path). Only `KeyError` from a missing contact field is modelled.
- PurchaseOrder.ContactError: its contract promises only that some key is missing exactly when it returns an error. Its definition, like the `:-` chain of `ComposeStory`, names the first missing key in the order the source reads them, but no contract states which key that is. The text of the error message is not modelled.
- Regular-expression generality: the two patterns are recognised by hand. The line-end rule of `$` before a final newline adds nothing, because the `\s*` before it already takes the newline.
- Unicode `\s`, `\d`, `str.isspace()` and `str.isalnum()` are modelled on ASCII: the ten ASCII whitespace characters (9-13, 28-31 and 32), `0-9` and ASCII letters.
- `int()` and `str()` have no digit limit in the model. Python 3.11 and later refuse more than 4300 digits: such a quantity would be skipped as a `ValueError` row, and such a total would raise when it is shown.
- `int()`: underscores, non-ASCII digits and surrounding whitespace (already stripped by the caller) are not modelled. The model accepts an optional sign followed by decimal digits.
- App.POGenerator.constructor fills the product list by the `Listing` function rather than by calling the `refresh_product_list` loop, which `RefreshProductList` models on its own.
- The form fields' key sets are not kept as a class invariant. `App.FormsComplete` proves them for the start-up forms, and `App.Load` and `App.Selected` keep a form's keys.
