/**
 * The textual skeleton of the purchase-order document `generate_pdf_po`
 * builds (backend.py:73-297): the logo slot, the company, vendor and ship-to
 * line lists, the title and date rows, and one block per product with its
 * size/quantity table. Styling, spacers and the PDF itself are not modelled;
 * a flowable here records only the text the document shows.
 */
module PurchaseOrder {
  import opened Wrappers
  import opened Text
  import opened Ordering
  import Orders

  /** A form's fields, as the dictionaries passed in by the caller. */
  type Info = map<string, string>

  /** The keys each block reads with `info[key]`; a missing one raises
      `KeyError`. */
  const CompanyKeys: set<string> := {"name", "address", "city", "phone", "fax"}
  const VendorKeys: set<string> := {"name", "website", "address", "city", "phone"}
  /** The ship-to city is read with `.get`, so it is not required. */
  const ShipToKeys: set<string> := {"attn", "company", "address", "phone"}

  /** `info[key]`, failing with the key itself when it is absent. */
  function Get(info: Info, key: string): Result<string, string> {
    if key in info then Success(info[key]) else Failure(key)
  }

  function Bold(s: string): string {
    "<b>" + s + "</b>"
  }

  // ---------------------------------------------------------------------
  // Contact blocks

  /** The five lines of the company block (backend.py:151-157). */
  function CompanyLines(info: Info): (r: Result<seq<string>, string>)
    ensures r.Success? <==> CompanyKeys <= info.Keys
    ensures r.Failure? ==> r.error in CompanyKeys && r.error !in info
    ensures r.Success? ==> (|r.value| == 5
      && r.value[0] == Bold(info["name"]) && r.value[1] == info["address"]
      && r.value[2] == info["city"] && r.value[3] == "Phone: " + info["phone"]
      && r.value[4] == "Fax: " + info["fax"])
  {
    var name :- Get(info, "name");
    var address :- Get(info, "address");
    var city :- Get(info, "city");
    var phone :- Get(info, "phone");
    var fax :- Get(info, "fax");
    Success([Bold(name), address, city, "Phone: " + phone, "Fax: " + fax])
  }

  /** The vendor lines (backend.py:201-209): the website line is left out
      exactly when the website is empty; the other four are always there. */
  function VendorText(name: string, website: string, address: string, city: string, phone: string)
    : (lines: seq<string>)
    ensures 4 <= |lines| <= 5 && (|lines| == 4 <==> website == "")
    ensures lines[0] == Bold(name) && (website != "" ==> lines[1] == website)
    ensures lines[|lines| - 3] == address && lines[|lines| - 2] == city
    ensures lines[|lines| - 1] == "Phone: " + phone
  {
    [Bold(name)] + (if website != "" then [website] else []) + [address, city, "Phone: " + phone]
  }

  /** The vendor block, or the `KeyError` a missing field raises. */
  function VendorLines(info: Info): (r: Result<seq<string>, string>)
    ensures r.Success? <==> VendorKeys <= info.Keys
    ensures r.Failure? ==> r.error in VendorKeys && r.error !in info
    ensures r.Success? ==>
      r.value == VendorText(info["name"], info["website"], info["address"], info["city"], info["phone"])
  {
    var name :- Get(info, "name");
    var website :- Get(info, "website");
    var address :- Get(info, "address");
    var city :- Get(info, "city");
    var phone :- Get(info, "phone");
    Success(VendorText(name, website, address, city, phone))
  }

  /** The ship-to lines (backend.py:211-219): the city line is left out
      exactly when the city is missing or empty; the other four are always
      there. */
  function ShipToText(attn: string, company: string, address: string, city: Option<string>, phone: string)
    : (lines: seq<string>)
    ensures 4 <= |lines| <= 5 && (|lines| == 4 <==> city.None? || city.value == "")
    ensures lines[0] == "Attn: " + attn && lines[1] == company && lines[2] == address
    ensures city.Some? && city.value != "" ==> lines[3] == city.value
    ensures lines[|lines| - 1] == "Phone: " + phone
  {
    var cityLine := if city.Some? && city.value != "" then [city.value] else [];
    ["Attn: " + attn, company, address] + cityLine + ["Phone: " + phone]
  }

  /** `info.get(key)`. */
  function Lookup(info: Info, key: string): Option<string> {
    if key in info then Some(info[key]) else None
  }

  /** The ship-to block, or the `KeyError` a missing field raises. */
  function ShipToLines(info: Info): (r: Result<seq<string>, string>)
    ensures r.Success? <==> ShipToKeys <= info.Keys
    ensures r.Failure? ==> r.error in ShipToKeys && r.error !in info
    ensures r.Success? ==>
      r.value == ShipToText(info["attn"], info["company"], info["address"], Lookup(info, "city"), info["phone"])
  {
    var attn :- Get(info, "attn");
    var company :- Get(info, "company");
    var address :- Get(info, "address");
    var phone :- Get(info, "phone");
    Success(ShipToText(attn, company, address, Lookup(info, "city"), phone))
  }

  // ---------------------------------------------------------------------
  // Header

  /** What stands where the logo goes (backend.py:128-148). */
  datatype Logo = Picture(path: string) | LogoError | Blank

  /** The logo is drawn when the path is non-empty, names an existing file
      and the image loads; a load failure shows `[Logo Error]`; otherwise the
      slot is blank. */
  function LogoSlot(path: string, onDisk: bool, loads: bool): (r: Logo)
    ensures r.Picture? <==> path != "" && onDisk && loads
    ensures r.Picture? ==> r.path == path
    ensures r.LogoError? <==> path != "" && onDisk && !loads
    ensures r.Blank? <==> path == "" || !onDisk
  {
    if path != "" && onDisk then (if loads then Picture(path) else LogoError) else Blank
  }

  const Title: string := "Purchase Order"

  /** The date / P.O. number rows (backend.py:167-170). */
  function DateRows(poDate: string, timestamp: string): seq<(string, string)> {
    [(Bold("Date"), poDate), (Bold("P.O. #"), timestamp)]
  }

  // ---------------------------------------------------------------------
  // Size table

  type TableRow = (string, string)

  const SizeHeader: TableRow := ("Size", "Quantity")

  /** The first component of the sort key: the length of the size, with the
      no-size bucket pushed to 999. */
  function SizeRank(size: string): int {
    if size != Orders.NoSize then |size| else 999
  }

  function SizeLabel(size: string): string {
    if size == Orders.NoSize then "No Size" else size
  }

  /** One row per `(size, quantity)` item, in the order given. */
  function SizeRows(items: seq<(string, int)>): (r: seq<TableRow>)
    ensures |r| == |items|
    ensures forall i :: 0 <= i < |items| ==> r[i] == (SizeLabel(items[i].0), IntToString(items[i].1))
  {
    if items == [] then []
    else
      var last := items[|items| - 1];
      SizeRows(items[..|items| - 1]) + [(SizeLabel(last.0), IntToString(last.1))]
  }

  lemma SizeRowsStep(items: seq<(string, int)>, i: nat)
    requires i < |items|
    ensures SizeRows(items[..i + 1]) == SizeRows(items[..i]) + [(SizeLabel(items[i].0), IntToString(items[i].1))]
  {
    assert items[..i + 1][..i] == items[..i];
  }

  /** The size table of one product (backend.py:262-273). */
  function SizeTable(sizes: map<string, int>): seq<TableRow> {
    [SizeHeader] + SizeRows(SortedEntries(SizeRank, sizes)) + [("TOTAL", IntToString(Total(sizes)))]
  }

  /** The frame of the size table: the header row first, one row per
      bucket, and last the `TOTAL` row holding the sum of all quantities. */
  lemma SizeTableLayout(sizes: map<string, int>)
    ensures var r := SizeTable(sizes);
      |r| == |sizes| + 2 && r[0] == SizeHeader
      && r[|r| - 1].0 == "TOTAL" && ParseInt(r[|r| - 1].1) == Some(MapSum(sizes))
  {
    var r := SizeTable(sizes);
    var total := IntToString(Total(sizes));
    assert r[|r| - 1] == ("TOTAL", total);
    IntToStringRoundTrip(Total(sizes));
    TotalIsSum(sizes);
  }

  /** Between them, each bucket once, in `(rank, size)` order, labelled and
      with its quantity. */
  lemma SizeTableRows(sizes: map<string, int>)
    ensures var r := SizeTable(sizes); var e := SortedEntries(SizeRank, sizes);
      |r| == |e| + 2 && forall i :: 0 <= i < |e| ==> r[i + 1] == (SizeLabel(e[i].0), IntToString(sizes[e[i].0]))
  {
    var e := SortedEntries(SizeRank, sizes);
    var rows := SizeRows(e);
    var head := [SizeHeader] + rows;
    assert SizeTable(sizes) == head + [("TOTAL", IntToString(Total(sizes)))];
    forall i | 0 <= i < |e|
      ensures SizeTable(sizes)[i + 1] == rows[i]
    {
      assert head[i + 1] == rows[i];
    }
  }

  /** The row loop of the size table: one row appended to `size_data` per
      `(size, quantity)` item. */
  method AppendSizeRows(table: seq<TableRow>, items: seq<(string, int)>) returns (r: seq<TableRow>)
    ensures r == table + SizeRows(items)
  {
    r := table;
    var i := 0;
    while i < |items|
      invariant 0 <= i <= |items|
      invariant r == table + SizeRows(items[..i])
    {
      var (size, qty) := items[i];
      var shown := if size == Orders.NoSize then "No Size" else size;
      SizeRowsStep(items, i);
      r := r + [(shown, IntToString(qty))];
      i := i + 1;
    }
    assert items[..i] == items;
  }

  /** The size table as `generate_pdf_po` builds it: the header, the rows of
      the sorted buckets, then the `TOTAL` row. */
  method BuildSizeTable(sizes: map<string, int>) returns (table: seq<TableRow>)
    ensures table == SizeTable(sizes)
  {
    var sorted := SortedEntries(SizeRank, sizes);
    table := AppendSizeRows([SizeHeader], sorted);
    var totalQty := Total(sizes);
    table := table + [("TOTAL", IntToString(totalQty))];
  }

  /** The no-size bucket does not come before a size shorter than 999
      characters, nor before itself. */
  lemma NoSizeNotBefore(x: string)
    requires x == Orders.NoSize || |x| < 999
    ensures !KeyBefore(SizeRank, Orders.NoSize, x)
  {
    KeyBeforeIrreflexive(SizeRank, x);
  }

  /** The no-size bucket is listed last whenever every size is shorter
      than 999 characters. */
  lemma NoSizeLast(sizes: map<string, int>)
    requires Orders.NoSize in sizes
    requires forall s :: s in sizes && s != Orders.NoSize ==> |s| < 999
    ensures var e := SortedEntries(SizeRank, sizes);
      |e| > 0 && e[|e| - 1].0 == Orders.NoSize
  {
    SortedEntriesOrder(SizeRank, sizes);
    var e := SortedEntries(SizeRank, sizes);
    var n := |e|;
    var k :| 0 <= k < n && e[k].0 == Orders.NoSize;
    var x := e[n - 1].0;
    assert x in sizes;
    assert k < n - 1 ==> KeyBefore(SizeRank, Orders.NoSize, x);
    NoSizeNotBefore(x);
    if k < n - 1 {
      assert false;
    }
  }

  /** So the last row before `TOTAL` is the `No Size` row. */
  lemma NoSizeRow(sizes: map<string, int>)
    requires Orders.NoSize in sizes
    requires forall s :: s in sizes && s != Orders.NoSize ==> |s| < 999
    ensures var r := SizeTable(sizes);
      |r| >= 3 && r[|r| - 2] == ("No Size", IntToString(sizes[Orders.NoSize]))
  {
    NoSizeLast(sizes);
    SizeTableRows(sizes);
    var e := SortedEntries(SizeRank, sizes);
    assert SizeTable(sizes)[|e|] == (SizeLabel(e[|e| - 1].0), IntToString(sizes[e[|e| - 1].0]));
  }

  /** Sizes are ordered by length first, then by code point: `M` before `S`,
      and `XL` before `2XL`, with the no-size bucket last. */
  lemma SizeOrderExample()
    ensures SortedKeys(SizeRank, {"S", "2XL", "N/A", "M", "XL"}) == ["M", "S", "XL", "2XL", "N/A"]
  {
    var s := ["M", "S", "XL", "2XL", "N/A"];
    assert LexLess("M", "S");
    assert Increasing(SizeRank, s);
    SortedKeysUnique(SizeRank, {"S", "2XL", "N/A", "M", "XL"}, s);
  }

  // ---------------------------------------------------------------------
  // The story

  datatype Section = Section(header: string, lines: seq<string>)

  /** The text of each flowable appended to the story, spacers left out. */
  datatype Flowable =
    | TopTable(logo: Logo, company: seq<string>, title: string, dateRows: seq<(string, string)>)
    | Sections(vendor: Section, shipTo: Section)
    | Heading(text: string)
    | Para(text: string)
    | Table(rows: seq<TableRow>)

  /** The parts appended for one product (backend.py:255-294), around its
      size table. */
  function ProductParts(name: string, table: seq<TableRow>): seq<Flowable> {
    [Heading(Bold("Item Details")), Para("Product: " + Bold(name)), Table(table)]
  }

  /** The product section: the parts of each product in turn, with the size
      table `tableOf` gives for its buckets (`SizeTable` in the document). */
  function Blocks(products: seq<(string, map<string, int>)>, tableOf: map<string, int> -> seq<TableRow>)
    : (r: seq<Flowable>)
    ensures |r| == 3 * |products|
  {
    if products == [] then []
    else
      var n := |products|;
      Blocks(products[..n - 1], tableOf) + ProductParts(products[n - 1].0, tableOf(products[n - 1].1))
  }

  lemma BlocksStep(products: seq<(string, map<string, int>)>, tableOf: map<string, int> -> seq<TableRow>, i: nat)
    requires i < |products|
    ensures Blocks(products[..i + 1], tableOf)
      == Blocks(products[..i], tableOf) + ProductParts(products[i].0, tableOf(products[i].1))
  {
    assert products[..i + 1][..i] == products[..i];
  }

  /** One block per product, in the caller's order: the parts at `3 * i`
      are those of the `i`-th product. */
  lemma {:induction false} BlocksAt(products: seq<(string, map<string, int>)>,
                                    tableOf: map<string, int> -> seq<TableRow>, i: nat)
    requires i < |products|
    ensures Blocks(products, tableOf)[3 * i..3 * i + 3] == ProductParts(products[i].0, tableOf(products[i].1))
  {
    var n := |products|;
    var init := products[..n - 1];
    if i < n - 1 {
      BlocksAt(init, tableOf, i);
      assert init[i] == products[i];
      var a := Blocks(init, tableOf);
      var b := ProductParts(products[n - 1].0, tableOf(products[n - 1].1));
      assert (a + b)[3 * i..3 * i + 3] == a[3 * i..3 * i + 3];
    }
  }

  /** The product loop (backend.py:253-294): each product's parts, with
      its size table, appended to the story in the caller's order. */
  method ProductSection(head: seq<Flowable>, products: seq<(string, map<string, int>)>)
    returns (story: seq<Flowable>)
    ensures story == head + Blocks(products, SizeTable)
  {
    var blocks := [];
    var i := 0;
    while i < |products|
      invariant 0 <= i <= |products|
      invariant blocks == Blocks(products[..i], SizeTable)
    {
      var (name, sizes) := products[i];
      var sizeTable := BuildSizeTable(sizes);
      BlocksStep(products, SizeTable, i);
      blocks := blocks + [Heading(Bold("Item Details")), Para("Product: " + Bold(name)), Table(sizeTable)];
      i := i + 1;
    }
    assert products[..i] == products;
    story := head + blocks;
  }

  /** The first error the three contact blocks raise, in the order the
      source builds them. */
  function ContactError(company: Info, vendor: Info, shipTo: Info): (r: Option<string>)
    ensures r.None? <==> CompanyKeys <= company.Keys && VendorKeys <= vendor.Keys && ShipToKeys <= shipTo.Keys
  {
    if CompanyLines(company).Failure? then Some(CompanyLines(company).error)
    else if VendorLines(vendor).Failure? then Some(VendorLines(vendor).error)
    else if ShipToLines(shipTo).Failure? then Some(ShipToLines(shipTo).error)
    else None
  }

  /** The story `generate_pdf_po` builds, or the `KeyError` it raises on a
      missing field. The timestamps and the logo's file checks are
      parameters. */
  method ComposeStory(products: seq<(string, map<string, int>)>, company: Info, vendor: Info, shipTo: Info,
                      logoPath: string, logoOnDisk: bool, logoLoads: bool, poDate: string, timestamp: string)
    returns (r: Result<seq<Flowable>, string>)
    ensures r.Failure? <==> ContactError(company, vendor, shipTo).Some?
    ensures r.Failure? ==> r.error == ContactError(company, vendor, shipTo).value
    ensures r.Success? ==> (|r.value| == 2 + 3 * |products|
      && r.value[0] == TopTable(LogoSlot(logoPath, logoOnDisk, logoLoads), CompanyLines(company).value,
                                Title, DateRows(poDate, timestamp))
      && r.value[1] == Sections(Section("Vendor", VendorLines(vendor).value),
                                Section("Ship To", ShipToLines(shipTo).value))
      && r.value[2..] == Blocks(products, SizeTable))
  {
    var logo := LogoSlot(logoPath, logoOnDisk, logoLoads);
    var companyText :- CompanyLines(company);
    var vendorBlock :- VendorLines(vendor);
    var shipToBlock :- ShipToLines(shipTo);
    var top := TopTable(logo, companyText, Title, DateRows(poDate, timestamp));
    var parties := Sections(Section("Vendor", vendorBlock), Section("Ship To", shipToBlock));
    var story := ProductSection([top, parties], products);
    r := Success(story);
  }
}
