/**
 * The application state of the purchase-order generator (main.py): the
 * form fields, the saved-vendor registry, the loaded products with the
 * name-sorted list shown to the user, and the steps that update them.
 * Widgets, dialogs and the settings file are left out; what they supply
 * (a chosen file name, whether a write succeeded, the selected indices) is
 * passed in.
 */
module App {
  import opened Wrappers
  import opened Text
  import opened Ordering
  import Orders
  import PurchaseOrder

  /** A form's fields by key, as in the document. */
  type Info = PurchaseOrder.Info
  type Product = (string, map<string, int>)

  /** The vendor name the form shows until one is entered. */
  const Placeholder: string := "[VENDOR NAME]"

  /** A form field: its key and the value shown when nothing is saved. */
  type Field = (string, string)

  /** The fields of each form, in the order they are entered (main.py:205-211,
      main.py:251-257, main.py:287-294). */
  const CompanyFields: seq<Field> := [("name", "BJJ Super Deals"), ("address", "123 Jiu Jitsu Way"),
                                      ("city", "Los Angeles, CA 90001"), ("phone", "555-0123"), ("fax", "")]
  const VendorFields: seq<Field> := [("name", Placeholder), ("website", ""), ("address", ""), ("city", ""),
                                     ("phone", "")]
  const ShipToFields: seq<Field> := [("attn", "[ATTN NAME]"), ("company", "BJJ Super Deals Warehouse"),
                                     ("address", ""), ("city", ""), ("phone", ""), ("website", "")]

  /** The keys of a field list. */
  function FieldKeys(fields: seq<Field>): set<string> {
    set i | 0 <= i < |fields| :: fields[i].0
  }

  /** The loop of a form builder: each field, in order, shows
      `saved.get(key, default)`. */
  function FormFields(saved: Info, fields: seq<Field>): Info {
    if fields == [] then map[]
    else
      var (key, default) := fields[|fields| - 1];
      FormFields(saved, fields[..|fields| - 1])[key := if key in saved then saved[key] else default]
  }

  /** A form has exactly the keys of its field list. */
  lemma {:induction false} FormFieldsKeys(saved: Info, fields: seq<Field>)
    ensures FormFields(saved, fields).Keys == FieldKeys(fields)
  {
    if fields != [] {
      var n := |fields| - 1;
      FormFieldsKeys(saved, fields[..n]);
      assert FieldKeys(fields) == FieldKeys(fields[..n]) + {fields[n].0} by {
        forall k | k in FieldKeys(fields) ensures k in FieldKeys(fields[..n]) + {fields[n].0} {
          var i :| 0 <= i < |fields| && fields[i].0 == k;
          if i < n { assert fields[..n][i].0 == k; }
        }
      }
    }
  }

  /** A field whose key is not entered again later shows the saved value, or
      its default when none is saved. */
  lemma {:induction false} FormFieldShows(saved: Info, fields: seq<Field>, i: nat)
    requires i < |fields|
    requires forall j :: i < j < |fields| ==> fields[j].0 != fields[i].0
    ensures var (key, default) := fields[i]; var r := FormFields(saved, fields);
      key in r && r[key] == if key in saved then saved[key] else default
  {
    var n := |fields| - 1;
    if i < n {
      FormFieldShows(saved, fields[..n], i);
    }
  }

  /** The forms as the application starts with `saved` settings. */
  function Startup(saved: Settings): Settings {
    Settings(FormFields(saved.company, CompanyFields), FormFields(saved.vendor, VendorFields),
             FormFields(saved.shipTo, ShipToFields), saved.logoPath)
  }

  /** The forms carry every field the document reads, whatever the saved
      settings hold, so composing the document from them never raises
      `KeyError`. */
  lemma FormsComplete(saved: Settings)
    ensures var f := Startup(saved); PurchaseOrder.ContactError(f.company, f.vendor, f.shipTo).None?
  {
    var f := Startup(saved);
    assert PurchaseOrder.CompanyKeys <= f.company.Keys by {
      FormFieldsKeys(saved.company, CompanyFields);
      assert CompanyFields[0].0 == "name" && CompanyFields[1].0 == "address" && CompanyFields[2].0 == "city";
      assert CompanyFields[3].0 == "phone" && CompanyFields[4].0 == "fax";
    }
    assert PurchaseOrder.VendorKeys <= f.vendor.Keys by {
      FormFieldsKeys(saved.vendor, VendorFields);
      assert VendorFields[0].0 == "name" && VendorFields[1].0 == "website" && VendorFields[2].0 == "address";
      assert VendorFields[3].0 == "city" && VendorFields[4].0 == "phone";
    }
    assert PurchaseOrder.ShipToKeys <= f.shipTo.Keys by {
      FormFieldsKeys(saved.shipTo, ShipToFields);
      assert ShipToFields[0].0 == "attn" && ShipToFields[1].0 == "company" && ShipToFields[2].0 == "address";
      assert ShipToFields[4].0 == "phone";
    }
  }

  // ---------------------------------------------------------------------
  // The saved-vendor registry

  /** `v.get('name') == name`: a record without a name matches nothing. */
  predicate NameIs(v: Info, name: string) {
    "name" in v && v["name"] == name
  }

  /** `[v.get('name') for v in saved_vendors]`: what the saved-vendor box
      offers. */
  function Names(vendors: seq<Info>): seq<Option<string>> {
    seq(|vendors|, i requires 0 <= i < |vendors| => PurchaseOrder.Lookup(vendors[i], "name"))
  }

  /** The index of the first record named `name`. */
  function FirstNamed(vendors: seq<Info>, name: string): (r: Option<nat>)
    ensures r.Some? ==> r.value < |vendors| && NameIs(vendors[r.value], name)
    ensures r.Some? ==> forall j :: 0 <= j < r.value ==> !NameIs(vendors[j], name)
    ensures r.None? ==> forall j :: 0 <= j < |vendors| ==> !NameIs(vendors[j], name)
  {
    if vendors == [] then None
    else if NameIs(vendors[0], name) then Some(0)
    else match FirstNamed(vendors[1..], name)
      case None => None
      case Some(i) => Some(i + 1)
  }

  /** `current_vendor.get('name', '').strip()`. */
  function TrimmedName(current: Info): string {
    Strip(if "name" in current then current["name"] else "")
  }

  /** A name is saved unless it is empty or the placeholder. */
  predicate Saveable(name: string) {
    name != "" && name != Placeholder
  }

  /** The registry after saving `current` (main.py:63-77): the first record
      with the trimmed name is replaced, or `current` is appended. */
  function Upsert(vendors: seq<Info>, current: Info): (r: seq<Info>)
    ensures |r| == |vendors| || |r| == |vendors| + 1
    ensures Saveable(TrimmedName(current)) ==> current in r
  {
    var name := TrimmedName(current);
    if !Saveable(name) then vendors
    else match FirstNamed(vendors, name)
      case Some(i) =>
        var r := vendors[i := current];
        assert r[i] == current;
        r
      case None => vendors + [current]
  }

  /** An empty or placeholder name leaves the registry alone. */
  lemma UpsertSkips(vendors: seq<Info>, current: Info)
    requires !Saveable(TrimmedName(current))
    ensures Upsert(vendors, current) == vendors
  {
  }

  /** With a record already named like the vendor, the first such record is
      replaced; the length and every other record stay as they were. */
  lemma UpsertReplacesFirst(vendors: seq<Info>, current: Info, i: nat)
    requires Saveable(TrimmedName(current))
    requires i < |vendors| && NameIs(vendors[i], TrimmedName(current))
    requires forall j :: 0 <= j < i ==> !NameIs(vendors[j], TrimmedName(current))
    ensures var r := Upsert(vendors, current);
      |r| == |vendors| && r[i] == current && forall j :: 0 <= j < |r| && j != i ==> r[j] == vendors[j]
  {
  }

  /** With no record named like the vendor, it is appended at the end. */
  lemma UpsertAppends(vendors: seq<Info>, current: Info)
    requires Saveable(TrimmedName(current))
    requires forall j :: 0 <= j < |vendors| ==> !NameIs(vendors[j], TrimmedName(current))
    ensures Upsert(vendors, current) == vendors + [current]
  {
  }

  /** Saving a vendor whose name is already trimmed twice is saving it once. */
  lemma UpsertIdempotent(vendors: seq<Info>, current: Info)
    requires "name" in current && current["name"] == TrimmedName(current)
    ensures Upsert(Upsert(vendors, current), current) == Upsert(vendors, current)
  {
    var name := TrimmedName(current);
    if Saveable(name) {
      var r := Upsert(vendors, current);
      match FirstNamed(vendors, name)
      case Some(i) =>
        assert r == vendors[i := current];
        forall j | 0 <= j < i ensures !NameIs(r[j], name) {
          assert r[j] == vendors[j];
        }
        UpsertReplacesFirst(r, current, i);
      case None =>
        assert r == vendors + [current];
        forall j | 0 <= j < |vendors| ensures !NameIs(r[j], name) {
          assert r[j] == vendors[j];
        }
        UpsertReplacesFirst(r, current, |vendors|);
    }
  }

  /** A name with whitespace around it is matched in its trimmed form but
      stored untrimmed, so it never matches its own record: every save
      appends it again. */
  lemma UpsertPaddedNameAppendsAgain(vendors: seq<Info>, current: Info)
    requires Saveable(TrimmedName(current))
    requires "name" in current && current["name"] != TrimmedName(current)
    requires forall j :: 0 <= j < |vendors| ==> !NameIs(vendors[j], TrimmedName(current))
    ensures Upsert(Upsert(vendors, current), current) == vendors + [current, current]
  {
    var name := TrimmedName(current);
    UpsertAppends(vendors, current);
    var r := vendors + [current];
    forall j | 0 <= j < |r| ensures !NameIs(r[j], name) {
      if j < |vendors| { assert r[j] == vendors[j]; }
    }
    UpsertAppends(r, current);
  }

  /** The fields of the vendor form after loading `v` into it: every field
      `v` has takes its value, the others keep theirs. */
  function Load(fields: Info, v: Info): (r: Info)
    ensures r.Keys == fields.Keys
  {
    map k | k in fields :: if k in v then v[k] else fields[k]
  }

  /** What selecting `selected` in the saved-vendor list does to the vendor
      form (main.py:267-277). */
  function Selected(fields: Info, vendors: seq<Info>, selected: string): (r: Info)
    ensures r.Keys == fields.Keys
  {
    match FirstNamed(vendors, selected)
    case Some(i) => Load(fields, vendors[i])
    case None => fields
  }

  /** Saving a vendor with a trimmed name and then selecting that name
      fills the vendor form with exactly what was saved. */
  lemma SaveThenSelect(vendors: seq<Info>, current: Info, fields: Info)
    requires Saveable(TrimmedName(current)) && "name" in current && current["name"] == TrimmedName(current)
    requires fields.Keys == current.Keys
    ensures Selected(fields, Upsert(vendors, current), current["name"]) == current
  {
    var name := current["name"];
    var r := Upsert(vendors, current);
    match FirstNamed(vendors, name)
    case Some(i) =>
      UpsertReplacesFirst(vendors, current, i);
      forall j | 0 <= j < i ensures !NameIs(r[j], name) {
        assert r[j] == vendors[j];
      }
      UpsertReplacesFirst(r, current, i);
    case None =>
      UpsertAppends(vendors, current);
      forall j | 0 <= j < |vendors| ensures !NameIs(r[j], name) {
        assert r[j] == vendors[j];
      }
      UpsertReplacesFirst(r, current, |vendors|);
  }

  // ---------------------------------------------------------------------
  // The product list and the default file name

  /** A row raises its product's total, the sum of its size buckets, by
      exactly its quantity, and leaves every other product as it was. */
  lemma RowRaisesTotal(products: Orders.Products, e: Orders.Entry)
    ensures MapSum(Orders.Add(products, e)[e.base])
         == (if e.base in products then MapSum(products[e.base]) else 0) + e.quantity
    ensures forall b :: b in products && b != e.base ==> b in Orders.Add(products, e) && Orders.Add(products, e)[b] == products[b]
  {
    var sizes := if e.base in products then products[e.base] else map[];
    var count := if e.size in sizes then sizes[e.size] else 0;
    MapSumUpdate(sizes, e.size, count + e.quantity);
    if e.base !in products {
      assert MapSum(sizes) == 0 by {
        assert sizes.Keys == {};
      }
    }
  }

  /** One line of the product list (main.py:181-182). */
  function ListingLine(name: string, total: int): string {
    name + " (" + IntToString(total) + " units)"
  }

  /** The lines of the product list for `sorted`, in its order. */
  function Listing(sorted: seq<Product>): (r: seq<string>)
    ensures |r| == |sorted|
  {
    if sorted == [] then []
    else
      var n := |sorted|;
      Listing(sorted[..n - 1]) + [ListingLine(sorted[n - 1].0, Total(sorted[n - 1].1))]
  }

  lemma ListingStep(sorted: seq<Product>, i: nat)
    requires i < |sorted|
    ensures Listing(sorted[..i + 1]) == Listing(sorted[..i]) + [ListingLine(sorted[i].0, Total(sorted[i].1))]
  {
    assert sorted[..i + 1][..i] == sorted[..i];
  }

  /** Line `i` of the listing is the line of the `i`th product. */
  lemma {:induction false} ListingAt(sorted: seq<Product>, i: nat)
    requires i < |sorted|
    ensures Listing(sorted)[i] == ListingLine(sorted[i].0, Total(sorted[i].1))
  {
    var n := |sorted|;
    if i < n - 1 {
      ListingAt(sorted[..n - 1], i);
    }
  }

  /** The product list holds every product once, in ascending name order
      (main.py:178). */
  lemma ProductListOrder(products: Orders.Products)
    ensures var s := SortedEntries(NoRank, products);
      (forall i, j :: 0 <= i < j < |s| ==> LexLess(s[i].0, s[j].0))
      && (forall name :: name in products ==> exists i :: 0 <= i < |s| && s[i] == (name, products[name]))
  {
    SortedEntriesOrder(NoRank, products);
    var s := SortedEntries(NoRank, products);
    forall name | name in products ensures exists i :: 0 <= i < |s| && s[i] == (name, products[name]) {
      var i :| 0 <= i < |s| && s[i].0 == name;
      assert s[i] == (name, products[name]);
    }
  }

  /** Line `i` of the list reads `"<name> (<total> units)"`, the total being
      the sum of the product's bucket quantities (main.py:179-183). */
  lemma ProductLineAt(products: Orders.Products, i: nat)
    requires i < |SortedEntries(NoRank, products)|
    ensures var s := SortedEntries(NoRank, products);
      s[i].0 in products && exists t ::
        Listing(s)[i] == s[i].0 + " (" + t + " units)" && ParseInt(t) == Some(MapSum(products[s[i].0]))
  {
    var s := SortedEntries(NoRank, products);
    ListingAt(s, i);
    var sizes := s[i].1;
    TotalIsSum(sizes);
    IntToStringRoundTrip(Total(sizes));
    var t := IntToString(Total(sizes));
    assert Listing(s)[i] == s[i].0 + " (" + t + " units)";
  }

  /** `"".join(c if c.isalnum() else "_" for c in name)`: every character
      that is not a letter or digit becomes `_`. */
  function SafeName(name: string): (r: string)
    ensures |r| == |name|
    ensures forall i :: 0 <= i < |r| ==> IsAlnum(r[i]) || r[i] == '_'
    ensures forall i :: 0 <= i < |r| ==> IsAlnum(name[i]) ==> r[i] == name[i]
    ensures forall i :: 0 <= i < |r| ==> !IsAlnum(name[i]) ==> r[i] == '_'
  {
    if name == [] then []
    else [if IsAlnum(name[0]) then name[0] else '_'] + SafeName(name[1..])
  }

  /** The file name offered for the purchase order (main.py:329-334):
      `PO_`, then the product's safe name for a single product or
      `Multiple_Items` otherwise, then `_<timestamp>.pdf`. */
  function DefaultFilename(selected: seq<Product>, timestamp: string): (r: string)
    ensures |r| >= 3 + |timestamp| + 5
    ensures r[..3] == "PO_" && r[|r| - |timestamp| - 5..] == "_" + timestamp + ".pdf"
    ensures |selected| == 1 ==> r[3..|r| - |timestamp| - 5] == SafeName(selected[0].0)
    ensures |selected| != 1 ==> r[3..|r| - |timestamp| - 5] == "Multiple_Items"
  {
    var middle := if |selected| == 1 then SafeName(selected[0].0) else "Multiple_Items";
    var r := "PO_" + middle + ("_" + timestamp + ".pdf");
    assert r[..3] == "PO_";
    assert r[3..|r| - |timestamp| - 5] == middle;
    assert r[|r| - |timestamp| - 5..] == "_" + timestamp + ".pdf";
    r
  }

  // ---------------------------------------------------------------------
  // The application

  /** The settings `save_settings` writes, apart from the vendor list. */
  datatype Settings = Settings(company: Info, vendor: Info, shipTo: Info, logoPath: string)

  /** What loading a CSV file ends in. */
  datatype LoadStatus = Cancelled | NoProducts | Loaded(count: nat)

  /** What pressing Generate ends in. */
  datatype PoOutcome =
    | NoSelection
    | SaveCancelled(defaultName: string)
    | Failed(error: string)
    | Generated(defaultName: string, filename: string, story: seq<PurchaseOrder.Flowable>)

  class POGenerator {
    /** The form fields. */
    var company: Info
    var vendor: Info
    var shipTo: Info
    var logoPath: string
    /** `self.settings` without its vendor list, as last written. */
    var stored: Settings
    /** `self.settings['saved_vendors']`: one list, shared by every
        settings dictionary `save_settings` builds. */
    var savedVendors: seq<Info>
    /** The names the saved-vendor box offers. */
    var vendorChoices: seq<Option<string>>
    var products: Orders.Products
    var sortedProducts: seq<Product>
    /** The lines of the product list box. */
    var productLines: seq<string>

    /** The product list always shows the products sorted by name. */
    predicate Valid()
      reads this`products, this`sortedProducts, this`productLines
    {
      && sortedProducts == SortedEntries(NoRank, products)
      && productLines == Listing(sortedProducts)
    }

    /** Start-up (main.py:20-37): the settings file's contents and whether
        `orders_export.csv` exists, with its rows, are parameters. */
    constructor(saved: Settings, vendors: seq<Info>, exportExists: bool, exportRows: seq<Orders.Row>)
      ensures Valid()
      ensures Settings(company, vendor, shipTo, logoPath) == Startup(saved)
      ensures stored == saved && savedVendors == vendors && vendorChoices == Names(vendors)
      ensures exportExists ==> products == Orders.Aggregate(exportRows)
      ensures !exportExists ==> products == map[]
    {
      var loaded := Orders.LoadOrders("orders_export.csv", exportExists, exportRows);
      var forms := Startup(saved);
      company := forms.company;
      vendor := forms.vendor;
      shipTo := forms.shipTo;
      logoPath := forms.logoPath;
      stored := saved;
      savedVendors := vendors;
      vendorChoices := Names(vendors);
      products := loaded;
      var sorted := SortedEntries(NoRank, loaded);
      var lines := Listing(sorted);
      sortedProducts := sorted;
      productLines := lines;
      new;
      assert Valid();
    }

    /** `save_settings` (main.py:52-91). The vendor list is updated in place
        whether or not the file is written; the rest of the settings and the
        vendor box are updated only when the write succeeds. */
    method SaveSettings(writeOk: bool)
      modifies this`savedVendors, this`stored, this`vendorChoices
      ensures savedVendors == Upsert(old(savedVendors), vendor)
      ensures stored == if writeOk then Settings(company, vendor, shipTo, logoPath) else old(stored)
      ensures vendorChoices == if writeOk then Names(savedVendors) else old(vendorChoices)
    {
      var current := vendor;
      var name := TrimmedName(current);
      var vendors := savedVendors;
      if name != "" && name != Placeholder {
        var found := false;
        var i := 0;
        while i < |vendors|
          invariant 0 <= i <= |vendors|
          invariant vendors == old(savedVendors)
          invariant forall j :: 0 <= j < i ==> !NameIs(vendors[j], name)
        {
          if NameIs(vendors[i], name) {
            assert FirstNamed(vendors, name) == Some(i);
            vendors := vendors[i := current];
            found := true;
            break;
          }
          i := i + 1;
        }
        if !found {
          assert FirstNamed(vendors, name).None?;
          vendors := vendors + [current];
        }
      }
      savedVendors := vendors;
      if writeOk {
        stored := Settings(company, current, shipTo, logoPath);
        vendorChoices := Names(vendors);
      }
    }

    /** `on_vendor_selected` (main.py:267-277): the first saved vendor with
        the selected name is loaded into the vendor form, field by field;
        nothing changes when no saved vendor has that name. */
    method OnVendorSelected(selected: string)
      modifies this`vendor
      ensures vendor == Selected(old(vendor), savedVendors, selected)
    {
      var i := 0;
      while i < |savedVendors|
        invariant 0 <= i <= |savedVendors|
        invariant forall j :: 0 <= j < i ==> !NameIs(savedVendors[j], selected)
      {
        var v := savedVendors[i];
        if NameIs(v, selected) {
          assert FirstNamed(savedVendors, selected) == Some(i);
          var before := vendor;
          var fields := before;
          var keys := before.Keys;
          while keys != {}
            invariant keys <= before.Keys
            invariant fields.Keys == before.Keys
            invariant forall k :: k in before ==> fields[k] == if k in v && k !in keys then v[k] else before[k]
            decreases keys
          {
            var k :| k in keys;
            if k in v {
              fields := fields[k := v[k]];
            }
            keys := keys - {k};
          }
          assert fields == Load(before, v);
          vendor := fields;
          return;
        }
        i := i + 1;
      }
    }

    /** `refresh_product_list` (main.py:176-183): the products sorted by
        name, one line each with its total. */
    method RefreshProductList()
      modifies this`sortedProducts, this`productLines
      ensures Valid()
    {
      var sorted := SortedEntries(NoRank, products);
      var lines := [];
      var i := 0;
      while i < |sorted|
        invariant 0 <= i <= |sorted|
        invariant lines == Listing(sorted[..i])
      {
        var (name, sizes) := sorted[i];
        var totalQty := Total(sizes);
        ListingStep(sorted, i);
        lines := lines + [name + " (" + IntToString(totalQty) + " units)"];
        i := i + 1;
      }
      assert sorted[..i] == sorted;
      sortedProducts := sorted;
      productLines := lines;
    }

    /** `load_csv` (main.py:161-174): a chosen file whose rows yield
        products replaces the products and refreshes the list; a cancelled
        dialog or a file with no products changes nothing. */
    method LoadCsv(filename: string, fileExists: bool, rows: seq<Orders.Row>) returns (status: LoadStatus)
      requires Valid()
      modifies this`products, this`sortedProducts, this`productLines
      ensures Valid()
      ensures status == Cancelled <==> filename == ""
      ensures status == NoProducts <==> filename != "" && (!fileExists || Orders.Aggregate(rows) == map[])
      ensures status.Loaded? ==> products == Orders.Aggregate(rows) && status.count == |products|
      ensures !status.Loaded? ==> products == old(products) && productLines == old(productLines)
    {
      if filename == "" {
        return Cancelled;
      }
      var loaded := Orders.LoadOrders(filename, fileExists, rows);
      if loaded == map[] {
        return NoProducts;
      }
      products := loaded;
      RefreshProductList();
      return Loaded(|products|);
    }

    /** The products the selected rows of the list box show, in selection
        order. */
    function SelectedProducts(selection: seq<nat>): (r: seq<Product>)
      reads this`sortedProducts
      requires forall k :: 0 <= k < |selection| ==> selection[k] < |sortedProducts|
      ensures |r| == |selection|
      ensures forall k :: 0 <= k < |selection| ==> r[k] == sortedProducts[selection[k]]
    {
      var sorted := sortedProducts;
      seq(|selection|, k requires 0 <= k < |selection| => sorted[selection[k]])
    }

    /** `[self.sorted_products[idx] for idx in selection]`
        (main.py:316-318). */
    method CollectSelected(selection: seq<nat>) returns (selected: seq<Product>)
      requires forall k :: 0 <= k < |selection| ==> selection[k] < |sortedProducts|
      ensures |selected| == |selection|
      ensures forall k :: 0 <= k < |selection| ==> selected[k] == sortedProducts[selection[k]]
    {
      selected := [];
      var k := 0;
      while k < |selection|
        invariant 0 <= k <= |selection|
        invariant |selected| == k
        invariant forall j :: 0 <= j < k ==> selected[j] == sortedProducts[selection[j]]
      {
        selected := selected + [sortedProducts[selection[k]]];
        k := k + 1;
      }
    }

    /** `generate_po` (main.py:305-349). The selection holds indices of the
        product list box; the save dialog's answer (empty when cancelled),
        the timestamps, the settings write and the logo checks are
        parameters. */
    method GeneratePo(selection: seq<nat>, writeOk: bool, timestamp: string, chosen: string,
                      logoOnDisk: bool, logoLoads: bool, poDate: string, poNumber: string)
      returns (outcome: PoOutcome)
      requires Valid()
      requires forall k :: 0 <= k < |selection| ==> selection[k] < |productLines|
      modifies this`savedVendors, this`stored, this`vendorChoices
      ensures selection == [] <==> outcome == NoSelection
      ensures selection == [] ==>
        savedVendors == old(savedVendors) && stored == old(stored) && vendorChoices == old(vendorChoices)
      ensures selection != [] ==> savedVendors == Upsert(old(savedVendors), vendor)
      ensures selection != [] ==>
        stored == (if writeOk then Settings(company, vendor, shipTo, logoPath) else old(stored))
      ensures selection != [] ==>
        vendorChoices == (if writeOk then Names(savedVendors) else old(vendorChoices))
      ensures outcome.Failed? <==>
        (selection != [] && chosen != "" && PurchaseOrder.ContactError(company, vendor, shipTo).Some?)
      ensures outcome.Failed? ==> outcome.error == PurchaseOrder.ContactError(company, vendor, shipTo).value
      ensures outcome.SaveCancelled? <==> selection != [] && chosen == ""
      ensures outcome.SaveCancelled? || outcome.Generated? ==>
        outcome.defaultName == DefaultFilename(SelectedProducts(selection), timestamp)
      ensures outcome.Generated? ==> outcome.filename == chosen
      ensures outcome.Generated? ==>
        && |outcome.story| == 2 + 3 * |selection|
        && outcome.story[0] == PurchaseOrder.TopTable(PurchaseOrder.LogoSlot(logoPath, logoOnDisk, logoLoads),
                                                      PurchaseOrder.CompanyLines(company).value,
                                                      PurchaseOrder.Title, PurchaseOrder.DateRows(poDate, poNumber))
        && outcome.story[1] == PurchaseOrder.Sections(PurchaseOrder.Section("Vendor", PurchaseOrder.VendorLines(vendor).value),
                                                      PurchaseOrder.Section("Ship To", PurchaseOrder.ShipToLines(shipTo).value))
        && outcome.story[2..] == PurchaseOrder.Blocks(SelectedProducts(selection), PurchaseOrder.SizeTable)
    {
      if selection == [] {
        return NoSelection;
      }
      SaveSettings(writeOk);
      var selected := CollectSelected(selection);
      assert selected == SelectedProducts(selection);
      var defaultName := DefaultFilename(selected, timestamp);
      if chosen == "" {
        return SaveCancelled(defaultName);
      }
      var r := PurchaseOrder.ComposeStory(selected, company, vendor, shipTo, logoPath, logoOnDisk, logoLoads,
                                          poDate, poNumber);
      if r.Failure? {
        return Failed(r.error);
      }
      return Generated(defaultName, chosen, r.value);
    }
  }
}
