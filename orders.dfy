/**
 * `load_orders`: the rows of an order export, already read as pairs of the
 * 'Lineitem name' and 'Lineitem quantity' fields, folded into a two-level
 * map from base product name to size (or the `'N/A'` bucket) to the summed
 * quantity. A row is skipped when either field is blank after stripping or
 * the quantity is not an integer.
 */
module Orders {
  import opened Wrappers
  import opened Text
  import opened SizeExtraction

  /** `products[base][size]`, the nested `defaultdict`s of the source. */
  type Products = map<string, map<string, int>>

  /** The bucket of rows whose name carries no size. */
  const NoSize: string := "N/A"

  /** One row of the export: the two fields the loop reads, each `""` when
      the column is missing (`row.get(..., '')`). */
  datatype Row = Row(name: string, quantity: string)

  /** Where an accepted row is counted. */
  datatype Entry = Entry(base: string, size: string, quantity: int)

  /** The bucket key for an extracted size. */
  function SizeKey(size: Option<string>): string {
    if size.Some? then size.value else NoSize
  }

  /** No size the extraction finds is the sentinel: `/` and `A` are not
      size characters. So the `'N/A'` bucket holds exactly the rows without
      a size. */
  lemma SizeKeyInjective(a: Option<string>, b: Option<string>)
    requires a.Some? ==> IsSizeToken(a.value)
    requires b.Some? ==> IsSizeToken(b.value)
    ensures SizeKey(a) == SizeKey(b) <==> a == b
  {
    if a.Some? && b.None? {
      SizeTokenAlphabet(a.value);
      assert !IsTokenChar(NoSize[1]);
      if |a.value| == |NoSize| { assert a.value[1] != NoSize[1]; }
    }
    if a.None? && b.Some? {
      SizeTokenAlphabet(b.value);
      assert !IsTokenChar(NoSize[1]);
      if |b.value| == |NoSize| { assert b.value[1] != NoSize[1]; }
    }
  }

  /** One pass of the row loop: strip both fields, skip a blank one, parse
      the quantity (a `ValueError` skips the row), then split the name.
      The emptiness test on the quantity is subsumed by the parse: `int`
      rejects the empty string too. */
  function Accept(row: Row): (r: Option<Entry>)
    ensures r.Some? <==> Strip(row.name) != [] && ParseInt(Strip(row.quantity)).Some?
    ensures r.Some? ==> Some(r.value.quantity) == ParseInt(Strip(row.quantity))
    ensures r.Some? ==> var x := Extract(Strip(row.name));
      r.value.base == x.0 && r.value.size == SizeKey(x.1)
  {
    var itemName := Strip(row.name);
    var quantityStr := Strip(row.quantity);
    if itemName == [] || quantityStr == [] then None
    else
      match ParseInt(quantityStr)
      case None => None
      case Some(quantity) =>
        var (baseName, size) := Extract(itemName);
        Some(Entry(baseName, SizeKey(size), quantity))
  }

  /** `products[base][size] += quantity` on nested `defaultdict(int)`s: a
      missing level starts empty and a missing count starts at zero. */
  function Add(products: Products, e: Entry): Products {
    var sizes := if e.base in products then products[e.base] else map[];
    var count := if e.size in sizes then sizes[e.size] else 0;
    products[e.base := sizes[e.size := count + e.quantity]]
  }

  /** The map the row loop builds from `rows`, in row order, when `accept`
      decides what each row contributes. */
  function Tally(accept: Row -> Option<Entry>, rows: seq<Row>): Products {
    if rows == [] then map[]
    else
      var products := Tally(accept, rows[..|rows| - 1]);
      match accept(rows[|rows| - 1])
      case None => products
      case Some(e) => Add(products, e)
  }

  /** The map `load_orders` builds from `rows`. */
  function Aggregate(rows: seq<Row>): Products {
    Tally(Accept, rows)
  }

  /** One more row: the map for `rows[..i + 1]` is the map for `rows[..i]`
      with that row's entry added, if it has one. */
  lemma AggregateStep(rows: seq<Row>, i: nat)
    requires i < |rows|
    ensures Aggregate(rows[..i + 1]) ==
      if Accept(rows[i]).Some? then Add(Aggregate(rows[..i]), Accept(rows[i]).value) else Aggregate(rows[..i])
  {
    assert rows[..i + 1][..i] == rows[..i];
  }

  /** `load_orders(csv_file)`. The file system is a parameter: `pathExists`
      is what `os.path.exists` answers and `rows` what the reader yields. */
  method LoadOrders(path: string, pathExists: bool, rows: seq<Row>) returns (products: Products)
    ensures path == "" || !pathExists ==> products == map[]
    ensures path != "" && pathExists ==> products == Aggregate(rows)
  {
    if path == "" || !pathExists {
      return map[];
    }
    products := map[];
    var i := 0;
    while i < |rows|
      invariant 0 <= i <= |rows|
      invariant products == Aggregate(rows[..i])
    {
      AggregateStep(rows, i);
      var row := rows[i];
      var itemName := Strip(row.name);
      var quantityStr := Strip(row.quantity);
      if itemName != [] && quantityStr != [] {
        var parsed := ParseInt(quantityStr);
        if parsed.Some? {
          var quantity := parsed.value;
          var (baseName, size) := Extract(itemName);
          var key := SizeKey(size);
          products := Add(products, Entry(baseName, key, quantity));
          assert Accept(row) == Some(Entry(baseName, key, quantity));
        } else {
          assert Accept(row).None?;
        }
      } else {
        assert Accept(row).None?;
      }
      i := i + 1;
    }
    assert rows[..i] == rows;
  }

  // ---------------------------------------------------------------------
  // What the map holds

  /** `row` is accepted and counted in the bucket `base`, `size`. */
  predicate CountedIn(accept: Row -> Option<Entry>, row: Row, base: string, size: string) {
    accept(row).Some? && accept(row).value.base == base && accept(row).value.size == size
  }

  /** What `row` adds to the bucket `base`, `size`. */
  function Contribution(accept: Row -> Option<Entry>, row: Row, base: string, size: string): int {
    if CountedIn(accept, row, base, size) then accept(row).value.quantity else 0
  }

  /** The sum of the quantities of the accepted rows for one bucket. */
  function BucketSum(accept: Row -> Option<Entry>, rows: seq<Row>, base: string, size: string): int {
    if rows == [] then 0
    else BucketSum(accept, rows[..|rows| - 1], base, size) + Contribution(accept, rows[|rows| - 1], base, size)
  }

  /** Some accepted row is counted in the bucket. */
  ghost predicate HasRowFor(accept: Row -> Option<Entry>, rows: seq<Row>, base: string, size: string) {
    exists i :: 0 <= i < |rows| && CountedIn(accept, rows[i], base, size)
  }

  /** A bucket no row is counted in sums to zero. */
  lemma {:induction false} BucketSumUnused(accept: Row -> Option<Entry>, rows: seq<Row>, base: string, size: string)
    requires !HasRowFor(accept, rows, base, size)
    ensures BucketSum(accept, rows, base, size) == 0
  {
    if rows != [] {
      var prefix := rows[..|rows| - 1];
      assert !CountedIn(accept, rows[|rows| - 1], base, size);
      assert forall i :: 0 <= i < |prefix| ==> prefix[i] == rows[i];
      BucketSumUnused(accept, prefix, base, size);
    }
  }

  /** A bucket exists exactly when some accepted row is counted in it, and
      then it holds the sum of those rows' quantities. */
  lemma {:induction false} TallyBucket(accept: Row -> Option<Entry>, rows: seq<Row>, base: string, size: string)
    ensures var p := Tally(accept, rows);
      (base in p && size in p[base]) <==> HasRowFor(accept, rows, base, size)
    ensures var p := Tally(accept, rows);
      base in p && size in p[base] ==> p[base][size] == BucketSum(accept, rows, base, size)
  {
    if rows != [] {
      var prefix := rows[..|rows| - 1];
      var last := rows[|rows| - 1];
      TallyBucket(accept, prefix, base, size);
      if HasRowFor(accept, prefix, base, size) {
        var i :| 0 <= i < |prefix| && CountedIn(accept, prefix[i], base, size);
        assert rows[i] == prefix[i];
      }
      if HasRowFor(accept, rows, base, size) && !CountedIn(accept, last, base, size) {
        var i :| 0 <= i < |rows| && CountedIn(accept, rows[i], base, size);
        assert rows[i] == prefix[i];
      }
      if CountedIn(accept, last, base, size) {
        assert CountedIn(accept, rows[|rows| - 1], base, size);
        if !HasRowFor(accept, prefix, base, size) {
          BucketSumUnused(accept, prefix, base, size);
        }
      }
    }
  }

  /** Every base name in the map has at least one size bucket. */
  lemma {:induction false} TallyNoEmptyProduct(accept: Row -> Option<Entry>, rows: seq<Row>)
    ensures forall base :: base in Tally(accept, rows) ==> Tally(accept, rows)[base] != map[]
  {
    if rows != [] {
      TallyNoEmptyProduct(accept, rows[..|rows| - 1]);
    }
  }

  /** Taking any one row out of the sum. */
  lemma {:induction false} BucketSumRemove(accept: Row -> Option<Entry>, rows: seq<Row>, i: nat, base: string, size: string)
    requires i < |rows|
    ensures BucketSum(accept, rows, base, size)
      == BucketSum(accept, rows[..i] + rows[i + 1..], base, size) + Contribution(accept, rows[i], base, size)
  {
    var n := |rows|;
    if i < n - 1 {
      var prefix := rows[..n - 1];
      var rest := rows[..i] + rows[i + 1..];
      BucketSumRemove(accept, prefix, i, base, size);
      assert rest[..|rest| - 1] == prefix[..i] + prefix[i + 1..];
      assert rest[|rest| - 1] == rows[n - 1];
    } else {
      assert rows[..i] + rows[i + 1..] == rows[..n - 1];
    }
  }

  /** Taking the element at `i` out of a sequence takes one copy of it out
      of the multiset. */
  lemma MultisetRemove<T>(s: seq<T>, i: nat)
    requires i < |s|
    ensures multiset(s[..i] + s[i + 1..]) == multiset(s) - multiset{s[i]}
  {
    assert s == s[..i] + [s[i]] + s[i + 1..];
    assert multiset(s) == multiset(s[..i]) + multiset{s[i]} + multiset(s[i + 1..]);
  }

  /** The sum of a bucket depends only on the multiset of rows. */
  lemma {:induction false} BucketSumPermutation(accept: Row -> Option<Entry>, rows: seq<Row>, rows': seq<Row>, base: string, size: string)
    requires multiset(rows) == multiset(rows')
    ensures BucketSum(accept, rows, base, size) == BucketSum(accept, rows', base, size)
    decreases |rows'|
  {
    if rows' != [] {
      var n := |rows'|;
      var x := rows'[n - 1];
      assert x in multiset(rows);
      var i :| 0 <= i < |rows| && rows[i] == x;
      var rest := rows[..i] + rows[i + 1..];
      MultisetRemove(rows, i);
      MultisetRemove(rows', n - 1);
      assert rows'[..n - 1] + rows'[n..] == rows'[..n - 1];
      assert multiset(rest) == multiset(rows'[..n - 1]);
      assert BucketSum(accept, rows', base, size)
        == BucketSum(accept, rows'[..n - 1], base, size) + Contribution(accept, x, base, size);
      BucketSumPermutation(accept, rest, rows'[..n - 1], base, size);
      BucketSumRemove(accept, rows, i, base, size);
    } else {
      assert |rows| == |multiset(rows)| == 0;
    }
  }

  lemma HasRowForPermutation(accept: Row -> Option<Entry>, rows: seq<Row>, rows': seq<Row>, base: string, size: string)
    requires multiset(rows) == multiset(rows')
    requires HasRowFor(accept, rows, base, size)
    ensures HasRowFor(accept, rows', base, size)
  {
    var i :| 0 <= i < |rows| && CountedIn(accept, rows[i], base, size);
    assert rows[i] in multiset(rows');
    var j :| 0 <= j < |rows'| && rows'[j] == rows[i];
  }

  /** The map does not depend on the order of the rows. */
  lemma TallyOrderIndependent(accept: Row -> Option<Entry>, rows: seq<Row>, rows': seq<Row>)
    requires multiset(rows) == multiset(rows')
    ensures Tally(accept, rows) == Tally(accept, rows')
  {
    var p, p' := Tally(accept, rows), Tally(accept, rows');
    forall base, size
      ensures (base in p && size in p[base]) <==> (base in p' && size in p'[base])
      ensures base in p && size in p[base] ==> p[base][size] == p'[base][size]
    {
      TallyBucket(accept, rows, base, size);
      TallyBucket(accept, rows', base, size);
      if HasRowFor(accept, rows, base, size) { HasRowForPermutation(accept, rows, rows', base, size); }
      if HasRowFor(accept, rows', base, size) { HasRowForPermutation(accept, rows', rows, base, size); }
      BucketSumPermutation(accept, rows, rows', base, size);
    }
    TallyNoEmptyProduct(accept, rows);
    TallyNoEmptyProduct(accept, rows');
    forall base | base in p ensures base in p' {
      var size :| size in p[base];
    }
    forall base | base in p' ensures base in p {
      var size :| size in p'[base];
    }
    forall base | base in p ensures p[base] == p'[base] {
      assert p[base].Keys == p'[base].Keys;
    }
  }

  // ---------------------------------------------------------------------
  // The properties of `load_orders`

  /** A bucket `products[base][size]` exists exactly when some accepted row
      has that base name and size key, and it holds the sum of their
      quantities. */
  lemma AggregateBucket(rows: seq<Row>, base: string, size: string)
    ensures var p := Aggregate(rows);
      (base in p && size in p[base]) <==> HasRowFor(Accept, rows, base, size)
    ensures var p := Aggregate(rows);
      base in p && size in p[base] ==> p[base][size] == BucketSum(Accept, rows, base, size)
  {
    TallyBucket(Accept, rows, base, size);
  }

  /** Every base name in the result has at least one size bucket. */
  lemma AggregateNoEmptyProduct(rows: seq<Row>)
    ensures forall base :: base in Aggregate(rows) ==> Aggregate(rows)[base] != map[]
  {
    TallyNoEmptyProduct(Accept, rows);
  }

  /** The result does not depend on the order of the rows. */
  lemma AggregateOrderIndependent(rows: seq<Row>, rows': seq<Row>)
    requires multiset(rows) == multiset(rows')
    ensures Aggregate(rows) == Aggregate(rows')
  {
    TallyOrderIndependent(Accept, rows, rows');
  }

  /** A name in which no separator occurs has no size. */
  lemma NoSeparatorNoSize(name: string)
    requires forall j :: 0 <= j < |name| ==> !IsSeparator(name[j])
    ensures Extract(name) == (name, None)
  {
    ExtractCases(name);
  }

  /** `A2` is not a size: `Gi - A2` is a product name of its own. */
  lemma UnsizedCodeExample()
    ensures Extract("Gi - A2") == ("Gi - A2", None)
  {
    var gi := "Gi - A2";
    assert gi[3] == '-' && forall j :: 0 <= j < |gi| && j != 3 ==> gi[j] != '-';
    assert forall j :: 0 <= j < |gi| ==> gi[j] != '/';
    assert LastIndexOf(gi, '-', |gi|) == Some(3);
    assert SkipSpaces(gi, 4) == 5 && SkipSpacesBack(gi, 7) == 7;
    assert !IsSizeToken(gi[5..7]);
    ExtractCases(gi);
  }

  /** So its rows are counted in the no-size bucket of `Gi - A2`. */
  lemma UnsizedCodeRow()
    ensures Accept(Row("Gi - A2", "3")) == Some(Entry("Gi - A2", NoSize, 3))
  {
    UnsizedCodeExample();
    var gi := "Gi - A2";
    assert gi[0..|gi|] == gi;
    StripUnique(gi, 0, gi);
    ParsedIsTrimmed("3");
  }
}
