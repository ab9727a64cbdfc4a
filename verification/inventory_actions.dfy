/**
 * `inventory-actions.ts`: deleting one product of the caller's
 * organization, and importing products from an uploaded spreadsheet or PDF.
 *
 * The file readers are not part of this model: an `Upload` carries the
 * rows the spreadsheet reader yields for the first sheet (each a map from
 * column header to cell text) and the text the PDF reader extracts. The
 * clock and the random SKU suffix, read once per row, are the functions
 * `clock` and `tag` of the row's position.
 */
module InventoryActions {
  import opened Wrappers
  import opened Text
  import opened Tables
  import opened TenantStore
  import opened DataActions

  // -----------------------------------------------------------------------
  // Delete
  // -----------------------------------------------------------------------

  /** The product exists and belongs to organization `org`. */
  predicate OwnsProduct(db: Db, org: OrgId, id: nat) {
    ProductById(db.products, id).Some? && ProductById(db.products, id).value.organizationId == org
  }

  /**
   * `deleteProduct`: refused without a caller, and refused alike for a
   * missing product and another organization's product; otherwise the
   * product is deleted.
   */
  method DeleteProduct(store: Store, who: Option<User>, id: nat) returns (r: Result<(), ActionError>)
    modifies store
    ensures who.None? ==> r == Err(Unauthorized) && store.Snapshot() == old(store.Snapshot())
    ensures who.Some? && !OwnsProduct(old(store.Snapshot()), who.value.organizationId, id) ==>
      r == Err(ProductNotFound) && store.Snapshot() == old(store.Snapshot())
    ensures who.Some? && OwnsProduct(old(store.Snapshot()), who.value.organizationId, id) ==>
      r == Ok(()) && store.Snapshot() == RemoveProduct(old(store.Snapshot()), id)
    ensures old(store.Valid()) ==> store.Valid()
  {
    if who.None? {
      return Err(Unauthorized);
    }
    var product := ProductById(store.products, id);
    if product.None? || product.value.organizationId != who.value.organizationId {
      return Err(ProductNotFound);
    }
    var o := store.DeleteProduct(id);
    r := Rethrow(o);
  }

  /**
   * Deleting an owned product removes exactly that row, in a store whose
   * product ids are unique: every other product, of this organization or
   * any other, stays, in order.
   */
  lemma {:induction false} DeleteRemovesOnlyThatRow(products: seq<Product>, i: nat)
    requires UniqueProducts(products) && i < |products|
    ensures WithoutProduct(products, products[i].id) == products[..i] + products[i + 1..]
  {
    var id, t := products[i].id, products[1..];
    WithoutProductCons(products, id);
    if i == 0 {
      WithoutAbsent(t, id);
      assert products[..0] + products[1..] == t;
    } else {
      UniqueTail(products);
      assert t[i - 1] == products[i];
      DeleteRemovesOnlyThatRow(t, i - 1);
      assert products[0].id != id;
      assert t[..i - 1] == products[1..i] && t[i..] == products[i + 1..];
      calc {
        WithoutProduct(products, id);
        [products[0]] + WithoutProduct(t, id);
        [products[0]] + (products[1..i] + products[i + 1..]);
        ([products[0]] + products[1..i]) + products[i + 1..];
        { assert [products[0]] + products[1..i] == products[..i]; }
        products[..i] + products[i + 1..];
      }
    }
  }

  lemma WithoutProductCons(products: seq<Product>, id: nat)
    requires products != []
    ensures WithoutProduct(products, id) ==
      (if products[0].id == id then [] else [products[0]]) + WithoutProduct(products[1..], id)
  {
  }

  lemma UniqueTail(products: seq<Product>)
    requires UniqueProducts(products) && products != []
    ensures UniqueProducts(products[1..])
  {
    forall a, b | 0 <= a < b < |products| - 1 ensures products[1..][a].id != products[1..][b].id {
      assert products[1..][a] == products[a + 1] && products[1..][b] == products[b + 1];
    }
  }

  lemma {:induction false} WithoutAbsent(products: seq<Product>, id: nat)
    requires forall p | p in products :: p.id != id
    ensures WithoutProduct(products, id) == products
  {
    if products != [] {
      WithoutAbsent(products[1..], id);
    }
  }

  // -----------------------------------------------------------------------
  // What an upload yields: drafts of products
  // -----------------------------------------------------------------------

  /** A product to import, before the store sees it; `None` quantity is `parseInt`'s NaN. */
  datatype ProductDraft = ProductDraft(name: string, sku: string, quantity: Option<int>)

  /** One row of the first sheet: column header to cell text. */
  type SheetRow = map<string, string>

  /** The uploaded file: its name, the spreadsheet reader's rows and the PDF reader's text. */
  datatype Upload = Upload(name: string, rows: seq<SheetRow>, text: string)

  function Cell(row: SheetRow, header: string): Option<string> {
    if header in row then Some(row[header]) else None
  }

  /** One spreadsheet row: Name or name, SKU or sku, Quantity or quantity, each with its default. */
  function SheetDraft(row: SheetRow, now: nat, tag: string): ProductDraft {
    ProductDraft(
      Or(Cell(row, "Name"), Or(Cell(row, "name"), "Imported Item " + Decimal(now))),
      Or(Cell(row, "SKU"), Or(Cell(row, "sku"), "SKU-" + tag)),
      ParseInt(Or(Cell(row, "Quantity"), Or(Cell(row, "quantity"), "0"))))
  }

  function SheetDrafts(rows: seq<SheetRow>, clock: nat -> nat, tag: nat -> string): (ds: seq<ProductDraft>)
    ensures |ds| == |rows|
    ensures forall i | 0 <= i < |rows| :: ds[i] == SheetDraft(rows[i], clock(i), tag(i))
  {
    seq(|rows|, i requires 0 <= i < |rows| => SheetDraft(rows[i], clock(i), tag(i)))
  }

  /** A row without any of the six cells imports one unit-less item: quantity 0, generated name and SKU. */
  lemma SheetDraftDefaults(row: SheetRow, now: nat, tag: string)
    requires "Name" !in row && "name" !in row && "SKU" !in row && "sku" !in row
    requires "Quantity" !in row && "quantity" !in row
    ensures SheetDraft(row, now, tag) == ProductDraft("Imported Item " + Decimal(now), "SKU-" + tag, Some(0))
  {
    assert Cell(row, "Name") == None && Cell(row, "name") == None;
    assert Cell(row, "SKU") == None && Cell(row, "sku") == None;
    assert Cell(row, "Quantity") == None && Cell(row, "quantity") == None;
    assert IntToString(0) == "0" by { assert Decimal(0) == [DigitChar(0)]; }
    ParseIntOfToString(0);
  }

  /** A Quantity cell holding an integer written in decimal imports that quantity. */
  lemma SheetQuantityOfNumber(row: SheetRow, now: nat, tag: string, q: int)
    requires "Quantity" in row && row["Quantity"] == IntToString(q)
    ensures SheetDraft(row, now, tag).quantity == Some(q)
  {
    ParseIntOfToString(q);
  }

  /** The lines of the PDF text that hold something other than whitespace, in order. */
  function NonBlank(lines: seq<string>): (r: seq<string>)
    ensures |r| <= |lines|
    ensures forall l | l in r :: l in lines && !IsBlank(l)
    ensures forall l | l in lines && !IsBlank(l) :: l in r
  {
    if lines == [] then []
    else if IsBlank(lines[0]) then NonBlank(lines[1..])
    else [lines[0]] + NonBlank(lines[1..])
  }

  /**
   * One more line of the text is kept, after the lines kept before it,
   * exactly when it is not blank: the filter keeps order and duplicates.
   */
  lemma {:induction false} NonBlankAppend(lines: seq<string>, l: string)
    ensures NonBlank(lines + [l]) == NonBlank(lines) + (if IsBlank(l) then [] else [l])
  {
    if lines != [] {
      assert (lines + [l])[1..] == lines[1..] + [l];
      NonBlankAppend(lines[1..], l);
    }
  }

  function PdfSku(index: nat, now: nat): string {
    "PDF-SKU-" + (Decimal(index) + "-" + Decimal(now))
  }

  /** A line with some whitespace in it becomes a product named by its text before that whitespace. */
  function PdfDraft(line: string, index: nat, now: nat): (d: Option<ProductDraft>)
    ensures d.Some? <==> exists k | 0 <= k < |line| :: IsWhitespace(line[k])
    ensures d.Some? ==> d.value == ProductDraft(line[..FirstWhitespace(line)], PdfSku(index, now), Some(1))
  {
    var parts := SplitWhitespace(line);
    if |parts| >= 2 then Some(ProductDraft(parts[0], PdfSku(index, now), Some(1))) else None
  }

  /** The value an optional result holds, as a sequence of zero or one elements. */
  function Yielded<T>(d: Option<T>): (r: seq<T>)
    ensures |r| <= 1
  {
    if d.Some? then [d.value] else []
  }

  /**
   * `lines.map((line, index) => …).filter(item => item !== null)`: the values
   * `f` gives the lines, each with its number counted from `from`, in order,
   * the nulls dropped.
   */
  function Collect<T>(lines: seq<string>, from: nat, f: (string, nat) -> Option<T>): (r: seq<T>)
    ensures |r| <= |lines|
    decreases |lines|
  {
    if lines == [] then [] else Yielded(f(lines[0], from)) + Collect(lines[1..], from + 1, f)
  }

  /** Every value collected is what `f` gives one of the lines under that line's number. */
  lemma {:induction false} CollectedFrom<T>(lines: seq<string>, from: nat, f: (string, nat) -> Option<T>, x: T)
    requires x in Collect(lines, from, f)
    ensures exists i | 0 <= i < |lines| :: f(lines[i], from + i) == Some(x)
    decreases |lines|
  {
    assert lines != [];
    CollectCons(lines, from, f);
    if x in Yielded(f(lines[0], from)) {
      assert f(lines[0], from + 0) == Some(x);
    } else {
      CollectedFrom(lines[1..], from + 1, f, x);
      var j :| 0 <= j < |lines| - 1 && f(lines[1..][j], from + 1 + j) == Some(x);
      assert lines[1..][j] == lines[j + 1] && from + 1 + j == from + (j + 1);
    }
  }

  /**
   * One more line adds, after the values of the lines before it, exactly the
   * value that line yields under its own number, or nothing.
   */
  lemma {:induction false} CollectAppend<T>(lines: seq<string>, l: string, from: nat, f: (string, nat) -> Option<T>)
    ensures Collect(lines + [l], from, f) == Collect(lines, from, f) + Yielded(f(l, from + |lines|))
    decreases |lines|
  {
    var all := lines + [l];
    var last := Yielded(f(l, from + |lines|));
    CollectCons(all, from, f);
    if lines == [] {
      assert all[0] == l && all[1..] == [];
    } else {
      var tail := lines[1..];
      assert all[0] == lines[0] && all[1..] == tail + [l];
      assert from + 1 + |tail| == from + |lines|;
      CollectAppend(tail, l, from + 1, f);
      CollectCons(lines, from, f);
      var first := Yielded(f(lines[0], from));
      calc {
        Collect(all, from, f);
        first + Collect(tail + [l], from + 1, f);
        first + (Collect(tail, from + 1, f) + last);
        (first + Collect(tail, from + 1, f)) + last;
      }
    }
  }

  lemma CollectCons<T>(lines: seq<string>, from: nat, f: (string, nat) -> Option<T>)
    requires lines != []
    ensures Collect(lines, from, f) == Yielded(f(lines[0], from)) + Collect(lines[1..], from + 1, f)
  {
  }

  /** The PDF branch's per-line mapping, with the clock read for each line. */
  function LineDraft(clock: nat -> nat): (string, nat) -> Option<ProductDraft> {
    (line: string, i: nat) => PdfDraft(line, i, clock(i))
  }

  /** The products of the PDF's non-blank `lines`, the first of which is line number `from`. */
  function PdfDrafts(lines: seq<string>, from: nat, clock: nat -> nat): (ds: seq<ProductDraft>)
    ensures |ds| <= |lines|
    ensures forall d | d in ds :: d.quantity == Some(1)
    ensures forall d | d in ds :: exists i | from <= i < from + |lines| :: d.sku == PdfSku(i, clock(i))
  {
    var ds := Collect(lines, from, LineDraft(clock));
    assert forall d | d in ds :: d.quantity == Some(1) && exists i | from <= i < from + |lines| :: d.sku == PdfSku(i, clock(i)) by {
      forall d | d in ds ensures d.quantity == Some(1) && exists i | from <= i < from + |lines| :: d.sku == PdfSku(i, clock(i)) {
        CollectedPdfDraft(lines, from, clock, d);
      }
    }
    ds
  }

  lemma CollectedPdfDraft(lines: seq<string>, from: nat, clock: nat -> nat, d: ProductDraft)
    requires d in Collect(lines, from, LineDraft(clock))
    ensures d.quantity == Some(1) && exists i | from <= i < from + |lines| :: d.sku == PdfSku(i, clock(i))
  {
    CollectedFrom(lines, from, LineDraft(clock), d);
    var k :| 0 <= k < |lines| && LineDraft(clock)(lines[k], from + k) == Some(d);
    assert PdfDraft(lines[k], from + k, clock(from + k)) == Some(d);
    assert d.sku == PdfSku(from + k, clock(from + k));
  }

  /**
   * The products of a PDF are, in order, those its lines yield: one more
   * line adds exactly the product it yields under its own number, or nothing.
   */
  lemma PdfDraftsAppend(lines: seq<string>, l: string, from: nat, clock: nat -> nat)
    ensures PdfDrafts(lines + [l], from, clock) ==
      PdfDrafts(lines, from, clock) + Yielded(PdfDraft(l, from + |lines|, clock(from + |lines|)))
  {
    var n, f := from + |lines|, LineDraft(clock);
    CollectAppend(lines, l, from, f);
    assert Yielded(f(l, n)) == Yielded(PdfDraft(l, n, clock(n)));
    calc {
      PdfDrafts(lines + [l], from, clock);
      Collect(lines + [l], from, f);
      Collect(lines, from, f) + Yielded(f(l, n));
      PdfDrafts(lines, from, clock) + Yielded(PdfDraft(l, n, clock(n)));
    }
  }

  /** The first line's product, if any, comes before those of the lines after it. */
  lemma PdfDraftsCons(lines: seq<string>, from: nat, clock: nat -> nat)
    requires lines != []
    ensures PdfDrafts(lines, from, clock) ==
      Yielded(PdfDraft(lines[0], from, clock(from))) + PdfDrafts(lines[1..], from + 1, clock)
  {
  }

  /** A PDF SKU determines its line number and its time: no '-' appears in a decimal numeral. */
  lemma PdfSkuInjective(i: nat, t: nat, j: nat, u: nat)
    requires PdfSku(i, t) == PdfSku(j, u)
    ensures i == j && t == u
  {
    var x, y := Decimal(i), Decimal(j);
    var a, b := x + "-" + Decimal(t), y + "-" + Decimal(u);
    PrefixCancels("PDF-SKU-", a, b);
    NumeralThenDash(x, Decimal(t), y, Decimal(u));
  }

  lemma PrefixCancels(p: string, a: string, b: string)
    requires p + a == p + b
    ensures a == b
  {
    assert a == (p + a)[|p|..];
  }

  /** `x-y` with a numeral `x` splits at its first '-' only. */
  lemma NumeralThenDash(x: string, y: string, x2: string, y2: string)
    requires AllDigitsIn(x, 10) && AllDigitsIn(x2, 10)
    requires x + "-" + y == x2 + "-" + y2
    ensures x == x2 && y == y2
  {
    var s := x + "-" + y;
    DashAfterNumeral(x, y);
    DashAfterNumeral(x2, y2);
    assert x == s[..|x|] && x2 == s[..|x2|];
    assert y == s[|x| + 1..] && y2 == s[|x2| + 1..];
  }

  lemma DashAfterNumeral(x: string, y: string)
    requires AllDigitsIn(x, 10)
    ensures IndexOf(x + "-" + y, '-') == |x|
  {
    var s := x + "-" + y;
    forall k | 0 <= k < |x| ensures s[k] != '-' {
      assert s[k] == x[k] && IsDigitIn(x[k], 10);
    }
    assert s[|x|] == '-';
  }

  /** The products one PDF yields have pairwise distinct SKUs, so none of them hides another. */
  lemma {:induction false} PdfDraftsDistinctSkus(lines: seq<string>, from: nat, clock: nat -> nat)
    ensures DistinctSkus(PdfDrafts(lines, from, clock))
  {
    if lines != [] {
      PdfDraftsDistinctSkus(lines[1..], from + 1, clock);
      var rest := PdfDrafts(lines[1..], from + 1, clock);
      var head := PdfDraft(lines[0], from, clock(from));
      if head.Some? {
        forall k | 0 <= k < |rest| ensures rest[k].sku != head.value.sku {
          LaterLineSku(lines[1..], from + 1, clock, rest[k], from, clock(from));
        }
        DistinctCons(head.value, rest);
      }
    }
  }

  predicate DistinctSkus(ds: seq<ProductDraft>) {
    forall j, k | 0 <= j < k < |ds| :: ds[j].sku != ds[k].sku
  }

  lemma DistinctCons(d: ProductDraft, ds: seq<ProductDraft>)
    requires DistinctSkus(ds) && forall k | 0 <= k < |ds| :: ds[k].sku != d.sku
    ensures DistinctSkus([d] + ds)
  {
    var r := [d] + ds;
    forall j, k | 0 <= j < k < |r| ensures r[j].sku != r[k].sku {
      if j > 0 {
        assert r[j] == ds[j - 1] && r[k] == ds[k - 1];
      }
    }
  }

  /** A draft of lines numbered from `from` on does not carry the SKU of an earlier line. */
  lemma LaterLineSku(lines: seq<string>, from: nat, clock: nat -> nat, d: ProductDraft, earlier: nat, t: nat)
    requires d in PdfDrafts(lines, from, clock) && earlier < from
    ensures d.sku != PdfSku(earlier, t)
  {
    var i :| from <= i < from + |lines| && d.sku == PdfSku(i, clock(i));
    if d.sku == PdfSku(earlier, t) {
      PdfSkuInjective(i, clock(i), earlier, t);
    }
  }

  /** A line ending in a carriage return, as every line of a CRLF text does, always yields a product. */
  lemma CrlfLineYieldsProduct(line: string, index: nat, now: nat)
    ensures PdfDraft(line + "\r", index, now).Some?
  {
    var s := line + "\r";
    assert IsWhitespace(s[|line|]);
  }

  /** The drafts of an upload: spreadsheets by row, PDFs by non-blank line, any other file none. */
  function DraftsOf(file: Upload, clock: nat -> nat, tag: nat -> string): seq<ProductDraft> {
    if EndsWith(file.name, ".xlsx") || EndsWith(file.name, ".xls") || EndsWith(file.name, ".csv") then
      SheetDrafts(file.rows, clock, tag)
    else if EndsWith(file.name, ".pdf") then
      PdfDrafts(NonBlank(Split(file.text, '\n')), 0, clock)
    else []
  }

  /** The extension test is case-sensitive: an upper-case `.XLSX` name yields nothing. */
  lemma UpperCaseExtensionIgnored(rows: seq<SheetRow>, text: string, clock: nat -> nat, tag: nat -> string)
    ensures DraftsOf(Upload("STOCK.XLSX", rows, text), clock, tag) == []
  {
    var n := "STOCK.XLSX";
    assert n[|n| - 5..] != ".xlsx" by { assert n[|n| - 4] == 'X'; }
    assert n[|n| - 4..] != ".xls" && n[|n| - 4..] != ".csv" && n[|n| - 4..] != ".pdf" by {
      assert n[|n| - 3] == 'L';
    }
  }

  // -----------------------------------------------------------------------
  // Import: each draft in turn, skipping a SKU the organization already has
  // -----------------------------------------------------------------------

  /** One draft: kept out if the SKU exists in `org`; otherwise created, or dropped when the store refuses it. */
  function ImportOne(db: Db, org: OrgId, d: ProductDraft): Db {
    if HasSku(db.products, org, d.sku) then db
    else if ProductWrite(db, d.quantity, org).Done? then AddProduct(db, d.name, d.sku, d.quantity.value, org)
    else db
  }

  /** The drafts imported in order. */
  function ImportAll(db: Db, org: OrgId, ds: seq<ProductDraft>): (r: Db)
    // Only products change, and only by appending.
    ensures r.(products := db.products, nextId := db.nextId) == db
    ensures db.products <= r.products && |r.products| <= |db.products| + |ds|
    ensures r.nextId == db.nextId + (|r.products| - |db.products|)
    // Each new product is a draft, stamped with the caller's organization and a fresh id,
    // whose SKU the organization did not have before it.
    ensures forall k | |db.products| <= k < |r.products| ::
      && r.products[k].organizationId == org
      && r.products[k].id == db.nextId + (k - |db.products|)
      && !HasSku(r.products[..k], org, r.products[k].sku)
      && exists d | d in ds :: d.name == r.products[k].name && d.sku == r.products[k].sku
                                && d.quantity == Some(r.products[k].quantity)
    decreases |ds|
  {
    if ds == [] then db
    else
      var d := ds[|ds| - 1];
      var before := ImportAll(db, org, ds[..|ds| - 1]);
      var r := ImportOne(before, org, d);
      var n := |before.products|;
      assert r == before || (
        && !HasSku(before.products, org, d.sku) && d.quantity.Some?
        && r.products == before.products + [Product(before.nextId, d.name, d.sku, d.quantity.value, org)]
        && r.nextId == before.nextId + 1 && r.(products := before.products, nextId := before.nextId) == before);
      assert r != before ==> r.products[..n] == before.products && d in ds;
      assert forall k | |db.products| <= k < n :: r.products[..k] == before.products[..k] && r.products[k] == before.products[k];
      assert forall x | x in ds[..|ds| - 1] :: x in ds;
      r
  }

  /**
   * `importProducts`: refused without a caller or without a file;
   * otherwise imports the upload's drafts one after another, each failure
   * caught and skipped, and succeeds.
   */
  method ImportProducts(store: Store, who: Option<User>, file: Option<Upload>, clock: nat -> nat, tag: nat -> string)
    returns (r: Result<(), ActionError>)
    modifies store
    ensures who.None? ==> r == Err(Unauthorized) && store.Snapshot() == old(store.Snapshot())
    ensures who.Some? && file.None? ==> r == Err(NoFileUploaded) && store.Snapshot() == old(store.Snapshot())
    ensures who.Some? && file.Some? ==>
      r == Ok(()) &&
      store.Snapshot() == ImportAll(old(store.Snapshot()), who.value.organizationId, DraftsOf(file.value, clock, tag))
    ensures old(store.Valid()) ==> store.Valid()
  {
    if who.None? {
      return Err(Unauthorized);
    }
    if file.None? {
      return Err(NoFileUploaded);
    }
    var org := who.value.organizationId;
    var drafts := DraftsOf(file.value, clock, tag);
    for i := 0 to |drafts|
      invariant store.Snapshot() == ImportAll(old(store.Snapshot()), org, drafts[..i])
    {
      var d := drafts[i];
      if !HasSku(store.products, org, d.sku) {
        var outcome := store.CreateProduct(d.name, d.sku, d.quantity, org);
      }
      assert drafts[..i + 1][..i] == drafts[..i];
    }
    assert drafts[..|drafts|] == drafts;
    if Tables.Valid(old(store.Snapshot())) {
      ImportAllKeepsValid(old(store.Snapshot()), org, drafts);
    }
    r := Ok(());
  }

  // -----------------------------------------------------------------------
  // Properties of the import
  // -----------------------------------------------------------------------

  lemma {:induction false} ImportAllKeepsValid(db: Db, org: OrgId, ds: seq<ProductDraft>)
    requires Valid(db)
    ensures Valid(ImportAll(db, org, ds))
    decreases |ds|
  {
    if ds != [] {
      var before := ImportAll(db, org, ds[..|ds| - 1]);
      ImportAllKeepsValid(db, org, ds[..|ds| - 1]);
      var d := ds[|ds| - 1];
      if !HasSku(before.products, org, d.sku) && ProductWrite(before, d.quantity, org).Done? {
        AddProductValid(before, d.name, d.sku, d.quantity.value, org);
      }
    }
  }

  /** After an import, each draft is settled: its SKU is in the organization, or the store refuses it. */
  predicate SkuSettled(db: Db, org: OrgId, d: ProductDraft) {
    HasSku(db.products, org, d.sku) || ProductWrite(db, d.quantity, org).Refused?
  }

  lemma {:induction false} ImportAllSettles(db: Db, org: OrgId, ds: seq<ProductDraft>)
    ensures forall d | d in ds :: SkuSettled(ImportAll(db, org, ds), org, d)
    decreases |ds|
  {
    if ds != [] {
      var init := ds[..|ds| - 1];
      var before := ImportAll(db, org, init);
      var r := ImportAll(db, org, ds);
      ImportAllSettles(db, org, init);
      forall d | d in ds ensures SkuSettled(r, org, d) {
        if d in init {
          assert SkuSettled(before, org, d);
          if HasSku(before.products, org, d.sku) {
            var p :| p in before.products && p.organizationId == org && p.sku == d.sku;
            assert p in r.products;
          }
        } else {
          assert d == ds[|ds| - 1] by {
            assert ds == init + [ds[|ds| - 1]];
          }
          if !HasSku(before.products, org, d.sku) && ProductWrite(before, d.quantity, org).Done? {
            assert r.products[|before.products|].sku == d.sku;
          }
        }
      }
    }
  }

  lemma {:induction false} ImportAllOfSettled(db: Db, org: OrgId, ds: seq<ProductDraft>)
    requires forall d | d in ds :: SkuSettled(db, org, d)
    ensures ImportAll(db, org, ds) == db
    decreases |ds|
  {
    if ds != [] {
      assert forall d | d in ds[..|ds| - 1] :: d in ds;
      ImportAllOfSettled(db, org, ds[..|ds| - 1]);
      assert ds[|ds| - 1] in ds;
    }
  }

  /** Uploading the same drafts a second time adds nothing: no SKU is duplicated within an organization. */
  lemma ImportIdempotent(db: Db, org: OrgId, ds: seq<ProductDraft>)
    ensures ImportAll(ImportAll(db, org, ds), org, ds) == ImportAll(db, org, ds)
  {
    ImportAllSettles(db, org, ds);
    ImportAllOfSettled(ImportAll(db, org, ds), org, ds);
  }

  /** The products one import creates have pairwise distinct SKUs, however often a SKU repeats in the file. */
  lemma ImportAddsDistinctSkus(db: Db, org: OrgId, ds: seq<ProductDraft>)
    ensures var r := ImportAll(db, org, ds);
      forall j, k | |db.products| <= j < k < |r.products| :: r.products[j].sku != r.products[k].sku
  {
    var r := ImportAll(db, org, ds);
    forall j, k | |db.products| <= j < k < |r.products| ensures r.products[j].sku != r.products[k].sku {
      assert r.products[j] in r.products[..k];
    }
  }

  /** A draft whose quantity does not parse has no effect anywhere in the sequence. */
  lemma {:induction false} UnparsedDraftIsSkipped(
    db: Db, org: OrgId, left: seq<ProductDraft>, d: ProductDraft, right: seq<ProductDraft>)
    requires d.quantity.None?
    ensures ImportAll(db, org, left + [d] + right) == ImportAll(db, org, left + right)
    decreases |right|
  {
    if right == [] {
      ImportAllStep(db, org, left, d);
      assert left + [d] + right == left + [d];
      assert left + right == left;
    } else {
      var init, last := right[..|right| - 1], right[|right| - 1];
      UnparsedDraftIsSkipped(db, org, left, d, init);
      assert left + [d] + right == (left + [d] + init) + [last];
      assert left + right == (left + init) + [last];
      ImportAllStep(db, org, left + [d] + init, last);
      ImportAllStep(db, org, left + init, last);
    }
  }

  /** `ImportAll` over one more draft is `ImportOne` after it. */
  lemma ImportAllStep(db: Db, org: OrgId, ds: seq<ProductDraft>, d: ProductDraft)
    ensures ImportAll(db, org, ds + [d]) == ImportOne(ImportAll(db, org, ds), org, d)
  {
    assert (ds + [d])[..|ds + [d]| - 1] == ds;
  }
}
