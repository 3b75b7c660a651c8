/** What confirmations and stock changes keep: the SKU index, unique SKUs, the ledger, and
    exactly-once confirmation. */
module InventoryTheorems {
  import opened Entities
  import opened Text
  import opened Inventory

  // ----- the SKU index -----

  ghost predicate Lists(index: Index, key: string, id: ProductId) { id in Lookup(index, key) }

  /** The index lists under each key exactly the products with that folded SKU. */
  lemma {:induction false} SkuIndexIsExact(products: seq<Product>, key: string, id: ProductId)
    ensures Lists(SkuIndex(products), key, id) <==> id < |products| && Fold(products[id].sku) == key
  {
    if products != [] {
      SkuIndexIsExact(products[..|products| - 1], key, id);
    }
  }

  lemma {:induction false} BarcodeIndexIsExact(products: seq<Product>, key: string, id: ProductId)
    ensures Lists(BarcodeIndex(products), key, id) <==> id < |products| && products[id].barcode == Some(key)
  {
    if products != [] {
      BarcodeIndexIsExact(products[..|products| - 1], key, id);
    }
  }

  /** The index only looks at the SKUs. */
  lemma {:induction false} SkuIndexDependsOnSkus(products: seq<Product>, others: seq<Product>)
    requires |products| == |others| && forall i :: 0 <= i < |products| ==> products[i].sku == others[i].sku
    ensures SkuIndex(products) == SkuIndex(others)
  {
    if products != [] {
      SkuIndexDependsOnSkus(products[..|products| - 1], others[..|others| - 1]);
    }
  }

  ghost predicate UniqueSkus(products: seq<Product>) {
    forall i, j :: 0 <= i < j < |products| ==> Fold(products[i].sku) != Fold(products[j].sku)
  }

  /** The working indexes of the loop: the SKU index is rebuilt at no point and yet always right;
      both only name products that exist. */
  ghost predicate WorkInv(w: Work) {
    && w.bySku == SkuIndex(w.products)
    && (forall key, id: ProductId :: Lists(w.byBarcode, key, id) ==> id < |w.products|)
  }

  lemma NewProductExtendsIndex(w: Work, item: Item)
    requires WorkInv(w) && IsNew(w, item)
    ensures WithProduct(w, item).bySku == SkuIndex(WithProduct(w, item).products)
  {
    assert WithProduct(w, item).products[..|w.products|] == w.products;
  }

  lemma NewSkuIsFree(w: Work, item: Item, id: ProductId)
    requires WorkInv(w) && SkuMatches(w, item) == [] && id < |w.products|
    ensures Fold(w.products[id].sku) != Fold(NormalSku(item))
  {
    SkuIndexIsExact(w.products, Fold(NormalSku(item)), id);
  }

  lemma NewProductKeepsIndex(w: Work, item: Item)
    requires WorkInv(w) && IsNew(w, item)
    ensures var after := WithProduct(w, item);
      && after.bySku == SkuIndex(after.products)
      && (UniqueSkus(w.products) ==> UniqueSkus(after.products))
  {
    NewProductExtendsIndex(w, item);
    forall id: ProductId | id < |w.products|
      ensures Fold(w.products[id].sku) != Fold(NormalSku(item))
    {
      NewSkuIsFree(w, item, id);
    }
  }

  lemma BarcodesNameProducts(w: Work, item: Item)
    requires WorkInv(w)
    ensures var after := WithProduct(w, item);
      forall key, id: ProductId :: Lists(after.byBarcode, key, id) ==> id < |after.products|
  {
    var after := WithProduct(w, item);
    forall key, id: ProductId | Lists(after.byBarcode, key, id)
      ensures id < |after.products|
    {
      assert Lists(w.byBarcode, key, id) || (IsNew(w, item) && id == |w.products|);
    }
  }

  lemma LineKeepsIndex(w: Work, item: Item, request: Request, index: nat, source: Scope)
    requires WorkInv(w)
    ensures WorkInv(ApplyLine(w, item, request, index, source))
    ensures UniqueSkus(w.products) ==> UniqueSkus(ApplyLine(w, item, request, index, source).products)
  {
    BarcodesNameProducts(w, item);
    if IsNew(w, item) {
      NewProductKeepsIndex(w, item);
    } else {
      SkuIndexDependsOnSkus(WithProduct(w, item).products, w.products);
    }
  }

  /** A line goes to the product with its SKU if there is one; a new product is made only when no
      product has the SKU, and it is appended. */
  lemma LineGoesToItsSku(w: Work, item: Item)
    requires WorkInv(w)
    ensures SkuMatches(w, item) != [] ==>
      Resolved(w, item) < |w.products| && Fold(w.products[Resolved(w, item)].sku) == Fold(NormalSku(item))
    ensures SkuMatches(w, item) == [] <==>
      forall i :: 0 <= i < |w.products| ==> Fold(w.products[i].sku) != Fold(NormalSku(item))
    ensures IsNew(w, item) <==> Resolved(w, item) == |w.products|
    ensures Resolved(w, item) <= |w.products|
  {
    var key, matches, barcodes := Fold(NormalSku(item)), SkuMatches(w, item), BarcodeMatches(w, item);
    if matches != [] {
      assert Lists(w.bySku, key, matches[0]);
      SkuIndexIsExact(w.products, key, matches[0]);
    } else {
      forall i | 0 <= i < |w.products|
        ensures Fold(w.products[i].sku) != key
      {
        SkuIndexIsExact(w.products, key, i);
      }
    }
    assert barcodes != [] ==> Lists(w.byBarcode, CleanOptional(item.barcode).value, barcodes[0]);
  }

  lemma NewProductExtendsBarcodes(w: Work, item: Item)
    requires w.byBarcode == BarcodeIndex(w.products) && IsNew(w, item)
    ensures WithProduct(w, item).byBarcode == BarcodeIndex(WithProduct(w, item).products)
  {
    assert WithProduct(w, item).products[..|w.products|] == w.products;
  }

  /** A product that takes another barcode is not listed under it. */
  lemma MovedBarcodeIsStale(w: Work, item: Item, barcode: string)
    requires w.byBarcode == BarcodeIndex(w.products) && !IsNew(w, item) && Resolved(w, item) < |w.products|
    requires CleanOptional(item.barcode) == Some(barcode) && w.products[Resolved(w, item)].barcode != Some(barcode)
    ensures WithProduct(w, item).byBarcode != BarcodeIndex(WithProduct(w, item).products)
  {
    var id := Resolved(w, item);
    BarcodeIndexIsExact(w.products, barcode, id);
    BarcodeIndexIsExact(WithProduct(w, item).products, barcode, id);
    assert Lists(BarcodeIndex(WithProduct(w, item).products), barcode, id);
  }

  /** The barcode index does go stale: after a line it agrees with the products, if it did before,
      exactly when the line made a new product or left the matched product's barcode as it was. */
  lemma BarcodeIndexStaysExactly(w: Work, item: Item, request: Request, index: nat, source: Scope)
    requires WorkInv(w) && w.byBarcode == BarcodeIndex(w.products)
    ensures var after := ApplyLine(w, item, request, index, source);
      after.byBarcode == BarcodeIndex(after.products) <==>
      || CleanOptional(item.barcode).None?
      || Resolved(w, item) == |w.products|
      || (Resolved(w, item) < |w.products| && w.products[Resolved(w, item)].barcode == CleanOptional(item.barcode))
  {
    LineGoesToItsSku(w, item);
    if IsNew(w, item) {
      NewProductExtendsBarcodes(w, item);
    } else if MovesNoBarcode(w, item) {
      BarcodeIndexDependsOnBarcodes(WithProduct(w, item).products, w.products);
    } else {
      MovedBarcodeIsStale(w, item, CleanOptional(item.barcode).value);
    }
  }

  // ----- when barcodes stay distinct -----

  ghost predicate DistinctBarcodes(products: seq<Product>) {
    forall i, j :: 0 <= i < j < |products| && products[i].barcode.Some? ==> products[i].barcode != products[j].barcode
  }

  /** No product but the one the line goes to has the line's barcode. */
  ghost predicate BarcodeIsFree(w: Work, item: Item) {
    CleanOptional(item.barcode).Some? ==>
      forall id: ProductId :: id < |w.products| && id != Resolved(w, item) ==>
        w.products[id].barcode != CleanOptional(item.barcode)
  }

  /** The barcodes after a line: only the line's own product takes a new one. */
  lemma BarcodesAfterLine(w: Work, item: Item, request: Request, index: nat, source: Scope)
    requires WorkInv(w)
    ensures var after, id := ApplyLine(w, item, request, index, source).products, Resolved(w, item);
      && id < |after| && |w.products| <= |after| <= |w.products| + 1
      && (|after| > |w.products| ==> id == |w.products|)
      && (forall other: ProductId :: other < |w.products| && other != id ==>
            after[other].barcode == w.products[other].barcode)
      && after[id].barcode == (if CleanOptional(item.barcode).Some? then CleanOptional(item.barcode)
                               else if id < |w.products| then w.products[id].barcode else None)
  {
    LineGoesToItsSku(w, item);
  }

  /** A line keeps barcodes distinct if and only if it has none or no other product has it. */
  lemma LineKeepsBarcodesExactly(w: Work, item: Item, request: Request, index: nat, source: Scope)
    requires WorkInv(w) && DistinctBarcodes(w.products)
    ensures DistinctBarcodes(ApplyLine(w, item, request, index, source).products) <==> BarcodeIsFree(w, item)
  {
    BarcodesAfterLine(w, item, request, index, source);
    var after, id := ApplyLine(w, item, request, index, source).products, Resolved(w, item);
    if other: ProductId :| CleanOptional(item.barcode).Some? && other < |w.products| && other != id
                           && w.products[other].barcode == CleanOptional(item.barcode) {
      assert after[if other < id then other else id].barcode == after[if other < id then id else other].barcode;
    }
  }

  /** While the barcode index is right, a line that is not refused finds its barcode free. */
  lemma RightIndexKeepsBarcodesFree(w: Work, item: Item)
    requires WorkInv(w) && w.byBarcode == BarcodeIndex(w.products) && MatchRefusal(w, item).None?
    ensures BarcodeIsFree(w, item)
  {
    if CleanOptional(item.barcode).Some? {
      var barcode, matches := CleanOptional(item.barcode).value, BarcodeMatches(w, item);
      forall id: ProductId | id < |w.products| && w.products[id].barcode == Some(barcode)
        ensures id == Resolved(w, item)
      {
        BarcodeIndexIsExact(w.products, barcode, id);
        assert Lists(w.byBarcode, barcode, id) && id in matches;
      }
    }
  }

  /** The line gives no existing product another barcode. */
  ghost predicate MovesNoBarcode(w: Work, item: Item) {
    || CleanOptional(item.barcode).None?
    || Resolved(w, item) >= |w.products|
    || w.products[Resolved(w, item)].barcode == CleanOptional(item.barcode)
  }

  ghost predicate LinesMoveNoBarcode(w: Work, request: Request, index: nat, source: Scope)
    requires index <= |request.items|
    decreases |request.items| - index
  {
    index < |request.items| ==>
      && MovesNoBarcode(w, request.items[index])
      && LinesMoveNoBarcode(ApplyLine(w, request.items[index], request, index, source), request, index + 1, source)
  }

  lemma LineKeepsBarcodes(w: Work, item: Item, request: Request, index: nat, source: Scope)
    requires WorkInv(w) && w.byBarcode == BarcodeIndex(w.products) && DistinctBarcodes(w.products)
    requires LineRefusal(w, item, request, index).None? && MovesNoBarcode(w, item)
    ensures var after := ApplyLine(w, item, request, index, source);
      WorkInv(after) && after.byBarcode == BarcodeIndex(after.products) && DistinctBarcodes(after.products)
  {
    LineGoesToItsSku(w, item);
    LineKeepsIndex(w, item, request, index, source);
    BarcodeIndexStaysExactly(w, item, request, index, source);
    RightIndexKeepsBarcodesFree(w, item);
    LineKeepsBarcodesExactly(w, item, request, index, source);
  }

  lemma {:induction false} LinesKeepBarcodes(w: Work, request: Request, index: nat, source: Scope)
    requires index <= |request.items| && ApplyLines(w, request, index, source).Worked?
    requires WorkInv(w) && w.byBarcode == BarcodeIndex(w.products) && DistinctBarcodes(w.products)
    requires LinesMoveNoBarcode(w, request, index, source)
    ensures DistinctBarcodes(ApplyLines(w, request, index, source).work.products)
    decreases |request.items| - index
  {
    if index < |request.items| {
      LineKeepsBarcodes(w, request.items[index], request, index, source);
      LinesKeepBarcodes(ApplyLine(w, request.items[index], request, index, source), request, index + 1, source);
    }
  }

  /** A confirmation in which no line gives an existing product another barcode leaves distinct
      barcodes distinct. */
  lemma ConfirmationKeepsBarcodes(s: State, scope: Scope, request: Request)
    requires DistinctBarcodes(s.products) && LinesMoveNoBarcode(Begin(s), request, 0, scope)
    ensures DistinctBarcodes(ConfirmIn(s, scope, request).products)
  {
    if ApplyLines(Begin(s), request, 0, scope).Worked? {
      BeginIsListed(s, request.items);
      LinesKeepBarcodes(Begin(s), request, 0, scope);
    }
  }

  // Two lines of one receipt: the first gives the one product its barcode, the second carries the
  // same barcode under another SKU.
  const SALT := Product("S", "s", "u", None, None)
  const SALT_LINE := Item(0, "s", "S", Some("1"), None, 1, "u")
  const RICE_LINE := Item(1, "r", "R", Some("1"), None, 1, "u")
  const SHOP := State({0}, [SALT], map[], [], map[])
  const DELIVERY := Request(0, "k", [SALT_LINE, RICE_LINE])

  lemma OneLetter(c: char)
    requires !IsSpace(c)
    ensures Strip([c]) == [c] && Upper([c]) == [UpperChar(c)] && Fold([c]) == [LowerChar(c)]
  {
  }

  lemma ShopIndexes()
    ensures SkuIndex([SALT]) == map["s" := [0]] && BarcodeIndex([SALT]) == map[]
  {
    OneLetter('S');
    assert [SALT][..0] == [] && SkuIndex([]) == map[] && BarcodeIndex([]) == map[];
    assert Fold(SALT.sku) == "s";
    var none: Index := map[];
    assert SkuIndex([SALT]) == AddTo(none, "s", 0) && Lookup(none, "s") + [0] == [0];
    assert BarcodeIndex([SALT]) == BarcodeIndex([SALT][..0]);
  }

  /** The first line finds the product and writes the barcode, which no index hears of. */
  lemma SaltGetsTheBarcode()
    ensures var w := Begin(SHOP);
      && LineRefusal(w, SALT_LINE, DELIVERY, 0).None?
      && ApplyLine(w, SALT_LINE, DELIVERY, 0, ReceiptScan).products == [SALT.(barcode := Some("1"))]
      && ApplyLine(w, SALT_LINE, DELIVERY, 0, ReceiptScan).bySku == map["s" := [0]]
      && ApplyLine(w, SALT_LINE, DELIVERY, 0, ReceiptScan).byBarcode == map[]
      && ApplyLine(w, SALT_LINE, DELIVERY, 0, ReceiptScan).onHand == map[Shelf(0, 0) := 1]
      && ApplyLine(w, SALT_LINE, DELIVERY, 0, ReceiptScan).events
         == [Event(Shelf(0, 0), 1, 1, ReceiptScan, LineKey("k", 0, 0))]
  {
    ShopIndexes();
    OneLetter('S');
    OneLetter('1');
    OneLetter('s');
    OneLetter('u');
  }

  lemma RiceGetsItToo(w: Work)
    requires w.products == [SALT.(barcode := Some("1"))] && w.bySku == map["s" := [0]] && w.byBarcode == map[]
    requires w.onHand == map[Shelf(0, 0) := 1]
             && w.events == [Event(Shelf(0, 0), 1, 1, ReceiptScan, LineKey("k", 0, 0))]
    ensures LineRefusal(w, RICE_LINE, DELIVERY, 1).None?
    ensures ApplyLine(w, RICE_LINE, DELIVERY, 1, ReceiptScan).products
         == [SALT.(barcode := Some("1")), Product("R", "r", "u", None, Some("1"))]
  {
    OneLetter('R');
    OneLetter('1');
    OneLetter('r');
    OneLetter('u');
  }

  /** What the stale index does: from a shop where all barcodes differ, one confirmation makes two
      products with one barcode. */
  lemma StaleIndexMakesTwins()
    ensures Opened(SHOP) && DistinctBarcodes(SHOP.products)
    ensures ConfirmResult(SHOP, ReceiptScan, DELIVERY).Answered?
    ensures var products := ConfirmIn(SHOP, ReceiptScan, DELIVERY).products;
      |products| == 2 && products[0].barcode == products[1].barcode == Some("1") && !DistinctBarcodes(products)
  {
    SaltGetsTheBarcode();
    var once := ApplyLine(Begin(SHOP), SALT_LINE, DELIVERY, 0, ReceiptScan);
    RiceGetsItToo(once);
    var twice := ApplyLine(once, RICE_LINE, DELIVERY, 1, ReceiptScan);
    assert ApplyLines(twice, DELIVERY, 2, ReceiptScan) == Worked(twice);
    assert ApplyLines(once, DELIVERY, 1, ReceiptScan) == Worked(twice);
    assert ApplyLines(Begin(SHOP), DELIVERY, 0, ReceiptScan) == Worked(twice);
  }

  lemma {:induction false} BarcodeIndexDependsOnBarcodes(products: seq<Product>, others: seq<Product>)
    requires |products| == |others| && forall i :: 0 <= i < |products| ==> products[i].barcode == others[i].barcode
    ensures BarcodeIndex(products) == BarcodeIndex(others)
  {
    if products != [] {
      BarcodeIndexDependsOnBarcodes(products[..|products| - 1], others[..|others| - 1]);
    }
  }

  // ----- what a confirmation adds -----

  /** What the lines that went to a product brought in. */
  function Brought(lines: seq<Line>, productId: ProductId): nat {
    if lines == [] then 0
    else
      var last := lines[|lines| - 1];
      Brought(lines[..|lines| - 1], productId) + (if last.productId == productId then last.quantity else 0)
  }

  function OnHand(onHand: map<Shelf, int>, shelf: Shelf): int {
    if shelf in onHand then onHand[shelf] else 0
  }

  /** One line for each item so far, in order, with its quantity. */
  ghost predicate LinesAnswer(lines: seq<Line>, items: seq<Item>) {
    && |lines| <= |items|
    && forall i :: 0 <= i < |lines| ==> lines[i].lineId == items[i].lineId && lines[i].quantity == items[i].quantity
  }

  /** Progress of the loop over the items, against where it began. */
  ghost predicate Progress(start: Work, w: Work, request: Request) {
    && WorkInv(w) && LinesAnswer(w.lines, request.items)
    && (UniqueSkus(start.products) ==> UniqueSkus(w.products))
    && |w.products| == |start.products| + CreatedCount(w.lines)
    && (forall i :: 0 <= i < |start.products| ==> w.products[i].sku == start.products[i].sku)
    && StockAddsUp(start.onHand, w, request)
  }

  ghost predicate StockAddsUp(onHand: map<Shelf, int>, w: Work, request: Request) {
    forall shelf :: OnHand(w.onHand, shelf)
                 == OnHand(onHand, shelf)
                    + (if shelf.storeId == request.storeId then Brought(w.lines, shelf.productId) else 0)
  }

  /** The stock after a line, seen through OnHand: only the line's shelf grows. */
  lemma LineAddsToOneShelf(w: Work, item: Item, request: Request, index: nat, source: Scope, shelf: Shelf)
    ensures OnHand(ApplyLine(w, item, request, index, source).onHand, shelf)
         == OnHand(w.onHand, shelf) + (if shelf == Shelf(request.storeId, Resolved(w, item)) then item.quantity else 0)
    ensures Brought(ApplyLine(w, item, request, index, source).lines, shelf.productId)
         == Brought(w.lines, shelf.productId) + (if Resolved(w, item) == shelf.productId then item.quantity else 0)
  {
    var after := ApplyLine(w, item, request, index, source);
    assert after.lines[..|after.lines| - 1] == w.lines;
  }

  lemma LineKeepsSkus(start: Work, w: Work, item: Item, request: Request, index: nat, source: Scope)
    requires |start.products| <= |w.products|
    requires forall i :: 0 <= i < |start.products| ==> w.products[i].sku == start.products[i].sku
    ensures var after := ApplyLine(w, item, request, index, source);
      && |start.products| <= |after.products|
      && forall i :: 0 <= i < |start.products| ==> after.products[i].sku == start.products[i].sku
  {
  }

  lemma LineAddsStock(onHand: map<Shelf, int>, w: Work, item: Item, request: Request, index: nat, source: Scope)
    requires StockAddsUp(onHand, w, request)
    ensures StockAddsUp(onHand, ApplyLine(w, item, request, index, source), request)
  {
    forall shelf {
      LineAddsToOneShelf(w, item, request, index, source, shelf);
    }
  }

  lemma LineShape(w: Work, item: Item, request: Request, index: nat, source: Scope) returns (line: Line)
    ensures var after := ApplyLine(w, item, request, index, source);
      && after.lines == w.lines + [line]
      && line.lineId == item.lineId && line.quantity == item.quantity
      && |after.products| == |w.products| + (if line.created then 1 else 0)
  {
    line := ApplyLine(w, item, request, index, source).lines[|w.lines|];
  }

  lemma OneMoreIsCounted(lines: seq<Line>, line: Line)
    ensures CreatedCount(lines + [line]) == CreatedCount(lines) + (if line.created then 1 else 0)
  {
    assert (lines + [line])[..|lines|] == lines;
  }

  lemma OneMoreAnswers(lines: seq<Line>, line: Line, items: seq<Item>)
    requires LinesAnswer(lines, items) && |lines| < |items|
    requires line.lineId == items[|lines|].lineId && line.quantity == items[|lines|].quantity
    ensures LinesAnswer(lines + [line], items)
  {
  }

  lemma LineIsAnswered(w: Work, request: Request, index: nat, source: Scope)
    requires LinesAnswer(w.lines, request.items) && index == |w.lines| < |request.items|
    ensures var after := ApplyLine(w, request.items[index], request, index, source);
      && LinesAnswer(after.lines, request.items)
      && |after.products| - CreatedCount(after.lines) == |w.products| - CreatedCount(w.lines)
  {
    var line := LineShape(w, request.items[index], request, index, source);
    OneMoreIsCounted(w.lines, line);
    OneMoreAnswers(w.lines, line, request.items);
  }

  lemma LineMakesProgress(start: Work, w: Work, request: Request, index: nat, source: Scope)
    requires Progress(start, w, request) && index == |w.lines| < |request.items|
    ensures Progress(start, ApplyLine(w, request.items[index], request, index, source), request)
  {
    var item := request.items[index];
    LineKeepsIndex(w, item, request, index, source);
    LineAddsStock(start.onHand, w, item, request, index, source);
    LineIsAnswered(w, request, index, source);
    LineKeepsSkus(start, w, item, request, index, source);
  }

  /** The lines from here on, if they all work, are one line and the rest. */
  lemma LinesGoOn(w: Work, request: Request, index: nat, source: Scope) returns (next: Work)
    requires index < |request.items| && ApplyLines(w, request, index, source).Worked?
    ensures next == ApplyLine(w, request.items[index], request, index, source) && |next.lines| == |w.lines| + 1
    ensures ApplyLines(w, request, index, source) == ApplyLines(next, request, index + 1, source)
  {
    next := ApplyLine(w, request.items[index], request, index, source);
  }

  lemma {:induction false} LinesMakeProgress(start: Work, w: Work, request: Request, index: nat, source: Scope)
    requires Progress(start, w, request) && index == |w.lines| <= |request.items|
    requires ApplyLines(w, request, index, source).Worked?
    ensures Progress(start, ApplyLines(w, request, index, source).work, request)
    ensures |ApplyLines(w, request, index, source).work.lines| == |request.items|
    decreases |request.items| - index
  {
    if index < |request.items| {
      var next := LinesGoOn(w, request, index, source);
      LineMakesProgress(start, w, request, index, source);
      LinesMakeProgress(start, next, request, index + 1, source);
    }
  }

  // ----- which product a line goes to -----

  /** The product was listed under the barcode when the confirmation began, or an earlier line of it
      made the product under that barcode. */
  ghost predicate ListedUnder(start: seq<Product>, items: seq<Item>, lines: seq<Line>, barcode: string, id: ProductId) {
    || (id < |start| && start[id].barcode == Some(barcode))
    || exists j :: 0 <= j < |lines| && j < |items| && lines[j].created && lines[j].productId == id
                   && CleanOptional(items[j].barcode) == Some(barcode)
  }

  /** Line i goes to the product with the item's SKU; if there is none among the products so far, to
      one that is listed under its barcode; and failing that to a new one with the SKU. */
  ghost predicate LineNames(start: seq<Product>, products: seq<Product>, items: seq<Item>, lines: seq<Line>, i: nat)
    requires i < |lines| && i < |items|
  {
    var sku, soFar := Fold(NormalSku(items[i])), |start| + CreatedCount(lines[..i]);
    && lines[i].productId < |products|
    && (lines[i].created <==> lines[i].productId == soFar)
    && (Fold(products[lines[i].productId].sku) != sku ==>
          && (forall id: ProductId :: id < soFar && id < |products| ==> Fold(products[id].sku) != sku)
          && CleanOptional(items[i].barcode).Some?
          && ListedUnder(start, items, lines[..i], CleanOptional(items[i].barcode).value, lines[i].productId))
  }

  ghost predicate LinesNameProducts(start: seq<Product>, products: seq<Product>, items: seq<Item>, lines: seq<Line>) {
    && |lines| <= |items|
    && forall i :: 0 <= i < |lines| ==> LineNames(start, products, items, lines, i)
  }

  ghost predicate BarcodesAreListed(start: seq<Product>, items: seq<Item>, w: Work) {
    forall barcode, id: ProductId :: Lists(w.byBarcode, barcode, id) ==> ListedUnder(start, items, w.lines, barcode, id)
  }

  /** Only new products are appended, and no line changes a SKU. */
  ghost predicate SkusStay(products: seq<Product>, after: seq<Product>) {
    |products| <= |after| && forall id :: 0 <= id < |products| ==> after[id].sku == products[id].sku
  }

  lemma EarlierLinesStillName(start: seq<Product>, products: seq<Product>, after: seq<Product>, items: seq<Item>,
                              lines: seq<Line>, line: Line, i: nat)
    requires i < |lines| && i < |items| && SkusStay(products, after) && |start| + CreatedCount(lines[..i]) <= |products|
    requires LineNames(start, products, items, lines, i)
    ensures LineNames(start, after, items, lines + [line], i)
  {
    assert (lines + [line])[..i] == lines[..i];
  }

  lemma {:induction false} CreatedCountGrows(lines: seq<Line>, i: nat)
    requires i <= |lines|
    ensures CreatedCount(lines[..i]) <= CreatedCount(lines)
  {
    if i < |lines| {
      assert lines[..|lines| - 1][..i] == lines[..i];
      CreatedCountGrows(lines[..|lines| - 1], i);
    } else {
      assert lines[..i] == lines;
    }
  }

  lemma NewLineNames(start: seq<Product>, w: Work, request: Request, index: nat, source: Scope)
    requires WorkInv(w) && index == |w.lines| < |request.items|
    requires |w.products| == |start| + CreatedCount(w.lines) && BarcodesAreListed(start, request.items, w)
    ensures var after := ApplyLine(w, request.items[index], request, index, source);
      LineNames(start, after.products, request.items, after.lines, index)
  {
    var item := request.items[index];
    var after := ApplyLine(w, item, request, index, source);
    LineGoesToItsSku(w, item);
    LineIsFor(w, item, request, index, source);
    assert after.lines[..index] == w.lines;
    var barcodes := BarcodeMatches(w, item);
    if SkuMatches(w, item) == [] && barcodes != [] {
      assert Lists(w.byBarcode, CleanOptional(item.barcode).value, barcodes[0]);
    }
  }

  /** The line that is added, and the product table's SKUs after it. */
  lemma LineIsFor(w: Work, item: Item, request: Request, index: nat, source: Scope)
    requires WorkInv(w)
    ensures var after := ApplyLine(w, item, request, index, source);
      && |after.lines| == |w.lines| + 1
      && after.lines[|w.lines|].productId == Resolved(w, item) && after.lines[|w.lines|].created == IsNew(w, item)
      && SkusStay(w.products, after.products)
      && |after.products| == |w.products| + (if IsNew(w, item) then 1 else 0)
      && (IsNew(w, item) ==> after.products[|w.products|].sku == NormalSku(item))
  {
  }

  lemma LineKeepsListed(start: seq<Product>, w: Work, request: Request, index: nat, source: Scope)
    requires index == |w.lines| < |request.items| && BarcodesAreListed(start, request.items, w)
    ensures BarcodesAreListed(start, request.items, ApplyLine(w, request.items[index], request, index, source))
  {
    var item := request.items[index];
    var after := ApplyLine(w, item, request, index, source);
    forall barcode, id: ProductId | Lists(after.byBarcode, barcode, id)
      ensures ListedUnder(start, request.items, after.lines, barcode, id)
    {
      if Lists(w.byBarcode, barcode, id) {
        ListedStays(start, request.items, w.lines, after.lines[index], barcode, id);
      } else {
        assert after.lines[index].created && after.lines[index].productId == id
               && CleanOptional(item.barcode) == Some(barcode);
      }
    }
  }

  lemma ListedStays(start: seq<Product>, items: seq<Item>, lines: seq<Line>, line: Line, barcode: string, id: ProductId)
    requires ListedUnder(start, items, lines, barcode, id)
    ensures ListedUnder(start, items, lines + [line], barcode, id)
  {
    if j :| 0 <= j < |lines| && j < |items| && lines[j].created && lines[j].productId == id
            && CleanOptional(items[j].barcode) == Some(barcode) {
      assert (lines + [line])[j] == lines[j];
    }
  }

  lemma LineKeepsNames(start: seq<Product>, w: Work, request: Request, index: nat, source: Scope)
    requires WorkInv(w) && index == |w.lines| < |request.items|
    requires |w.products| == |start| + CreatedCount(w.lines) && BarcodesAreListed(start, request.items, w)
    requires LinesNameProducts(start, w.products, request.items, w.lines)
    ensures var after := ApplyLine(w, request.items[index], request, index, source);
      LinesNameProducts(start, after.products, request.items, after.lines)
  {
    var after := ApplyLine(w, request.items[index], request, index, source);
    LineIsFor(w, request.items[index], request, index, source);
    var line := LineShape(w, request.items[index], request, index, source);
    NewLineNames(start, w, request, index, source);
    forall i | 0 <= i < |w.lines|
      ensures LineNames(start, after.products, request.items, after.lines, i)
    {
      CreatedCountGrows(w.lines, i);
      EarlierLinesStillName(start, w.products, after.products, request.items, w.lines, line, i);
    }
  }

  lemma {:induction false} LinesKeepNames(start: Work, w: Work, request: Request, index: nat, source: Scope)
    requires Progress(start, w, request) && index == |w.lines| <= |request.items|
    requires BarcodesAreListed(start.products, request.items, w)
    requires LinesNameProducts(start.products, w.products, request.items, w.lines)
    requires ApplyLines(w, request, index, source).Worked?
    ensures var after := ApplyLines(w, request, index, source).work;
      LinesNameProducts(start.products, after.products, request.items, after.lines)
    decreases |request.items| - index
  {
    if index < |request.items| {
      LineMakesProgress(start, w, request, index, source);
      LineKeepsListed(start.products, w, request, index, source);
      LineKeepsNames(start.products, w, request, index, source);
      var next := LinesGoOn(w, request, index, source);
      LinesKeepNames(start, next, request, index + 1, source);
    }
  }

  lemma BeginIsListed(s: State, items: seq<Item>)
    ensures WorkInv(Begin(s)) && BarcodesAreListed(s.products, items, Begin(s))
  {
    forall barcode, id: ProductId | Lists(BarcodeIndex(s.products), barcode, id)
      ensures id < |s.products| && s.products[id].barcode == Some(barcode)
    {
      BarcodeIndexIsExact(s.products, barcode, id);
    }
  }

  /** A first successful confirmation: one answer line per item in order, which names the product its
      SKU or barcode calls for; folded SKUs stay unique; the created count is the number of new
      products; and each product's stock in the store grows by exactly the quantities of the lines
      that went to it, every other shelf staying as it was. */
  lemma {:induction false} ConfirmationAddsUp(s: State, scope: Scope, request: Request)
    requires ScopedKey(scope, request.key) !in s.confirmations && ConfirmResult(s, scope, request).Answered?
    ensures var after, response := ConfirmIn(s, scope, request), ConfirmResult(s, scope, request).response;
      && |response.lines| == |request.items| && LinesAnswer(response.lines, request.items)
      && LinesNameProducts(s.products, after.products, request.items, response.lines)
      && (UniqueSkus(s.products) ==> UniqueSkus(after.products))
      && |after.products| == |s.products| + response.createdCount
      && response.createdCount + response.updatedCount == |request.items|
      && forall shelf :: OnHand(after.onHand, shelf) ==
           OnHand(s.onHand, shelf)
           + (if shelf.storeId == request.storeId then Brought(response.lines, shelf.productId) else 0)
  {
    BeginIsListed(s, request.items);
    LinesMakeProgress(Begin(s), Begin(s), request, 0, scope);
    LinesKeepNames(Begin(s), Begin(s), request, 0, scope);
  }

  // ----- the ledger -----

  function Balance(opening: map<Shelf, int>, events: seq<Event>, shelf: Shelf): int {
    if events == [] then OnHand(opening, shelf)
    else
      var last := events[|events| - 1];
      Balance(opening, events[..|events| - 1], shelf) + (if last.shelf == shelf then last.delta else 0)
  }

  ghost predicate Balanced(opening: map<Shelf, int>, onHand: map<Shelf, int>, events: seq<Event>) {
    forall shelf :: OnHand(onHand, shelf) == Balance(opening, events, shelf) >= 0
  }

  ghost predicate RunningBalances(opening: map<Shelf, int>, events: seq<Event>) {
    forall i :: 0 <= i < |events| ==> events[i].after == Balance(opening, events[..i + 1], events[i].shelf) >= 0
  }

  ghost predicate DistinctKeys(events: seq<Event>) {
    forall i, j :: 0 <= i < j < |events| ==> events[i].key != events[j].key
  }

  /** Stock is the opening balance plus all deltas; each event records the running balance, which
      is never negative; and no event key is used twice. */
  ghost predicate LedgerInv(opening: map<Shelf, int>, onHand: map<Shelf, int>, events: seq<Event>) {
    Balanced(opening, onHand, events) && RunningBalances(opening, events) && DistinctKeys(events)
  }

  lemma EventMovesBalance(opening: map<Shelf, int>, onHand: map<Shelf, int>, events: seq<Event>, e: Event)
    requires Balanced(opening, onHand, events) && e.after == OnHand(onHand, e.shelf) + e.delta >= 0
    ensures Balanced(opening, onHand[e.shelf := e.after], events + [e])
    ensures Balance(opening, events + [e], e.shelf) == e.after
  {
    assert (events + [e])[..|events|] == events;
    forall shelf
      ensures OnHand(onHand[e.shelf := e.after], shelf) == Balance(opening, events + [e], shelf) >= 0
    {
      assert Balance(opening, events + [e], shelf)
             == Balance(opening, events, shelf) + (if e.shelf == shelf then e.delta else 0);
    }
  }

  lemma EventKeepsRunning(opening: map<Shelf, int>, events: seq<Event>, e: Event)
    requires RunningBalances(opening, events) && e.after == Balance(opening, events + [e], e.shelf) >= 0
    ensures RunningBalances(opening, events + [e])
  {
    var log := events + [e];
    forall i | 0 <= i < |log|
      ensures log[i].after == Balance(opening, log[..i + 1], log[i].shelf) >= 0
    {
      assert log[..i + 1] == if i < |events| then events[..i + 1] else log;
    }
  }

  lemma EventKeepsKeys(events: seq<Event>, e: Event)
    requires DistinctKeys(events) && !KeyUsed(events, e.key)
    ensures DistinctKeys(events + [e])
  {
    assert forall i :: 0 <= i < |events| ==> events[i] in events;
  }

  lemma EventKeepsLedger(opening: map<Shelf, int>, onHand: map<Shelf, int>, events: seq<Event>, e: Event)
    requires LedgerInv(opening, onHand, events)
    requires e.after == OnHand(onHand, e.shelf) + e.delta >= 0 && !KeyUsed(events, e.key)
    ensures LedgerInv(opening, onHand[e.shelf := e.after], events + [e])
  {
    EventMovesBalance(opening, onHand, events, e);
    EventKeepsRunning(opening, events, e);
    EventKeepsKeys(events, e);
  }

  lemma LineKeepsLedger(opening: map<Shelf, int>, w: Work, item: Item, request: Request, index: nat, source: Scope)
    requires LedgerInv(opening, w.onHand, w.events) && LineRefusal(w, item, request, index).None?
    ensures var next := ApplyLine(w, item, request, index, source); LedgerInv(opening, next.onHand, next.events)
  {
    var next := ApplyLine(w, item, request, index, source);
    var e := next.events[|w.events|];
    assert next.onHand == w.onHand[e.shelf := e.after] && next.events == w.events + [e];
    EventKeepsLedger(opening, w.onHand, w.events, e);
  }

  lemma {:induction false} LinesKeepLedger(opening: map<Shelf, int>, w: Work, request: Request, index: nat,
                                           source: Scope)
    requires index <= |request.items| && LedgerInv(opening, w.onHand, w.events)
    requires ApplyLines(w, request, index, source).Worked?
    ensures var after := ApplyLines(w, request, index, source).work; LedgerInv(opening, after.onHand, after.events)
    decreases |request.items| - index
  {
    if index < |request.items| {
      LineKeepsLedger(opening, w, request.items[index], request, index, source);
      LinesKeepLedger(opening, ApplyLine(w, request.items[index], request, index, source), request, index + 1, source);
    }
  }

  // ----- runs -----

  datatype Call =
    | Confirm(scope: Scope, request: Request)
    | Record(shelf: Shelf, delta: int, source: Scope, eventKey: EventKey)

  function Step(s: State, c: Call): State {
    match c
    case Confirm(scope, request) => ConfirmIn(s, scope, request)
    case Record(shelf, delta, source, key) => RecordIn(s, shelf, delta, source, key)
  }

  function Run(s: State, calls: seq<Call>): State {
    if calls == [] then s else Step(Run(s, calls[..|calls| - 1]), calls[|calls| - 1])
  }

  ghost predicate Opened(s: State) {
    s.events == [] && s.confirmations == map[] && forall shelf :: shelf in s.onHand ==> s.onHand[shelf] >= 0
  }

  lemma ConfirmKeepsLedger(opening: map<Shelf, int>, s: State, scope: Scope, request: Request)
    requires LedgerInv(opening, s.onHand, s.events)
    ensures LedgerInv(opening, ConfirmIn(s, scope, request).onHand, ConfirmIn(s, scope, request).events)
  {
    if ApplyLines(Begin(s), request, 0, scope).Worked? {
      LinesKeepLedger(opening, Begin(s), request, 0, scope);
    }
  }

  lemma RecordKeepsLedger(opening: map<Shelf, int>, s: State, shelf: Shelf, delta: int, source: Scope, key: EventKey)
    requires LedgerInv(opening, s.onHand, s.events)
    ensures LedgerInv(opening, RecordIn(s, shelf, delta, source, key).onHand,
                      RecordIn(s, shelf, delta, source, key).events)
  {
    if EventRefusal(s.onHand, s.events, shelf, delta, key).None? {
      var e := Event(shelf, delta, s.onHand[shelf] + delta, source, key);
      var after := RecordIn(s, shelf, delta, source, key);
      assert after.onHand == s.onHand[e.shelf := e.after] && after.events == s.events + [e];
      EventKeepsLedger(opening, s.onHand, s.events, e);
    }
  }

  /** Over any run of confirmations and recorded changes, refused or not. */
  lemma {:induction false} LedgerBalances(s: State, calls: seq<Call>)
    requires Opened(s)
    ensures LedgerInv(s.onHand, Run(s, calls).onHand, Run(s, calls).events)
  {
    if calls != [] {
      LedgerBalances(s, calls[..|calls| - 1]);
      match calls[|calls| - 1]
      case Confirm(scope, request) => ConfirmKeepsLedger(s.onHand, Run(s, calls[..|calls| - 1]), scope, request);
      case Record(shelf, delta, source, key) =>
        RecordKeepsLedger(s.onHand, Run(s, calls[..|calls| - 1]), shelf, delta, source, key);
    }
  }

  // ----- exactly once -----

  /** Each confirmation row answers its own request, and was completed with a response. */
  ghost predicate RowsFinished(s: State) {
    forall scoped :: scoped in s.confirmations ==>
      s.confirmations[scoped].completed && s.confirmations[scoped].response.Some?
  }

  /** The call is the first successful one under its scope and key. */
  predicate Takes(s: State, c: Call) {
    c.Record? || (ScopedKey(c.scope, c.request.key) !in s.confirmations
                  && ConfirmResult(s, c.scope, c.request).Answered?)
  }

  /** The calls that remain when failed and repeated confirmations are left out. */
  function Taken(s: State, calls: seq<Call>): seq<Call> {
    if calls == [] then []
    else
      var earlier, last := calls[..|calls| - 1], calls[|calls| - 1];
      Taken(s, earlier) + (if Takes(Run(s, earlier), last) then [last] else [])
  }

  lemma OnlyTakenCallsCount(s: State, c: Call)
    requires !Takes(s, c)
    ensures Step(s, c) == s
  {
  }

  /** Any mix of retries, reused keys and failing lines leaves the products, stock, events and
      rows that the first successful confirmations alone would have left. */
  lemma {:induction false} ConfirmedExactlyOnce(s: State, calls: seq<Call>)
    ensures Run(s, Taken(s, calls)) == Run(s, calls)
  {
    if calls != [] {
      var earlier, last := calls[..|calls| - 1], calls[|calls| - 1];
      ConfirmedExactlyOnce(s, earlier);
      if Takes(Run(s, earlier), last) {
        assert Taken(s, calls)[..|Taken(s, calls)| - 1] == Taken(s, earlier);
      } else {
        OnlyTakenCallsCount(Run(s, earlier), last);
        assert Taken(s, calls) == Taken(s, earlier);
      }
    }
  }

  lemma {:induction false} RowsAreKept(s: State, calls: seq<Call>, scoped: ScopedKey)
    requires scoped in s.confirmations
    ensures scoped in Run(s, calls).confirmations && Run(s, calls).confirmations[scoped] == s.confirmations[scoped]
  {
    if calls != [] {
      RowsAreKept(s, calls[..|calls| - 1], scoped);
    }
  }

  /** Whatever happens in between, the same request under the same scope and key gets the first
      response again and changes nothing; another request under that key is refused. */
  lemma {:induction false} RetriesGetTheFirstResponse(s: State, scope: Scope, request: Request, calls: seq<Call>,
                                                      again: Request)
    requires RowsFinished(s) && ConfirmResult(s, scope, request).Answered? && again.key == request.key
    ensures var later := Run(ConfirmIn(s, scope, request), calls);
      && ConfirmIn(later, scope, again) == later
      && ConfirmResult(later, scope, again)
         == (if again == request then ConfirmResult(s, scope, request) else Refused(KeyReused))
  {
    RowsAreKept(ConfirmIn(s, scope, request), calls, ScopedKey(scope, request.key));
  }

  /** No committed confirmation row is left unfinished. */
  lemma {:induction false} RowsStayFinished(s: State, calls: seq<Call>)
    requires RowsFinished(s)
    ensures RowsFinished(Run(s, calls))
  {
    if calls != [] {
      RowsStayFinished(s, calls[..|calls| - 1]);
    }
  }
}
