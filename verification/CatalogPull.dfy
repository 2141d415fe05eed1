/**
 * One pulled page: the cursor check of the driver (pos-electron/src/sync.ts, lines 45 to 62) and what
 * applying a page does to the catalog (pos-electron/electron/main.ts, lines 807 to 829 and 2050 to 2147).
 */
module CatalogPull {
  import opened LocalDb
  import opened Outcome
  import opened Text

  /** BigInt(text), None where it throws. */
  type BigInt = string -> Option<int>

  predicate ReadsLikeBigInt(bigInt: BigInt) {
    bigInt("") == Some(0) && bigInt("null") == None
  }

  function CursorTransitionIsValid(bigInt: BigInt, current: Option<string>, next: Option<string>, hasMore: bool): bool {
    if next.None? || bigInt(next.value).None? || bigInt(next.value).value < 0 then false
    else if current.None? then !hasMore
    else if bigInt(current.value).None? then false
    else if hasMore then bigInt(next.value).value > bigInt(current.value).value
    else bigInt(next.value).value >= bigInt(current.value).value
  }

  /** The driver's next cursor: a missing or null one keeps the current. */
  function NextCursor(current: Option<string>, cursor: PageCursor): Option<string> {
    match cursor
    case Given(text) => Some(text)
    case _ => current
  }

  /** The cursor sync:get_status reports: none while a full snapshot is required. */
  function ReportedCursor(db: Db): string {
    if NeedsFullRefresh(db) then "" else db.meta.cursor
  }

  function ReportedValidity(db: Db): string {
    if NeedsFullRefresh(db) then "" else db.meta.validUntil
  }

  // ---- Applying a page -----------------------------------------------------------------------------

  lemma {:induction false} StoredProductsAreValid(m: map<Id, Product>, ps: seq<PageProduct>)
    requires forall id <- m :: !InvalidStored(m[id])
    requires forall p <- ps :: ValidCatalogProduct(p)
    ensures forall id <- PutProducts(m, ps) :: !InvalidStored(PutProducts(m, ps)[id])
  {
    if ps != [] {
      StoredProductsAreValid(m, ps[..|ps| - 1]);
      assert ValidCatalogProduct(ps[|ps| - 1]);
      assert Blank("");
    }
  }

  /** After every committed page the catalog no longer needs a full refresh. */
  lemma CommittedPageCompletesFormat(db: Db, page: Page)
    requires ApplyPull(db, page).Ok?
    ensures !NeedsFullRefresh(ApplyPull(db, page).value)
  {
    var kept := (if page.resetProducts then map[] else db.products) - IdSet(page.deleted);
    StoredProductsAreValid(kept, page.products);
  }

  lemma {:induction false} PutProductsIsUnion(m: map<Id, Product>, ps: seq<PageProduct>)
    ensures PutProducts(m, ps) == m + PutProducts(map[], ps)
  {
    if ps != [] {
      PutProductsIsUnion(m, ps[..|ps| - 1]);
    }
  }

  lemma {:induction false} PutStockIsUnion(m: map<Id, int>, ss: seq<PageStock>)
    ensures PutStock(m, ss) == m + PutStock(map[], ss)
  {
    if ss != [] {
      PutStockIsUnion(m, ss[..|ss| - 1]);
    }
  }

  lemma {:induction false} PutSellersIsUnion(m: map<Id, string>, ss: seq<PageSeller>)
    ensures PutSellers(m, ss) == m + PutSellers(map[], ss)
  {
    if ss != [] {
      PutSellersIsUnion(m, ss[..|ss| - 1]);
    }
  }

  lemma OverwriteTwice<T>(m: map<Id, T>, reset: bool, gone: set<Id>, put: map<Id, T>)
    ensures var once := ((if reset then map[] else m) - gone) + put;
            ((if reset then map[] else once) - gone) + put == once
  {
  }

  lemma ProductsWrittenOnce(db: Db, page: Page)
    ensures WritePage(WritePage(db, page), page).products == WritePage(db, page).products
  {
    var gone, once := IdSet(page.deleted), WritePage(db, page);
    PutProductsIsUnion((if page.resetProducts then map[] else db.products) - gone, page.products);
    PutProductsIsUnion((if page.resetProducts then map[] else once.products) - gone, page.products);
    OverwriteTwice(db.products, page.resetProducts, gone, PutProducts(map[], page.products));
  }

  lemma StockWrittenOnce(db: Db, page: Page)
    ensures WritePage(WritePage(db, page), page).stock == WritePage(db, page).stock
  {
    var gone, once := IdSet(page.deleted), WritePage(db, page);
    PutStockIsUnion((if page.resetStock then map[] else db.stock) - gone, page.stock);
    PutStockIsUnion((if page.resetStock then map[] else once.stock) - gone, page.stock);
    OverwriteTwice(db.stock, page.resetStock, gone, PutStock(map[], page.stock));
  }

  lemma SellersWrittenOnce(db: Db, page: Page)
    ensures WritePage(WritePage(db, page), page).sellers == WritePage(db, page).sellers
  {
    var once := WritePage(db, page);
    PutSellersIsUnion(if page.resetSellers then map[] else db.sellers, page.sellers);
    PutSellersIsUnion(if page.resetSellers then map[] else once.sellers, page.sellers);
    OverwriteTwice(db.sellers, page.resetSellers, {}, PutSellers(map[], page.sellers));
    assert db.sellers - {} == db.sellers && once.sellers - {} == once.sellers;
  }

  /** Applying a page again right after it was applied changes nothing. */
  lemma ApplyingTwiceIsOnce(db: Db, page: Page)
    requires ApplyPull(db, page).Ok?
    ensures ApplyPull(ApplyPull(db, page).value, page) == ApplyPull(db, page)
  {
    CommittedPageCompletesFormat(db, page);
    ProductsWrittenOnce(db, page);
    StockWrittenOnce(db, page);
    SellersWrittenOnce(db, page);
  }

  // ---- The cursor ----------------------------------------------------------------------------------

  /** `b` is stored after `a`: unchanged, or a number not below it. */
  predicate NotBack(bigInt: BigInt, a: string, b: string) {
    a == b || (bigInt(b).Some? && bigInt(b).value >= 0 && (a == "" || (bigInt(a).Some? && bigInt(a).value <= bigInt(b).value)))
  }

  lemma NotBackTransitive(bigInt: BigInt, a: string, b: string, c: string)
    requires ReadsLikeBigInt(bigInt) && NotBack(bigInt, a, b) && NotBack(bigInt, b, c)
    ensures NotBack(bigInt, a, c)
  {
  }

  /**
   * Exactly when an accepted page keeps the stored cursor from moving back: its cursor is not null. A null
   * passes the driver's check as "unchanged" but is stored as the text "null".
   */
  lemma AcceptedPageMovesForwardIffNotNull(bigInt: BigInt, db: Db, page: Page, hasMore: bool)
    requires ReadsLikeBigInt(bigInt) && ApplyPull(db, page).Ok?
    requires ReportedCursor(db) != ""
    requires CursorTransitionIsValid(bigInt, Some(ReportedCursor(db)), NextCursor(Some(ReportedCursor(db)), page.cursor), hasMore)
    ensures NotBack(bigInt, ReportedCursor(db), ReportedCursor(ApplyPull(db, page).value)) <==> page.cursor != Null
  {
    CommittedPageCompletesFormat(db, page);
  }

  /** After a null cursor is stored, no later page is ever accepted from it. */
  lemma NullCursorJamsTheDriver(bigInt: BigInt, db: Db, page: Page, later: Option<string>, hasMore: bool)
    requires ReadsLikeBigInt(bigInt) && ApplyPull(db, page).Ok? && page.cursor == Null
    ensures ReportedCursor(ApplyPull(db, page).value) == "null"
    ensures !CursorTransitionIsValid(bigInt, Some("null"), later, hasMore)
  {
    CommittedPageCompletesFormat(db, page);
  }
}
