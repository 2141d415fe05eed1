/**
 * The till's local database and what each handler does to it (pos-electron/electron/main.ts), with the
 * catalog rules of pos-electron/electron/catalog-format.ts. A handler that throws leaves the database as it
 * was; Terminal shows how the source achieves that.
 */
module LocalDb {
  import opened Decimals
  import opened OfflineAccounting
  import opened Outcome
  import opened SaleValidation
  import opened Text

  type Id = string

  datatype Product = Product(sku: string, nameEn: string, nameAr: string, price: real, tax: real, catalogVersion: int)

  /** The command stored with a sale and uploaded later. */
  datatype SaleCommand = SaleCommand(syncId: Id, branchId: Id, shiftId: Id, cashierId: Id, sellerId: Id, sessionId: Id,
                                     sequence: string, occurredAt: int, paymentMethod: string, localTotal: real,
                                     items: seq<SaleItem>)

  /** A row of sales_local; a sequence is missing or empty only on rows of older releases. */
  datatype SaleRow = SaleRow(invoiceNumber: string, totalCents: int, sequence: Option<string>, document: Option<Id>)

  datatype Status = Pending | Sending | Sent | SentWithWarning | Quarantined

  datatype OutboxRow = OutboxRow(payload: SaleCommand, status: Status, sequence: Option<string>, attempts: nat,
                                 lastAttemptAt: Option<int>, document: Option<Id>, lastError: string)

  datatype Meta = Meta(sequence: string, cursor: string, validUntil: string, formatVersion: string,
                       syncStatus: string, lastError: string)

  datatype Db = Db(products: map<Id, Product>, stock: map<Id, int>, sellers: map<Id, string>,
                   sales: map<Id, SaleRow>, outbox: map<Id, OutboxRow>, meta: Meta)

  const EMPTY_DB := Db(map[], map[], map[], map[], map[], Meta("", "", "", "", "", ""))

  datatype HandlerError =
    | NotEnrolled
    | InvalidSale(reason: SaleError)
    | UnknownSeller
    | NotAuthorized
    | TotalMismatch
    | MalformedSequence
    | InsufficientStock
    | ConstraintViolation
    | NotPending
    | FullSnapshotRequired
    | InvalidProduct
    | InvalidStock
    | InvalidSeller

  // ---- Catalog rules -------------------------------------------------------------------------------

  const CATALOG_FORMAT_VERSION := "offline-sales-v2"

  datatype PageProduct = PageProduct(id: Id, sku: string, nameEn: string, nameAr: string, price: JsNumber, tax: JsNumber,
                                     catalogVersion: int)

  datatype PageStock = PageStock(variantId: Id, quantity: JsNumber)

  datatype PageSeller = PageSeller(id: Id, name: string)

  /** A response field that is left out, null, or given. */
  datatype PageCursor = Absent | Null | Given(text: string)

  datatype Page = Page(products: seq<PageProduct>, stock: seq<PageStock>, sellers: seq<PageSeller>, deleted: seq<Id>,
                       resetProducts: bool, resetStock: bool, resetSellers: bool,
                       cursor: PageCursor, validUntil: Option<string>)

  predicate NonNegative(n: JsNumber) {
    n.Finite? && n.value >= 0.0
  }

  predicate ValidCatalogProduct(p: PageProduct) {
    && !Blank(p.id) && !Blank(p.sku) && (!Blank(p.nameAr) || !Blank(p.nameEn))
    && NonNegative(p.price) && NonNegative(p.tax) && p.catalogVersion == 2
  }

  predicate ValidCatalogStock(s: PageStock) {
    !Blank(s.variantId) && NonNegative(s.quantity) && s.quantity.value.Floor as real == s.quantity.value
  }

  predicate ValidSeller(s: PageSeller) {
    |s.id| == 36 && (forall c <- s.id :: IsHex(c) || c == '-') && !Blank(s.name)
  }

  /** The WHERE clause of hasInvalidCatalogProducts. */
  predicate InvalidStored(p: Product) {
    p.catalogVersion != 2 || p.sku == "" || (p.nameAr == "" && p.nameEn == "")
  }

  predicate NeedsFullRefresh(db: Db) {
    db.meta.formatVersion != CATALOG_FORMAT_VERSION || exists id <- db.products :: InvalidStored(db.products[id])
  }

  // ---- Money and stock of a sale -------------------------------------------------------------------

  /** toCents of a plain decimal number: the nearest cent, ties away from zero. */
  function Cents(value: real): int {
    if value < 0.0 then -((-value * 100.0 + 0.5).Floor) else (value * 100.0 + 0.5).Floor
  }

  function SaleCents(items: seq<SaleItem>): int {
    if items == [] then 0
    else SaleCents(items[..|items| - 1]) + Cents(items[|items| - 1].unitPrice) * items[|items| - 1].qty
         + Cents(items[|items| - 1].unitTax) * items[|items| - 1].qty
  }

  /** The guarded updates of a sale, line by line; None when a line finds too little. */
  function TakeStock(stock: map<Id, int>, items: seq<SaleItem>): Option<map<Id, int>> {
    if items == [] then Some(stock)
    else
      match TakeStock(stock, items[..|items| - 1])
      case None => None
      case Some(left) =>
        var item := items[|items| - 1];
        if item.variantId in left && left[item.variantId] >= item.qty
        then Some(left[item.variantId := left[item.variantId] - item.qty])
        else None
  }

  function QtyOf(v: Id): SaleItem -> int {
    (item: SaleItem) => if item.variantId == v then item.qty else 0
  }

  // ---- Selling -------------------------------------------------------------------------------------

  /** The secure state a sale reads. */
  datatype Secure = Secure(device: Option<Device>, user: Option<User>, context: Option<Context>)

  function InvoiceNumber(terminalCode: string, sequence: string): string {
    "LOCAL-" + terminalCode + "-" + sequence
  }

  predicate Authorized(secure: Secure) {
    && secure.device.Some? && secure.user.Some? && secure.context.Some?
    && ContextMatches(secure.context.value, secure.user.value, secure.device.value,
                      secure.context.value.shiftId, secure.context.value.branchId)
  }

  function CommandOf(sale: ValidSale, secure: Secure, sequence: string, now: int): SaleCommand
    requires Authorized(secure) && sale.localTotal.Finite?
  {
    var c := secure.context.value;
    SaleCommand(sale.syncId, secure.device.value.branchId, c.shiftId, c.userId, sale.sellerId, c.sessionId,
                sequence, now, sale.paymentMethod, sale.localTotal.value, sale.items)
  }

  /** The four writes of the sale's transaction. */
  function CommitSale(db: Db, command: SaleCommand, invoiceNumber: string): Result<Db, HandlerError> {
    match TakeStock(db.stock, command.items)
    case None => Err(InsufficientStock)
    case Some(stock) =>
      if command.syncId in db.sales || command.syncId in db.outbox then Err(ConstraintViolation)
      else
        Ok(db.(
             stock := stock,
             sales := db.sales[command.syncId :=
               SaleRow(invoiceNumber, Cents(command.localTotal), Some(command.sequence), None)],
             outbox := db.outbox[command.syncId :=
               OutboxRow(command, Pending, Some(command.sequence), 0, None, None, "")],
             meta := db.meta.(sequence := command.sequence)))
  }

  function Sell(db: Db, raw: RawSale, secure: Secure, now: int): Result<Db, HandlerError> {
    if secure.device.None? then Err(NotEnrolled)
    else
      match Validate(raw, secure.device.value.branchId)
      case Err(reason) => Err(InvalidSale(reason))
      case Ok(sale) =>
        if sale.sellerId !in db.sellers then Err(UnknownSeller)
        else if sale.syncId in db.sales then Ok(db)
        else if !Authorized(secure) then Err(NotAuthorized)
        else if !sale.localTotal.Finite? || Cents(sale.localTotal.value) < 0
                || Cents(sale.localTotal.value) != SaleCents(sale.items) then Err(TotalMismatch)
        else
          match NextSequence([Some(db.meta.sequence), Some(secure.context.value.serverLastSaleSequence)])
          case Err(_) => Err(MalformedSequence)
          case Ok(sequence) =>
            CommitSale(db, CommandOf(sale, secure, sequence, now),
                       InvoiceNumber(secure.device.value.terminalCode, sequence))
  }

  // ---- Outbox transitions --------------------------------------------------------------------------

  function MarkSending(db: Db, id: Id, now: int): Result<Db, HandlerError> {
    if id in db.outbox && db.outbox[id].status == Pending
    then
      var row := db.outbox[id];
      Ok(db.(outbox := db.outbox[id := row.(status := Sending, attempts := row.attempts + 1,
                                            lastAttemptAt := Some(now), lastError := "")]))
    else Err(NotPending)
  }

  function MarkSent(db: Db, id: Id, document: Option<Id>, warned: bool): Db {
    db.(
      outbox := if id !in db.outbox then db.outbox
                else db.outbox[id := db.outbox[id].(status := if warned then SentWithWarning else Sent,
                                                    document := document, lastError := "")],
      sales := if id !in db.sales then db.sales else db.sales[id := db.sales[id].(document := document)])
  }

  /** No condition on the current status: it is the driver that must not call this for a sent row. */
  function MarkFailed(db: Db, id: Id, error: string, retryable: bool): Db {
    if id !in db.outbox then db
    else db.(outbox := db.outbox[id := db.outbox[id].(status := if retryable then Pending else Quarantined,
                                                      lastError := error)])
  }

  /** `validUntil` is None when the status update does not mention it. */
  function SetStatus(db: Db, syncStatus: string, lastError: string, validUntil: Option<string>): Db {
    db.(meta := db.meta.(
          syncStatus := if syncStatus != "" then syncStatus else db.meta.syncStatus,
          lastError := lastError,
          validUntil := if validUntil.Some? then validUntil.value else db.meta.validUntil))
  }

  // ---- Pulled pages --------------------------------------------------------------------------------

  function Stored(p: PageProduct): Product {
    Product(p.sku, p.nameEn, p.nameAr,
            if p.price.Finite? then p.price.value else 0.0, if p.tax.Finite? then p.tax.value else 0.0, p.catalogVersion)
  }

  function PutProducts(m: map<Id, Product>, ps: seq<PageProduct>): map<Id, Product> {
    if ps == [] then m else PutProducts(m, ps[..|ps| - 1])[ps[|ps| - 1].id := Stored(ps[|ps| - 1])]
  }

  function PutStock(m: map<Id, int>, ss: seq<PageStock>): map<Id, int> {
    if ss == [] then m
    else PutStock(m, ss[..|ss| - 1])[ss[|ss| - 1].variantId :=
           if ss[|ss| - 1].quantity.Finite? then ss[|ss| - 1].quantity.value.Floor else 0]
  }

  function PutSellers(m: map<Id, string>, ss: seq<PageSeller>): map<Id, string> {
    if ss == [] then m else PutSellers(m, ss[..|ss| - 1])[ss[|ss| - 1].id := Trim(ss[|ss| - 1].name)]
  }

  function IdSet(ids: seq<Id>): set<Id> {
    set id <- ids
  }

  /** setMeta('sync_cursor', String(data.cursor)) when the field is there: null becomes the text "null". */
  function CursorText(c: PageCursor, stored: string): string {
    match c
    case Absent => stored
    case Null => "null"
    case Given(text) => text
  }

  function WritePage(db: Db, page: Page): Db {
    var gone := IdSet(page.deleted);
    db.(
      products := PutProducts((if page.resetProducts then map[] else db.products) - gone, page.products),
      stock := PutStock((if page.resetStock then map[] else db.stock) - gone, page.stock),
      sellers := PutSellers(if page.resetSellers then map[] else db.sellers, page.sellers),
      meta := db.meta.(
        formatVersion := if page.resetProducts then CATALOG_FORMAT_VERSION else db.meta.formatVersion,
        cursor := CursorText(page.cursor, db.meta.cursor),
        validUntil := if page.validUntil.Some? then page.validUntil.value else db.meta.validUntil))
  }

  function ApplyPull(db: Db, page: Page): Result<Db, HandlerError> {
    if NeedsFullRefresh(db) && !page.resetProducts then Err(FullSnapshotRequired)
    else if exists p <- page.products :: !ValidCatalogProduct(p) then Err(InvalidProduct)
    else if exists s <- page.stock :: !ValidCatalogStock(s) then Err(InvalidStock)
    else if exists s <- page.sellers :: !ValidSeller(s) then Err(InvalidSeller)
    else Ok(WritePage(db, page))
  }

  // ---- Sequence alignment and restart --------------------------------------------------------------

  predicate WellFormed(sequence: string) {
    sequence == "" || Canonical(sequence)
  }

  function SequenceValue(sequence: string): nat {
    if Canonical(sequence) then Value(sequence) else 0
  }

  function RowSequence(row: SaleRow): string {
    if row.sequence.Some? then row.sequence.value else ""
  }

  /** The first row of ORDER BY LENGTH(terminal_sequence) DESC, terminal_sequence DESC, or "0" without rows. */
  ghost predicate IsHighestStored(db: Db, s: string) {
    if forall id <- db.sales :: RowSequence(db.sales[id]) == "" then s == "0"
    else
      && (exists id <- db.sales :: RowSequence(db.sales[id]) == s)
      && s != ""
      && forall id <- db.sales :: RowSequence(db.sales[id]) == "" || !SequenceLess(s, RowSequence(db.sales[id]))
  }

  /** alignLocalSequence: never below the local or the acknowledged sequence; invalid contexts are ignored. */
  function Align(db: Db, context: Option<Context>): Result<Db, HandlerError> {
    if context.None? || !ValidContext(context.value) then Ok(db)
    else
      match MaxSequence([Some(db.meta.sequence), Some(context.value.serverLastSaleSequence)])
      case Err(_) => Err(MalformedSequence)
      case Ok(s) => Ok(db.(meta := db.meta.(sequence := s)))
  }

  function ResetSending(outbox: map<Id, OutboxRow>): map<Id, OutboxRow> {
    map id | id in outbox :: if outbox[id].status == Sending then outbox[id].(status := Pending) else outbox[id]
  }

  function RequireRefresh(db: Db): Db {
    if NeedsFullRefresh(db)
    then db.(meta := db.meta.(formatVersion := "", cursor := "", validUntil := ""))
    else db
  }

  /** initDb on an opened database, with `highest` the row its query returned. */
  function Recover(db: Db, highest: string, context: Option<Context>): Result<Db, HandlerError> {
    var reset := db.(outbox := ResetSending(db.outbox));
    match MaxSequence([Some(db.meta.sequence), Some(highest)])
    case Err(_) => Err(MalformedSequence)
    case Ok(s) =>
      match Align(reset.(meta := db.meta.(sequence := s)), context)
      case Err(e) => Err(e)
      case Ok(aligned) => Ok(RequireRefresh(aligned))
  }

  // ---- One handler call ----------------------------------------------------------------------------

  datatype Request =
    | DoSell(sale: RawSale, secure: Secure, now: int)
    | DoMarkSending(id: Id, now: int)
    | DoMarkSent(id: Id, document: Option<Id>, warned: bool)
    | DoMarkFailed(id: Id, error: string, retryable: bool)
    | DoSetStatus(syncStatus: string, lastError: string, validUntil: Option<string>)
    | DoApplyPull(page: Page)
    | DoAlign(context: Option<Context>)

  function Handle(db: Db, r: Request): Result<Db, HandlerError> {
    match r
    case DoSell(sale, secure, now) => Sell(db, sale, secure, now)
    case DoMarkSending(id, now) => MarkSending(db, id, now)
    case DoMarkSent(id, document, warned) => Ok(MarkSent(db, id, document, warned))
    case DoMarkFailed(id, error, retryable) => Ok(MarkFailed(db, id, error, retryable))
    case DoSetStatus(status, error, validUntil) => Ok(SetStatus(db, status, error, validUntil))
    case DoApplyPull(page) => ApplyPull(db, page)
    case DoAlign(context) => Align(db, context)
  }
}
