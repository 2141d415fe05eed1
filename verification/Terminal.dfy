/**
 * The till's process around the local database (pos-electron/electron/main.ts, lines 150 to 163, 578 to 601
 * and 831 to 998): a memory copy, a file replaced by rename, and a step-by-step transaction between them.
 * Every storage fault and every point at which the process can die is an input.
 */
module Terminal {
  import opened Decimals
  import opened Ledger
  import opened LedgerRuns
  import opened LocalDb
  import opened OfflineAccounting
  import opened Outcome
  import opened SaleValidation
  import Text

  /** A database file: missing, partly written, or a complete export. */
  datatype Content = Missing | Torn | Export(db: Db)

  /** Where storage fails or the process dies during one mutation. */
  datatype Fault =
    | NoFault
    | DiesInOperation
    | CommitFails
    | DiesAfterCommit
    | WriteFails(leavesTorn: bool)
    | DiesInWrite
    | DiesAfterWrite
    | RenameFails
    | DiesAfterRename

  datatype Failure = Refused(error: HandlerError) | Storage

  datatype Ending = Returned | Threw(failure: Failure) | Died

  class Till {
    var db: Db
    var target: Content
    var temporary: Content
    var alive: bool
    /** The atomic steps so far: the handlers that took effect and the restarts that completed. */
    ghost var history: seq<Event>

    constructor ()
      ensures Valid() && !alive && history == []
    {
      db, target, temporary, alive, history := EMPTY_DB, Missing, Missing, false, [];
    }

    /** What a restart would open. */
    function Durable(): Db
      requires target != Torn
      reads this
    {
      if target.Export? then target.db else EMPTY_DB
    }

    /** Disk holds exactly the state after the atomic steps, and between handlers memory equals disk. */
    ghost predicate Valid()
      reads this
    {
      && target != Torn
      && Legal(EMPTY_DB, history)
      && Durable() == Run(EMPTY_DB, history)
      && (alive ==> db == Durable())
    }

    /** saveDb: write a temporary file, then rename it over the target. */
    method SaveDb(fault: Fault) returns (end: Ending)
      modifies this`target, this`temporary
      ensures end.Returned? ==> target == Export(db)
      ensures end.Threw? ==> target == old(target) && end.failure == Storage
      ensures end.Died? ==> target == old(target) || target == Export(db)
      ensures fault in {NoFault, DiesInOperation, CommitFails, DiesAfterCommit} <==> end.Returned?
    {
      if fault == DiesInWrite {
        temporary := Torn;
        return Died;
      }
      if fault.WriteFails? {
        temporary := if fault.leavesTorn then Torn else Missing;
        return Threw(Storage);
      }
      temporary := Export(db);
      if fault == DiesAfterWrite {
        return Died;
      }
      if fault == RenameFails {
        temporary := Missing;
        return Threw(Storage);
      }
      target, temporary := temporary, Missing;
      if fault == DiesAfterRename {
        return Died;
      }
      return Returned;
    }

    /** The sale's transaction, row by row; a short line throws with earlier lines already taken. */
    method WriteSale(command: SaleCommand, invoiceNumber: string) returns (error: Option<HandlerError>)
      modifies this`db
      ensures error == None <==> CommitSale(old(db), command, invoiceNumber).Ok?
      ensures error == None ==> CommitSale(old(db), command, invoiceNumber) == Ok(db)
      ensures error.Some? ==> CommitSale(old(db), command, invoiceNumber) == Err(error.value)
    {
      var items := command.items;
      for i := 0 to |items|
        invariant TakeStock(old(db).stock, items[..i]) == Some(db.stock)
        invariant db == old(db).(stock := db.stock)
      {
        var item := items[i];
        assert items[..i + 1][..i] == items[..i];
        if !(item.variantId in db.stock && db.stock[item.variantId] >= item.qty) {
          ShortPrefix(old(db).stock, items, i + 1);
          return Some(InsufficientStock);
        }
        db := db.(stock := db.stock[item.variantId := db.stock[item.variantId] - item.qty]);
      }
      assert items[..|items|] == items;
      if command.syncId in db.sales {
        return Some(ConstraintViolation);
      }
      db := db.(sales := db.sales[command.syncId :=
                  SaleRow(invoiceNumber, Cents(command.localTotal), Some(command.sequence), None)]);
      if command.syncId in db.outbox {
        return Some(ConstraintViolation);
      }
      db := db.(outbox := db.outbox[command.syncId :=
                  OutboxRow(command, Pending, Some(command.sequence), 0, None, None, "")]);
      db := db.(meta := db.meta.(sequence := command.sequence));
      return None;
    }

    method DeleteVariants(ids: seq<Id>)
      modifies this`db
      ensures db == old(db).(products := old(db).products - IdSet(ids), stock := old(db).stock - IdSet(ids))
    {
      for i := 0 to |ids|
        invariant db == old(db).(products := old(db).products - IdSet(ids[..i]), stock := old(db).stock - IdSet(ids[..i]))
      {
        assert IdSet(ids[..i + 1]) == IdSet(ids[..i]) + {ids[i]};
        db := db.(products := db.products - {ids[i]});
        db := db.(stock := db.stock - {ids[i]});
      }
      assert ids[..|ids|] == ids;
    }

    method ClearTables(page: Page)
      modifies this`db
      ensures db == old(db).(products := if page.resetProducts then map[] else old(db).products,
                             stock := if page.resetStock then map[] else old(db).stock,
                             sellers := if page.resetSellers then map[] else old(db).sellers)
    {
      if page.resetProducts {
        db := db.(products := map[]);
      }
      if page.resetStock {
        db := db.(stock := map[]);
      }
      if page.resetSellers {
        db := db.(sellers := map[]);
      }
    }

    method InsertProducts(ps: seq<PageProduct>)
      modifies this`db
      ensures db == old(db).(products := PutProducts(old(db).products, ps))
    {
      for i := 0 to |ps|
        invariant db == old(db).(products := PutProducts(old(db).products, ps[..i]))
      {
        assert ps[..i + 1][..i] == ps[..i];
        db := db.(products := db.products[ps[i].id := Stored(ps[i])]);
      }
      assert ps[..|ps|] == ps;
    }

    method InsertStock(ss: seq<PageStock>)
      modifies this`db
      ensures db == old(db).(stock := PutStock(old(db).stock, ss))
    {
      for i := 0 to |ss|
        invariant db == old(db).(stock := PutStock(old(db).stock, ss[..i]))
      {
        assert ss[..i + 1][..i] == ss[..i];
        var qty := if ss[i].quantity.Finite? then ss[i].quantity.value.Floor else 0;
        db := db.(stock := db.stock[ss[i].variantId := qty]);
      }
      assert ss[..|ss|] == ss;
    }

    method InsertSellers(ss: seq<PageSeller>)
      modifies this`db
      ensures db == old(db).(sellers := PutSellers(old(db).sellers, ss))
    {
      for i := 0 to |ss|
        invariant db == old(db).(sellers := PutSellers(old(db).sellers, ss[..i]))
      {
        assert ss[..i + 1][..i] == ss[..i];
        db := db.(sellers := db.sellers[ss[i].id := Text.Trim(ss[i].name)]);
      }
      assert ss[..|ss|] == ss;
    }

    /** The page's transaction: resets and deletions, then each product, stock entry and seller in turn. */
    method WritePulled(page: Page)
      modifies this`db
      ensures db == WritePage(old(db), page)
    {
      ClearTables(page);
      DeleteVariants(page.deleted);
      InsertProducts(page.products);
      InsertStock(page.stock);
      InsertSellers(page.sellers);
      if page.resetProducts {
        db := db.(meta := db.meta.(formatVersion := CATALOG_FORMAT_VERSION));
      }
      if page.cursor != Absent {
        db := db.(meta := db.meta.(cursor := CursorText(page.cursor, "")));
      }
      if page.validUntil.Some? {
        db := db.(meta := db.meta.(validUntil := page.validUntil.value));
      }
    }

    /** sync:apply_pull's checks: the refresh, then every product, stock entry and seller. */
    method CheckPage(page: Page) returns (error: Option<HandlerError>)
      ensures error == None <==> ApplyPull(db, page).Ok?
      ensures error.Some? ==> ApplyPull(db, page) == Err(error.value)
    {
      if NeedsFullRefresh(db) && !page.resetProducts {
        return Some(FullSnapshotRequired);
      }
      for i := 0 to |page.products|
        invariant forall p <- page.products[..i] :: ValidCatalogProduct(p)
      {
        if !ValidCatalogProduct(page.products[i]) {
          return Some(InvalidProduct);
        }
      }
      for i := 0 to |page.stock|
        invariant forall s <- page.stock[..i] :: ValidCatalogStock(s)
      {
        if !ValidCatalogStock(page.stock[i]) {
          return Some(InvalidStock);
        }
      }
      for i := 0 to |page.sellers|
        invariant forall s <- page.sellers[..i] :: ValidSeller(s)
      {
        if !ValidSeller(page.sellers[i]) {
          return Some(InvalidSeller);
        }
      }
      return None;
    }

    /** A handler's checks and writes, on memory only; when it throws, memory may be half written. */
    method Operate(r: Request) returns (error: Option<HandlerError>)
      modifies this`db
      ensures error == None ==> Handle(old(db), r) == Ok(db)
      ensures error.Some? ==> Handle(old(db), r) == Err(error.value)
    {
      match r {
        case DoSell(raw, secure, now) =>
          error := SellStep(raw, secure, now);
        case DoApplyPull(page) =>
          error := CheckPage(page);
          if error == None {
            WritePulled(page);
          }
        case DoMarkSending(id, now) =>
          error := MarkRowSending(id, now);
        case DoMarkSent(id, document, warned) =>
          MarkRowSent(id, document, warned);
          return None;
        case DoMarkFailed(id, message, retryable) =>
          MarkRowFailed(id, message, retryable);
          return None;
        case DoSetStatus(status, message, validUntil) =>
          WriteStatus(status, message, validUntil);
          return None;
        case DoAlign(context) =>
          error := AlignLocalSequence(context);
      }
    }

    /** sync:mark_sending: an update guarded by the status, and a check of the number of rows it changed. */
    method MarkRowSending(id: Id, now: int) returns (error: Option<HandlerError>)
      modifies this`db
      ensures error == None ==> MarkSending(old(db), id, now) == Ok(db)
      ensures error.Some? ==> db == old(db) && MarkSending(db, id, now) == Err(error.value)
    {
      var modified := 0;
      if id in db.outbox && db.outbox[id].status == Pending {
        var row := db.outbox[id];
        db := db.(outbox := db.outbox[id := row.(status := Sending, attempts := row.attempts + 1,
                                                 lastAttemptAt := Some(now), lastError := "")]);
        modified := modified + 1;
      }
      if modified != 1 {
        return Some(NotPending);
      }
      return None;
    }

    /** sync:mark_sent: the outbox row, then the ledger row; either may be missing. */
    method MarkRowSent(id: Id, document: Option<Id>, warned: bool)
      modifies this`db
      ensures db == MarkSent(old(db), id, document, warned)
    {
      if id in db.outbox {
        db := db.(outbox := db.outbox[id := db.outbox[id].(status := if warned then SentWithWarning else Sent,
                                                           document := document, lastError := "")]);
      }
      if id in db.sales {
        db := db.(sales := db.sales[id := db.sales[id].(document := document)]);
      }
    }

    /** sync:mark_failed: an update that does not look at the status. */
    method MarkRowFailed(id: Id, message: string, retryable: bool)
      modifies this`db
      ensures db == MarkFailed(old(db), id, message, retryable)
    {
      if id in db.outbox {
        var status := if retryable then Pending else Quarantined;
        db := db.(outbox := db.outbox[id := db.outbox[id].(status := status, lastError := message)]);
      }
    }

    /** sync:set_status: one meta key after the other, each only when the status has it; the error always. */
    method WriteStatus(status: string, message: string, validUntil: Option<string>)
      modifies this`db
      ensures db == SetStatus(old(db), status, message, validUntil)
    {
      if status != "" {
        db := db.(meta := db.meta.(syncStatus := status));
      }
      if validUntil.Some? {
        db := db.(meta := db.meta.(validUntil := validUntil.value));
      }
      db := db.(meta := db.meta.(lastError := message));
    }

    /** alignLocalSequence: nothing on an invalid context, otherwise the greater of the two sequences. */
    method AlignLocalSequence(context: Option<Context>) returns (error: Option<HandlerError>)
      modifies this`db
      ensures error == None ==> Align(old(db), context) == Ok(db)
      ensures error.Some? ==> db == old(db) && Align(db, context) == Err(error.value)
    {
      if context.None? || !ValidContext(context.value) {
        return None;
      }
      var greatest := MaxTerminalSequence([Some(db.meta.sequence), Some(context.value.serverLastSaleSequence)]);
      if greatest.Err? {
        return Some(MalformedSequence);
      }
      db := db.(meta := db.meta.(sequence := greatest.value));
      return None;
    }

    /** pos:sale: the checks in the source's order, a replay, then the transaction. */
    method SellStep(raw: RawSale, secure: Secure, now: int) returns (error: Option<HandlerError>)
      modifies this`db
      ensures error == None ==> Sell(old(db), raw, secure, now) == Ok(db)
      ensures error.Some? ==> Sell(old(db), raw, secure, now) == Err(error.value)
    {
      if secure.device.None? {
        return Some(NotEnrolled);
      }
      var checked := Validate(raw, secure.device.value.branchId);
      if checked.Err? {
        return Some(InvalidSale(checked.error));
      }
      var sale := checked.value;
      if sale.sellerId !in db.sellers {
        return Some(UnknownSeller);
      }
      if sale.syncId in db.sales {
        return None;
      }
      if !Authorized(secure) {
        return Some(NotAuthorized);
      }
      if !sale.localTotal.Finite? || Cents(sale.localTotal.value) < 0
         || Cents(sale.localTotal.value) != SaleCents(sale.items) {
        return Some(TotalMismatch);
      }
      var next := NextSequence([Some(db.meta.sequence), Some(secure.context.value.serverLastSaleSequence)]);
      if next.Err? {
        return Some(MalformedSequence);
      }
      error := WriteSale(CommandOf(sale, secure, next.value, now),
                         InvoiceNumber(secure.device.value.terminalCode, next.value));
    }

    /** Saving the result of one atomic step: the disk takes the step exactly when the history does. */
    method SaveStep(ghost e: Event, fault: Fault) returns (end: Ending)
      requires target != Torn && Legal(EMPTY_DB, history) && Durable() == Run(EMPTY_DB, history)
      requires e.Restart? ==> IsHighestStored(Run(EMPTY_DB, history), e.highest)
      requires db == Next(Run(EMPTY_DB, history), e)
      modifies this`target, this`temporary, this`history
      ensures target != Torn && Legal(EMPTY_DB, history) && Durable() == Run(EMPTY_DB, history)
      ensures end.Returned? ==> target == Export(db) && history == old(history) + [e]
      ensures end.Threw? ==> target == old(target) && history == old(history) && end.failure == Storage
      ensures end.Died? ==> history == old(history) || history == old(history) + [e]
      ensures fault == NoFault ==> end.Returned?
    {
      end := SaveDb(fault);
      if !end.Threw? && target == Export(db) {
        HistoryGrows(history, e);
        history := history + [e];
      }
    }

    /**
     * persistedMutation around one handler. It returns with the handler's new state in memory and on disk,
     * or throws with both as they were, or dies leaving on disk exactly the old or exactly the new state;
     * in every case the till has taken the handler's whole atomic step or none of it.
     */
    method PersistedMutation(r: Request, fault: Fault) returns (end: Ending)
      requires Valid() && alive
      modifies this
      ensures Valid()
      ensures end.Returned? ==> alive && Handle(old(db), r) == Ok(db) && target == Export(db)
                                && history == old(history) + [Call(r)]
      ensures end.Threw? ==> alive && db == old(db) && target == old(target) && history == old(history)
      ensures end.Died? ==> !alive && (history == old(history) || history == old(history) + [Call(r)])
      ensures fault == NoFault ==> match Handle(old(db), r)
                                   case Ok(_) => end == Returned
                                   case Err(e) => end == Threw(Refused(e))
    {
      var before := db;
      var error := Operate(r);
      if fault == DiesInOperation {
        alive := false;
        return Died;
      }
      if error.Some? {
        db := before;
        return Threw(Refused(error.value));
      }
      if fault == CommitFails {
        db := before;
        return Threw(Storage);
      }
      if fault == DiesAfterCommit {
        alive := false;
        return Died;
      }
      end := SaveStep(Call(r), fault);
      alive := !end.Died?;
      if end.Threw? {
        db := before;
      }
    }

    /** The query of highestStoredSaleSequence, as a scan of the ledger. */
    method HighestStoredSaleSequence() returns (top: string)
      requires Consistent(db)
      ensures IsHighestStored(db, top)
    {
      top := "";
      var remaining := db.sales.Keys;
      while remaining != {}
        invariant remaining <= db.sales.Keys
        invariant top == "" <==> forall id <- db.sales.Keys - remaining :: Seq(db, id) == ""
        invariant top != "" ==> exists id <- db.sales :: Seq(db, id) == top
        invariant top != "" ==> Canonical(top)
        invariant forall id <- db.sales.Keys - remaining :: SequenceValue(Seq(db, id)) <= SequenceValue(top)
        decreases remaining
      {
        var id :| id in remaining;
        remaining := remaining - {id};
        assert SaleKept(db, id);
        var sequence := RowSequence(db.sales[id]);
        if sequence != "" && (top == "" || SequenceLess(top, sequence)) {
          if top != "" {
            SequenceOrderIsNumeric(top, sequence);
          }
          top := sequence;
        } else if sequence != "" {
          SequenceOrderIsNumeric(top, sequence);
        }
      }
      if top == "" {
        top := "0";
      } else {
        forall id | id in db.sales && Seq(db, id) != "" ensures !SequenceLess(top, Seq(db, id)) {
          assert SaleKept(db, id);
          SequenceOrderIsNumeric(top, Seq(db, id));
        }
      }
    }

    /** The statements of initDb on the opened database. */
    method RecoverInMemory(context: Option<Context>) returns (highest: string)
      requires Consistent(db)
      modifies this`db
      ensures IsHighestStored(old(db), highest) && db == Next(old(db), Restart(highest, context))
    {
      highest := HighestStoredSaleSequence();
      RecoverIsFourSteps(db, highest, context);
      db := db.(outbox := ResetSending(db.outbox));
      var greatest := MaxTerminalSequence([Some(db.meta.sequence), Some(highest)]);
      db := db.(meta := db.meta.(sequence := greatest.value));
      var error := AlignLocalSequence(context);
      db := RequireRefresh(db);
    }

    /**
     * initDb: open what is on disk, reset rows left sending, catch the counter up, and save. A restart that
     * itself fails or dies leaves the disk for the next one; RestartKeeps says what a completed one gives.
     */
    method InitDb(context: Option<Context>, fault: Fault) returns (end: Ending, ghost highest: string)
      requires Valid()
      modifies this
      ensures Valid() && (alive <==> end.Returned?)
      ensures IsHighestStored(old(Durable()), highest)
      ensures end.Returned? ==> target == Export(db) && history == old(history) + [Restart(highest, context)]
      ensures end.Threw? ==> end.failure == Storage && history == old(history)
      ensures end.Died? ==> history == old(history) || history == old(history) + [Restart(highest, context)]
      ensures fault == NoFault ==> end == Returned
    {
      alive := false;
      db := Durable();
      DurableIsConsistent(history);
      highest := RecoverInMemory(context);
      end := SaveStep(Restart(highest, context), fault);
      alive := end.Returned?;
    }
  }

  lemma RecoverIsFourSteps(db: Db, highest: string, context: Option<Context>)
    requires Consistent(db) && IsHighestStored(db, highest)
    ensures MaxSequence([Some(db.meta.sequence), Some(highest)]).Ok?
    ensures var s := MaxSequence([Some(db.meta.sequence), Some(highest)]).value;
            var aligned := Align(db.(outbox := ResetSending(db.outbox), meta := db.meta.(sequence := s)), context);
            aligned.Ok? && Next(db, Restart(highest, context)) == RequireRefresh(aligned.value)
  {
    RecoverEstablishesInv(db, highest, context);
  }

  lemma DurableIsConsistent(history: seq<Event>)
    requires Legal(EMPTY_DB, history)
    ensures Consistent(Run(EMPTY_DB, history))
  {
    RunKeepsInv(EMPTY_DB, history, 0);
  }

  /**
   * A completed restart always finds the ledger whole: no sale, payload or sequence is lost, the counter is
   * ahead of every stored sequence, and no row is left sending.
   */
  lemma RestartKeeps(history: seq<Event>, highest: string, context: Option<Context>)
    requires Legal(EMPTY_DB, history) && IsHighestStored(Run(EMPTY_DB, history), highest)
    ensures var before := Run(EMPTY_DB, history);
            var after := Run(EMPTY_DB, history + [Restart(highest, context)]);
            && Inv(after) && Keeps(before, after)
            && after.outbox == ResetSending(before.outbox)
            && forall id <- after.outbox :: after.outbox[id].status != Sending
  {
    DurableInv(history);
    HistoryGrows(history, Restart(highest, context));
    RecoveryKeeps(Run(EMPTY_DB, history), highest, context);
  }

  lemma RecoveryKeeps(db: Db, highest: string, context: Option<Context>)
    requires Inv(db) && IsHighestStored(db, highest)
    ensures var after := Next(db, Restart(highest, context));
            && Inv(after) && Keeps(db, after)
            && after.outbox == ResetSending(db.outbox)
            && forall id <- after.outbox :: after.outbox[id].status != Sending
  {
    RecoverEstablishesInv(db, highest, context);
  }

  lemma DurableInv(history: seq<Event>)
    requires Legal(EMPTY_DB, history)
    ensures Inv(Run(EMPTY_DB, history))
  {
    RunKeepsInv(EMPTY_DB, history, 0);
  }

  lemma HistoryGrows(history: seq<Event>, e: Event)
    requires Legal(EMPTY_DB, history)
    requires e.Restart? ==> IsHighestStored(Run(EMPTY_DB, history), e.highest)
    ensures Legal(EMPTY_DB, history + [e])
    ensures Run(EMPTY_DB, history + [e]) == Next(Run(EMPTY_DB, history), e)
  {
    var after := history + [e];
    assert after[..|history|] == history;
    forall k | 0 <= k < |after| && after[k].Restart? ensures IsHighestStored(Run(EMPTY_DB, after[..k]), after[k].highest) {
      assert after[..k] == history[..k];
    }
  }

  lemma {:induction false} ShortPrefix(stock: map<Id, int>, items: seq<SaleItem>, k: nat)
    requires k <= |items| && TakeStock(stock, items[..k]) == None
    ensures TakeStock(stock, items) == None
    decreases |items| - k
  {
    if k == |items| {
      assert items[..k] == items;
    } else {
      assert items[..k + 1][..k] == items[..k];
      ShortPrefix(stock, items, k + 1);
    }
  }
}
