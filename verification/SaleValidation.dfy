/** Checking a sale before it is committed (pos-electron/electron/sale-validation.ts). */
module SaleValidation {
  import opened Decimals
  import opened Outcome
  import opened Text

  /** What Number(...) makes of an untrusted field. */
  datatype JsNumber = NotFinite | Finite(value: real)

  datatype RawItem = RawItem(variantId: string, qty: JsNumber, unitPrice: JsNumber, unitTax: JsNumber,
                             sku: string, nameAr: string, nameEn: string)

  datatype RawSale = RawSale(syncId: string, branchId: string, sellerId: string, paymentMethod: string,
                             customerPhone: string, localTotal: JsNumber, items: seq<RawItem>)

  datatype SaleItem = SaleItem(variantId: string, qty: nat, unitPrice: real, unitTax: real,
                               sku: string, nameAr: string, nameEn: string)

  datatype ValidSale = ValidSale(syncId: string, branchId: string, sellerId: string, paymentMethod: string,
                                 customerPhone: string, localTotal: JsNumber, items: seq<SaleItem>)

  datatype SaleError =
    | InvalidSyncId
    | BranchMismatch
    | SellerRequired
    | PaymentMethodInvalid
    | CustomerPhoneInvalid
    | SaleItemsInvalid
    | SaleItemInvalid
    | DuplicateSaleItem

  const PAYMENT_METHODS := {"cash", "card", "instapay", "vodafone_cash", "installment"}

  predicate IsHex(c: char) {
    IsDigit(c) || 'a' <= c <= 'f' || 'A' <= c <= 'F'
  }

  /** The UUID pattern, versions 1 to 8 and the RFC variant, in either case. */
  predicate IsUuid(s: string) {
    && |s| == 36
    && (forall i | 0 <= i < 36 :: if i in {8, 13, 18, 23} then s[i] == '-' else IsHex(s[i]))
    && '1' <= s[14] <= '8'
    && s[19] in "89abAB"
  }

  /** ^(?:\+20|0)1[0125]\d{8}$ */
  predicate IsEgyptianPhone(s: string) {
    var rest := if |s| >= 3 && s[..3] == "+20" then s[3..] else if |s| >= 1 && s[0] == '0' then s[1..] else "";
    |rest| == 10 && rest[0] == '1' && rest[1] in "0125" && AllDigits(rest[2..])
  }

  predicate ValidItem(item: RawItem) {
    && IsUuid(item.variantId)
    && item.qty.Finite? && item.qty.value.Floor as real == item.qty.value && 1.0 <= item.qty.value <= 1000.0
    && item.unitPrice.Finite? && item.unitPrice.value > 0.0
    && item.unitTax.Finite? && item.unitTax.value >= 0.0
    && !Blank(item.sku)
    && (!Blank(item.nameAr) || !Blank(item.nameEn))
  }

  function Normalize(item: RawItem): SaleItem
    requires ValidItem(item)
  {
    SaleItem(item.variantId, item.qty.value.Floor, item.unitPrice.value, item.unitTax.value,
             Trim(item.sku), Trim(item.nameAr), Trim(item.nameEn))
  }

  function ItemsFrom(items: seq<RawItem>, seen: set<string>): Result<seq<SaleItem>, SaleError> {
    if items == [] then Ok([])
    else if !ValidItem(items[0]) then Err(SaleItemInvalid)
    else if items[0].variantId in seen then Err(DuplicateSaleItem)
    else
      match ItemsFrom(items[1..], seen + {items[0].variantId})
      case Ok(rest) => Ok([Normalize(items[0])] + rest)
      case Err(e) => Err(e)
  }

  /** The first line that is malformed or repeats an earlier variant. */
  predicate BadLine(items: seq<RawItem>, seen: set<string>, i: int) {
    0 <= i < |items| && (!ValidItem(items[i]) || items[i].variantId in seen || items[i].variantId in VariantsOf(items[..i]))
  }

  function VariantsOf(items: seq<RawItem>): set<string> {
    set item <- items :: item.variantId
  }

  lemma BadLineShift(items: seq<RawItem>, seen: set<string>, i: nat)
    requires items != []
    ensures var rest, seen' := items[1..], seen + {items[0].variantId};
            BadLine(items, seen, i + 1) <==> BadLine(rest, seen', i)
  {
    var rest := items[1..];
    if i < |rest| {
      assert items[..i + 1] == [items[0]] + rest[..i];
      assert VariantsOf(items[..i + 1]) == {items[0].variantId} + VariantsOf(rest[..i]);
    }
  }

  /** Lines are refused exactly when some line is bad, and then the first bad line names the error. */
  lemma {:induction false} RefusedAtFirstBadLine(items: seq<RawItem>, seen: set<string>) returns (i: int)
    ensures ItemsFrom(items, seen).Ok? ==> forall j :: !BadLine(items, seen, j)
    ensures ItemsFrom(items, seen).Err? ==>
              && BadLine(items, seen, i)
              && (forall j | 0 <= j < i :: !BadLine(items, seen, j))
              && ItemsFrom(items, seen).error == if ValidItem(items[i]) then DuplicateSaleItem else SaleItemInvalid
  {
    i := 0;
    if items != [] && !BadLine(items, seen, 0) {
      var k := RefusedAtFirstBadLine(items[1..], seen + {items[0].variantId});
      i := k + 1;
      forall j | 0 < j < |items| && !BadLine(items[1..], seen + {items[0].variantId}, j - 1)
        ensures !BadLine(items, seen, j)
      {
        BadLineShift(items, seen, j - 1);
      }
      if k >= 0 {
        BadLineShift(items, seen, k);
      }
    }
  }

  /** Accepted lines keep their variants, which are distinct, and their quantities, from 1 to 1000. */
  lemma {:induction false} AcceptedLines(items: seq<RawItem>, seen: set<string>)
    requires ItemsFrom(items, seen).Ok?
    ensures var valid := ItemsFrom(items, seen).value;
            && |valid| == |items|
            && (forall i | 0 <= i < |items| ::
                  && valid[i].variantId == items[i].variantId
                  && valid[i].variantId !in seen
                  && 1 <= valid[i].qty <= 1000
                  && items[i].qty == Finite(valid[i].qty as real))
            && (forall i, j | 0 <= i < j < |valid| :: valid[i].variantId != valid[j].variantId)
  {
    if items != [] {
      AcceptedLines(items[1..], seen + {items[0].variantId});
    }
  }

  function Validate(sale: RawSale, enrolledBranchId: string): Result<ValidSale, SaleError> {
    if !IsUuid(sale.syncId) then Err(InvalidSyncId)
    else if !IsUuid(sale.branchId) || sale.branchId != enrolledBranchId then Err(BranchMismatch)
    else if !IsUuid(sale.sellerId) then Err(SellerRequired)
    else if sale.paymentMethod !in PAYMENT_METHODS then Err(PaymentMethodInvalid)
    else if sale.customerPhone != "" && !IsEgyptianPhone(sale.customerPhone) then Err(CustomerPhoneInvalid)
    else if !(1 <= |sale.items| <= 100) then Err(SaleItemsInvalid)
    else
      match ItemsFrom(sale.items, {})
      case Err(e) => Err(e)
      case Ok(items) => Ok(ValidSale(sale.syncId, sale.branchId, sale.sellerId, sale.paymentMethod,
                                     sale.customerPhone, sale.localTotal, items))
  }

  function Prepend(prefix: seq<SaleItem>, r: Result<seq<SaleItem>, SaleError>): Result<seq<SaleItem>, SaleError> {
    match r
    case Ok(rest) => Ok(prefix + rest)
    case Err(e) => Err(e)
  }

  lemma OneMoreLine(items: seq<RawItem>, i: nat, seen: set<string>, normalized: seq<SaleItem>)
    requires i < |items| && ValidItem(items[i]) && items[i].variantId !in seen
    ensures Prepend(normalized, ItemsFrom(items[i..], seen)) ==
            Prepend(normalized + [Normalize(items[i])], ItemsFrom(items[i + 1..], seen + {items[i].variantId}))
  {
    assert items[i..][1..] == items[i + 1..];
    var rest := ItemsFrom(items[i + 1..], seen + {items[i].variantId});
    if rest.Ok? {
      assert normalized + ([Normalize(items[i])] + rest.value) == normalized + [Normalize(items[i])] + rest.value;
    }
  }

  /** The source's walk over the lines, collecting the variants seen and throwing at the first bad line. */
  method ValidateItems(items: seq<RawItem>) returns (r: Result<seq<SaleItem>, SaleError>)
    ensures r == ItemsFrom(items, {})
  {
    var seen: set<string> := {};
    var normalized: seq<SaleItem> := [];
    assert items[0..] == items;
    assert ItemsFrom(items, {}).Ok? ==> [] + ItemsFrom(items, {}).value == ItemsFrom(items, {}).value;
    for i := 0 to |items|
      invariant ItemsFrom(items, {}) == Prepend(normalized, ItemsFrom(items[i..], seen))
    {
      if !ValidItem(items[i]) {
        return Err(SaleItemInvalid);
      }
      if items[i].variantId in seen {
        return Err(DuplicateSaleItem);
      }
      OneMoreLine(items, i, seen, normalized);
      seen := seen + {items[i].variantId};
      normalized := normalized + [Normalize(items[i])];
    }
    assert normalized + [] == normalized;
    return Ok(normalized);
  }
}
