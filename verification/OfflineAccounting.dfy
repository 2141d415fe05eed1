/**
 * Terminal sale sequences and the offline accounting context
 * (pos-electron/electron/offline-accounting.ts).
 */
module OfflineAccounting {
  import opened Decimals
  import opened Outcome
  import opened Text

  datatype SequenceError = NotADecimalInteger

  type Sequence = s: string | Canonical(s) witness "0"

  /** Undefined, null and empty arguments are skipped. */
  predicate Skipped(value: Option<string>) {
    value.None? || value.value == ""
  }

  /** The left-to-right maximum starting from `maximum`. */
  function MaximumFrom(values: seq<Option<string>>, maximum: nat): Result<nat, SequenceError> {
    if values == [] then Ok(maximum)
    else if Skipped(values[0]) then MaximumFrom(values[1..], maximum)
    else if !Canonical(values[0].value) then Err(NotADecimalInteger)
    else
      var parsed := Value(values[0].value);
      MaximumFrom(values[1..], if parsed > maximum then parsed else maximum)
  }

  /** What the loop means: it fails on the first malformed value and otherwise finds the least upper bound. */
  lemma {:induction false} MaximumFromMeaning(values: seq<Option<string>>, maximum: nat)
    ensures MaximumFrom(values, maximum).Ok? <==>
            forall v <- values :: Skipped(v) || Canonical(v.value)
    ensures MaximumFrom(values, maximum).Ok? ==>
              var top := MaximumFrom(values, maximum).value;
              && maximum <= top
              && (forall v <- values | !Skipped(v) :: Value(v.value) <= top)
              && (top == maximum || exists v <- values :: !Skipped(v) && Value(v.value) == top)
  {
    if values != [] {
      assert values == [values[0]] + values[1..];
      if !Skipped(values[0]) && Canonical(values[0].value) {
        var parsed := Value(values[0].value);
        MaximumFromMeaning(values[1..], if parsed > maximum then parsed else maximum);
      } else {
        MaximumFromMeaning(values[1..], maximum);
      }
    }
  }

  /** The greatest of the supplied sequences, or zero, printed back as canonical text. */
  function MaxSequence(values: seq<Option<string>>): Result<Sequence, SequenceError> {
    match MaximumFrom(values, 0)
    case Err(e) => Err(e)
    case Ok(n) =>
      PrintIsCanonical(n);
      Ok(Print(n))
  }

  method MaxTerminalSequence(values: seq<Option<string>>) returns (r: Result<Sequence, SequenceError>)
    ensures r == MaxSequence(values)
    ensures r.Ok? <==> forall v <- values :: Skipped(v) || Canonical(v.value)
    ensures r.Ok? ==> forall v <- values | !Skipped(v) :: Value(v.value) <= Value(r.value)
    ensures r.Ok? ==> r.value == "0" || Some(r.value) in values
  {
    var maximum := 0;
    MaximumFromMeaning(values, 0);
    for i := 0 to |values|
      invariant MaximumFrom(values, 0) == MaximumFrom(values[i..], maximum)
    {
      if Skipped(values[i]) {
        continue;
      }
      if !Canonical(values[i].value) {
        return Err(NotADecimalInteger);
      }
      var parsed := Value(values[i].value);
      if parsed > maximum {
        maximum := parsed;
      }
    }
    PrintIsCanonical(maximum);
    if maximum > 0 {
      var v :| v in values && !Skipped(v) && Value(v.value) == maximum;
      PrintValue(v.value);
    }
    return Ok(Print(maximum));
  }

  function NextSequence(values: seq<Option<string>>): (r: Result<Sequence, SequenceError>)
    ensures r.Ok? <==> MaxSequence(values).Ok?
    ensures r.Ok? ==> Value(r.value) == Value(MaxSequence(values).value) + 1
    ensures r.Ok? ==> forall v <- values | !Skipped(v) :: Canonical(v.value) && Value(v.value) < Value(r.value)
  {
    MaximumFromMeaning(values, 0);
    match MaximumFrom(values, 0)
    case Err(e) => Err(e)
    case Ok(n) =>
      PrintIsCanonical(n);
      PrintIsCanonical(n + 1);
      Ok(Print(n + 1))
  }

  datatype Role = BranchManager | Cashier | OtherRole

  /** Dates are the milliseconds Date.parse reports, or None where it reports NaN. */
  datatype Context = Context(
    version: int,
    sessionId: string,
    userId: string,
    role: Role,
    branchId: string,
    terminalId: string,
    shiftId: string,
    issuedAt: Option<int>,
    expiresAt: Option<int>,
    serverLastSaleSequence: string)

  datatype User = User(id: string, name: string, role: Role, branchId: string)

  datatype Device = Device(branchId: string, terminalId: string, terminalCode: string)

  predicate NonEmptyString(s: string) {
    !Blank(s) && s != "undefined" && s != "null"
  }

  predicate ValidContext(c: Context) {
    && c.version == 2
    && NonEmptyString(c.sessionId)
    && NonEmptyString(c.userId)
    && c.role != OtherRole
    && NonEmptyString(c.branchId)
    && NonEmptyString(c.terminalId)
    && NonEmptyString(c.shiftId)
    && c.issuedAt.Some?
    && c.expiresAt.Some?
    && c.expiresAt.value > c.issuedAt.value
    && Canonical(c.serverLastSaleSequence)
  }

  predicate ContextMatches(c: Context, user: User, device: Device, shiftId: string, shiftBranch: string) {
    && ValidContext(c)
    && c.userId == user.id
    && c.role == user.role
    && c.branchId == user.branchId == device.branchId == shiftBranch
    && c.terminalId == device.terminalId
    && c.shiftId == shiftId
  }
}
