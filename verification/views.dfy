/**
 * The statable rules of the views (transportation/views.py): the `chunks`
 * slicer, the status-change endpoints with their "already in that status"
 * guards, the delete guards, driver (de)activation, the default filter data,
 * the requested-driver lookup of the create form, and who may edit a trip
 * request. Objects fetched with `objects.get` are passed in (null when the
 * row does not exist); tables are sequences of rows.
 */
module Views {
  import opened Wrappers
  import opened Strings
  import opened Seqs
  import opened TripRequests
  import opened Users
  import opened Emails

  // ---------------------------------------------------------------- chunks

  lemma Distribute(x: int, n: int)
    ensures (x + 1) * n == x * n + n
  {
  }

  lemma MulMonotone(a: int, b: int, n: int)
    requires a <= b && n > 0
    ensures a * n <= b * n
  {
    assert b * n - a * n == (b - a) * n;
  }

  /** Euclidean division has one quotient and remainder. */
  lemma DivUnique(x: int, n: int, q: int, r: int)
    requires n > 0 && 0 <= r < n && x == q * n + r
    ensures x / n == q
  {
    var q' := x / n;
    assert x == q' * n + x % n;
    if q' > q {
      MulMonotone(q + 1, q', n);
      Distribute(q, n);
    } else if q' < q {
      MulMonotone(q' + 1, q, n);
      Distribute(q', n);
    }
  }

  /** Adding one step to a non-negative numerator adds one to the quotient. */
  lemma DivStep(a: int, n: int)
    requires a >= 0 && n > 0
    ensures (a + n) / n == a / n + 1
  {
    var q := a / n;
    var r := a % n;
    assert a == q * n + r;
    Distribute(q, n);
    DivUnique(a + n, n, q + 1, r);
  }

  /** The slices lst[i:i+n], lst[i+n:i+2n], ... up to the end of lst. */
  function ChunksFrom<T>(lst: seq<T>, n: nat, i: nat): (cs: seq<seq<T>>)
    requires n > 0 && i <= |lst|
    ensures Flatten(cs) == lst[i..]
    ensures |cs| == (|lst| - i + n - 1) / n
    ensures forall k :: 0 <= k < |cs| ==> 0 < |cs[k]| <= n
    ensures forall k :: 0 <= k < |cs| - 1 ==> |cs[k]| == n
    decreases |lst| - i
  {
    if i == |lst| then []
    else if |lst| - i <= n then
      assert (|lst| - i + n - 1) / n == 1 by {
        DivUnique(|lst| - i + n - 1, n, 1, |lst| - i - 1);
      }
      assert Flatten([lst[i..]]) == lst[i..] + Flatten([]);
      [lst[i..]]
    else
      var rest := ChunksFrom(lst, n, i + n);
      var cs := [lst[i..i + n]] + rest;
      assert |cs| == (|lst| - i + n - 1) / n by {
        DivStep(|lst| - (i + n) + n - 1, n);
      }
      assert Flatten(cs) == lst[i..] by {
        assert cs[1..] == rest;
        assert lst[i..] == lst[i..i + n] + lst[i + n..];
      }
      assert forall k :: 1 <= k < |cs| ==> cs[k] == rest[k - 1];
      cs
  }

  /**
   * chunks(lst, n): `range(0, len(lst), n)` raises ValueError for a zero
   * step and is empty for a negative one.
   */
  function Chunks<T>(lst: seq<T>, n: int): (r: Result<seq<seq<T>>>)
    ensures r.Err? <==> n == 0
    ensures r.Err? ==> r.error == ValueError
    ensures n < 0 ==> r == Ok([])
  {
    if n == 0 then Err(ValueError)
    else if n < 0 then Ok([])
    else Ok(ChunksFrom(lst, n, 0))
  }

  /** For a positive size the chunks rebuild the list, all but the last are full, and there are ceil(len/n) of them. */
  lemma ChunksPartition<T>(lst: seq<T>, n: int)
    requires n > 0
    ensures Chunks(lst, n).Ok?
    ensures var cs := Chunks(lst, n).value;
      Flatten(cs) == lst
      && |cs| == (|lst| + n - 1) / n
      && (forall k :: 0 <= k < |cs| ==> 0 < |cs[k]| <= n)
      && (forall k :: 0 <= k < |cs| - 1 ==> |cs[k]| == n)
  {
    assert lst[0..] == lst;
  }

  // ---------------------------------------------------- status endpoints

  /** What an endpoint answers: success, the "already ..." error, a handled error, or an exception that escapes. */
  datatype Response = Success | AlreadyInStatus | ErrorResponse(cause: Error) | Raised(error: Error)

  /**
   * approve_request: refuses a request that is already APPROVED; otherwise
   * approves and commits it, and only when that succeeds sends the approval
   * email (whose body needs a requestor).
   */
  method ApproveRequest(t: TripRequest?, user: UserId, outbox: Outbox) returns (r: Response)
    requires t != null ==> t.persisted
    modifies t, outbox
    ensures t == null ==> r == ErrorResponse(DoesNotExist) && outbox.sent == old(outbox.sent)
    ensures t != null && old(t.status).Approved? ==>
      r == AlreadyInStatus && unchanged(t) && outbox.sent == old(outbox.sent)
    ensures t != null && !old(t.status).Approved? && (old(t.vehicle).None? || old(t.driver).None?) ==>
      r == ErrorResponse(ValidationError) && unchanged(t) && outbox.sent == old(outbox.sent)
    ensures t != null && !old(t.status).Approved? && old(t.vehicle).Some? && old(t.driver).Some? ==>
      && t.Row() == old(t.Row()).(status := Approved)
      && t.persisted
      && t.activities == old(t.activities) + CommitRows(TypeApproved, Some(user))
      && (old(t.requestor).None? ==> r == Raised(AttributeError) && outbox.sent == old(outbox.sent))
      && (old(t.requestor).Some? ==>
            r == Success && outbox.sent == old(outbox.sent) + SentMessages(ApprovedEmail(t.Row()).value, []))
  {
    if t == null {
      return ErrorResponse(DoesNotExist);
    }
    if t.status.Approved? {
      return AlreadyInStatus;
    }
    var outcome := t.Approve(true, Some(user));
    if outcome.Fail? {
      return ErrorResponse(outcome.error);
    }
    var email := ApprovedEmail(t.Row());
    if email.Err? {
      return Raised(email.error);
    }
    Send(email.value, null, outbox);
    r := Success;
  }

  /**
   * pending_request: refuses a request that is already PENDING; otherwise
   * sets PENDING, saves with the moderator as actor, and sends the status
   * email from the old status to PENDING.
   */
  method PendingRequest(t: TripRequest?, user: UserId, outbox: Outbox) returns (r: Response)
    requires t != null ==> t.persisted
    modifies t, outbox
    ensures t == null ==> r == ErrorResponse(DoesNotExist) && outbox.sent == old(outbox.sent)
    ensures t != null && old(t.status).Pending? ==>
      r == AlreadyInStatus && unchanged(t) && outbox.sent == old(outbox.sent)
    ensures t != null && !old(t.status).Pending? ==>
      && t.Row() == old(t.Row()).(status := Pending)
      && t.persisted
      && t.activities == old(t.activities) + [TripActivity(TypeEdited, Some(user))]
      && (old(t.requestor).None? ==> r == Raised(AttributeError) && outbox.sent == old(outbox.sent))
      && (old(t.requestor).Some? ==>
            r == Success
            && outbox.sent == old(outbox.sent)
               + SentMessages(StatusEmail(t.Row(), old(t.status).Code(), Pending.Code()).value, []))
  {
    if t == null {
      return ErrorResponse(DoesNotExist);
    }
    var original := t.status;
    if original.Pending? {
      return AlreadyInStatus;
    }
    t.status := Pending;
    var saved := t.Save(Some(user));
    StatusDisplayOfStatus(original, Pending);
    var email := StatusEmail(t.Row(), original.Code(), Pending.Code());
    if email.Err? {
      return Raised(email.error);
    }
    Send(email.value, null, outbox);
    r := Success;
  }

  /**
   * deny_request: refuses a request that is already DENIED; otherwise denies
   * and commits it and sends the denial email.
   */
  method DenyRequest(t: TripRequest?, user: UserId, outbox: Outbox) returns (r: Response)
    requires t != null ==> t.persisted
    modifies t, outbox
    ensures t == null ==> r == ErrorResponse(DoesNotExist) && outbox.sent == old(outbox.sent)
    ensures t != null && old(t.status).Denied? ==>
      r == AlreadyInStatus && unchanged(t) && outbox.sent == old(outbox.sent)
    ensures t != null && !old(t.status).Denied? ==>
      && t.Row() == old(t.Row()).(status := Denied)
      && t.persisted
      && t.activities == old(t.activities) + CommitRows(TypeDenied, Some(user))
      && (old(t.requestor).None? ==> r == Raised(AttributeError) && outbox.sent == old(outbox.sent))
      && (old(t.requestor).Some? ==>
            r == Success && outbox.sent == old(outbox.sent) + SentMessages(DeniedEmail(t.Row()).value, []))
  {
    if t == null {
      return ErrorResponse(DoesNotExist);
    }
    if t.status.Denied? {
      return AlreadyInStatus;
    }
    var outcome := t.Deny(true, Some(user));
    var email := DeniedEmail(t.Row());
    if email.Err? {
      return Raised(email.error);
    }
    Send(email.value, null, outbox);
    r := Success;
  }


  /**
   * The exception classes the `except` clauses of the status endpoints name.
   * Inside their `try` the only lookup is `TripRequest.objects.get`, so the
   * DoesNotExist that can arise there is TripRequest.DoesNotExist, which a
   * clause naming Driver.DoesNotExist (a sibling subclass of
   * ObjectDoesNotExist) does not catch.
   */
  datatype ExceptClause = RequestDoesNotExist | DriverDoesNotExist | ValueErrorClause | ValidationErrorClause

  predicate Catches(c: ExceptClause, e: Error)
  {
    match c
    case RequestDoesNotExist => e == DoesNotExist
    case DriverDoesNotExist => false
    case ValueErrorClause => e == ValueError
    case ValidationErrorClause => e == ValidationError
  }

  /** How an exception raised inside the `try` ends: the clauses are tried in order, and one that matches answers with an error. */
  function Answer(e: Error, clauses: seq<ExceptClause>): (r: Response)
    ensures r == (if exists c :: c in clauses && Catches(c, e) then ErrorResponse(e) else Raised(e))
  {
    if clauses == [] then Raised(e)
    else if Catches(clauses[0], e) then ErrorResponse(e)
    else Answer(e, clauses[1..])
  }

  /** The clauses of return_request_vehicle. */
  const RETURN_CLAUSES: seq<ExceptClause> := [RequestDoesNotExist, ValueErrorClause]

  /** The clauses of finalize_request, as written: Driver.DoesNotExist in place of TripRequest.DoesNotExist. */
  const FINALIZE_CLAUSES: seq<ExceptClause> := [DriverDoesNotExist, ValueErrorClause]

  /** The clauses finalize_request means, those of return_request_vehicle. */
  const FINALIZE_CLAUSES_CORRECTED: seq<ExceptClause> := [RequestDoesNotExist, ValueErrorClause]

  /** finalize_request as written lets a missing request's DoesNotExist escape, where return_request_vehicle answers it. */
  lemma FinalizeMissingEscapes()
    ensures Answer(DoesNotExist, FINALIZE_CLAUSES) == Raised(DoesNotExist)
    ensures Answer(DoesNotExist, RETURN_CLAUSES) == ErrorResponse(DoesNotExist)
  {
    assert Catches(RETURN_CLAUSES[0], DoesNotExist);
  }

  /** The corrected clauses answer a missing request and treat every other exception as written. */
  lemma FinalizeClausesCorrected(e: Error)
    ensures Answer(e, FINALIZE_CLAUSES_CORRECTED)
      == if e == DoesNotExist then ErrorResponse(e) else Answer(e, FINALIZE_CLAUSES)
  {
    if e == DoesNotExist {
      assert Catches(FINALIZE_CLAUSES_CORRECTED[0], e);
    } else if e == ValueError {
      assert Catches(FINALIZE_CLAUSES_CORRECTED[1], e) && Catches(FINALIZE_CLAUSES[1], e);
    }
  }

  /** Neither return_request_vehicle nor finalize_request catches ValidationError, which approve_request does. */
  lemma FinishingViewsLetValidationErrorEscape()
    ensures Answer(ValidationError, RETURN_CLAUSES) == Raised(ValidationError)
    ensures Answer(ValidationError, FINALIZE_CLAUSES) == Raised(ValidationError)
    ensures Answer(ValidationError, FINALIZE_CLAUSES_CORRECTED) == Raised(ValidationError)
  {
  }

  /**
   * What return_request_vehicle and finalize_request leave behind for a
   * request that has a vehicle and a driver: only the status changed to
   * `target`, the two committed FINISHED rows, and the status email from the
   * old status to the new one, which fails only without a requestor.
   */
  twostate predicate Finished(t: TripRequest, target: Status, user: UserId, outbox: Outbox, r: Response)
    reads t, outbox
  {
    && t.Row() == old(t.Row()).(status := target)
    && t.persisted
    && t.activities == old(t.activities) + CommitRows(TypeFinished, Some(user))
    && (old(t.requestor).None? ==> r == Raised(AttributeError) && outbox.sent == old(outbox.sent))
    && (old(t.requestor).Some? ==>
          r == Success
          && outbox.sent == old(outbox.sent)
             + SentMessages(StatusEmail(t.Row(), old(t.status).Code(), target.Code()).value, []))
  }

  /**
   * The body shared by return_request_vehicle and finalize_request: no
   * "already ..." guard; return_vehicle or finalize with commit, whose
   * ValidationError goes to the view's clauses; then, always, the status
   * email from the old status to the new one.
   */
  method FinishRequest(t: TripRequest?, target: Status, clauses: seq<ExceptClause>, user: UserId, outbox: Outbox)
    returns (r: Response)
    requires target == Returned || target == Completed
    requires t != null ==> t.persisted
    modifies t, outbox
    ensures t == null ==> r == Answer(DoesNotExist, clauses) && outbox.sent == old(outbox.sent)
    ensures t != null && (old(t.vehicle).None? || old(t.driver).None?) ==>
      r == Answer(ValidationError, clauses) && unchanged(t) && outbox.sent == old(outbox.sent)
    ensures t != null && old(t.vehicle).Some? && old(t.driver).Some? ==>
      Finished(t, target, user, outbox, r)
  {
    if t == null {
      return Answer(DoesNotExist, clauses);
    }
    var original := t.status;
    var outcome;
    if target == Returned {
      outcome := t.ReturnVehicle(true, Some(user));
    } else {
      outcome := t.Finalize(true, Some(user));
    }
    if outcome.Fail? {
      return Answer(outcome.error, clauses);
    }
    StatusDisplayOfStatus(original, target);
    var email := StatusEmail(t.Row(), original.Code(), target.Code());
    if email.Err? {
      return Raised(email.error);
    }
    Send(email.value, null, outbox);
    r := Success;
  }

  /**
   * return_request_vehicle: RETURNED from any status; a missing request is
   * answered with an error, but a missing vehicle or driver raises
   * ValidationError through the view.
   */
  method ReturnRequestVehicle(t: TripRequest?, user: UserId, outbox: Outbox) returns (r: Response)
    requires t != null ==> t.persisted
    modifies t, outbox
    ensures t == null ==> r == ErrorResponse(DoesNotExist) && outbox.sent == old(outbox.sent)
    ensures t != null && (old(t.vehicle).None? || old(t.driver).None?) ==>
      r == Raised(ValidationError) && unchanged(t) && outbox.sent == old(outbox.sent)
    ensures t != null && old(t.vehicle).Some? && old(t.driver).Some? ==>
      Finished(t, Returned, user, outbox, r)
  {
    FinalizeMissingEscapes();
    FinishingViewsLetValidationErrorEscape();
    r := FinishRequest(t, Returned, RETURN_CLAUSES, user, outbox);
  }

  /**
   * finalize_request as written: COMPLETED from any status; both a missing
   * request and a missing vehicle or driver raise through the view.
   */
  method FinalizeRequest(t: TripRequest?, user: UserId, outbox: Outbox) returns (r: Response)
    requires t != null ==> t.persisted
    modifies t, outbox
    ensures t == null ==> r == Raised(DoesNotExist) && outbox.sent == old(outbox.sent)
    ensures t != null && (old(t.vehicle).None? || old(t.driver).None?) ==>
      r == Raised(ValidationError) && unchanged(t) && outbox.sent == old(outbox.sent)
    ensures t != null && old(t.vehicle).Some? && old(t.driver).Some? ==>
      Finished(t, Completed, user, outbox, r)
  {
    FinalizeMissingEscapes();
    FinishingViewsLetValidationErrorEscape();
    r := FinishRequest(t, Completed, FINALIZE_CLAUSES, user, outbox);
  }

  /** finalize_request with the clause it means: a missing request is answered with an error, as return_request_vehicle does. */
  method FinalizeRequestCorrected(t: TripRequest?, user: UserId, outbox: Outbox) returns (r: Response)
    requires t != null ==> t.persisted
    modifies t, outbox
    ensures t == null ==> r == ErrorResponse(DoesNotExist) && outbox.sent == old(outbox.sent)
    ensures t != null && (old(t.vehicle).None? || old(t.driver).None?) ==>
      r == Raised(ValidationError) && unchanged(t) && outbox.sent == old(outbox.sent)
    ensures t != null && old(t.vehicle).Some? && old(t.driver).Some? ==>
      Finished(t, Completed, user, outbox, r)
  {
    FinalizeClausesCorrected(DoesNotExist);
    FinishingViewsLetValidationErrorEscape();
    r := FinishRequest(t, Completed, FINALIZE_CLAUSES_CORRECTED, user, outbox);
  }

  // ------------------------------------------------------------- deletes

  /** The kinds of row a trip request points at. */
  datatype RefKind = OrgRef | DepartmentRef | BudgetRef | DriverRef | VehicleRef

  /** Some trip request points at row `id` of that kind. */
  predicate Referenced(kind: RefKind, id: nat, trips: seq<TripRow>)
  {
    exists i :: 0 <= i < |trips| && RefersTo(trips[i], kind, id)
  }

  predicate RefersTo(t: TripRow, kind: RefKind, id: nat)
  {
    match kind
    case OrgRef => t.org == id
    case DepartmentRef => t.department == id
    case BudgetRef => t.budget == id
    case DriverRef => t.driver == Some(id)
    case VehicleRef => t.vehicle == Some(id)
  }

  /**
   * The guard of the delete views as written: delete_vehicle refuses a
   * vehicle in use, but delete_org, delete_department, delete_budget and
   * delete_driver test `not TripRequest.objects.filter(...)` and so refuse
   * exactly the rows that are NOT in use.
   */
  predicate DeleteAllowed(kind: RefKind, id: nat, trips: seq<TripRow>)
  {
    if kind == VehicleRef then !Referenced(kind, id, trips) else Referenced(kind, id, trips)
  }

  /** The guard every delete view means, as its message says: refuse a row in use. */
  predicate DeleteAllowedCorrected(kind: RefKind, id: nat, trips: seq<TripRow>)
  {
    !Referenced(kind, id, trips)
  }

  /**
   * One delete_* view on the ids of the stored rows: DoesNotExist is answered
   * with an error and the guard's bare Exception escapes. A row that passes
   * the guard is deleted unless a trip request still points at it: every
   * foreign key of TripRequest is on_delete=PROTECT, so delete() then raises
   * ProtectedError, which the view does not catch either.
   */
  function DeleteOne(kind: RefKind, ids: set<nat>, pk: nat, trips: seq<TripRow>): (r: Result<set<nat>>)
    ensures pk !in ids ==> r == Err(DoesNotExist)
    ensures pk in ids && !DeleteAllowed(kind, pk, trips) ==> r == Err(InUse)
    ensures pk in ids && DeleteAllowed(kind, pk, trips) && Referenced(kind, pk, trips) ==> r == Err(ProtectedError)
    ensures r.Ok? <==> pk in ids && DeleteAllowed(kind, pk, trips) && !Referenced(kind, pk, trips)
    ensures r.Ok? ==> r.value == ids - {pk}
  {
    if pk !in ids then Err(DoesNotExist)
    else if !DeleteAllowed(kind, pk, trips) then Err(InUse)
    else if Referenced(kind, pk, trips) then Err(ProtectedError)
    else Ok(ids - {pk})
  }

  /** The same view with the corrected guard, which refuses a protected row before delete() is reached. */
  function DeleteOneCorrected(kind: RefKind, ids: set<nat>, pk: nat, trips: seq<TripRow>): (r: Result<set<nat>>)
    ensures r.Ok? <==> pk in ids && !Referenced(kind, pk, trips)
    ensures r.Ok? ==> r.value == ids - {pk}
    ensures r.Err? ==> r.error == (if pk in ids then InUse else DoesNotExist)
  {
    if pk !in ids then Err(DoesNotExist)
    else if !DeleteAllowedCorrected(kind, pk, trips) then Err(InUse)
    else if Referenced(kind, pk, trips) then Err(ProtectedError)
    else Ok(ids - {pk})
  }

  /**
   * The inverted guard: an organisation no request uses is refused as "in
   * use", and one that a request uses passes the guard only to be protected.
   */
  lemma DeleteGuardInverted(t: TripRow)
    ensures DeleteOne(OrgRef, {t.org + 1}, t.org + 1, [t]) == Err(InUse)
    ensures DeleteOne(OrgRef, {t.org}, t.org, [t]) == Err(ProtectedError)
    ensures DeleteOneCorrected(OrgRef, {t.org + 1}, t.org + 1, [t]) == Ok({})
    ensures DeleteOneCorrected(OrgRef, {t.org}, t.org, [t]) == Err(InUse)
  {
    assert RefersTo([t][0], OrgRef, t.org);
    assert {t.org + 1} - {t.org + 1} == {};
    assert !Referenced(OrgRef, t.org + 1, [t]) by {
      assert forall i :: 0 <= i < |[t]| ==> [t][i] == t;
    }
  }

  /**
   * So delete_org, delete_department, delete_budget and delete_driver never
   * delete anything, while delete_vehicle behaves as intended.
   */
  lemma DeleteOnlyVehicles(kind: RefKind, ids: set<nat>, pk: nat, trips: seq<TripRow>)
    ensures kind != VehicleRef ==> DeleteOne(kind, ids, pk, trips).Err?
    ensures kind == VehicleRef ==> DeleteOne(kind, ids, pk, trips) == DeleteOneCorrected(kind, ids, pk, trips)
  {
  }

  /** For every kind but vehicles the written guard is the exact opposite of the intended one. */
  lemma DeleteGuardsCompared(kind: RefKind, id: nat, trips: seq<TripRow>)
    ensures kind == VehicleRef ==> (DeleteAllowed(kind, id, trips) <==> DeleteAllowedCorrected(kind, id, trips))
    ensures kind != VehicleRef ==> (DeleteAllowed(kind, id, trips) <==> !DeleteAllowedCorrected(kind, id, trips))
  {
  }

  /**
   * The bulk delete_orgs / delete_departments / delete_budgets loop, on the
   * table's ids in order: unselected rows stay, a selected row the guard
   * refuses stops the loop with InUse, a selected row a request still points
   * at stops it with ProtectedError, and any other selected row is deleted.
   * Rows deleted before the loop stops stay deleted.
   */
  function BulkDelete(kind: RefKind, rows: seq<nat>, selected: set<nat>, trips: seq<TripRow>): (seq<nat>, Outcome)
  {
    if |rows| == 0 then ([], Pass)
    else if rows[0] in selected && !DeleteAllowed(kind, rows[0], trips) then (rows, Fail(InUse))
    else if rows[0] in selected && Referenced(kind, rows[0], trips) then (rows, Fail(ProtectedError))
    else
      var rest := BulkDelete(kind, rows[1..], selected, trips);
      ((if rows[0] in selected then [] else [rows[0]]) + rest.0, rest.1)
  }

  /**
   * The bulk delete succeeds exactly when every selected row passes the guard
   * and is unused, and then removes exactly the selected rows.
   */
  lemma {:induction false} BulkDeleteOutcome(kind: RefKind, rows: seq<nat>, selected: set<nat>, trips: seq<TripRow>)
    ensures BulkDelete(kind, rows, selected, trips).1 == Pass <==>
      forall i :: 0 <= i < |rows| && rows[i] in selected ==>
        DeleteAllowed(kind, rows[i], trips) && !Referenced(kind, rows[i], trips)
    ensures BulkDelete(kind, rows, selected, trips).1 == Pass ==>
      BulkDelete(kind, rows, selected, trips).0 == Filter(rows, (x: nat) => x !in selected)
    ensures BulkDelete(kind, rows, selected, trips).1 != Pass ==>
      BulkDelete(kind, rows, selected, trips).1 in {Fail(InUse), Fail(ProtectedError)}
  {
    if |rows| > 0 {
      BulkDeleteOutcome(kind, rows[1..], selected, trips);
      if !(rows[0] in selected && (!DeleteAllowed(kind, rows[0], trips) || Referenced(kind, rows[0], trips))) {
        forall i | 1 <= i < |rows| && rows[i] in selected
          ensures rows[1..][i - 1] == rows[i]
        {
        }
      }
    }
  }

  /**
   * With the inverted guard of the organisation, department and budget bulk
   * views, a selection that names any stored row fails and deletes nothing
   * from there on; only a selection naming no stored row passes.
   */
  lemma {:induction false} BulkDeleteNeverDeletes(kind: RefKind, rows: seq<nat>, selected: set<nat>, trips: seq<TripRow>)
    requires kind != VehicleRef
    ensures BulkDelete(kind, rows, selected, trips).1 == Pass <==>
      forall i :: 0 <= i < |rows| ==> rows[i] !in selected
    ensures BulkDelete(kind, rows, selected, trips).0 == rows
  {
    if |rows| > 0 {
      BulkDeleteNeverDeletes(kind, rows[1..], selected, trips);
      if rows[0] !in selected {
        assert [rows[0]] + rows[1..] == rows;
        forall i | 1 <= i < |rows|
          ensures rows[1..][i - 1] == rows[i]
        {
        }
      }
    }
  }

  /** The loop itself, deleting as it goes. */
  method DeleteMany(kind: RefKind, rows: seq<nat>, selected: set<nat>, trips: seq<TripRow>) returns (left: seq<nat>, r: Outcome)
    ensures (left, r) == BulkDelete(kind, rows, selected, trips)
  {
    var i := 0;
    var kept: seq<nat> := [];
    assert rows[0..] == rows;
    assert [] + BulkDelete(kind, rows, selected, trips).0 == BulkDelete(kind, rows, selected, trips).0;
    while i < |rows|
      invariant 0 <= i <= |rows|
      invariant BulkDelete(kind, rows, selected, trips).0 == kept + BulkDelete(kind, rows[i..], selected, trips).0
      invariant BulkDelete(kind, rows, selected, trips).1 == BulkDelete(kind, rows[i..], selected, trips).1
    {
      var tail := rows[i..];
      assert tail[0] == rows[i] && tail[1..] == rows[i + 1..];
      if rows[i] in selected {
        if !DeleteAllowed(kind, rows[i], trips) {
          return kept + rows[i..], Fail(InUse);
        }
        if Referenced(kind, rows[i], trips) {
          return kept + rows[i..], Fail(ProtectedError);
        }
      } else {
        var rest := BulkDelete(kind, rows[i + 1..], selected, trips);
        assert kept + ([rows[i]] + rest.0) == (kept + [rows[i]]) + rest.0;
        kept := kept + [rows[i]];
      }
      i := i + 1;
    }
    assert rows[i..] == [];
    assert kept + [] == kept;
    left, r := kept, Pass;
  }

  // ------------------------------------------------- driver (de)activation

  /** deactivate_driver: status INACTIVE, nothing else. */
  method DeactivateDriver(d: Driver?) returns (r: Response)
    modifies d
    ensures d == null ==> r == ErrorResponse(DoesNotExist)
    ensures d != null ==>
      r == Success && d.status == Inactive && d.firstName == old(d.firstName) && d.lastName == old(d.lastName)
  {
    if d == null {
      return ErrorResponse(DoesNotExist);
    }
    d.status := Inactive;
    r := Success;
  }

  /** reactivate_driver: status ACTIVE, nothing else. */
  method ReactivateDriver(d: Driver?) returns (r: Response)
    modifies d
    ensures d == null ==> r == ErrorResponse(DoesNotExist)
    ensures d != null ==>
      r == Success && d.status == Active && d.firstName == old(d.firstName) && d.lastName == old(d.lastName)
  {
    if d == null {
      return ErrorResponse(DoesNotExist);
    }
    d.status := Active;
    r := Success;
  }

  // --------------------------------------------------- default filter data

  /** A value in the filter's query data: the defaults are an int and a string. */
  datatype FilterValue = IntValue(i: int) | StrValue(s: string)

  /** DriversView.get_filterset_kwargs: no data, or empty data, becomes status=1. */
  function DriverFilterData(data: Option<map<string, FilterValue>>): (r: map<string, FilterValue>)
    ensures data.None? || |data.value| == 0 ==> r == map["status" := IntValue(1)]
    ensures data.Some? && |data.value| > 0 ==> r == data.value
  {
    var values := if data.None? then map[] else data.value;
    if |values| == 0 then values["status" := IntValue(1)] else values
  }

  /** VehiclesView.get_filterset_kwargs: no data, or empty data, becomes status=1 and sort='-num'. */
  function VehicleFilterData(data: Option<map<string, FilterValue>>): (r: map<string, FilterValue>)
    ensures data.None? || |data.value| == 0 ==>
      r == map["status" := IntValue(1), "sort" := StrValue("-num")]
    ensures data.Some? && |data.value| > 0 ==> r == data.value
  {
    var values := if data.None? then map[] else data.value;
    if |values| == 0 then values["status" := IntValue(1)]["sort" := StrValue("-num")] else values
  }

  /** The defaults are never empty, so filling them in twice is filling them in once. */
  lemma FilterDataIdempotent(data: Option<map<string, FilterValue>>)
    ensures DriverFilterData(Some(DriverFilterData(data))) == DriverFilterData(data)
    ensures VehicleFilterData(Some(VehicleFilterData(data))) == VehicleFilterData(data)
    ensures |DriverFilterData(data)| > 0 && |VehicleFilterData(data)| > 0
  {
    assert "status" in DriverFilterData(data) || |DriverFilterData(data)| > 0;
    if data.None? || |data.value| == 0 {
      assert "status" in DriverFilterData(data);
      assert "status" in VehicleFilterData(data);
    }
  }

  // ------------------------------------------------- requested driver

  /** The columns of a stored driver that the name lookup reads. */
  datatype DriverName = DriverName(id: DriverId, firstName: string, lastName: string)

  /** The lookup's Q filter: first name, last name or "first last" contains the text, ignoring case. */
  predicate NameMatches(d: DriverName, text: string)
  {
    || ContainsIgnoreCase(d.firstName, text)
    || ContainsIgnoreCase(d.lastName, text)
    || ContainsIgnoreCase(JoinName(d.firstName, d.lastName), text)
  }

  /** The first-name and last-name tests add nothing: the full-name test alone decides a match. */
  lemma NameMatchesFullName(d: DriverName, text: string)
    ensures NameMatches(d, text) <==> ContainsIgnoreCase(JoinName(d.firstName, d.lastName), text)
  {
    var f, l := d.firstName, d.lastName;
    LowerAppend(f + " ", l);
    LowerAppend(f, " ");
    assert Lower(JoinName(f, l)) == Lower(f) + (Lower(" ") + Lower(l));
    if ContainsIgnoreCase(f, text) {
      ContainsExtendRight(Lower(f), Lower(" ") + Lower(l), Lower(text));
    }
    if ContainsIgnoreCase(l, text) {
      ContainsExtendLeft(Lower(f) + Lower(" "), Lower(l), Lower(text));
      assert Lower(f) + Lower(" ") + Lower(l) == Lower(f) + (Lower(" ") + Lower(l));
    }
  }

  /** `.first()` of the matching drivers, the table being listed in primary-key order. */
  function FirstMatch(drivers: seq<DriverName>, text: string): (r: Option<nat>)
    ensures r.Some? ==> r.value < |drivers| && NameMatches(drivers[r.value], text)
    ensures r.Some? ==> forall j :: 0 <= j < r.value ==> !NameMatches(drivers[j], text)
    ensures r.None? ==> forall j :: 0 <= j < |drivers| ==> !NameMatches(drivers[j], text)
  {
    if |drivers| == 0 then None
    else if NameMatches(drivers[0], text) then Some(0)
    else match FirstMatch(drivers[1..], text)
      case None => None
      case Some(i) => Some(i + 1)
  }

  /** What form_valid does with the request's driver. */
  datatype Resolution =
    | KeepDriver                                      // no requested driver given
    | UseExisting(id: DriverId)                       // a stored driver matched
    | CreateDriver(firstName: string, lastName: string) // a new driver from the first two words
    | ClearDriver                                     // fewer than two words: IndexError caught, driver None

  /** CreateTripRequestView.form_valid's driver resolution. */
  function ResolveDriver(requested: Option<string>, drivers: seq<DriverName>): (r: Resolution)
    ensures requested.None? || requested.value == "" ==> r == KeepDriver
    ensures r.UseExisting? ==> exists i :: 0 <= i < |drivers| && drivers[i].id == r.id
  {
    if requested.None? || requested.value == "" then KeepDriver
    else
      match FirstMatch(drivers, requested.value)
      case Some(i) => UseExisting(drivers[i].id)
      case None =>
        var words := Split(requested.value, ' ');
        if |words| >= 2 then CreateDriver(words[0], words[1]) else ClearDriver
  }

  /**
   * With no stored driver matching, a text with a space creates a driver from
   * its first two words and a text without one leaves the request without a
   * driver; "First Last" with space-free names creates exactly that driver.
   */
  lemma ResolveWithoutMatch(text: string, drivers: seq<DriverName>)
    requires text != "" && forall j :: 0 <= j < |drivers| ==> !NameMatches(drivers[j], text)
    ensures ResolveDriver(Some(text), drivers).CreateDriver? <==> ' ' in text
    ensures ResolveDriver(Some(text), drivers) == ClearDriver <==> ' ' !in text
  {
    CountPositive(text, ' ');
  }

  lemma ResolveNewFullName(first: string, last: string, drivers: seq<DriverName>)
    requires ' ' !in first && ' ' !in last
    requires forall j :: 0 <= j < |drivers| ==> !NameMatches(drivers[j], JoinName(first, last))
    ensures ResolveDriver(Some(JoinName(first, last)), drivers) == CreateDriver(first, last)
  {
    assert JoinName(first, last) == first + [' '] + last;
    SplitPair(first, last, ' ');
  }

  /** A matching stored driver always wins over creating a new one. */
  lemma ResolvePrefersExisting(text: string, drivers: seq<DriverName>, i: nat)
    requires text != "" && i < |drivers| && NameMatches(drivers[i], text)
    ensures ResolveDriver(Some(text), drivers).UseExisting?
  {
  }

  /** The request's driver after a resolution; a created driver gets `newId`. */
  function DriverAfter(res: Resolution, current: Option<DriverId>, newId: DriverId): Option<DriverId>
  {
    match res
    case KeepDriver => current
    case UseExisting(id) => Some(id)
    case CreateDriver(_, _) => Some(newId)
    case ClearDriver => None
  }

  /**
   * CreateTripRequestView.form_valid on the unsaved request the form built:
   * the requestor becomes the user, the driver is resolved, the request is
   * saved with the user as actor (raising for a non-pending status) and the
   * "created" email is sent.
   */
  method FormValid(t: TripRequest, user: UserId, drivers: seq<DriverName>, newId: DriverId, outbox: Outbox)
    returns (r: Response, created: Driver?)
    requires !t.persisted
    modifies t, outbox
    ensures var res := ResolveDriver(old(t.requestedDriver), drivers);
      && t.Row() == old(t.Row()).(requestor := Some(user), driver := DriverAfter(res, old(t.driver), newId))
      && (created != null <==> res.CreateDriver?)
      && (created != null ==>
            fresh(created) && created.id == newId && created.status == Active
            && created.firstName == res.firstName && created.lastName == res.lastName)
    ensures old(t.status).Pending? ==>
      && r == Success && t.persisted
      && t.activities == old(t.activities) + [TripActivity(TypeCreated, Some(user))]
      && outbox.sent == old(outbox.sent) + SentMessages(CreatedEmail(t.Row()).value, [])
    ensures !old(t.status).Pending? ==>
      r == Raised(ValidationError) && !t.persisted && t.activities == old(t.activities)
      && outbox.sent == old(outbox.sent)
  {
    created := null;
    t.requestor := Some(user);
    var res := ResolveDriver(t.requestedDriver, drivers);
    match res {
      case KeepDriver =>
      case UseExisting(id) =>
        t.driver := Some(id);
      case CreateDriver(first, last) =>
        created := new Driver(newId, first, last);
        t.driver := Some(newId);
      case ClearDriver =>
        t.driver := None;
    }
    var saved := t.Save(Some(user));
    if saved.Fail? {
      return Raised(saved.error), created;
    }
    var email := CreatedEmail(t.Row());
    NotifiedEmailSendsBoth(t.contactEmail, email.value.requestorSubject, email.value.requestorBody,
                           true, email.value.managerSubject, email.value.managerBody);
    Send(email.value, null, outbox);
    r := Success;
  }

  // ------------------------------------------------------ edit permission

  /** UpdateTripRequestView.get: the same rule as the form submission. */
  function MayOpenEditForm(u: User, s: Status): (b: bool)
    requires u.Account?
    ensures b <==> MaySubmitEditForm(u, s)
  {
    if u.isModerator || u.isStaff then true else s.Pending?
  }

  /**
   * UpdateTripRequestView.post (after the `cancel` button, which only
   * redirects): moderators and staff always; anyone else exactly in the one
   * status a new request may be saved with.
   */
  function MaySubmitEditForm(u: User, s: Status): (b: bool)
    requires u.Account?
    ensures u.isModerator || u.isStaff ==> b
    ensures !u.isModerator && !u.isStaff ==> (b <==> SaveAllowed(false, s))
  {
    u.isModerator || u.isStaff || s.Pending?
  }

  /** Opening and submitting follow the same rule; a plain user can edit only a pending request. */
  lemma EditPermission(u: User, s: Status)
    requires u.Account?
    ensures MayOpenEditForm(u, s) <==> MaySubmitEditForm(u, s)
    ensures !u.isModerator && !u.isStaff ==> (MaySubmitEditForm(u, s) <==> s.Pending?)
    ensures u.isModerator || u.isStaff ==> MaySubmitEditForm(u, s)
  {
  }
}
