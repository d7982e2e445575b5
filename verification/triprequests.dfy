/**
 * Trip requests (transportation/models/triprequests.py): the status codes, the
 * readiness predicates, and the TripRequest object whose save and status
 * transitions append rows to its activity log (the TripRequestActivity rows
 * whose `request` is this one).
 */
module TripRequests {
  import opened Wrappers
  import opened Strings
  import Validators

  type UserId = nat
  type DriverId = nat
  type VehicleId = nat

  /** TripRequest.STATUS_*; Code() is the stored small integer. */
  datatype Status =
    | NoStatus | Pending | Approved | Denied | Completed | Cancelled | OtherStatus | Returned
  {
    function Code(): (c: nat)
      ensures c < 8
    {
      match this
      case NoStatus => 0
      case Pending => 1
      case Approved => 2
      case Denied => 3
      case Completed => 4
      case Cancelled => 5
      case OtherStatus => 6
      case Returned => 7
    }
  }

  /** The status stored under a code, if the code is one of the eight. */
  function StatusFromCode(c: int): (r: Option<Status>)
    ensures r.Some? <==> 0 <= c < 8
    ensures r.Some? ==> r.value.Code() == c
  {
    if c == 0 then Some(NoStatus)
    else if c == 1 then Some(Pending)
    else if c == 2 then Some(Approved)
    else if c == 3 then Some(Denied)
    else if c == 4 then Some(Completed)
    else if c == 5 then Some(Cancelled)
    else if c == 6 then Some(OtherStatus)
    else if c == 7 then Some(Returned)
    else None
  }

  /** Codes identify statuses: decoding the code of a status gives that status back. */
  lemma StatusCodeRoundTrip(s: Status)
    ensures StatusFromCode(s.Code()) == Some(s)
  {
  }

  /** TripRequest.STATUS_CHOICES, in declaration order. */
  const STATUS_CHOICES: seq<(nat, string)> := [
    (0, "None"), (1, "Pending"), (2, "Approved"), (3, "Denied"),
    (4, "Completed"), (5, "Cancelled"), (6, "Other"), (7, "Returned")]

  /** TripRequest.TYPE_CHOICES, in declaration order. */
  const TYPE_CHOICES: seq<(nat, string)> := [
    (0, "Unknown"), (1, "Car"), (2, "Passenger Van"), (3, "Cargo Van"), (4, "Bus"),
    (5, "Coach Bus"), (6, "Road Bus"), (7, "Truck"), (8, "Non-CDL Bus"), (9, "Golf Cart")]

  /** Both choice tuples list their codes in order, so position k holds code k. */
  lemma ChoicesIndexedByCode()
    ensures forall k :: 0 <= k < |STATUS_CHOICES| ==> STATUS_CHOICES[k].0 == k
    ensures forall k :: 0 <= k < |TYPE_CHOICES| ==> TYPE_CHOICES[k].0 == k
    ensures forall s: Status :: s.Code() < |STATUS_CHOICES|
  {
  }

  /** get_status_display(): the status's label in STATUS_CHOICES. */
  function StatusLabel(s: Status): (text: string)
    ensures (s.Code(), text) in STATUS_CHOICES
    ensures |text| > 0
  {
    STATUS_CHOICES[s.Code()].1
  }

  /** Different statuses have different labels. */
  lemma StatusLabelsDistinct(s: Status, t: Status)
    ensures StatusLabel(s) == StatusLabel(t) <==> s == t
  {
  }

  /** vehicle_type_display: TYPE_CHOICES[vehicle_type][1], an IndexError past the table. */
  function VehicleTypeDisplay(vehicleType: nat): (r: Result<string>)
    ensures r.Err? <==> vehicleType >= 10
    ensures r.Err? ==> r.error == IndexError
    ensures r.Ok? ==> (vehicleType, r.value) in TYPE_CHOICES
  {
    if vehicleType < |TYPE_CHOICES| then Ok(TYPE_CHOICES[vehicleType].1) else Err(IndexError)
  }

  /** TripRequestActivity.TYPE_*. */
  datatype TripActivityType =
    | TypeCreated | TypeEdited | TypeDeleted | TypePending | TypeApproved
    | TypeDenied | TypeFinished | TypeCancelled | TypeArchived
  {
    function Code(): (c: nat)
      ensures c < 9
    {
      match this
      case TypeCreated => 0
      case TypeEdited => 1
      case TypeDeleted => 2
      case TypePending => 3
      case TypeApproved => 4
      case TypeDenied => 5
      case TypeFinished => 6
      case TypeCancelled => 7
      case TypeArchived => 8
    }
  }

  /** Distinct activity types are stored under distinct codes. */
  lemma ActivityCodesDistinct(a: TripActivityType, b: TripActivityType)
    ensures a.Code() == b.Code() <==> a == b
  {
  }

  /** One TripRequestActivity row: its type and acting user (timestamp not modelled). */
  datatype TripActivity = TripActivity(kind: TripActivityType, user: Option<UserId>)

  /** The stored columns of a trip request that the core reads (a row of the table). */
  datatype TripRow = TripRow(
    status: Status,
    org: nat,
    department: nat,
    budget: nat,
    requestor: Option<UserId>,
    manager: Option<UserId>,
    driver: Option<DriverId>,
    vehicle: Option<VehicleId>,
    vehicleType: nat,
    cardNum: Option<string>,
    keyColor: Option<nat>,
    mileageAct: Option<nat>,
    departEst: int,
    returnEst: int,
    contactEmail: string,
    requestedDriver: Option<string>)

  /** is_modifiable, written in the source with the numeric codes 3, 4 and 5. */
  function IsModifiable(s: Status): (r: bool)
    ensures r <==> !(s.Denied? || s.Completed? || s.Cancelled?)
  {
    s.Code() != 3 && s.Code() != 4 && s.Code() != 5
  }

  /**
   * is_valid: dispatch-ready once manager, driver, vehicle and card # are
   * assigned, that is when missing_requirements names none of those four
   * (its two lateness conditions are commented out in the source).
   */
  function IsValid(t: TripRow): (b: bool)
    ensures b <==> ("manager" !in MissingItems(t) && "driver" !in MissingItems(t)
                    && "vehicle" !in MissingItems(t) && "card #" !in MissingItems(t))
  {
    t.manager.Some? && t.driver.Some? && t.vehicle.Some? && t.cardNum.Some?
  }

  /**
   * can_finalize: the request is back (status code 7); the test of the
   * actual departure and return times is commented out in the source. A
   * returned request is still modifiable.
   */
  function CanFinalize(s: Status): (b: bool)
    ensures b <==> s.Code() == 7
    ensures b ==> IsModifiable(s)
  {
    s.Returned?
  }

  /**
   * can_return: its test of the actual departure and return times is
   * commented out, so it holds for every request, whatever its status.
   */
  function CanReturn(t: TripRow): (b: bool)
    ensures b
  {
    true
  }

  /** is_missing_requirements: not valid, or the key-tag colour is still unknown. */
  function IsMissingRequirements(t: TripRow): (b: bool)
    ensures b <==> !IsValid(t) || "key-tag color" in MissingItems(t)
  {
    t.manager.None? || t.vehicle.None? || t.driver.None? || t.cardNum.None? || t.keyColor.None?
  }

  /** is_departure_estimate_late: only a pending request can be late, and only once its estimate is past. */
  function IsDepartureEstimateLate(t: TripRow, now: int): (b: bool)
    ensures b ==> t.status.Pending? && t.departEst < now
    ensures t.status.Pending? && t.departEst < now ==> b
  {
    if t.status.Pending? then t.departEst < now else false
  }

  /** is_return_estimate_late: the same test on the return estimate. */
  function IsReturnEstimateLate(t: TripRow, now: int): (b: bool)
    ensures b ==> t.status.Pending? && t.returnEst < now
    ensures t.status.Pending? && t.returnEst < now ==> b
  {
    if t.status.Pending? then t.returnEst < now else false
  }

  /** An approved or returned trip also needs its actual mileage. */
  predicate NeedsActualMileage(t: TripRow)
  {
    (t.status.Returned? || t.status.Approved?) && t.mileageAct.None?
  }

  /** `items`, with `item` added at the end when `absent` holds. */
  function AddIf(items: seq<string>, absent: bool, item: string): seq<string>
  {
    if absent then items + [item] else items
  }

  /** The absent items, in the order missing_requirements reports them. */
  function MissingItems(t: TripRow): seq<string>
  {
    var a := AddIf([], t.manager.None?, "manager");
    var b := AddIf(a, t.vehicle.None?, "vehicle");
    var c := AddIf(b, t.driver.None?, "driver");
    var d := AddIf(c, t.keyColor.None?, "key-tag color");
    var e := AddIf(d, t.cardNum.None?, "card #");
    AddIf(e, NeedsActualMileage(t), "actual mileage")
  }

  const MISSING_PREFIX: string := "Missing requirements: "

  /** One step of missing_requirements: a comma before the item unless the text is still empty. */
  function AppendIf(text: string, absent: bool, item: string): string
  {
    if !absent then text else if text != "" then text + ", " + item else text + item
  }

  /** The text after the prefix, as the steps of missing_requirements build it. */
  function MissingText(t: TripRow): string
  {
    var a := AppendIf("", t.manager.None?, "manager");
    var b := AppendIf(a, t.vehicle.None?, "vehicle");
    var c := AppendIf(b, t.driver.None?, "driver");
    var d := AppendIf(c, t.keyColor.None?, "key-tag color");
    var e := AppendIf(d, t.cardNum.None?, "card #");
    AppendIf(e, NeedsActualMileage(t), "actual mileage")
  }

  /** Appending step by step is joining the absent items with ", ". */
  lemma AppendIfJoins(items: seq<string>, absent: bool, item: string)
    requires item != ""
    requires forall i :: 0 <= i < |items| ==> items[i] != ""
    ensures AppendIf(Join(items, ", "), absent, item) == Join(AddIf(items, absent, item), ", ")
    ensures forall i :: 0 <= i < |AddIf(items, absent, item)| ==> AddIf(items, absent, item)[i] != ""
  {
    if absent {
      JoinEmpty(items, ", ");
      JoinSnoc(items, item, ", ");
    }
  }

  /** The string missing_requirements builds lists exactly MissingItems, separated by ", ". */
  lemma MissingTextIsJoin(t: TripRow)
    ensures MissingText(t) == Join(MissingItems(t), ", ")
  {
    var a := AddIf([], t.manager.None?, "manager");
    var b := AddIf(a, t.vehicle.None?, "vehicle");
    var c := AddIf(b, t.driver.None?, "driver");
    var d := AddIf(c, t.keyColor.None?, "key-tag color");
    var e := AddIf(d, t.cardNum.None?, "card #");
    AppendIfJoins([], t.manager.None?, "manager");
    AppendIfJoins(a, t.vehicle.None?, "vehicle");
    AppendIfJoins(b, t.driver.None?, "driver");
    AppendIfJoins(c, t.keyColor.None?, "key-tag color");
    AppendIfJoins(d, t.cardNum.None?, "card #");
    AppendIfJoins(e, NeedsActualMileage(t), "actual mileage");
  }

  /** Every reported item names a requirement that really is absent, and every absent one is reported. */
  lemma MissingItemsExact(t: TripRow)
    ensures "manager" in MissingItems(t) <==> t.manager.None?
    ensures "vehicle" in MissingItems(t) <==> t.vehicle.None?
    ensures "driver" in MissingItems(t) <==> t.driver.None?
    ensures "key-tag color" in MissingItems(t) <==> t.keyColor.None?
    ensures "card #" in MissingItems(t) <==> t.cardNum.None?
    ensures "actual mileage" in MissingItems(t) <==> NeedsActualMileage(t)
    ensures MissingItems(t) == [] <==> !IsMissingRequirements(t) && !NeedsActualMileage(t)
  {
  }

  /** A request with nothing missing is valid; a valid one may still lack its key-tag colour. */
  lemma CompleteRequestIsValid(t: TripRow)
    ensures !IsMissingRequirements(t) ==> IsValid(t)
    ensures IsValid(t) && t.keyColor.Some? ==> !IsMissingRequirements(t)
  {
  }

  /**
   * Only a pending request reports a late estimate, so a late request is
   * still modifiable and shows the label "Pending"; once late, it stays late
   * as time goes on.
   */
  lemma LateOnlyWhenPending(t: TripRow, now: int, later: int)
    requires now <= later
    ensures IsDepartureEstimateLate(t, now) || IsReturnEstimateLate(t, now) ==>
      IsModifiable(t.status) && StatusLabel(t.status) == "Pending"
    ensures IsDepartureEstimateLate(t, now) ==> IsDepartureEstimateLate(t, later)
    ensures IsReturnEstimateLate(t, now) ==> IsReturnEstimateLate(t, later)
  {
  }

  /** The activity `save` appends: CREATED for a new request, falling back to the requestor as actor. */
  function SavedActivity(wasPersisted: bool, user: Option<UserId>, requestor: Option<UserId>): TripActivity
  {
    if wasPersisted then TripActivity(TypeEdited, user)
    else TripActivity(TypeCreated, if user.None? then requestor else user)
  }

  /** A new request may be stored only while pending; a stored one may always be saved again. */
  predicate SaveAllowed(wasPersisted: bool, s: Status)
  {
    wasPersisted || s.Pending?
  }

  /** The two rows a committed transition appends: save()'s EDITED row without a user, then the typed row. */
  function CommitRows(kind: TripActivityType, user: Option<UserId>): seq<TripActivity>
  {
    [TripActivity(TypeEdited, None), TripActivity(kind, user)]
  }

  class TripRequest {
    var persisted: bool   // `pk is not None`
    var status: Status
    var org: nat
    var department: nat
    var budget: nat
    var requestor: Option<UserId>
    var manager: Option<UserId>
    var driver: Option<DriverId>
    var vehicle: Option<VehicleId>
    var vehicleType: nat
    var cardNum: Option<string>
    var keyColor: Option<nat>
    var mileageAct: Option<nat>
    var departEst: int
    var returnEst: int
    var contactEmail: string
    var requestedDriver: Option<string>
    var activities: seq<TripActivity>

    function Row(): TripRow
      reads this
    {
      TripRow(status, org, department, budget, requestor, manager, driver, vehicle,
              vehicleType, cardNum, keyColor, mileageAct, departEst, returnEst,
              contactEmail, requestedDriver)
    }

    /** A fresh, unsaved request with the model's field defaults (status PENDING, key colour KEY_NONE). */
    constructor (org: nat, department: nat, budget: nat, contactEmail: string,
                 departEst: int, returnEst: int, requestedDriver: Option<string>)
      ensures !persisted && activities == []
      ensures Row() == TripRow(Pending, org, department, budget, None, None, None, None,
                               0, None, Some(0), None, departEst, returnEst,
                               contactEmail, requestedDriver)
    {
      this.persisted := false;
      this.status := Pending;
      this.org := org;
      this.department := department;
      this.budget := budget;
      this.requestor := None;
      this.manager := None;
      this.driver := None;
      this.vehicle := None;
      this.vehicleType := 0;
      this.cardNum := None;
      this.keyColor := Some(0);
      this.mileageAct := None;
      this.departEst := departEst;
      this.returnEst := returnEst;
      this.contactEmail := contactEmail;
      this.requestedDriver := requestedDriver;
      this.activities := [];
    }

    /**
     * save(user=...): refuses to create a request whose status is not
     * PENDING; otherwise stores it and appends exactly one activity.
     */
    method Save(user: Option<UserId>) returns (r: Outcome)
      modifies this
      ensures Row() == old(Row())
      ensures r == Pass <==> SaveAllowed(old(persisted), old(status))
      ensures r == Pass ==>
        persisted && activities == old(activities) + [SavedActivity(old(persisted), user, old(requestor))]
      ensures r != Pass ==>
        r == Fail(ValidationError) && persisted == old(persisted) && activities == old(activities)
    {
      var activity := TripActivity(if persisted then TypeEdited else TypeCreated, user);
      if !persisted {
        if activity.user.None? {
          activity := activity.(user := requestor);
        }
        var check := Validators.ValidateTripRequestStatus(status.Code(), Validators.IntArg(Pending.Code()));
        if check.Fail? {
          return Fail(ValidationError);
        }
      }
      persisted := true;
      activities := activities + [activity];
      r := Pass;
    }

    /**
     * What a transition to `target` leaves behind: only the status changed;
     * without commit no row is written; with commit a stored request gains
     * CommitRows(kind, user) and an unsaved one is refused by save().
     */
    twostate predicate Transitioned(target: Status, commit: bool, kind: TripActivityType,
                                    user: Option<UserId>, r: Outcome)
      reads this
    {
      && Row() == old(Row()).(status := target)
      && if !commit then
           r == Pass && persisted == old(persisted) && activities == old(activities)
         else if old(persisted) then
           r == Pass && persisted && activities == old(activities) + CommitRows(kind, user)
         else
           r == Fail(ValidationError) && persisted == old(persisted) && activities == old(activities)
    }

    /** Sets the status, then with commit saves and logs the typed row. */
    method Transition(target: Status, commit: bool, kind: TripActivityType, user: Option<UserId>)
      returns (r: Outcome)
      requires !target.Pending?
      modifies this
      ensures Transitioned(target, commit, kind, user, r)
    {
      status := target;
      r := Pass;
      if commit {
        r := Save(None);
        if r == Pass {
          activities := activities + [TripActivity(kind, user)];
        }
      }
    }

    /** assign_moderator: sets the manager, and saves only with commit and a real user; raises otherwise. */
    method AssignModerator(commit: bool, user: Option<UserId>) returns (r: Outcome)
      modifies this
      ensures Row() == old(Row()).(manager := user)
      ensures !(commit && user.Some?) ==>
        r == Fail(ValidationError) && persisted == old(persisted) && activities == old(activities)
      ensures commit && user.Some? ==>
        (r == Pass <==> SaveAllowed(old(persisted), old(status))) &&
        (r == Pass ==>
           persisted && activities == old(activities) + [SavedActivity(old(persisted), None, old(requestor))]) &&
        (r != Pass ==>
           r == Fail(ValidationError) && persisted == old(persisted) && activities == old(activities))
    {
      manager := user;
      if commit && manager.Some? {
        r := Save(None);
      } else {
        r := Fail(ValidationError);
      }
    }

    /** approve: needs a vehicle and a driver; then APPROVED whatever the prior status. */
    method Approve(commit: bool, user: Option<UserId>) returns (r: Outcome)
      modifies this
      ensures old(vehicle).None? || old(driver).None? ==>
        r == Fail(ValidationError) && unchanged(this)
      ensures old(vehicle).Some? && old(driver).Some? ==>
        Transitioned(Approved, commit, TypeApproved, user, r)
    {
      if vehicle.Some? && driver.Some? {
        r := Transition(Approved, commit, TypeApproved, user);
      } else {
        r := Fail(ValidationError);
      }
    }

    /** deny: always DENIED, whatever the prior status or assignments. */
    method Deny(commit: bool, user: Option<UserId>) returns (r: Outcome)
      modifies this
      ensures Transitioned(Denied, commit, TypeDenied, user, r)
    {
      r := Transition(Denied, commit, TypeDenied, user);
    }

    /** return_vehicle: needs a vehicle and a driver; then RETURNED, logged as FINISHED. */
    method ReturnVehicle(commit: bool, user: Option<UserId>) returns (r: Outcome)
      modifies this
      ensures old(vehicle).None? || old(driver).None? ==>
        r == Fail(ValidationError) && unchanged(this)
      ensures old(vehicle).Some? && old(driver).Some? ==>
        Transitioned(Returned, commit, TypeFinished, user, r)
    {
      if vehicle.Some? && driver.Some? {
        r := Transition(Returned, commit, TypeFinished, user);
      } else {
        r := Fail(ValidationError);
      }
    }

    /** finalize: needs a vehicle and a driver; then COMPLETED, logged as FINISHED. */
    method Finalize(commit: bool, user: Option<UserId>) returns (r: Outcome)
      modifies this
      ensures old(vehicle).None? || old(driver).None? ==>
        r == Fail(ValidationError) && unchanged(this)
      ensures old(vehicle).Some? && old(driver).Some? ==>
        Transitioned(Completed, commit, TypeFinished, user, r)
    {
      if vehicle.Some? && driver.Some? {
        r := Transition(Completed, commit, TypeFinished, user);
      } else {
        r := Fail(ValidationError);
      }
    }

    /** cancel: always CANCELLED. */
    method Cancel(commit: bool, user: Option<UserId>) returns (r: Outcome)
      modifies this
      ensures Transitioned(Cancelled, commit, TypeCancelled, user, r)
    {
      r := Transition(Cancelled, commit, TypeCancelled, user);
    }

    /** missing_requirements, built by appending to a local string as the source does. */
    method MissingRequirements() returns (s: string)
      ensures s == MISSING_PREFIX + Join(MissingItems(Row()), ", ")
    {
      var missing := "";
      if manager.None? {
        missing := missing + "manager";
      }
      assert missing == AppendIf("", manager.None?, "manager");
      ghost var a := missing;
      if vehicle.None? {
        if missing != "" {
          missing := missing + ", ";
        }
        missing := missing + "vehicle";
      }
      assert missing == AppendIf(a, vehicle.None?, "vehicle");
      ghost var b := missing;
      if driver.None? {
        if missing != "" {
          missing := missing + ", ";
        }
        missing := missing + "driver";
      }
      assert missing == AppendIf(b, driver.None?, "driver");
      ghost var c := missing;
      if keyColor.None? {
        if missing != "" {
          missing := missing + ", ";
        }
        missing := missing + "key-tag color";
      }
      assert missing == AppendIf(c, keyColor.None?, "key-tag color");
      ghost var d := missing;
      if cardNum.None? {
        if missing != "" {
          missing := missing + ", ";
        }
        missing := missing + "card #";
      }
      assert missing == AppendIf(d, cardNum.None?, "card #");
      ghost var e := missing;
      if status.Code() == 7 || status.Code() == 2 {
        if mileageAct.None? {
          if missing != "" {
            missing := missing + ", ";
          }
          missing := missing + "actual mileage";
        }
      }
      assert missing == AppendIf(e, NeedsActualMileage(Row()), "actual mileage");
      assert missing == MissingText(Row());
      MissingTextIsJoin(Row());
      s := MISSING_PREFIX + missing;
    }
  }
}
