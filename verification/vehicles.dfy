/**
 * Vehicles and their maintenance records (transportation/models/vehicles.py).
 * A Vehicle keeps the VehicleActivity rows that point at it as an
 * append-only log; saving a maintenance record logs on the parent vehicle and
 * raises the vehicle's mileage as a high-water mark.
 */
module Vehicles {
  import opened Wrappers
  import opened Strings

  type UserId = nat

  /** VehicleActivity.TYPE_*. */
  datatype VehicleActivityType =
    | Created | Edited | Deleted | CreatedMaintenance | EditedMaintenance | DeletedMaintenance
  {
    function Code(): (c: nat)
      ensures c < 6
    {
      match this
      case Created => 0
      case Edited => 1
      case Deleted => 2
      case CreatedMaintenance => 3
      case EditedMaintenance => 4
      case DeletedMaintenance => 5
    }
  }

  /** Distinct activity types are stored under distinct codes. */
  lemma VehicleActivityCodesDistinct(a: VehicleActivityType, b: VehicleActivityType)
    ensures a.Code() == b.Code() <==> a == b
  {
  }

  /** One VehicleActivity row: its type and acting user (timestamp not modelled). */
  datatype VehicleActivity = VehicleActivity(kind: VehicleActivityType, user: Option<UserId>)

  /** Vehicle.fullname: "year make model", the year readable back from the leading digits. */
  function FullName(year: nat, make: string, model: string): (name: string)
    ensures |name| == |Decimal(year)| + 1 + |make| + 1 + |model|
    ensures name[..|Decimal(year)|] == Decimal(year) && ParseDecimal(name[..|Decimal(year)|]) == year
    ensures name[|Decimal(year)|] == ' ' && name[|name| - |model| - 1] == ' '
    ensures name[|Decimal(year)| + 1..|Decimal(year)| + 1 + |make|] == make
    ensures name[|name| - |model|..] == model
  {
    DecimalRoundTrip(year);
    var head := Decimal(year) + " " + make + " ";
    head + model
  }

  /** Vehicle.__str__: "#num - " followed by the full name. */
  function Label(num: nat, year: nat, make: string, model: string): (text: string)
    ensures |text| == 4 + |Decimal(num)| + |FullName(year, make, model)|
    ensures text[0] == '#'
    ensures text[|text| - |FullName(year, make, model)|..] == FullName(year, make, model)
  {
    var head := "#" + Decimal(num) + " - ";
    head + FullName(year, make, model)
  }

  /**
   * The full name keeps its three fields apart: with a make and a model
   * free of spaces it splits back into the year's digits, the make and the
   * model, and the year reads back from its digits.
   */
  lemma FullNameParts(year: nat, make: string, model: string)
    requires ' ' !in make && ' ' !in model
    ensures Split(FullName(year, make, model), ' ') == [Decimal(year), make, model]
    ensures ParseDecimal(Split(FullName(year, make, model), ' ')[0]) == year
  {
    var y := Decimal(year);
    assert ' ' !in y by {
      forall i | 0 <= i < |y|
        ensures y[i] != ' '
      {
        assert IsDigit(y[i]);
      }
    }
    assert FullName(year, make, model) == y + [' '] + (make + [' '] + model);
    SplitAtFirstSeparator(y, ' ', make + [' '] + model);
    SplitPair(make, model, ' ');
    DecimalRoundTrip(year);
  }

  /** The label starts with "#", the number's digits and " - ", then the full name. */
  lemma LabelShape(num: nat, year: nat, make: string, model: string)
    ensures var d := Decimal(num);
      var s := Label(num, year, make, model);
      |s| == 1 + |d| + 3 + |FullName(year, make, model)|
      && s[0] == '#'
      && s[1..1 + |d|] == d
      && ParseDecimal(s[1..1 + |d|]) == num
      && s[1 + |d|..4 + |d|] == " - "
      && s[4 + |d|..] == FullName(year, make, model)
  {
    DecimalRoundTrip(num);
    var d := Decimal(num);
    var s := Label(num, year, make, model);
    assert s == "#" + d + " - " + FullName(year, make, model);
    assert s[1..1 + |d|] == d;
  }

  /** The mileage a vehicle is left with after a maintenance record of `reading` miles is saved. */
  function HighWater(current: nat, reading: nat): (r: nat)
    ensures r >= current && r >= reading
    ensures r == current || r == reading
  {
    if reading > current then reading else current
  }

  /** The vehicle's mileage after maintenance records with these readings are saved in order. */
  function MileageAfter(current: nat, readings: seq<nat>): nat
    decreases |readings|
  {
    if |readings| == 0 then current else MileageAfter(HighWater(current, readings[0]), readings[1..])
  }

  /**
   * Saving maintenance records in turn leaves the vehicle with the largest of
   * its starting mileage and all the readings: it is at least each of them
   * and equals one of them.
   */
  lemma {:induction false} MileageAfterIsMaximum(current: nat, readings: seq<nat>)
    ensures MileageAfter(current, readings) >= current
    ensures forall i :: 0 <= i < |readings| ==> MileageAfter(current, readings) >= readings[i]
    ensures MileageAfter(current, readings) == current || MileageAfter(current, readings) in readings
    decreases |readings|
  {
    if |readings| > 0 {
      var next := HighWater(current, readings[0]);
      MileageAfterIsMaximum(next, readings[1..]);
      forall i | 0 <= i < |readings|
        ensures MileageAfter(current, readings) >= readings[i]
      {
        if i > 0 {
          assert readings[i] == readings[1..][i - 1];
        }
      }
      if MileageAfter(next, readings[1..]) in readings[1..] {
        var j :| 0 <= j < |readings[1..]| && readings[1..][j] == MileageAfter(next, readings[1..]);
        assert readings[j + 1] == MileageAfter(current, readings);
      }
    }
  }

  /** The activity Vehicle.save appends. */
  function VehicleSaveActivity(wasPersisted: bool, user: Option<UserId>): VehicleActivity
  {
    VehicleActivity(if wasPersisted then Edited else Created, user)
  }

  /**
   * The rows VehicleMaintenance.save appends to its vehicle's log: its own
   * CREATED_MAINTENANCE or EDITED_MAINTENANCE row, then the EDITED row of the
   * vehicle's own save when the reading raised the mileage.
   */
  function MaintenanceRows(wasPersisted: bool, user: Option<UserId>, vehicleMileage: nat, reading: nat)
    : (rows: seq<VehicleActivity>)
    ensures 1 <= |rows| <= 2
    ensures rows[0].user == user
    ensures rows[0].kind == (if wasPersisted then EditedMaintenance else CreatedMaintenance)
    ensures |rows| == 2 <==> reading > vehicleMileage
    ensures |rows| == 2 ==> rows[1] == VehicleSaveActivity(true, None)
  {
    [VehicleActivity(if wasPersisted then EditedMaintenance else CreatedMaintenance, user)]
      + (if reading > vehicleMileage then [VehicleSaveActivity(true, None)] else [])
  }

  class Vehicle {
    var persisted: bool   // `pk is not None`
    var num: nat
    var vehicleType: nat
    var status: nat
    var year: nat
    var make: string
    var model: string
    var mileage: nat
    var activities: seq<VehicleActivity>

    /** A fresh, unsaved vehicle (type TYPE_UNKNOWN and mileage 0 unless given). */
    constructor (num: nat, status: nat, year: nat, make: string, model: string, mileage: nat)
      ensures !persisted && activities == []
      ensures this.num == num && this.vehicleType == 0 && this.status == status
      ensures this.year == year && this.make == make && this.model == model
      ensures this.mileage == mileage
    {
      this.persisted := false;
      this.num := num;
      this.vehicleType := 0;
      this.status := status;
      this.year := year;
      this.make := make;
      this.model := model;
      this.mileage := mileage;
      this.activities := [];
    }

    /** save(user=...): stores the vehicle and appends exactly one activity with that user. */
    method Save(user: Option<UserId>)
      modifies this
      ensures persisted
      ensures activities == old(activities) + [VehicleSaveActivity(old(persisted), user)]
      ensures num == old(num) && vehicleType == old(vehicleType) && status == old(status)
      ensures year == old(year) && make == old(make) && model == old(model)
      ensures mileage == old(mileage)
    {
      var created := !persisted;
      persisted := true;
      var activity := VehicleActivity(if created then Created else Edited, user);
      activities := activities + [activity];
    }
  }

  class Maintenance {
    var persisted: bool
    var vehicle: Vehicle
    var mileage: nat

    constructor (vehicle: Vehicle, mileage: nat)
      ensures !persisted && this.vehicle == vehicle && this.mileage == mileage
    {
      this.persisted := false;
      this.vehicle := vehicle;
      this.mileage := mileage;
    }

    /**
     * save(user=...): stores the record, logs CREATED_MAINTENANCE or
     * EDITED_MAINTENANCE on the vehicle, and when the reading exceeds the
     * vehicle's mileage copies it there and saves the vehicle (one more
     * EDITED row, without a user). The vehicle must already be stored, as
     * Django refuses a foreign key to an unsaved row.
     */
    method Save(user: Option<UserId>)
      requires vehicle.persisted
      modifies this, vehicle
      ensures persisted && vehicle == old(vehicle) && mileage == old(mileage)
      ensures vehicle.mileage == HighWater(old(vehicle.mileage), mileage)
      ensures vehicle.activities
        == old(vehicle.activities) + MaintenanceRows(old(persisted), user, old(vehicle.mileage), mileage)
      ensures vehicle.persisted
      ensures vehicle.num == old(vehicle.num) && vehicle.vehicleType == old(vehicle.vehicleType)
      ensures vehicle.status == old(vehicle.status) && vehicle.year == old(vehicle.year)
      ensures vehicle.make == old(vehicle.make) && vehicle.model == old(vehicle.model)
      ensures mileage <= old(vehicle.mileage) ==> vehicle.mileage == old(vehicle.mileage)
    {
      var created := !persisted;
      persisted := true;
      var activity := VehicleActivity(if created then CreatedMaintenance else EditedMaintenance, user);
      vehicle.activities := vehicle.activities + [activity];
      if mileage > vehicle.mileage {
        vehicle.mileage := mileage;
        vehicle.Save(None);
      }
    }
  }
}
