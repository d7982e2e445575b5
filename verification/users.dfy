/**
 * Users and drivers (transportation/models/users.py): the full-name getter
 * and setter, the driver's default status, and the trip queries that decide
 * whether a driver is available. The trip table is a sequence of rows and
 * "now" is a parameter.
 */
module Users {
  import opened Wrappers
  import opened Strings
  import opened Seqs
  import opened TripRequests

  /**
   * The user behind a request. Django's AnonymousUser is not authenticated and
   * has is_staff and is_superuser (both false) but no is_moderator or
   * is_driver attribute; every stored account is authenticated.
   */
  datatype User =
    | Anonymous
    | Account(id: UserId, firstName: string, lastName: string,
              isStaff: bool, isSuperuser: bool, isModerator: bool, isDriver: bool)
  {
    predicate IsAuthenticated()
    {
      Account?
    }
  }

  /** The f-string both full_name getters use: first name, a space, last name. */
  function JoinName(first: string, last: string): string
  {
    first + " " + last
  }

  /** User.full_name. */
  function UserFullName(u: User): (r: string)
    requires u.Account?
    ensures |r| == |u.firstName| + 1 + |u.lastName|
    ensures r[..|u.firstName|] == u.firstName && r[|u.firstName|] == ' '
    ensures r[|u.firstName| + 1..] == u.lastName
  {
    JoinName(u.firstName, u.lastName)
  }

  /** Driver.STATUS_*. */
  datatype DriverStatus = StatusNone | Active | Inactive | Retired
  {
    function Code(): (c: nat)
      ensures c < 4
    {
      match this
      case StatusNone => 0
      case Active => 1
      case Inactive => 2
      case Retired => 3
    }
  }

  /** Distinct driver statuses are stored under distinct codes. */
  lemma DriverStatusCodesDistinct(a: DriverStatus, b: DriverStatus)
    ensures a.Code() == b.Code() <==> a == b
  {
  }

  /** A value the full_name setter accepts: exactly one space, so two parts. */
  predicate SplitsInTwo(v: string)
  {
    |Split(v, ' ')| == 2
  }

  /** Setting an accepted value and reading it back gives the value. */
  lemma SetThenGet(v: string)
    requires SplitsInTwo(v)
    ensures JoinName(Split(v, ' ')[0], Split(v, ' ')[1]) == v
  {
    var parts := Split(v, ' ');
    JoinSplit(v, ' ');
    assert parts[1..] == [parts[1]];
    assert Join(parts, [' ']) == parts[0] + [' '] + parts[1];
  }

  /** Names without spaces survive a get followed by a set; with a space they do not. */
  lemma GetThenSet(first: string, last: string)
    ensures ' ' !in first && ' ' !in last ==> Split(JoinName(first, last), ' ') == [first, last]
    ensures ' ' in first || ' ' in last ==> !SplitsInTwo(JoinName(first, last))
  {
    var v := JoinName(first, last);
    assert v == first + [' '] + last;
    if ' ' !in first && ' ' !in last {
      SplitPair(first, last, ' ');
    } else {
      CountAppend(first, [' '] + last, ' ');
      CountAppend([' '], last, ' ');
      CountPositive(first, ' ');
      CountPositive(last, ' ');
      assert CountOf([' '], ' ') == 1;
      assert first + [' '] + last == first + ([' '] + last);
      assert CountOf(v, ' ') >= 2;
    }
  }

  class Driver {
    const id: DriverId
    var status: DriverStatus
    var firstName: string
    var lastName: string

    /** A new driver starts ACTIVE. */
    constructor (id: DriverId, firstName: string, lastName: string)
      ensures this.id == id && status == Active
      ensures this.firstName == firstName && this.lastName == lastName
    {
      this.id := id;
      this.status := Active;
      this.firstName := firstName;
      this.lastName := lastName;
    }

    /** full_name (and __str__): the first name and the last name apart at one space. */
    function FullName(): (name: string)
      reads this
      ensures |name| == |firstName| + 1 + |lastName|
      ensures name[..|firstName|] == firstName && name[|firstName|] == ' '
      ensures name[|firstName| + 1..] == lastName
    {
      JoinName(firstName, lastName)
    }

    /**
     * The full_name setter: splits at every space and assigns both names only
     * when there are exactly two parts; otherwise nothing changes.
     */
    method SetFullName(v: string)
      modifies this
      ensures status == old(status)
      ensures SplitsInTwo(v) ==> firstName == Split(v, ' ')[0] && lastName == Split(v, ' ')[1]
      ensures SplitsInTwo(v) ==> FullName() == v
      ensures !SplitsInTwo(v) ==> firstName == old(firstName) && lastName == old(lastName)
      ensures ' ' !in old(firstName) && ' ' !in old(lastName) && v == old(FullName()) ==>
        firstName == old(firstName) && lastName == old(lastName)
    {
      var parts := Split(v, ' ');
      if |parts| == 2 {
        firstName := parts[0];
        lastName := parts[1];
        SetThenGet(v);
      }
      GetThenSet(old(firstName), old(lastName));
    }
  }

  /** Driver.get_assigned_trips: the trips whose driver is `d`, departing at or after now when futureOnly. */
  function AssignedTrips(trips: seq<TripRow>, d: DriverId, futureOnly: bool, now: int): (own: seq<TripRow>)
    ensures forall i :: 0 <= i < |own| ==>
      own[i] in trips && own[i].driver == Some(d) && (!futureOnly || own[i].departEst >= now)
    ensures forall i :: 0 <= i < |trips| && trips[i].driver == Some(d) && (!futureOnly || trips[i].departEst >= now) ==>
      trips[i] in own
  {
    Filter(trips, (t: TripRow) => t.driver == Some(d) && (!futureOnly || t.departEst >= now))
  }

  /** Driver.is_available: no future trip of the driver lies wholly inside [start, end]. */
  function IsAvailable(trips: seq<TripRow>, d: DriverId, start: int, end: int, now: int): (b: bool)
    ensures |AssignedTrips(trips, d, true, now)| == 0 ==> b
  {
    |Filter(AssignedTrips(trips, d, true, now), (t: TripRow) => t.departEst >= start && t.returnEst <= end)| == 0
  }

  /** Driver.has_future_trips: false only when no trip of the driver departs at or after now. */
  function HasFutureTrips(trips: seq<TripRow>, d: DriverId, now: int): (b: bool)
    ensures !b ==> forall i :: 0 <= i < |trips| ==> !(trips[i].driver == Some(d) && trips[i].departEst >= now)
  {
    |AssignedTrips(trips, d, true, now)| != 0
  }

  /** Driver.get_pending_trips. */
  function PendingTrips(trips: seq<TripRow>, d: DriverId): (pending: seq<TripRow>)
    ensures forall i :: 0 <= i < |pending| ==>
      pending[i] in trips && pending[i].driver == Some(d) && pending[i].status.Pending?
  {
    Filter(AssignedTrips(trips, d, false, 0), (t: TripRow) => t.status.Pending?)
  }

  /** Driver.get_completed_trips. */
  function CompletedTrips(trips: seq<TripRow>, d: DriverId): (completed: seq<TripRow>)
    ensures forall i :: 0 <= i < |completed| ==>
      completed[i] in trips && completed[i].driver == Some(d) && completed[i].status.Completed?
  {
    Filter(AssignedTrips(trips, d, false, 0), (t: TripRow) => t.status.Completed?)
  }

  /** A future trip of `d` that starts no earlier than `start` and ends no later than `end`. */
  predicate Blocks(t: TripRow, d: DriverId, start: int, end: int, now: int)
  {
    t.driver == Some(d) && t.departEst >= now && t.departEst >= start && t.returnEst <= end
  }

  /** Availability is a containment test: only a future trip wholly inside the window makes the driver busy. */
  lemma AvailableIffNoContainedTrip(trips: seq<TripRow>, d: DriverId, start: int, end: int, now: int)
    ensures IsAvailable(trips, d, start, end, now) <==>
      forall i :: 0 <= i < |trips| ==> !Blocks(trips[i], d, start, end, now)
  {
    var own := AssignedTrips(trips, d, true, now);
    var inside := Filter(own, (t: TripRow) => t.departEst >= start && t.returnEst <= end);
    if |inside| != 0 {
      assert inside[0] in own;
      var j :| 0 <= j < |own| && own[j] == inside[0];
      var k :| 0 <= k < |trips| && trips[k] == own[j];
      assert Blocks(trips[k], d, start, end, now);
    }
    forall i | 0 <= i < |trips| && Blocks(trips[i], d, start, end, now)
      ensures |inside| != 0
    {
      assert trips[i] in own;
      var j :| 0 <= j < |own| && own[j] == trips[i];
      assert own[j] in inside;
    }
  }

  /** A driver has future trips exactly when some trip of theirs departs at or after now. */
  lemma HasFutureTripsIff(trips: seq<TripRow>, d: DriverId, now: int)
    ensures HasFutureTrips(trips, d, now) <==>
      exists i :: 0 <= i < |trips| && trips[i].driver == Some(d) && trips[i].departEst >= now
  {
    var own := AssignedTrips(trips, d, true, now);
    if |own| != 0 {
      assert own[0] in trips;
      var k :| 0 <= k < |trips| && trips[k] == own[0];
      assert trips[k].driver == Some(d) && trips[k].departEst >= now;
    }
  }

  /** A driver with no future trip is available for every window. */
  lemma NoFutureTripsMeansAvailable(trips: seq<TripRow>, d: DriverId, start: int, end: int, now: int)
    requires !HasFutureTrips(trips, d, now)
    ensures IsAvailable(trips, d, start, end, now)
  {
    AvailableIffNoContainedTrip(trips, d, start, end, now);
    HasFutureTripsIff(trips, d, now);
  }

  /** The pending and completed lists are exactly the driver's trips in that status. */
  lemma StatusTripsExact(trips: seq<TripRow>, d: DriverId, t: TripRow)
    ensures t in PendingTrips(trips, d) <==> t in trips && t.driver == Some(d) && t.status.Pending?
    ensures t in CompletedTrips(trips, d) <==> t in trips && t.driver == Some(d) && t.status.Completed?
  {
    var own := AssignedTrips(trips, d, false, 0);
    if t in trips && t.driver == Some(d) {
      var k :| 0 <= k < |trips| && trips[k] == t;
      assert t in own;
      var j :| 0 <= j < |own| && own[j] == t;
      assert t.status.Pending? ==> own[j] in PendingTrips(trips, d);
      assert t.status.Completed? ==> own[j] in CompletedTrips(trips, d);
    }
    if t in PendingTrips(trips, d) {
      var p := PendingTrips(trips, d);
      var j :| 0 <= j < |p| && p[j] == t;
      assert p[j] in own;
    }
    if t in CompletedTrips(trips, d) {
      var c := CompletedTrips(trips, d);
      var j :| 0 <= j < |c| && c[j] == t;
      assert c[j] in own;
    }
  }

  /**
   * A trip that only overlaps the window (it departs before the window opens)
   * does not make the driver unavailable.
   */
  lemma OverlapStillAvailable(t: TripRow, d: DriverId)
    requires t.driver == Some(d) && t.departEst == 10 && t.returnEst == 20
    ensures HasFutureTrips([t], d, 0)
    ensures IsAvailable([t], d, 15, 30, 0)
  {
    HasFutureTripsIff([t], d, 0);
    AvailableIffNoContainedTrip([t], d, 15, 30, 0);
  }
}
