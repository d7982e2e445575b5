/**
 * The trip-request list filter (transportation/filters.py): which requests a
 * user may see, and which statuses the status filter offers.
 */
module Filters {
  import opened Wrappers
  import opened Seqs
  import opened TripRequests
  import opened Users

  /** `requestor=user`: all the base rows `u` filed, and only those. */
  function OwnRequests(base: seq<TripRow>, u: User): (own: seq<TripRow>)
    requires u.Account?
    ensures forall i :: 0 <= i < |own| ==> own[i] in base && own[i].requestor == Some(u.id)
    ensures forall i :: 0 <= i < |base| && base[i].requestor == Some(u.id) ==> base[i] in own
  {
    Filter(base, (t: TripRow) => t.requestor == Some(u.id))
  }

  /**
   * TripRequestFilter.qs: staff and moderators see the filtered queryset as
   * it is, anyone else only their own requests. `is_staff or is_moderator`
   * reads is_moderator whenever is_staff is false, so on an anonymous user it
   * raises AttributeError.
   */
  function VisibleRequests(base: seq<TripRow>, u: User): (r: Result<seq<TripRow>>)
    ensures r.Err? <==> u.Anonymous?
    ensures r.Err? ==> r.error == AttributeError
    ensures u.Account? && (u.isStaff || u.isModerator) ==> r == Ok(base)
    ensures u.Account? && !u.isStaff && !u.isModerator ==>
      r.Ok? && forall i :: 0 <= i < |r.value| ==> r.value[i].requestor == Some(u.id)
    ensures u.Account? && !u.isStaff && !u.isModerator ==>
      forall i :: 0 <= i < |base| && base[i].requestor == Some(u.id) ==> base[i] in r.value
  {
    if u.Anonymous? then Err(AttributeError)
    else if u.isStaff || u.isModerator then Ok(base)
    else Ok(OwnRequests(base, u))
  }

  /** Whoever asks, the visible requests are some of the base rows, in their original order. */
  lemma VisibleIsSubsequence(base: seq<TripRow>, u: User)
    requires u.Account?
    ensures VisibleRequests(base, u).Ok?
    ensures IsSubsequence(VisibleRequests(base, u).value, base)
    ensures forall i :: 0 <= i < |VisibleRequests(base, u).value| ==> VisibleRequests(base, u).value[i] in base
  {
    if u.isStaff || u.isModerator {
      SubsequenceReflexive(base);
    } else {
      FilterIsSubsequence(base, (t: TripRow) => t.requestor == Some(u.id));
    }
  }

  lemma {:induction false} SubsequenceReflexive<T>(s: seq<T>)
    ensures IsSubsequence(s, s)
    decreases |s|
  {
    if |s| > 0 {
      SubsequenceReflexive(s[1..]);
    }
  }

  /** Restricting the visible requests again changes nothing. */
  lemma VisibleIdempotent(base: seq<TripRow>, u: User)
    requires u.Account?
    ensures VisibleRequests(VisibleRequests(base, u).value, u) == VisibleRequests(base, u)
  {
    if !u.isStaff && !u.isModerator {
      FilterIdempotent(base, (t: TripRow) => t.requestor == Some(u.id));
    }
  }

  /** A request filed by someone else is hidden from a user who is neither staff nor moderator. */
  lemma OthersRequestsHidden(base: seq<TripRow>, u: User, t: TripRow)
    requires u.Account? && !u.isStaff && !u.isModerator
    requires t.requestor != Some(u.id)
    ensures t !in VisibleRequests(base, u).value
  {
  }

  /** TripRequestFilter.status's choices. */
  const STATUS_FILTER_CHOICES: seq<(nat, string)> := [
    (1, "Pending"), (2, "Approved"), (3, "Denied"),
    (7, "Returned"), (4, "Completed"), (5, "Cancelled")]

  /** A status the filter offers. */
  predicate Offered(s: Status)
  {
    exists i :: 0 <= i < |STATUS_FILTER_CHOICES| && STATUS_FILTER_CHOICES[i].0 == s.Code()
  }

  /**
   * The filter offers every status but None and Other, each once and under
   * the label the model's own choices give it.
   */
  lemma StatusFilterChoices(s: Status)
    ensures Offered(s) <==> !s.NoStatus? && !s.OtherStatus?
    ensures forall i :: 0 <= i < |STATUS_FILTER_CHOICES| ==>
      STATUS_FILTER_CHOICES[i] == STATUS_CHOICES[STATUS_FILTER_CHOICES[i].0]
    ensures forall i, j :: 0 <= i < j < |STATUS_FILTER_CHOICES| ==>
      STATUS_FILTER_CHOICES[i].0 != STATUS_FILTER_CHOICES[j].0
  {
    if !s.NoStatus? && !s.OtherStatus? {
      var i := match s
        case Pending => 0
        case Approved => 1
        case Denied => 2
        case Returned => 3
        case Completed => 4
        case Cancelled => 5
        case _ => 0;
      assert STATUS_FILTER_CHOICES[i].0 == s.Code();
    }
  }
}
