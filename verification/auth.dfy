/**
 * Role gates (transportation/auth/mixins.py): the three access mixins that
 * guard class-based views and the three decorator tests for function views.
 * Python's `and`/`or` evaluate left to right and stop early, so a gate that
 * reads `is_moderator` before testing `is_authenticated` raises on Django's
 * anonymous user, which has no such attribute.
 */
module Auth {
  import opened Wrappers
  import opened Users

  /** What a gate does with a request: let it through, send it to the login page, or raise. */
  datatype Decision = Admit | Refuse | Crash(error: Error)

  /** `user.is_moderator or user.is_superuser`, with the attribute lookup that fails on an anonymous user. */
  function ModeratorOrSuperuser(u: User): Result<bool>
  {
    if u.Anonymous? then Err(AttributeError) else Ok(u.isModerator || u.isSuperuser)
  }

  /** DriverRequiredMixin.dispatch: `is_authenticated and is_driver`. */
  function DriverRequiredMixin(u: User): (d: Decision)
    ensures !d.Crash?
    ensures d == Admit <==> u.IsAuthenticated() && u.isDriver
  {
    if u.IsAuthenticated() && u.isDriver then Admit else Refuse
  }

  /**
   * ModeratorRequiredMixin.dispatch as written: `proper_permissions` is
   * computed first, so an anonymous user raises AttributeError.
   */
  function ModeratorRequiredMixin(u: User): (d: Decision)
    ensures d == Admit <==> u.IsAuthenticated() && (u.isModerator || u.isSuperuser)
    ensures d.Crash? <==> u.Anonymous?
  {
    match ModeratorOrSuperuser(u)
    case Err(e) => Crash(e)
    case Ok(proper) => if u.IsAuthenticated() && proper then Admit else Refuse
  }

  /** The same gate with the authentication test first, as the other two mixins have it. */
  function ModeratorRequiredMixinCorrected(u: User): (d: Decision)
    ensures !d.Crash?
    ensures d == Admit <==> u.IsAuthenticated() && (u.isModerator || u.isSuperuser)
  {
    if !u.IsAuthenticated() then Refuse
    else if u.isModerator || u.isSuperuser then Admit
    else Refuse
  }

  /** SuperuserRequiredMixin.dispatch: `is_authenticated and is_superuser`. */
  function SuperuserRequiredMixin(u: User): (d: Decision)
    ensures !d.Crash?
    ensures d == Admit <==> u.IsAuthenticated() && u.isSuperuser
  {
    if u.IsAuthenticated() && u.isSuperuser then Admit else Refuse
  }

  /**
   * driver_required's test: drivers, moderators and superusers. The lambda
   * tests is_authenticated first, so it never raises; it admits exactly whom
   * the driver mixin or the moderator gate admits.
   */
  function DriverRequired(u: User): (b: bool)
    ensures b <==> DriverRequiredMixin(u) == Admit || ModeratorRequiredMixinCorrected(u) == Admit
  {
    u.IsAuthenticated() && (u.isDriver || u.isModerator || u.isSuperuser)
  }

  /**
   * moderator_required's test: the moderator gate in its intended order, and
   * the written mixin wherever that one does not raise.
   */
  function ModeratorRequired(u: User): (b: bool)
    ensures b <==> ModeratorRequiredMixinCorrected(u) == Admit
    ensures !ModeratorRequiredMixin(u).Crash? ==> (b <==> ModeratorRequiredMixin(u) == Admit)
  {
    u.IsAuthenticated() && (u.isModerator || u.isSuperuser)
  }

  /** superuser_required's test: the superuser mixin's, and within moderator_required's. */
  function SuperuserRequired(u: User): (b: bool)
    ensures b <==> SuperuserRequiredMixin(u) == Admit
    ensures b ==> ModeratorRequired(u)
  {
    u.IsAuthenticated() && u.isSuperuser
  }

  /** No gate lets an unauthenticated user through. */
  lemma AnonymousNeverAdmitted()
    ensures DriverRequiredMixin(Anonymous) != Admit
    ensures ModeratorRequiredMixin(Anonymous) != Admit
    ensures SuperuserRequiredMixin(Anonymous) != Admit
    ensures ModeratorRequiredMixinCorrected(Anonymous) != Admit
    ensures !DriverRequired(Anonymous) && !ModeratorRequired(Anonymous) && !SuperuserRequired(Anonymous)
  {
  }

  /** The decorator tests are nested: superuser within moderator within driver. */
  lemma DecoratorsNested(u: User)
    ensures SuperuserRequired(u) ==> ModeratorRequired(u)
    ensures ModeratorRequired(u) ==> DriverRequired(u)
  {
  }

  /**
   * The mixins and the decorators agree on accounts, except that the driver
   * mixin admits only drivers while driver_required also admits moderators
   * and superusers.
   */
  lemma MixinsAgainstDecorators(u: User)
    requires u.Account?
    ensures (ModeratorRequiredMixin(u) == Admit) == ModeratorRequired(u)
    ensures (SuperuserRequiredMixin(u) == Admit) == SuperuserRequired(u)
    ensures DriverRequiredMixin(u) == Admit ==> DriverRequired(u)
    ensures DriverRequired(u) && DriverRequiredMixin(u) != Admit <==> !u.isDriver && (u.isModerator || u.isSuperuser)
  {
  }

  /** The discrepancy: an anonymous visitor to a moderator view gets an AttributeError, not the login page. */
  lemma AnonymousModeratorViewRaises()
    ensures ModeratorRequiredMixin(Anonymous) == Crash(AttributeError)
    ensures ModeratorRequiredMixinCorrected(Anonymous) == Refuse
  {
  }

  /** The corrected gate decides every account exactly as the written one does. */
  lemma CorrectedAgreesOnAccounts(u: User)
    requires u.Account?
    ensures ModeratorRequiredMixinCorrected(u) == ModeratorRequiredMixin(u)
  {
  }
}
