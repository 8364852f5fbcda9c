/** The tenant and caller of one request or message scope, set once. */
module RequestCallers {
  import opened Options
  import opened TenantText
  import opened Texts

  predicate IsNullOrWhiteSpace(text: string) {
    forall i :: 0 <= i < |text| ==> IsWhiteSpace(text[i])
  }

  datatype Caller = Caller(resolution: TenantResolution, userId: Option<string>, isPlatformAdmin: bool, hasMfaLevel: bool)

  const NOBODY := Caller(Invalid, None, false, false)

  datatype SetOutcome = Done | BlankUserId | AlreadySet

  class RequestCaller {
    var isSet: bool
    var userId: Option<string>
    var resolution: TenantResolution
    var isPlatformAdmin: bool
    var hasMfaLevel: bool

    /** Before it is set a scope has no tenant, no caller and no fact; an admin never has a tenant. */
    ghost predicate Valid()
      reads this
    {
      && (!isSet ==> Facts() == NOBODY)
      && (isSet ==> userId.Some? && !IsNullOrWhiteSpace(userId.value))
      && (isPlatformAdmin ==> resolution == NoTenant)
    }

    ghost function Facts(): (facts: Caller)
      reads this
    {
      Caller(resolution, userId, isPlatformAdmin, hasMfaLevel)
    }

    constructor ()
      ensures Valid() && !isSet && Facts() == NOBODY
    {
      isSet, userId, resolution, isPlatformAdmin, hasMfaLevel := false, None, Invalid, false, false;
    }

    method Set(resolution: TenantResolution, userId: string, isPlatformAdmin: bool, hasMfaLevel: bool)
      returns (outcome: SetOutcome)
      requires Valid()
      modifies this
      ensures Valid()
      ensures outcome == if IsNullOrWhiteSpace(userId) then BlankUserId else if old(isSet) then AlreadySet else Done
      ensures outcome == Done ==> isSet
      ensures outcome == Done ==>
        Facts() == Caller(resolution, Some(userId), isPlatformAdmin && resolution == NoTenant, hasMfaLevel)
      ensures outcome != Done ==> isSet == old(isSet) && Facts() == old(Facts())
    {
      if IsNullOrWhiteSpace(userId) {
        return BlankUserId;
      }
      if isSet {
        return AlreadySet;
      }
      this.resolution := resolution;
      this.userId := Some(userId);
      this.isPlatformAdmin := isPlatformAdmin && resolution.NoTenant?;
      this.hasMfaLevel := hasMfaLevel;
      isSet := true;
      outcome := Done;
    }
  }
}
