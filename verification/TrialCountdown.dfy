/** The countdown shown during a trial (lib/trial-countdown.ts), against the resolver it displays. */
module TrialCountdown {
  import opened Wrappers
  import opened Tables
  import opened FounderAccess

  datatype View = View(source: Source, plan: Plan, endsAt: Time, initialRemainingSeconds: int)

  // `Math.ceil` of a positive number of milliseconds.
  function CeilSeconds(ms: int): int
    requires ms > 0
  {
    (ms + 999) / 1_000
  }

  function Build(access: Resolution, now: Time): Option<View> {
    if access.state != Trial || access.source == FromLegacy || access.requiredPlan.None? then None
    else if access.subscription.None? || access.subscription.value.periodEnd.None? then None
    else if access.source == FromFounder && access.trialEndsAt.None? then None
    else
      var subscriptionEnd := access.subscription.value.periodEnd.value;
      var endsAt :=
        if access.source == FromFounder && access.trialEndsAt.value < subscriptionEnd then access.trialEndsAt.value
          else subscriptionEnd;
      if endsAt - now <= 0 then None
      else Some(View(access.source, access.requiredPlan.value, endsAt, CeilSeconds(endsAt - now)))
  }

  // The displayed seconds reach the end and pass it by less than one second.
  lemma SecondsOvershootByLessThanOne(access: Resolution, now: Time)
    requires Build(access, now).Some?
    ensures
      var v := Build(access, now).value;
      now < v.endsAt <= now + 1_000 * v.initialRemainingSeconds < v.endsAt + 1_000
  {
  }

  lemma InvitationTrial(db: Db, inv: Invitation, g: Id, t: Time, u: Time)
    requires ResolveInvitation(db, inv, g, t).state == Trial && Build(ResolveInvitation(db, inv, g, t), t).Some?
    requires t <= u < Build(ResolveInvitation(db, inv, g, t), t).value.endsAt
    ensures ResolveInvitation(db, inv, g, u).HasAccess()
  {
    var list := Take25(NewestFirst(db, SubjectRows(db, InvitationSubject(db, inv, g))));
    var row := FindFirst(db, list, Trialing, t).value;
    FindFirstIsExists(db, list, Trialing, u, row);
  }

  lemma FounderTrial(db: Db, f: Founder, g: Id, t: Time, u: Time)
    requires ResolveFounder(db, f, g, t).state == Trial && Build(ResolveFounder(db, f, g, t), t).Some?
    requires t <= u < Build(ResolveFounder(db, f, g, t), t).value.endsAt
    ensures ResolveFounder(db, f, g, u).HasAccess()
  {
    var list := Take25(NewestFirst(db, FounderRows(db, f, g)));
    var row := FindFirst(db, list, Trialing, t).value;
    FindFirstIsExists(db, list, Trialing, u, row);
  }

  // The resolver commits to the same row of evidence at every instant.
  lemma SameEvidence(db: Db, g: Id, t: Time, u: Time)
    ensures Resolve(db, g, t).source == Resolve(db, g, u).source
    ensures Resolve(db, g, t).source == FromInvitation ==>
      exists i :: IsLatest(db, CommercialInvitations(db, g), i)
        && Resolve(db, g, t) == ResolveInvitation(db, db.invitations[i], g, t)
        && Resolve(db, g, u) == ResolveInvitation(db, db.invitations[i], g, u)
  {
  }

  // While a countdown runs and the rows stay as they are, access is never lost
  // before the displayed end, whatever the trial came from.
  lemma CountdownKeepsItsPromise(db: Db, g: Id, t: Time, u: Time)
    requires Build(Resolve(db, g, t), t).Some?
    requires t <= u < Build(Resolve(db, g, t), t).value.endsAt
    ensures Resolve(db, g, u).HasAccess() && Resolve(db, g, u).source == Build(Resolve(db, g, t), t).value.source
  {
    SameEvidence(db, g, t, u);
    var rows := CommercialInvitations(db, g);
    if Resolve(db, g, t).source == FromInvitation {
      var i :| IsLatest(db, rows, i)
        && Resolve(db, g, t) == ResolveInvitation(db, db.invitations[i], g, t)
        && Resolve(db, g, u) == ResolveInvitation(db, db.invitations[i], g, u);
      InvitationTrial(db, db.invitations[i], g, t, u);
    } else if Resolve(db, g, t).source == FromFounder {
      FounderTrial(db, db.founders[g], g, t, u);
    }
  }

  // Conversely, whoever resolves to a trial is shown a countdown.
  lemma EveryTrialIsCounted(db: Db, g: Id, t: Time)
    ensures Build(Resolve(db, g, t), t).Some? <==> Resolve(db, g, t).state == Trial
  {
  }

  // The trial really is over at the displayed end: the plan row behind it ends there,
  // or, for a founder, the free month does, whichever comes first.
  lemma CountdownEndsWithTheTrial(db: Db, g: Id, t: Time)
    requires Build(Resolve(db, g, t), t).Some?
    ensures
      var r, v := Resolve(db, g, t), Build(Resolve(db, g, t), t).value;
      && v.source == r.source && Some(v.plan) == r.requiredPlan
      && r.subscription.Some? && r.subscription.value.periodEnd.Some?
      && (if v.source == FromFounder then
            && g in db.founders && v.endsAt <= db.founders[g].trialEndsAt
            && v.endsAt <= r.subscription.value.periodEnd.value
            && (v.endsAt == db.founders[g].trialEndsAt || v.endsAt == r.subscription.value.periodEnd.value)
          else v.endsAt == r.subscription.value.periodEnd.value)
  {
  }
}
