/** Rank qualification and the durable title (lib/promotion-journey.ts, lib/agent-promotion.ts). */
module PromotionJourney {
  import opened Wrappers

  datatype Mode = IndividualMode | AgencyMode

  datatype Tone = Blue | Red | Green | Purple | Black

  datatype Rank = Rank(
    id: string, step: nat, title: string, jacket: Option<string>, jacketTone: Option<Tone>,
    personalTarget: real, agencyTarget: real, agencyPersonalMinimum: real)

  const RANKS: seq<Rank> := [
    Rank("district-leader", 3, "District Leader", None, None,
         5_000.0, 5_000.0, 2_500.0),
    Rank("division-leader", 4, "Division Leader", None, None,
         20_000.0, 20_000.0, 5_000.0),
    Rank("regional-leader", 5, "Regional Leader", None, None,
         40_000.0, 40_000.0, 10_000.0),
    Rank("agency-vice-president", 6, "Agency Vice President", Some("Blue Jacket"), Some(Blue),
         60_000.0, 120_000.0, 30_000.0),
    Rank("regional-vice-president", 7, "Regional Vice President", Some("Red Jacket"), Some(Red),
         84_000.0, 240_000.0, 25_000.0),
    Rank("national-vice-president", 8, "National Vice President", Some("Green Jacket"), Some(Green),
         108_000.0, 360_000.0, 20_000.0),
    Rank("senior-vice-president", 9, "Senior Vice President", Some("Purple Jacket"), Some(Purple),
         132_000.0, 480_000.0, 15_000.0),
    Rank("executive-vice-president", 10, "Executive Vice President", Some("Black Jacket"), Some(Black),
         156_000.0, 600_000.0, 10_000.0)]

  datatype Route = ByPersonal | ByAgency

  datatype Qualification = Qualification(
    qualifies: bool, route: Option<Route>, progress: real, personalProgress: real, agencyProgress: Option<real>,
    agencyPersonalProgress: Option<real>, personalRemaining: real, agencyRemaining: Option<real>,
      agencyPersonalRemaining: Option<real>)

  function Min(a: real, b: real): real {
    if a < b then a else b
  }

  function Max(a: real, b: real): real {
    if a < b then b else a
  }

  function Ratio(value: real, target: real): real {
    if target <= 0.0 then 1.0 else Min(Max(value / target, 0.0), 1.0)
  }

  function RankQualification(rank: Rank, mode: Mode, personalPc: real, agencyPc: real): Qualification {
    var personalProgress := Ratio(personalPc, rank.personalTarget);
    var personalRemaining := Max(rank.personalTarget - personalPc, 0.0);
    var personalQualifies := personalPc >= rank.personalTarget;
    if mode == IndividualMode then
      Qualification(personalQualifies, if personalQualifies then Some(ByPersonal) else None,
                    personalProgress, personalProgress, None, None, personalRemaining, None, None)
    else
      var agencyPersonalProgress := Ratio(personalPc, rank.agencyPersonalMinimum);
      var agencyProgress := Min(Ratio(agencyPc, rank.agencyTarget), agencyPersonalProgress);
      var agencyQualifies := agencyPc >= rank.agencyTarget && personalPc >= rank.agencyPersonalMinimum;
      Qualification(personalQualifies || agencyQualifies,
                    if personalQualifies then Some(ByPersonal) else if agencyQualifies then Some(ByAgency) else None,
                    Max(personalProgress, agencyProgress), personalProgress, Some(agencyProgress),
                    Some(agencyPersonalProgress), personalRemaining, Some(Max(rank.agencyTarget - agencyPc, 0.0)),
                    Some(Max(rank.agencyPersonalMinimum - personalPc, 0.0)))
  }

  // ---------- the journey ----------

  datatype Standing = Achieved | Current | Locked

  datatype Achievement = Qualified | Inherited

  datatype Stage = Stage(rank: Rank, standing: Standing, achievement: Option<Achievement>, qualification: Qualification)

  datatype Journey = Journey(
    mode: Mode, personalPc: real, agencyPc: real, currentIndex: int, currentRank: Option<Rank>, nextRank: Option<Rank>,
    route: Option<Route>, finalReached: bool, overallProgress: real, stages: seq<Stage>)

  // The last qualifying index below n, or -1.
  function LastQualifying(mode: Mode, personalPc: real, agencyPc: real, n: nat): int
    requires n <= |RANKS|
  {
    if n == 0 then -1
    else if RankQualification(RANKS[n - 1], mode, personalPc, agencyPc).qualifies then n - 1
    else LastQualifying(mode, personalPc, agencyPc, n - 1)
  }

  function CurrentIndex(mode: Mode, personalPc: real, agencyPc: real): int {
    LastQualifying(mode, Max(0.0, personalPc), Max(0.0, agencyPc), |RANKS|)
  }

  predicate QualifiesAt(mode: Mode, p: real, a: real, i: nat)
    requires i < |RANKS|
  {
    RankQualification(RANKS[i], mode, p, a).qualifies
  }

  lemma LastQualifyingStep(mode: Mode, p: real, a: real, n: nat)
    requires 0 < n <= |RANKS|
    ensures LastQualifying(mode, p, a, n)
         == if QualifiesAt(mode, p, a, n - 1) then n - 1 else LastQualifying(mode, p, a, n - 1)
  {
  }

  lemma {:induction false} LastQualifyingFinds(mode: Mode, p: real, a: real, n: nat)
    requires n <= |RANKS|
    ensures -1 <= LastQualifying(mode, p, a, n) < n
    ensures LastQualifying(mode, p, a, n) >= 0 ==> QualifiesAt(mode, p, a, LastQualifying(mode, p, a, n))
    ensures forall i :: LastQualifying(mode, p, a, n) < i < n ==> !QualifiesAt(mode, p, a, i)
  {
    if n > 0 {
      LastQualifyingStep(mode, p, a, n);
      LastQualifyingFinds(mode, p, a, n - 1);
    }
  }

  lemma LastQualifyingIs(mode: Mode, p: real, a: real, n: nat)
    requires n <= |RANKS|
    ensures -1 <= LastQualifying(mode, p, a, n) < n
    ensures LastQualifying(mode, p, a, n) >= 0 ==>
      RankQualification(RANKS[LastQualifying(mode, p, a, n)], mode, p, a).qualifies
    ensures forall i :: LastQualifying(mode, p, a, n) < i < n ==> !RankQualification(RANKS[i], mode, p, a).qualifies
  {
    LastQualifyingFinds(mode, p, a, n);
    forall i | LastQualifying(mode, p, a, n) < i < n
      ensures !RankQualification(RANKS[i], mode, p, a).qualifies
    {
      assert !QualifiesAt(mode, p, a, i);
    }
  }

  function StageAt(mode: Mode, personalPc: real, agencyPc: real, currentIndex: int, i: nat): Stage
    requires i < |RANKS|
  {
    var qualification := RankQualification(RANKS[i], mode, personalPc, agencyPc);
    Stage(RANKS[i],
          if i <= currentIndex then Achieved else if i == currentIndex + 1 then Current else Locked,
          if i > currentIndex then None else if qualification.qualifies then Some(Qualified) else Some(Inherited),
          qualification)
  }

  function JourneyOf(personalPc: real, agencyPc: real, mode: Mode): (j: Journey)
    ensures |j.stages| == |RANKS| && -1 <= j.currentIndex < |RANKS|
  {
    var p, a := Max(0.0, personalPc), Max(0.0, agencyPc);
    var index := CurrentIndex(mode, personalPc, agencyPc);
    LastQualifyingIs(mode, p, a, |RANKS|);
    var finalReached := index == |RANKS| - 1;
    Journey(mode, p, a, index,
            if index >= 0 then Some(RANKS[index]) else None,
            if finalReached then None else Some(RANKS[index + 1]),
            if index >= 0 then RankQualification(RANKS[index], mode, p, a).route else None,
            finalReached,
            RankQualification(RANKS[|RANKS| - 1], mode, p, a).progress,
            seq(|RANKS|, i requires 0 <= i < |RANKS| => StageAt(mode, p, a, index, i)))
  }

  // ---------- ranks ----------

  // More production never loses a rank, and the agency view never ranks below the
  // individual one.
  lemma MoreNeverHurts(mode: Mode, mode': Mode, p: real, a: real, p': real, a': real)
    requires p <= p' && a <= a' && (mode == mode' || mode == IndividualMode)
    ensures CurrentIndex(mode, p, a) <= CurrentIndex(mode', p', a')
  {
    LastQualifyingIs(mode, Max(0.0, p), Max(0.0, a), |RANKS|);
    LastQualifyingIs(mode', Max(0.0, p'), Max(0.0, a'), |RANKS|);
  }

  lemma RatioIsOne(value: real, target: real)
    requires target > 0.0
    ensures 0.0 <= Ratio(value, target) <= 1.0
    ensures Ratio(value, target) == 1.0 <==> value >= target
  {
  }

  // A stage is complete exactly when it qualifies, on either route.
  lemma ProgressIsOneIffQualified(p: real, a: real, mode: Mode, i: int)
    requires 0 <= i < |RANKS|
    ensures
      var q := JourneyOf(p, a, mode).stages[i].qualification;
      0.0 <= q.progress <= 1.0 && (q.progress == 1.0 <==> q.qualifies) && (q.qualifies <==> q.route.Some?)
  {
    var p', a', rank := Max(0.0, p), Max(0.0, a), RANKS[i];
    RatioIsOne(p', rank.personalTarget);
    RatioIsOne(a', rank.agencyTarget);
    RatioIsOne(p', rank.agencyPersonalMinimum);
  }

  // The remaining amounts are zero exactly when the route they belong to is reached.
  lemma NothingRemainsIffReached(p: real, a: real, mode: Mode, i: int)
    requires 0 <= i < |RANKS|
    ensures
      var q := JourneyOf(p, a, mode).stages[i].qualification;
      && (q.personalRemaining == 0.0 <==> q.route == Some(ByPersonal))
      && (mode == AgencyMode ==>
        (q.agencyRemaining == Some(0.0) && q.agencyPersonalRemaining == Some(0.0) ==> q.qualifies))
      && (q.route == Some(ByAgency) ==> q.agencyRemaining == Some(0.0) && q.agencyPersonalRemaining == Some(0.0))
  {
  }

  // On the individual route every rank below the current one was earned as such.
  lemma NothingInheritedIndividually(p: real, a: real, i: int)
    requires 0 <= i < |RANKS|
    ensures
      var j := JourneyOf(p, a, IndividualMode);
      && j.stages[i].achievement != Some(Inherited)
      && (i <= j.currentIndex <==> j.stages[i].qualification.qualifies)
  {
    LastQualifyingIs(IndividualMode, Max(0.0, p), Max(0.0, a), |RANKS|);
  }

  // With the agency route a qualifying rank needs both totals, unless the personal
  // total reaches the personal target.
  predicate QualifiesAsAgency(rank: Rank, p: real, a: real) {
    p >= rank.personalTarget || (a >= rank.agencyTarget && p >= rank.agencyPersonalMinimum)
  }

  lemma TargetsGrow(i: int, k: int)
    requires 0 <= i < k < |RANKS|
    ensures RANKS[i].personalTarget < RANKS[k].personalTarget && RANKS[i].agencyTarget < RANKS[k].agencyTarget
    ensures RANKS[i].agencyPersonalMinimum < RANKS[i].personalTarget
  {
  }

  // In the agency view a stage is inherited exactly when it lies below the current
  // rank and its own minimum personal production is missed.
  lemma StageIsInheritedIff(p: real, a: real, i: int)
    requires 0 <= i < |RANKS|
    ensures
      var j := JourneyOf(p, a, AgencyMode);
      j.stages[i].achievement == Some(Inherited) <==> i < j.currentIndex && Max(0.0, p) < RANKS[i].agencyPersonalMinimum
  {
    var p', a', k := Max(0.0, p), Max(0.0, a), JourneyOf(p, a, AgencyMode).currentIndex;
    LastQualifyingIs(AgencyMode, p', a', |RANKS|);
    if i < k {
      assert QualifiesAsAgency(RANKS[k], p', a');
      TargetsGrow(i, k);
    }
  }

  // In the inputs alone: the totals reach a red jacket or higher on the agency route,
  // with less personal production than the blue jacket asks for.
  predicate SkipsARank(p: real, a: real) {
    && p < 30_000.0
    && ((a >= 240_000.0 && p >= 25_000.0)
        || (a >= 360_000.0 && p >= 20_000.0)
        || (a >= 480_000.0 && p >= 15_000.0)
        || (a >= 600_000.0 && p >= 10_000.0))
  }

  lemma SkipsIff(p: real, a: real)
    ensures SkipsARank(p, a) <==> JourneyOf(p, a, AgencyMode).currentIndex >= 4 && Max(0.0, p) < 30_000.0
  {
    var p', a', k := Max(0.0, p), Max(0.0, a), JourneyOf(p, a, AgencyMode).currentIndex;
    LastQualifyingIs(AgencyMode, p', a', |RANKS|);
    assert forall i :: 4 <= i < |RANKS| ==>
      (RankQualification(RANKS[i], AgencyMode, p', a').qualifies <==> QualifiesAsAgency(RANKS[i], p', a'));
    assert k >= 4 <==> QualifiesAsAgency(RANKS[4], p', a') || QualifiesAsAgency(RANKS[5], p', a')
                       || QualifiesAsAgency(RANKS[6], p', a') || QualifiesAsAgency(RANKS[7], p', a');
  }

  // Exactly when the agency view shows a rank as achieved that was not earned.
  lemma InheritanceIff(p: real, a: real)
    ensures (exists i :: 0 <= i < |RANKS| && JourneyOf(p, a, AgencyMode).stages[i].achievement == Some(Inherited))
        <==> SkipsARank(p, a)
  {
    SkipsIff(p, a);
    StageIsInheritedIff(p, a, 3);
    if i :| 0 <= i < |RANKS| && JourneyOf(p, a, AgencyMode).stages[i].achievement == Some(Inherited) {
      StageIsInheritedIff(p, a, i);
      SmallTotalsSkipNothing(p, a, i);
    }
  }

  lemma SmallTotalsSkipNothing(p: real, a: real, i: int)
    requires 0 <= i < JourneyOf(p, a, AgencyMode).currentIndex && Max(0.0, p) < RANKS[i].agencyPersonalMinimum
    ensures i >= 3 && Max(0.0, p) < 30_000.0
  {
    var p', a', k := Max(0.0, p), Max(0.0, a), JourneyOf(p, a, AgencyMode).currentIndex;
    LastQualifyingIs(AgencyMode, p', a', |RANKS|);
    assert QualifiesAsAgency(RANKS[k], p', a');
    TargetsGrow(i, k);
  }

  // One such pair of totals.
  lemma InheritanceHappens()
    ensures JourneyOf(10_000.0, 600_000.0, AgencyMode).currentIndex == 7
    ensures JourneyOf(10_000.0, 600_000.0, AgencyMode).stages[3].achievement == Some(Inherited)
  {
  }

  // ---------- the rank table ----------

  // The individual route, in personal production alone.
  lemma IndividualRankIs(p: real, a: real)
    ensures JourneyOf(p, a, IndividualMode).currentIndex ==
        if p >= 156_000.0 then 7 else if p >= 132_000.0 then 6 else if p >= 108_000.0 then 5
        else if p >= 84_000.0 then 4 else if p >= 60_000.0 then 3 else if p >= 40_000.0 then 2
        else if p >= 20_000.0 then 1 else if p >= 5_000.0 then 0 else -1
  {
    LastQualifyingIs(IndividualMode, Max(0.0, p), Max(0.0, a), |RANKS|);
  }

  lemma LowRankIs(p: real, a: real)
    requires p >= 0.0 && a >= 0.0
    ensures LastQualifying(AgencyMode, p, a, 4) ==
        if p >= 60_000.0 || (a >= 120_000.0 && p >= 30_000.0) then 3
        else if p >= 40_000.0 || (a >= 40_000.0 && p >= 10_000.0) then 2
        else if p >= 20_000.0 || (a >= 20_000.0 && p >= 5_000.0) then 1
        else if p >= 5_000.0 || (a >= 5_000.0 && p >= 2_500.0) then 0 else -1
  {
    LastQualifyingStep(AgencyMode, p, a, 3);
    LastQualifyingStep(AgencyMode, p, a, 2);
  }

  lemma HighRankIs(p: real, a: real)
    requires p >= 0.0 && a >= 0.0
    ensures LastQualifying(AgencyMode, p, a, 8) ==
        if p >= 156_000.0 || (a >= 600_000.0 && p >= 10_000.0) then 7
        else if p >= 132_000.0 || (a >= 480_000.0 && p >= 15_000.0) then 6
        else if p >= 108_000.0 || (a >= 360_000.0 && p >= 20_000.0) then 5
        else if p >= 84_000.0 || (a >= 240_000.0 && p >= 25_000.0) then 4
        else LastQualifying(AgencyMode, p, a, 4)
  {
    LastQualifyingStep(AgencyMode, p, a, 7);
    LastQualifyingStep(AgencyMode, p, a, 6);
  }

  // The agency view: the personal target, or the agency's with a minimum of one's own.
  lemma AgencyRankIs(p: real, a: real)
    ensures JourneyOf(p, a, AgencyMode).currentIndex ==
        if p >= 156_000.0 || (a >= 600_000.0 && p >= 10_000.0) then 7
        else if p >= 132_000.0 || (a >= 480_000.0 && p >= 15_000.0) then 6
        else if p >= 108_000.0 || (a >= 360_000.0 && p >= 20_000.0) then 5
        else if p >= 84_000.0 || (a >= 240_000.0 && p >= 25_000.0) then 4
        else if p >= 60_000.0 || (a >= 120_000.0 && p >= 30_000.0) then 3
        else if p >= 40_000.0 || (a >= 40_000.0 && p >= 10_000.0) then 2
        else if p >= 20_000.0 || (a >= 20_000.0 && p >= 5_000.0) then 1
        else if p >= 5_000.0 || (a >= 5_000.0 && p >= 2_500.0) then 0 else -1
  {
    LowRankIs(Max(0.0, p), Max(0.0, a));
    HighRankIs(Max(0.0, p), Max(0.0, a));
  }

  lemma RankIsItsStep(i: int)
    requires 0 <= i < |RANKS|
    ensures RANKS[i].step == i + 3
  {
  }

  // Up to the current rank everything is achieved, the next rank is the one in work, and
  // the rest is locked.
  lemma StagesFollowTheRank(p: real, a: real, mode: Mode, i: int)
    requires 0 <= i < |RANKS|
    ensures
      var j := JourneyOf(p, a, mode);
      && j.stages[i].rank == RANKS[i]
      && (j.stages[i].standing == Achieved <==> i <= j.currentIndex)
      && (j.stages[i].standing == Current <==> i == j.currentIndex + 1)
      && (j.stages[i].achievement.Some? <==> j.stages[i].standing == Achieved)
      && (j.stages[i].achievement == Some(Qualified) ==> j.stages[i].qualification.qualifies)
      && (i == j.currentIndex ==> j.route == j.stages[i].qualification.route)
  {
  }

  // The ranks shown: the one held, the next one until there is none, and how far the
  // highest is.
  lemma JourneyNamesTheRanks(p: real, a: real, mode: Mode)
    ensures
      var j := JourneyOf(p, a, mode);
      && (j.currentRank.Some? <==> j.currentIndex >= 0) && (j.nextRank.Some? <==> j.currentIndex < 7)
      && (j.currentRank.Some? ==> j.currentRank.value.step == j.currentIndex + 3)
      && (j.nextRank.Some? ==> j.nextRank.value.step == j.currentIndex + 4)
      && (j.finalReached <==> j.currentIndex == 7) && (j.currentRank.None? ==> j.route.None?)
      && j.overallProgress == j.stages[7].qualification.progress
  {
    var j := JourneyOf(p, a, mode);
    if j.currentIndex >= 0 {
      assert j.currentRank == Some(RANKS[j.currentIndex]);
      RankIsItsStep(j.currentIndex);
    }
    if j.currentIndex < 7 {
      assert j.nextRank == Some(RANKS[j.currentIndex + 1]);
      RankIsItsStep(j.currentIndex + 1);
    }
  }

  // What part of the target has been produced, at most all of it.
  function Part(value: real, target: real): real
    requires target > 0.0
  {
    if value >= target then 1.0 else if value <= 0.0 then 0.0 else value / target
  }

  function Missing(value: real, target: real): real {
    if value >= target then 0.0 else if value <= 0.0 then target else target - value
  }

  // The share of the route that is further along; the agency route is only as far as the
  // smaller of its two shares. What is missing is missing to the very target.
  lemma ProgressIs(p: real, a: real, mode: Mode, i: int)
    requires 0 <= i < |RANKS|
    ensures
      var q, rank := JourneyOf(p, a, mode).stages[i].qualification, RANKS[i];
      var own := Part(p, rank.personalTarget);
      var minimum, team := Part(p, rank.agencyPersonalMinimum), Part(a, rank.agencyTarget);
      var agency := if team <= minimum then team else minimum;
      && q.personalProgress == own && q.personalRemaining == Missing(p, rank.personalTarget)
      && (mode == IndividualMode ==>
          q.progress == own && q.agencyProgress.None? && q.agencyPersonalProgress.None?
          && q.agencyRemaining.None? && q.agencyPersonalRemaining.None?)
      && (mode == AgencyMode ==>
          q.progress == (if agency <= own then own else agency) && q.agencyProgress == Some(agency)
          && q.agencyPersonalProgress == Some(minimum)
          && q.agencyRemaining == Some(Missing(a, rank.agencyTarget))
          && q.agencyPersonalRemaining == Some(Missing(p, rank.agencyPersonalMinimum)))
  {
    RatioIsPart(Max(0.0, p), p, RANKS[i].personalTarget);
    RatioIsPart(Max(0.0, p), p, RANKS[i].agencyPersonalMinimum);
    RatioIsPart(Max(0.0, a), a, RANKS[i].agencyTarget);
  }

  lemma RatioIsPart(value: real, total: real, target: real)
    requires target > 0.0 && value == Max(0.0, total)
    ensures Ratio(value, target) == Part(total, target) && Max(target - value, 0.0) == Missing(total, target)
  {
    RatioIsOne(value, target);
    if 0.0 < total < target {
      assert value / target > 0.0;
    }
  }

  // ---------- the durable title ----------

  datatype Identity = Identity(tone: Option<Tone>, rankTitle: Option<string>, jacket: Option<string>)

  function IdentityOf(rank: Option<Rank>): Identity {
    match rank
    case None => Identity(None, None, None)
    case Some(r) => Identity(r.jacketTone, Some(r.title), r.jacket)
  }

  function FindRank(id: string, n: nat): Option<Rank>
    requires n <= |RANKS|
    decreases |RANKS| - n
  {
    if n == |RANKS| then None else if RANKS[n].id == id then Some(RANKS[n]) else FindRank(id, n + 1)
  }

  predicate Bears(rank: Rank, identity: Identity) {
    Some(rank.title) == identity.rankTitle || (identity.jacket.Some? && rank.jacket == identity.jacket)
  }

  function FindBearer(identity: Identity, n: nat): Option<Rank>
    requires n <= |RANKS|
    decreases |RANKS| - n
  {
    if n == |RANKS| then None else if Bears(RANKS[n], identity) then Some(RANKS[n]) else FindBearer(identity, n + 1)
  }

  function DurableIdentity(current: Identity, highestRankId: Option<string>): Identity {
    if highestRankId.None? || FindRank(highestRankId.value, 0).None? then current
    else
      var achieved, bearer := FindRank(highestRankId.value, 0).value, FindBearer(current, 0);
      if bearer.Some? && bearer.value.step > achieved.step then current else IdentityOf(Some(achieved))
  }

  lemma {:induction false} FindRankFinds(i: int, n: nat)
    requires 0 <= i < |RANKS| && n <= i
    ensures FindRank(RANKS[i].id, n) == Some(RANKS[i])
    decreases i - n
  {
    if n < i {
      FindRankFinds(i, n + 1);
    }
  }

  lemma {:induction false} FindBearerFinds(i: int, n: nat)
    requires 0 <= i < |RANKS| && n <= i
    ensures FindBearer(IdentityOf(Some(RANKS[i])), n) == Some(RANKS[i])
    decreases i - n
  {
  }

  // The title shown is the higher of the rank held now and the highest ever earned.
  lemma DurableTitleIsTheHigher(p: real, a: real, mode: Mode, highest: int)
    requires 0 <= highest < |RANKS|
    ensures
      var index := JourneyOf(p, a, mode).currentIndex;
      DurableIdentity(IdentityOf(JourneyOf(p, a, mode).currentRank), Some(RANKS[highest].id))
      == IdentityOf(Some(RANKS[if index > highest then index else highest]))
  {
    var j := JourneyOf(p, a, mode);
    FindRankFinds(highest, 0);
    if j.currentIndex >= 0 {
      FindBearerFinds(j.currentIndex, 0);
    } else {
      NobodyBears(0);
    }
  }

  lemma {:induction false} NobodyBears(n: nat)
    requires n <= |RANKS|
    ensures FindBearer(IdentityOf(None), n) == None
    decreases |RANKS| - n
  {
  }

  // Without a recorded rank, or with one that is not on the table, the title is the
  // current one.
  lemma {:induction false} UnknownRankIsNotFound(id: string, n: nat)
    requires n <= |RANKS| && forall i :: n <= i < |RANKS| ==> RANKS[i].id != id
    ensures FindRank(id, n).None?
    decreases |RANKS| - n
  {
    if n < |RANKS| {
      UnknownRankIsNotFound(id, n + 1);
    }
  }

  lemma TitleWithoutHistory(current: Identity, highestRankId: Option<string>)
    requires highestRankId.None? || forall i :: 0 <= i < |RANKS| ==> RANKS[i].id != highestRankId.value
    ensures DurableIdentity(current, highestRankId) == current
  {
    if highestRankId.Some? {
      UnknownRankIsNotFound(highestRankId.value, 0);
    }
  }
}
