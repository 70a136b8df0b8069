/**
 The promotion figures, written out on the ledger rows: which credits are the same
 policy's, which credits count on which side and in which bucket, and what the rollup
 then shows.
 */
module PromotionRules {
  import opened Wrappers
  import opened Text
  import opened PromotionLedger
  import opened PromotionCredits

  // ---------- policies ----------

  // Present, and not only white space.
  predicate IsGiven(value: Option<string>) {
    value.Some? && Trim(value.value) != ""
  }

  // The carrier up to case, the number up to case and white space anywhere in it.
  predicate SamePolicy(c: Credit, d: Credit) {
    && IsGiven(c.carrier) && IsGiven(c.policyNumber) && IsGiven(d.carrier) && IsGiven(d.policyNumber)
    && SameLetters(Trim(c.carrier.value), Trim(d.carrier.value))
    && SameLetters(WithoutSpaces(Trim(c.policyNumber.value)), WithoutSpaces(Trim(d.policyNumber.value)))
  }

  lemma UpperOfConcat(a: string, b: string)
    ensures Upper(a + b) == Upper(a) + Upper(b)
  {
  }

  lemma {:induction false} UpperWithoutSpaces(s: string)
    ensures WithoutSpaces(Upper(s)) == Upper(WithoutSpaces(s))
  {
    if s != "" {
      UpperWithoutSpaces(s[1..]);
      UpperOfConcat([s[0]], WithoutSpaces(s[1..]));
      assert Upper(s)[1..] == Upper(s[1..]);
    }
  }

  const SEPARATOR := 31 as char

  lemma FirstSeparator(a: string, x: string)
    requires SEPARATOR !in a
    ensures (a + [SEPARATOR] + x)[|a|] == SEPARATOR
    ensures forall i :: 0 <= i < |a| ==> (a + [SEPARATOR] + x)[i] != SEPARATOR
  {
  }

  // The separator splits a key in only one way when no carrier contains it.
  lemma SplitKey(a: string, x: string, b: string, y: string)
    requires SEPARATOR !in a && SEPARATOR !in b && a + [SEPARATOR] + x == b + [SEPARATOR] + y
    ensures a == b && x == y
  {
    var k, l := a + [SEPARATOR] + x, b + [SEPARATOR] + y;
    FirstSeparator(a, x);
    FirstSeparator(b, y);
    assert k == l && |a| == |b|;
    assert a == k[..|a|] && b == l[..|b|];
    assert x == k[|a| + 1..] && y == l[|b| + 1..];
  }

  // Two credits have one policy key exactly when they name the same policy, provided
  // that no carrier contains the separator character.
  lemma SameKeyIff(c: Credit, d: Credit)
    requires c.carrier.Some? ==> SEPARATOR !in c.carrier.value
    requires d.carrier.Some? ==> SEPARATOR !in d.carrier.value
    ensures PolicyKey(c).Some? && PolicyKey(c) == PolicyKey(d) <==> SamePolicy(c, d)
  {
    if PolicyKey(c).Some? && PolicyKey(d).Some? {
      var a, x := Trim(c.carrier.value), Trim(c.policyNumber.value);
      var b, y := Trim(d.carrier.value), Trim(d.policyNumber.value);
      TrimKeeps(c.carrier.value, SEPARATOR);
      TrimKeeps(d.carrier.value, SEPARATOR);
      UpperKeeps(a);
      UpperKeeps(b);
      UpperWithoutSpaces(x);
      UpperWithoutSpaces(y);
      UpperEqualIff(a, b);
      UpperEqualIff(WithoutSpaces(x), WithoutSpaces(y));
      if PolicyKey(c) == PolicyKey(d) {
        SplitKey(Upper(a), WithoutSpaces(Upper(x)), Upper(b), WithoutSpaces(Upper(y)));
      }
    }
  }

  lemma TrimKeeps(s: string, c: char)
    ensures c in Trim(s) ==> c in s
  {
    TrimIs(s);
  }

  lemma UpperKeeps(s: string)
    ensures SEPARATOR in Upper(s) ==> SEPARATOR in s
  {
    if SEPARATOR in Upper(s) {
      var i :| 0 <= i < |s| && Upper(s)[i] == SEPARATOR;
      assert s[i] == SEPARATOR;
    }
  }

  // With it two policies can share a key.
  lemma SeparatorCollides()
    ensures
      var c := Credit(1, Some("A"), Some(['B', SEPARATOR, 'C']), 1, 0.0, Estimated, 0);
      var d := Credit(2, Some(['A', SEPARATOR, 'B']), Some("C"), 1, 0.0, Estimated, 0);
      PolicyKey(c) == PolicyKey(d) && PolicyKey(c).Some? && !SamePolicy(c, d)
  {
    var c := Credit(1, Some("A"), Some(['B', SEPARATOR, 'C']), 1, 0.0, Estimated, 0);
    var d := Credit(2, Some(['A', SEPARATOR, 'B']), Some("C"), 1, 0.0, Estimated, 0);
    assert Trim("A") == "A" && Trim("C") == "C";
    assert Trim(['A', SEPARATOR, 'B']) == ['A', SEPARATOR, 'B'] && Trim(['B', SEPARATOR, 'C']) == ['B', SEPARATOR, 'C'];
    assert Upper("A") == "A" && Upper("C") == "C";
    assert Upper(['A', SEPARATOR, 'B']) == ['A', SEPARATOR, 'B'];
    assert Upper(['B', SEPARATOR, 'C']) == ['B', SEPARATOR, 'C'];
    assert WithoutSpaces("C") == "C";
    assert ['B', SEPARATOR, 'C'][1..] == [SEPARATOR, 'C'] && [SEPARATOR, 'C'][1..] == "C";
    assert WithoutSpaces(['B', SEPARATOR, 'C']) == ['B', SEPARATOR, 'C'];
    assert "A" + [SEPARATOR] + ['B', SEPARATOR, 'C'] == ['A', SEPARATOR, 'B'] + [SEPARATOR] + "C";
  }

  // ---------- which rows are looked at ----------

  // The agent's own PERSONAL rows; with the agency view also the AGENCY rows that name
  // the agent as leader, for the given producers if any, but never the agent's own
  // production.
  lemma EligibleIff(rows: seq<Row>, v: View, row: Row)
    ensures row in EligibleSet(rows, v) <==>
      row in rows
      && ((row.kind == Personal && row.agentId == v.agentId)
          || (v.includeAgency && row.kind == Agency && row.leaderAgentId == Some(v.agentId)
              && row.credit.producerAgentId != v.agentId
              && (v.producers.Some? ==> row.credit.producerAgentId in v.producers.value)))
  {
  }

  // ---------- which credits count ----------

  predicate IsCertain(c: Credit) {
    c.status != Estimated && c.status != PendingCarrier
  }

  // Of the same policy, and made later: the larger id at the same instant.
  predicate MadeLater(c: Credit, d: Credit) {
    if c.createdAt != d.createdAt then c.createdAt > d.createdAt else c.id > d.id
  }

  // A certain credit, one of no known policy, or the last estimate, or the last pending
  // credit, of a policy about which nothing is certain yet.
  ghost predicate Stands(rows: set<Row>, c: Credit) {
    IsCertain(c) || PolicyKey(c).None? ||
    forall s :: s in rows && PolicyKey(s.credit) == PolicyKey(c) ==>
      !IsCertain(s.credit) && (s.credit.status == c.status ==> !MadeLater(s.credit, c))
  }

  lemma CountsIffStands(rows: set<Row>, c: Credit)
    ensures Counts(rows, c) <==> Stands(rows, c)
  {
  }

  predicate InBucket(c: Credit, b: Bucket) {
    match b
    case InEstimated => c.status == Estimated
    case InPending => c.status == PendingCarrier
    case InConfirmed => IsCertain(c)
  }

  // The credits behind a personal or a team figure.
  lemma SideIs(rows: set<Row>, v: View, team: bool, b: Bucket, c: Credit)
    ensures c in Side(rows, v, team, b) <==>
      && Stands(rows, c) && InBucket(c, b)
      && exists r ::
           && r in rows && r.credit == c
           && if team then IsTeam(r, v) else r.kind == Personal && r.agentId == v.agentId
  {
    CountsIffStands(rows, c);
    if c in Side(rows, v, team, b) {
      var r :| r in rows && OnSide(r, v, team) && r.credit == c && BucketFor(c.status) == b;
    }
  }

  // ---------- what is shown ----------

  // The empty sum is zero and one more credit adds its amount.
  lemma TotalIs(credits: set<Credit>, c: Credit)
    requires c !in credits
    ensures Total({}) == 0.0 && Total(credits + {c}) == Total(credits) + c.creditedPc
  {
    TotalRemove(credits + {c}, c);
    assert credits + {c} - {c} == credits;
  }

  // Shown as it is, but never below zero.
  predicate ShowsTotal(shown: real, total: real) {
    if total >= 0.0 then shown == total else shown == 0.0
  }

  // The agency figures are those of the union of both sides, and zero without the view.
  ghost predicate ShowsAgency(shown: real, rows: set<Row>, v: View, b: Bucket) {
    if v.includeAgency then ShowsTotal(shown, Total(Side(rows, v, false, b) + Side(rows, v, true, b))) else shown == 0.0
  }

  ghost function StandingIds(rows: set<Row>, b: Bucket): set<Id> {
    set r | r in rows && Stands(rows, r.credit) && InBucket(r.credit, b) :: r.credit.id
  }

  lemma StandingIdsAre(rows: set<Row>, b: Bucket)
    ensures StandingIds(rows, b) == IdsIn(rows, b)
  {
    forall id
      ensures id in StandingIds(rows, b) <==> id in IdsIn(rows, b)
    {
      if id in StandingIds(rows, b) {
        var r :| r in rows && Stands(rows, r.credit) && InBucket(r.credit, b) && r.credit.id == id;
        CountsIffStands(rows, r.credit);
        assert r.credit in Counted(rows);
      }
      if id in IdsIn(rows, b) {
        var c :| c in Counted(rows) && BucketFor(c.status) == b && c.id == id;
        CountsIffStands(rows, c);
      }
    }
  }

  lemma FiguresAre(rows: set<Row>, v: View, r: Rollup)
    requires IsRollup(rows, v, r)
    ensures ShowsTotal(r.personalPc, Total(Side(rows, v, false, InConfirmed)))
    ensures ShowsTotal(r.estimatedPersonalPc, Total(Side(rows, v, false, InEstimated)))
    ensures ShowsTotal(r.pendingPersonalPc, Total(Side(rows, v, false, InPending)))
    ensures ShowsAgency(r.agencyPc, rows, v, InConfirmed)
    ensures ShowsAgency(r.estimatedAgencyPc, rows, v, InEstimated)
    ensures ShowsAgency(r.pendingAgencyPc, rows, v, InPending)
    ensures r.confirmedCreditCount == |StandingIds(rows, InConfirmed)|
    ensures r.estimatedCreditCount == |StandingIds(rows, InEstimated)|
    ensures r.pendingCreditCount == |StandingIds(rows, InPending)|
  {
    StandingIdsAre(rows, InConfirmed);
    StandingIdsAre(rows, InEstimated);
    StandingIdsAre(rows, InPending);
  }

  // The date shown is the latest of the standing credits, and there is one exactly if
  // some credit stands.
  lemma LastCreditIs(rows: set<Row>, v: View, r: Rollup)
    requires IsRollup(rows, v, r)
    ensures r.hasPromotionData == r.lastCreditAt.Some?
    ensures r.hasPromotionData <==> exists x :: x in rows && Stands(rows, x.credit)
    ensures forall x :: x in rows && Stands(rows, x.credit) ==>
      r.lastCreditAt.Some? && x.credit.createdAt <= r.lastCreditAt.value
    ensures r.lastCreditAt.Some? ==>
      exists x :: x in rows && Stands(rows, x.credit) && x.credit.createdAt == r.lastCreditAt.value
  {
    forall x | x in rows
      ensures Stands(rows, x.credit) <==> x.credit in Counted(rows)
    {
      CountsIffStands(rows, x.credit);
    }
    if r.lastCreditAt.Some? {
      var c :| c in Counted(rows) && c.createdAt == r.lastCreditAt.value;
      var x :| x in rows && x.credit == c;
    }
  }

  // ---------- what may enter the ledger ----------

  // First credits are never negative; an adjustment moves something, a reversal takes
  // away, and both name the credit they supersede.
  lemma EventIsValidIff(status: CreditStatus, pc: real, supersedes: Option<string>)
    ensures ValidateEvent(status, pc, supersedes).Ok? <==>
      match status
      case Adjusted => pc != 0.0 && IsGiven(supersedes)
      case Reversed => pc < 0.0 && IsGiven(supersedes)
      case _ => pc >= 0.0
    ensures ValidateEvent(status, pc, supersedes).Ok? ==> ValidateEvent(status, pc, supersedes).value == pc
    ensures ValidateEvent(status, pc, supersedes) == Err(MissingSupersededCredit) <==>
      (status == Adjusted || status == Reversed) && !IsGiven(supersedes)
    ensures ValidateEvent(status, pc, supersedes).Err? ==>
      ValidateEvent(status, pc, supersedes).error == MissingSupersededCredit
        || ValidateEvent(status, pc, supersedes).error == InvalidCreditDeltaSign
  {
  }

  // What is wrong with attribution k, given those before it.
  ghost predicate IsWrong(rows: seq<Attribution>, k: int, e: Code)
    requires 0 <= k < |rows|
  {
    var a := rows[k];
    match e
    case InvalidAttributionAgent => Trim(a.agentId) == ""
    case InvalidAttributionLeader =>
      if a.kind == Personal then IsGiven(a.leaderAgentId)
      else !IsGiven(a.leaderAgentId) || Trim(a.leaderAgentId.value) == Trim(a.agentId)
    case DuplicateAttribution =>
      exists q :: 0 <= q < k && rows[q].kind == a.kind && (a.kind == Personal || SameLeader(rows[q], a))
    case _ => false
  }

  predicate SameLeader(a: Attribution, b: Attribution) {
    IsGiven(a.leaderAgentId) && IsGiven(b.leaderAgentId) && Trim(a.leaderAgentId.value) == Trim(b.leaderAgentId.value)
  }

  // What a refusal of attributions says.
  ghost predicate AttributionReason(rows: seq<Attribution>, e: Code) {
    || (exists k :: 0 <= k < |rows| && IsWrong(rows, k, e))
    || (e == MissingPersonalAttribution && forall k :: 0 <= k < |rows| ==> rows[k].kind == Agency)
    || (e == AttributionAgentMismatch
        && exists k, q :: 0 <= k < |rows| && 0 <= q < |rows| && Trim(rows[k].agentId) != Trim(rows[q].agentId))
  }

  lemma AcceptReason(rows: seq<Attribution>, init: seq<Attribution>, so: Scan, e: Code)
    requires rows != [] && init == rows[..|rows| - 1] && Scanned(init, so) && Distinguished(init)
    requires Accept(so, rows[|rows| - 1]) == Err(e)
    ensures IsWrong(rows, |rows| - 1, e)
  {
    var a := rows[|rows| - 1];
    if e == DuplicateAttribution {
      if a.kind == Personal {
        var q :| 0 <= q < |init| && init[q].kind == Personal;
        assert rows[q] == init[q];
      } else {
        var q :| 0 <= q < |init| && IsAgencyOf(init[q], Leader(a));
        assert rows[q] == init[q];
      }
    }
  }

  lemma {:induction false} ScanReason(rows: seq<Attribution>, e: Code)
    requires ScanAll(rows) == Err(e)
    ensures exists k :: 0 <= k < |rows| && IsWrong(rows, k, e)
  {
    var init := rows[..|rows| - 1];
    if ScanAll(init).Err? {
      ScanReason(init, e);
      var k :| 0 <= k < |init| && IsWrong(init, k, e);
      assert forall q :: 0 <= q <= k ==> rows[q] == init[q];
      assert IsWrong(rows, k, e);
    } else {
      ScanAllIs(init);
      AcceptReason(rows, init, ScanAll(init).value, e);
    }
  }

  // Every refusal of attributions has its reason in them.
  lemma FreezeHasItsReason(rows: seq<Attribution>, e: Code)
    requires Freeze(rows) == Err(e)
    ensures AttributionReason(rows, e)
  {
    ScanAllIs(rows);
    if ScanAll(rows).Err? {
      ScanReason(rows, e);
    } else {
      var so := ScanAll(rows).value;
      if so.personal.Some? {
        var p :| 0 <= p < |rows| && rows[p].kind == Personal && Trim(rows[p].agentId) == so.personal.value;
        SameAgentIff(rows, so, p);
      }
    }
  }
}
