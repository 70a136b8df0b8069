/** What is checked before a credit and its attributions enter the ledger (lib/promotion-credits.ts). */
module PromotionCredits {
  import opened Wrappers
  import opened Text
  import opened PromotionLedger

  datatype Code =
    | InvalidCreditedPc | InvalidCreditDeltaSign | MissingSupersededCredit
    | MissingPersonalAttribution | DuplicateAttribution | InvalidAttributionAgent | InvalidAttributionLeader
    | AttributionAgentMismatch

  datatype Attribution = Attribution(kind: Kind, agentId: string, leaderAgentId: Option<string>)

  // ---------- attributions ----------

  // The loop's variables.
  datatype Scan = Scan(normalized: seq<Attribution>, leaders: set<string>, personal: Option<string>)

  function Leader(a: Attribution): string {
    TextOf(a.leaderAgentId)
  }

  function Accept(so: Scan, a: Attribution): Result<Scan, Code> {
    var agentId := Trim(a.agentId);
    if agentId == "" then Err(InvalidAttributionAgent)
    else if a.kind == Personal then
      if so.personal.Some? then Err(DuplicateAttribution)
      else if Leader(a) != "" then Err(InvalidAttributionLeader)
      else Ok(Scan(so.normalized + [Attribution(Personal, agentId, None)], so.leaders, Some(agentId)))
    else if Leader(a) == "" || Leader(a) == agentId then Err(InvalidAttributionLeader)
    else if Leader(a) in so.leaders then Err(DuplicateAttribution)
    else Ok(Scan(so.normalized + [Attribution(Agency, agentId, Some(Leader(a)))], so.leaders + {Leader(a)},
      so.personal))
  }

  function ScanAll(attributions: seq<Attribution>): Result<Scan, Code> {
    if attributions == [] then Ok(Scan([], {}, None))
    else match ScanAll(attributions[..|attributions| - 1])
      case Err(e) => Err(e)
      case Ok(so) => Accept(so, attributions[|attributions| - 1])
  }

  lemma {:induction false} FirstErrorWins(attributions: seq<Attribution>, i: int)
    requires 0 <= i <= |attributions| && ScanAll(attributions[..i]).Err?
    ensures ScanAll(attributions) == ScanAll(attributions[..i])
    decreases |attributions|
  {
    if i < |attributions| {
      assert attributions[..|attributions| - 1][..i] == attributions[..i];
      FirstErrorWins(attributions[..|attributions| - 1], i);
    } else {
      assert attributions[..i] == attributions;
    }
  }

  function Verdict(so: Scan): Result<seq<Attribution>, Code> {
    if so.personal.None? then Err(MissingPersonalAttribution)
    else if exists a :: a in so.normalized && a.agentId != so.personal.value then Err(AttributionAgentMismatch)
    else Ok(so.normalized)
  }

  function Freeze(attributions: seq<Attribution>): Result<seq<Attribution>, Code> {
    match ScanAll(attributions)
    case Err(e) => Err(e)
    case Ok(so) => Verdict(so)
  }

  // Stops at the first attribution that is refused.
  method ValidateFrozenPromotionAttributions(attributions: seq<Attribution>) returns (r: Result<seq<Attribution>, Code>)
    ensures r == Freeze(attributions)
  {
    var normalized: seq<Attribution> := [];
    var agencyLeaderIds: set<string> := {};
    var personalAgentId: Option<string> := None;
    for i := 0 to |attributions|
      invariant ScanAll(attributions[..i]) == Ok(Scan(normalized, agencyLeaderIds, personalAgentId))
    {
      var attribution := attributions[i];
      assert attributions[..i + 1][..i] == attributions[..i];
      var agentId := Trim(attribution.agentId);
      var refused: Option<Code> := None;
      if agentId == "" {
        refused := Some(InvalidAttributionAgent);
      } else if attribution.kind == Personal {
        if personalAgentId.Some? {
          refused := Some(DuplicateAttribution);
        } else if Leader(attribution) != "" {
          refused := Some(InvalidAttributionLeader);
        } else {
          personalAgentId := Some(agentId);
          normalized := normalized + [Attribution(Personal, agentId, None)];
        }
      } else {
        var leaderAgentId := Leader(attribution);
        if leaderAgentId == "" || leaderAgentId == agentId {
          refused := Some(InvalidAttributionLeader);
        } else if leaderAgentId in agencyLeaderIds {
          refused := Some(DuplicateAttribution);
        } else {
          agencyLeaderIds := agencyLeaderIds + {leaderAgentId};
          normalized := normalized + [Attribution(Agency, agentId, Some(leaderAgentId))];
        }
      }
      if refused.Some? {
        FirstErrorWins(attributions, i + 1);
        return Err(refused.value);
      }
    }
    assert attributions[..|attributions|] == attributions;
    r := Verdict(Scan(normalized, agencyLeaderIds, personalAgentId));
  }

  // ---------- exactly what freezing accepts ----------

  predicate WellFormed(a: Attribution) {
    && Trim(a.agentId) != ""
    && (if a.kind == Personal then Leader(a) == "" else Leader(a) != "" && Leader(a) != Trim(a.agentId))
  }

  predicate IsAgencyOf(a: Attribution, leader: string) {
    a.kind == Agency && Leader(a) == leader
  }

  ghost predicate Clash(a: Attribution, b: Attribution) {
    (a.kind == Personal && b.kind == Personal) || (a.kind == Agency && b.kind == Agency && Leader(a) == Leader(b))
  }

  ghost predicate Distinguished(attributions: seq<Attribution>) {
    && (forall i :: 0 <= i < |attributions| ==> WellFormed(attributions[i]))
    && (forall i, j :: 0 <= i < j < |attributions| ==> !Clash(attributions[i], attributions[j]))
  }

  // One producer: a single PERSONAL row, AGENCY rows of different leaders, nobody
  // their own upline, and all rows naming the same agent.
  ghost predicate Acceptable(attributions: seq<Attribution>) {
    && Distinguished(attributions)
    && (exists p :: 0 <= p < |attributions| && attributions[p].kind == Personal)
    && (forall i, j :: 0 <= i < |attributions| && 0 <= j < |attributions| ==>
      Trim(attributions[i].agentId) == Trim(attributions[j].agentId))
  }

  function Normal(a: Attribution): Attribution {
    Attribution(a.kind, Trim(a.agentId), if a.kind == Personal then None else Some(Leader(a)))
  }

  // What a successful scan has seen.
  ghost predicate Scanned(attributions: seq<Attribution>, so: Scan) {
    && |so.normalized| == |attributions|
    && (forall i :: 0 <= i < |attributions| ==> so.normalized[i] == Normal(attributions[i]))
    && (forall l :: l in so.leaders <==> exists i :: 0 <= i < |attributions| && IsAgencyOf(attributions[i], l))
    && (so.personal.None? ==> forall i :: 0 <= i < |attributions| ==> attributions[i].kind == Agency)
    && (so.personal.Some? ==>
      exists i ::
        && 0 <= i < |attributions| && attributions[i].kind == Personal
        && Trim(attributions[i].agentId) == so.personal.value)
  }

  lemma {:induction false} ScanAllIs(attributions: seq<Attribution>)
    ensures ScanAll(attributions).Ok? <==> Distinguished(attributions)
    ensures ScanAll(attributions).Ok? ==> Scanned(attributions, ScanAll(attributions).value)
  {
    if attributions != [] {
      var init, a := attributions[..|attributions| - 1], attributions[|attributions| - 1];
      ScanAllIs(init);
      assert forall i :: 0 <= i < |init| ==> attributions[i] == init[i];
      if ScanAll(init).Ok? {
        ScanOneMore(attributions, init, ScanAll(init).value);
      } else {
        assert Distinguished(attributions) ==> Distinguished(init);
      }
    }
  }

  lemma DistinguishedOneMore(attributions: seq<Attribution>, init: seq<Attribution>, a: Attribution)
    requires attributions == init + [a] && Distinguished(init)
    ensures Distinguished(attributions) <==> WellFormed(a) && forall i :: 0 <= i < |init| ==> !Clash(init[i], a)
  {
    assert forall i :: 0 <= i < |init| ==> attributions[i] == init[i];
    assert attributions[|init|] == a;
  }

  lemma ScannedOneMore(attributions: seq<Attribution>, init: seq<Attribution>, a: Attribution, so: Scan)
    requires attributions == init + [a] && Scanned(init, so) && Accept(so, a).Ok?
    ensures Scanned(attributions, Accept(so, a).value)
  {
    var n := |init|;
    assert forall i :: 0 <= i < n ==> attributions[i] == init[i];
    assert attributions[n] == a;
  }

  lemma ScanOneMore(attributions: seq<Attribution>, init: seq<Attribution>, so: Scan)
    requires attributions != [] && init == attributions[..|attributions| - 1] && Distinguished(init)
    requires Scanned(init, so)
    ensures Accept(so, attributions[|attributions| - 1]).Ok? <==> Distinguished(attributions)
    ensures Accept(so, attributions[|attributions| - 1]).Ok? ==>
        Scanned(attributions, Accept(so, attributions[|attributions| - 1]).value)
  {
    var a := attributions[|attributions| - 1];
    assert attributions == init + [a];
    DistinguishedOneMore(attributions, init, a);
    if Accept(so, a).Ok? {
      ScannedOneMore(attributions, init, a, so);
    }
  }

  lemma SameAgentIff(attributions: seq<Attribution>, so: Scan, p: int)
    requires Scanned(attributions, so) && so.personal.Some? && 0 <= p < |attributions|
    requires Trim(attributions[p].agentId) == so.personal.value
    ensures
      (exists a :: a in so.normalized && a.agentId != so.personal.value) <==>
      !(forall i, j :: 0 <= i < |attributions| && 0 <= j < |attributions| ==>
          Trim(attributions[i].agentId) == Trim(attributions[j].agentId))
  {
    if a :| a in so.normalized && a.agentId != so.personal.value {
      var i :| 0 <= i < |attributions| && so.normalized[i] == a;
      assert Trim(attributions[i].agentId) != Trim(attributions[p].agentId);
    } else {
      forall i | 0 <= i < |attributions|
        ensures Trim(attributions[i].agentId) == so.personal.value
      {
        assert so.normalized[i] in so.normalized;
      }
    }
  }

  lemma VerdictIff(attributions: seq<Attribution>, so: Scan)
    requires Distinguished(attributions) && Scanned(attributions, so)
    ensures Verdict(so).Ok? <==> Acceptable(attributions)
    ensures Verdict(so).Ok? ==> Verdict(so).value == so.normalized
  {
    if so.personal.Some? {
      var p :| 0 <= p < |attributions| && attributions[p].kind == Personal
        && Trim(attributions[p].agentId) == so.personal.value;
      SameAgentIff(attributions, so, p);
    }
  }

  // Freezing succeeds exactly on acceptable attributions and returns them trimmed.
  lemma FreezeIffAcceptable(attributions: seq<Attribution>)
    ensures Freeze(attributions).Ok? <==> Acceptable(attributions)
    ensures Freeze(attributions).Ok? ==>
      && |Freeze(attributions).value| == |attributions|
      && forall i :: 0 <= i < |attributions| ==> Freeze(attributions).value[i] == Normal(attributions[i])
  {
    ScanAllIs(attributions);
    if ScanAll(attributions).Ok? {
      VerdictIff(attributions, ScanAll(attributions).value);
    }
  }

  // Rows written beside a credit from frozen attributions all name its producer.
  lemma FrozenRowsNameTheProducer(attributions: seq<Attribution>, frozen: seq<Attribution>, rows: seq<Row>,
                                  idOf: string -> Id, p: int)
    requires Freeze(attributions) == Ok(frozen) && |rows| == |frozen|
    requires 0 <= p < |frozen| && frozen[p].kind == Personal
    requires forall i :: 0 <= i < |rows| ==>
      rows[i].agentId == idOf(frozen[i].agentId) && rows[i].credit.producerAgentId == idOf(frozen[p].agentId)
    ensures Frozen(RowSet(rows))
  {
  }

  // ---------- events ----------

  function ValidateEvent(status: CreditStatus, creditedPc: real,
                         supersedesCreditId: Option<string>): Result<real, Code> {
    if (status == Adjusted || status == Reversed) && TextOf(supersedesCreditId) == "" then Err(MissingSupersededCredit)
    else if ((status == Estimated || status == PendingCarrier || status == Confirmed) && creditedPc < 0.0)
      || (status == Adjusted && creditedPc == 0.0) || (status == Reversed && creditedPc >= 0.0)
    then Err(InvalidCreditDeltaSign)
    else Ok(creditedPc)
  }
}
