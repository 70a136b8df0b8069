/**
 The promotion ledger fold (`rollupPromotionCredits`, lib/agent-promotion.ts).
 The specification `IsRollup` speaks of the set of eligible rows, so the order and
 the repetition of fetched rows cannot matter; the methods below are the loops.
 */
module PromotionLedger {
  import opened Wrappers
  import opened Text

  datatype CreditStatus = Estimated | PendingCarrier | Confirmed | Adjusted | Reversed

  datatype Bucket = InConfirmed | InEstimated | InPending

  datatype Kind = Personal | Agency

  // One ledger event; PC values are exact.
  datatype Credit = Credit(
    id: Id, carrier: Option<string>, policyNumber: Option<string>, producerAgentId: Id, creditedPc: real,
    status: CreditStatus, createdAt: Time)

  datatype Row = Row(kind: Kind, agentId: Id, leaderAgentId: Option<Id>, credit: Credit)

  // Whose totals, whether the agency view is granted, and for which producers.
  datatype View = View(agentId: Id, includeAgency: bool, producers: Option<set<Id>>)

  datatype Rollup = Rollup(
    personalPc: real, agencyPc: real, estimatedPersonalPc: real, estimatedAgencyPc: real,
    pendingPersonalPc: real, pendingAgencyPc: real, confirmedCreditCount: nat, estimatedCreditCount: nat,
    pendingCreditCount: nat, hasPromotionData: bool, lastCreditAt: Option<Time>)

  // ---------- rows ----------

  predicate IsPersonal(row: Row, v: View) {
    row.kind == Personal && row.agentId == v.agentId
  }

  predicate IsTeam(row: Row, v: View) {
    && v.includeAgency && row.kind == Agency && row.leaderAgentId == Some(v.agentId)
    && (v.producers.None? || row.credit.producerAgentId in v.producers.value)
    && row.credit.producerAgentId != v.agentId
  }

  function EligibleSet(rows: seq<Row>, v: View): set<Row> {
    set row | row in rows && (IsPersonal(row, v) || IsTeam(row, v))
  }

  // A credit id is a primary key.
  ghost predicate OneCreditPerId(rows: set<Row>) {
    forall r, s :: r in rows && s in rows && r.credit.id == s.credit.id ==> r.credit == s.credit
  }

  // ---------- policies and their observations ----------

  function TextOf(value: Option<string>): string {
    if value.Some? then Trim(value.value) else ""
  }

  function PolicyKey(c: Credit): Option<string> {
    var carrier, number := TextOf(c.carrier), TextOf(c.policyNumber);
    if carrier == "" || number == "" then None
    else Some(Upper(carrier) + [31 as char] + WithoutSpaces(Upper(number)))
  }

  predicate Recognized(status: CreditStatus) {
    status == Confirmed || status == Adjusted || status == Reversed
  }

  function BucketFor(status: CreditStatus): Bucket {
    match status
    case Estimated => InEstimated
    case PendingCarrier => InPending
    case _ => InConfirmed
  }

  predicate Newer(c: Credit, d: Credit) {
    c.createdAt > d.createdAt || (c.createdAt == d.createdAt && c.id > d.id)
  }

  // Another observation of the same policy at the same level of certainty.
  predicate SameObservation(c: Credit, d: Credit) {
    PolicyKey(c).Some? && PolicyKey(c) == PolicyKey(d) && !Recognized(c.status) && c.status == d.status
  }

  ghost predicate KeyRecognized(rows: set<Row>, key: string) {
    exists r :: r in rows && PolicyKey(r.credit) == Some(key) && Recognized(r.credit.status)
  }

  ghost predicate Superseded(rows: set<Row>, c: Credit) {
    exists r :: r in rows && SameObservation(r.credit, c) && Newer(r.credit, c)
  }

  // An uncertain credit of a known policy counts only while nothing certain is known
  // about that policy, and then only its newest observation.
  ghost predicate Counts(rows: set<Row>, c: Credit) {
    || Recognized(c.status)
    || PolicyKey(c).None?
    || (!KeyRecognized(rows, PolicyKey(c).value) && !Superseded(rows, c))
  }

  ghost function Counted(rows: set<Row>): set<Credit> {
    set r | r in rows && Counts(rows, r.credit) :: r.credit
  }

  // The counted credits of one side (personal or team) in one bucket.
  ghost function Side(rows: set<Row>, v: View, team: bool, b: Bucket): set<Credit> {
    set r | r in rows && OnSide(r, v, team) && Counts(rows, r.credit) && BucketFor(r.credit.status) == b :: r.credit
  }

  predicate OnSide(row: Row, v: View, team: bool) {
    if team then IsTeam(row, v) && !IsPersonal(row, v) else IsPersonal(row, v)
  }

  // ---------- sums ----------

  ghost function Total(credits: set<Credit>): real {
    if c :| c in credits then c.creditedPc + Total(credits - {c}) else 0.0
  }

  lemma {:induction false} TotalRemove(credits: set<Credit>, c: Credit)
    requires c in credits
    ensures Total(credits) == c.creditedPc + Total(credits - {c})
  {
    var d :| d in credits && Total(credits) == d.creditedPc + Total(credits - {d});
    if d != c {
      TotalRemove(credits - {d}, c);
      TotalRemove(credits - {c}, d);
      assert credits - {d} - {c} == credits - {c} - {d};
    }
  }

  lemma {:induction false} TotalDisjoint(a: set<Credit>, b: set<Credit>)
    requires a !! b
    ensures Total(a + b) == Total(a) + Total(b)
  {
    if c :| c in a {
      TotalRemove(a, c);
      TotalRemove(a + b, c);
      assert a + b - {c} == (a - {c}) + b;
      TotalDisjoint(a - {c}, b);
    } else {
      assert a + b == b;
    }
  }

  function AtLeastZero(x: real): real {
    if x < 0.0 then 0.0 else x
  }

  // ---------- the specification ----------

  ghost function Both(rows: set<Row>, v: View, b: Bucket): set<Credit> {
    if v.includeAgency then Side(rows, v, false, b) + Side(rows, v, true, b) else {}
  }

  ghost function IdsIn(rows: set<Row>, b: Bucket): set<Id> {
    set c | c in Counted(rows) && BucketFor(c.status) == b :: c.id
  }

  ghost function CountOf(rows: set<Row>, b: Bucket): nat {
    |IdsIn(rows, b)|
  }

  ghost predicate LatestIs(credits: set<Credit>, at: Option<Time>) {
    match at
    case None => credits == {}
    case Some(t) => (exists c :: c in credits && c.createdAt == t) && (forall c :: c in credits ==> c.createdAt <= t)
  }

  // `rows` is the set of eligible rows.
  ghost predicate IsRollup(rows: set<Row>, v: View, r: Rollup) {
    && r.personalPc == AtLeastZero(Total(Side(rows, v, false, InConfirmed)))
    && r.agencyPc == AtLeastZero(Total(Both(rows, v, InConfirmed)))
    && r.estimatedPersonalPc == AtLeastZero(Total(Side(rows, v, false, InEstimated)))
    && r.estimatedAgencyPc == AtLeastZero(Total(Both(rows, v, InEstimated)))
    && r.pendingPersonalPc == AtLeastZero(Total(Side(rows, v, false, InPending)))
    && r.pendingAgencyPc == AtLeastZero(Total(Both(rows, v, InPending)))
    && r.confirmedCreditCount == CountOf(rows, InConfirmed)
    && r.estimatedCreditCount == CountOf(rows, InEstimated)
    && r.pendingCreditCount == CountOf(rows, InPending)
    && r.hasPromotionData == (Counted(rows) != {})
    && LatestIs(Counted(rows), r.lastCreditAt)
  }

  // ---------- maps by credit id ----------

  ghost predicate Represents(m: map<Id, real>, credits: set<Credit>) {
    && (forall c :: c in credits ==> c.id in m && m[c.id] == c.creditedPc)
    && (forall id :: id in m ==> exists c :: c in credits && c.id == id)
    && (forall c, d :: c in credits && d in credits && c.id == d.id ==> c == d)
  }

  function SumMap(m: map<Id, real>): real
    decreases m.Keys
  {
    var id := First(m.Keys);
    if id.None? then 0.0 else m[id.value] + SumMap(m - {id.value})
  }

  lemma {:induction false} SumMapIsTotal(m: map<Id, real>, credits: set<Credit>)
    requires Represents(m, credits)
    ensures SumMap(m) == Total(credits)
    decreases m.Keys
  {
    var id := First(m.Keys);
    if id.Some? {
      var c :| c in credits && c.id == id.value;
      TotalRemove(credits, c);
      SumMapIsTotal(m - {c.id}, credits - {c});
    } else {
      assert forall c :: c in credits ==> c.id in m.Keys;
      assert credits == {};
    }
  }

  method SumUniqueCredits(m: map<Id, real>) returns (sum: real)
    ensures sum == AtLeastZero(SumMap(m))
  {
    var total, rest := 0.0, m;
    while rest != map[]
      invariant total + SumMap(rest) == SumMap(m)
      decreases rest.Keys
    {
      assert rest.Keys != {};
      var id := First(rest.Keys);
      total, rest := total + rest[id.value], rest - {id.value};
    }
    sum := AtLeastZero(total);
  }

  lemma RepresentsMerge(m: map<Id, real>, n: map<Id, real>, a: set<Credit>, b: set<Credit>)
    requires Represents(m, a) && Represents(n, b) && forall c, d :: c in a && d in b && c.id == d.id ==> c == d
    ensures Represents(m + n, a + b)
  {
  }

  // ---------- the loops ----------

  function RowSet(rows: seq<Row>): set<Row> {
    set r | r in rows
  }

  lemma RowSetAppend(rows: seq<Row>, i: int)
    requires 0 <= i < |rows|
    ensures RowSet(rows[..i + 1]) == RowSet(rows[..i]) + {rows[i]}
  {
  }

  method SelectEligible(rows: seq<Row>, v: View) returns (eligible: seq<Row>)
    ensures RowSet(eligible) == EligibleSet(rows, v)
  {
    eligible := [];
    for i := 0 to |rows|
      invariant RowSet(eligible) == EligibleSet(rows[..i], v)
    {
      assert rows[..i + 1] == rows[..i] + [rows[i]];
      if IsPersonal(rows[i], v) || IsTeam(rows[i], v) {
        assert RowSet(eligible + [rows[i]]) == RowSet(eligible) + {rows[i]};
        eligible := eligible + [rows[i]];
      }
    }
    assert rows[..|rows|] == rows;
  }

  method RecognizedKeys(eligible: seq<Row>) returns (keys: set<string>)
    ensures forall k :: k in keys <==> KeyRecognized(RowSet(eligible), k)
  {
    keys := {};
    for i := 0 to |eligible|
      invariant forall k :: k in keys <==> KeyRecognized(RowSet(eligible[..i]), k)
    {
      RowSetAppend(eligible, i);
      var key := PolicyKey(eligible[i].credit);
      if key.Some? && Recognized(eligible[i].credit.status) {
        keys := keys + {key.value};
      }
    }
    assert eligible[..|eligible|] == eligible;
  }

  // ---------- newest observations ----------

  type Observations = map<(string, Bucket), Credit>

  predicate Uncertain(c: Credit, keys: set<string>) {
    !Recognized(c.status) && PolicyKey(c).Some? && PolicyKey(c).value !in keys
  }

  function ObservationOf(c: Credit): (string, Bucket)
    requires PolicyKey(c).Some?
  {
    (PolicyKey(c).value, BucketFor(c.status))
  }

  // c has been seen: the newest of its observation is recorded, and is no older.
  ghost predicate Seen(c: Credit, keys: set<string>, latest: Observations) {
    Uncertain(c, keys) ==> ObservationOf(c) in latest && !Newer(c, latest[ObservationOf(c)])
  }

  ghost predicate ComesFrom(rows: set<Row>, keys: set<string>, latest: Observations, o: (string, Bucket))
    requires o in latest
  {
    exists r :: r in rows && r.credit == latest[o] && Uncertain(r.credit, keys) && ObservationOf(r.credit) == o
  }

  ghost predicate IsLatestMap(rows: set<Row>, keys: set<string>, latest: Observations) {
    && (forall r :: r in rows ==> Seen(r.credit, keys, latest))
    && (forall o :: o in latest ==> ComesFrom(rows, keys, latest, o))
  }

  lemma LatestGrows(rows: set<Row>, keys: set<string>, latest: Observations, row: Row, next: Observations)
    requires IsLatestMap(rows, keys, latest)
    requires next == if Uncertain(row.credit, keys)
        && (ObservationOf(row.credit) !in latest || Newer(row.credit, latest[ObservationOf(row.credit)]))
                     then latest[ObservationOf(row.credit) := row.credit] else latest
    ensures IsLatestMap(rows + {row}, keys, next)
  {
  }

  method LatestObservations(eligible: seq<Row>, keys: set<string>) returns (latest: Observations)
    ensures IsLatestMap(RowSet(eligible), keys, latest)
  {
    latest := map[];
    for i := 0 to |eligible|
      invariant IsLatestMap(RowSet(eligible[..i]), keys, latest)
    {
      var credit := eligible[i].credit;
      RowSetAppend(eligible, i);
      ghost var before := latest;
      if Uncertain(credit, keys) {
        var o := ObservationOf(credit);
        if o !in latest || Newer(credit, latest[o]) {
          latest := latest[o := credit];
        }
      }
      LatestGrows(RowSet(eligible[..i]), keys, before, eligible[i], latest);
    }
    assert eligible[..|eligible|] == eligible;
  }

  // The test of the last loop.
  predicate Passes(c: Credit, keys: set<string>, latest: Observations) {
    || Recognized(c.status)
    || PolicyKey(c).None?
    || (PolicyKey(c).value !in keys && ObservationOf(c) in latest && latest[ObservationOf(c)].id == c.id)
  }

  // ---------- the totals ----------

  type Ledger = map<(bool, Bucket), map<Id, real>>

  // The credits the last loop has placed on one side in one bucket.
  ghost function Placed(rows: set<Row>, v: View, keys: set<string>, latest: Observations, team: bool,
                        b: Bucket): set<Credit> {
    set r | r in rows && OnSide(r, v, team) && Passes(r.credit, keys, latest) && BucketFor(r.credit.status) == b ::
      r.credit
  }

  ghost predicate IsFilled(rows: set<Row>, v: View, keys: set<string>, latest: Observations, ledger: Ledger) {
    forall team, b :: (team, b) in ledger && Represents(ledger[(team, b)], Placed(rows, v, keys, latest, team, b))
  }

  ghost predicate IsAll(rows: set<Row>, keys: set<string>, latest: Observations, all: map<Id, Credit>) {
    && (forall r :: r in rows && Passes(r.credit, keys, latest) ==> r.credit.id in all && all[r.credit.id] == r.credit)
    && (forall id :: id in all ==>
      all[id].id == id && exists r :: r in rows && Passes(r.credit, keys, latest) && r.credit == all[id])
  }

  lemma AllGrows(rows: set<Row>, keys: set<string>, latest: Observations, all: map<Id, Credit>, row: Row)
    requires OneCreditPerId(rows + {row}) && IsAll(rows, keys, latest, all)
    ensures IsAll(rows + {row}, keys, latest,
        if Passes(row.credit, keys, latest) then all[row.credit.id := row.credit] else all)
  {
  }

  const EMPTY_LEDGER: Ledger := map[
    (false, InConfirmed) := map[], (false, InEstimated) := map[], (false, InPending) := map[],
    (true, InConfirmed) := map[], (true, InEstimated) := map[], (true, InPending) := map[]]

  lemma EmptyIsFilled(v: View, keys: set<string>, latest: Observations)
    ensures IsFilled({}, v, keys, latest, EMPTY_LEDGER)
  {
    forall team, b: Bucket
      ensures (team, b) in EMPTY_LEDGER && EMPTY_LEDGER[(team, b)] == map[]
    {
      match b {
        case InConfirmed =>
        case InEstimated =>
        case InPending =>
      }
    }
  }

  // `personal[bucket].set(...)` or `team[bucket].set(...)`
  method PlaceRow(ledger: Ledger, row: Row, v: View, ghost rows: set<Row>, keys: set<string>, latest: Observations)
    returns (next: Ledger)
    requires OneCreditPerId(rows + {row}) && IsFilled(rows, v, keys, latest, ledger)
    ensures IsFilled(rows + {row}, v, keys, latest, next)
  {
    var credit, bucket := row.credit, BucketFor(row.credit.status);
    next := ledger;
    if Passes(credit, keys, latest) {
      if IsPersonal(row, v) {
        next := ledger[(false, bucket) := ledger[(false, bucket)][credit.id := credit.creditedPc]];
      } else if IsTeam(row, v) {
        next := ledger[(true, bucket) := ledger[(true, bucket)][credit.id := credit.creditedPc]];
      }
    }
    forall team, b
      ensures (team, b) in next && Represents(next[(team, b)], Placed(rows + {row}, v, keys, latest, team, b))
    {
    }
  }

  method FillMaps(eligible: seq<Row>, v: View, keys: set<string>, latest: Observations)
    returns (ledger: Ledger, allCredits: map<Id, Credit>)
    requires OneCreditPerId(RowSet(eligible))
    ensures IsFilled(RowSet(eligible), v, keys, latest, ledger) && IsAll(RowSet(eligible), keys, latest, allCredits)
  {
    ledger, allCredits := EMPTY_LEDGER, map[];
    EmptyIsFilled(v, keys, latest);
    for i := 0 to |eligible|
      invariant IsFilled(RowSet(eligible[..i]), v, keys, latest, ledger)
      invariant IsAll(RowSet(eligible[..i]), keys, latest, allCredits)
    {
      var credit := eligible[i].credit;
      RowSetAppend(eligible, i);
      AllGrows(RowSet(eligible[..i]), keys, latest, allCredits, eligible[i]);
      ledger := PlaceRow(ledger, eligible[i], v, RowSet(eligible[..i]), keys, latest);
      if Passes(credit, keys, latest) {
        allCredits := allCredits[credit.id := credit];
      }
    }
    assert eligible[..|eligible|] == eligible;
  }

  ghost predicate LatestAmong(credits: map<Id, Credit>, ids: set<Id>, at: Option<Time>)
    requires ids <= credits.Keys
  {
    match at
    case None => ids == {}
    case Some(t) =>
      && (exists id :: id in ids && credits[id].createdAt == t)
      && (forall id :: id in ids ==> credits[id].createdAt <= t)
  }

  method LastCreditAt(allCredits: map<Id, Credit>) returns (at: Option<Time>)
    ensures LatestAmong(allCredits, allCredits.Keys, at)
  {
    at := None;
    var rest := allCredits.Keys;
    while rest != {}
      invariant rest <= allCredits.Keys
      invariant LatestAmong(allCredits, allCredits.Keys - rest, at)
      decreases rest
    {
      var next := First(rest);
      var id := next.value;
      var createdAt := allCredits[id].createdAt;
      assert id in allCredits.Keys - (rest - {id});
      if at.None? || createdAt > at.value {
        at := Some(createdAt);
      }
      rest := rest - {id};
    }
    assert allCredits.Keys - rest == allCredits.Keys;
  }

  // ---------- the fold ----------

  lemma PlacedIsSide(rows: set<Row>, v: View, keys: set<string>, latest: Observations, team: bool, b: Bucket)
    requires OneCreditPerId(rows) && IsLatestMap(rows, keys, latest)
    requires forall k :: k in keys <==> KeyRecognized(rows, k)
    ensures Placed(rows, v, keys, latest, team, b) == Side(rows, v, team, b)
  {
  }

  method Totals(ghost rows: set<Row>, v: View, personal: map<Id, real>, team: map<Id, real>, ghost b: Bucket)
    returns (own: real, agency: real)
    requires OneCreditPerId(rows) && Represents(personal, Side(rows, v, false, b))
    requires Represents(team, Side(rows, v, true, b))
    ensures own == AtLeastZero(Total(Side(rows, v, false, b))) && agency == AtLeastZero(Total(Both(rows, v, b)))
  {
    own := SumUniqueCredits(personal);
    SumMapIsTotal(personal, Side(rows, v, false, b));
    if v.includeAgency {
      RepresentsMerge(personal, team, Side(rows, v, false, b), Side(rows, v, true, b));
      agency := SumUniqueCredits(personal + team);
      SumMapIsTotal(personal + team, Both(rows, v, b));
    } else {
      agency := SumUniqueCredits(map[]);
      SumMapIsTotal(map[], {});
    }
  }

  lemma CountedIds(rows: set<Row>, all: map<Id, Credit>, b: Bucket)
    requires forall c :: c in Counted(rows) <==> c.id in all && all[c.id] == c
    requires forall id :: id in all ==> all[id].id == id
    ensures (set id | id in all && BucketFor(all[id].status) == b) == IdsIn(rows, b)
  {
    forall id | id in all && BucketFor(all[id].status) == b
      ensures id in IdsIn(rows, b)
    {
      assert all[id] in Counted(rows);
    }
  }

  // What the loops hand to the totals.
  ghost predicate Gathered(rows: set<Row>, v: View, ledger: Ledger, all: map<Id, Credit>) {
    && (forall team, b :: (team, b) in ledger && Represents(ledger[(team, b)], Side(rows, v, team, b)))
    && (forall c :: c in Counted(rows) <==> c.id in all && all[c.id] == c)
    && (forall id :: id in all ==> all[id].id == id)
  }

  lemma FilledIsGathered(rows: set<Row>, v: View, keys: set<string>, latest: Observations, ledger: Ledger, all: map<Id,
                         Credit>)
    requires OneCreditPerId(rows) && IsLatestMap(rows, keys, latest)
    requires (forall k :: k in keys <==> KeyRecognized(rows, k))
    requires IsFilled(rows, v, keys, latest, ledger) && IsAll(rows, keys, latest, all)
    ensures Gathered(rows, v, ledger, all)
  {
    forall team, b
      ensures (team, b) in ledger && Represents(ledger[(team, b)], Side(rows, v, team, b))
    {
      PlacedIsSide(rows, v, keys, latest, team, b);
    }
  }

  method Gather(rows: seq<Row>, v: View) returns (ledger: Ledger, allCredits: map<Id, Credit>)
    requires OneCreditPerId(RowSet(rows))
    ensures Gathered(EligibleSet(rows, v), v, ledger, allCredits)
  {
    var eligible := SelectEligible(rows, v);
    var keys := RecognizedKeys(eligible);
    var latest := LatestObservations(eligible, keys);
    ledger, allCredits := FillMaps(eligible, v, keys, latest);
    FilledIsGathered(RowSet(eligible), v, keys, latest, ledger, allCredits);
  }

  method CountBucket(ghost rows: set<Row>, allCredits: map<Id, Credit>, b: Bucket) returns (count: nat)
    requires forall c :: c in Counted(rows) <==> c.id in allCredits && allCredits[c.id] == c
    requires forall id :: id in allCredits ==> allCredits[id].id == id
    ensures count == CountOf(rows, b)
  {
    CountedIds(rows, allCredits, b);
    count := |set id | id in allCredits && BucketFor(allCredits[id].status) == b|;
  }

  method RollupPromotionCredits(rows: seq<Row>, v: View) returns (r: Rollup)
    requires OneCreditPerId(RowSet(rows))
    ensures IsRollup(EligibleSet(rows, v), v, r)
  {
    var ledger, allCredits := Gather(rows, v);
    ghost var kept := EligibleSet(rows, v);
    var personalPc, agencyPc := Totals(kept, v, ledger[(false, InConfirmed)], ledger[(true, InConfirmed)], InConfirmed);
    var estimatedPersonalPc, estimatedAgencyPc :=
      Totals(kept, v, ledger[(false, InEstimated)], ledger[(true, InEstimated)], InEstimated);
    var pendingPersonalPc, pendingAgencyPc :=
      Totals(kept, v, ledger[(false, InPending)], ledger[(true, InPending)], InPending);
    var confirmed := CountBucket(kept, allCredits, InConfirmed);
    var estimated := CountBucket(kept, allCredits, InEstimated);
    var pending := CountBucket(kept, allCredits, InPending);
    var lastCreditAt := LastCreditAt(allCredits);
    r := Rollup(personalPc, agencyPc, estimatedPersonalPc, estimatedAgencyPc, pendingPersonalPc, pendingAgencyPc,
                confirmed, estimated, pending, |allCredits| > 0, lastCreditAt);
  }

  // ---------- what the totals mean ----------

  lemma LatestIsUnique(credits: set<Credit>, a: Option<Time>, b: Option<Time>)
    requires LatestIs(credits, a) && LatestIs(credits, b)
    ensures a == b
  {
  }

  // The specification leaves nothing open.
  lemma RollupIsUnique(rows: set<Row>, v: View, r: Rollup, s: Rollup)
    requires IsRollup(rows, v, r) && IsRollup(rows, v, s)
    ensures r == s
  {
    LatestIsUnique(Counted(rows), r.lastCreditAt, s.lastCreditAt);
  }

  // Neither the order of the fetched rows nor their repetition matters.
  lemma OrderAndRepetitionDoNotMatter(a: seq<Row>, b: seq<Row>, v: View, r: Rollup, s: Rollup)
    requires forall row :: row in a <==> row in b
    requires IsRollup(EligibleSet(a, v), v, r) && IsRollup(EligibleSet(b, v), v, s)
    ensures r == s
  {
    assert EligibleSet(a, v) == EligibleSet(b, v);
    RollupIsUnique(EligibleSet(a, v), v, r, s);
  }

  // At most one uncertain credit per policy and bucket counts, and none once the
  // policy has a recognized credit.
  lemma OneUncertainPerPolicy(rows: set<Row>, r: Row, s: Row)
    requires r in rows && s in rows && Counts(rows, r.credit) && Counts(rows, s.credit)
    requires SameObservation(r.credit, s.credit)
    ensures r.credit.id == s.credit.id
    ensures !KeyRecognized(rows, PolicyKey(r.credit).value)
  {
  }

  function NewerObservations(rows: set<Row>, c: Credit): set<Row> {
    set s | s in rows && SameObservation(s.credit, c) && Newer(s.credit, c)
  }

  // Every policy that was observed but not recognized keeps one observation.
  lemma {:induction false} NewestObservationCounts(rows: set<Row>, r: Row)
    requires r in rows && !Recognized(r.credit.status) && PolicyKey(r.credit).Some?
    requires !KeyRecognized(rows, PolicyKey(r.credit).value)
    ensures exists s ::
        s in rows && (s.credit == r.credit || SameObservation(s.credit, r.credit)) && Counts(rows, s.credit)
    decreases NewerObservations(rows, r.credit)
  {
    if Superseded(rows, r.credit) {
      var s :| s in rows && SameObservation(s.credit, r.credit) && Newer(s.credit, r.credit);
      assert s in NewerObservations(rows, r.credit) && s !in NewerObservations(rows, s.credit);
      assert NewerObservations(rows, s.credit) <= NewerObservations(rows, r.credit);
      NewestObservationCounts(rows, s);
    }
  }

  // And it is the one made last, the larger id at a tie.
  lemma CountedIsNewest(rows: set<Row>, r: Row, s: Row)
    requires r in rows && s in rows && Counts(rows, r.credit) && SameObservation(s.credit, r.credit)
    ensures s.credit.createdAt <= r.credit.createdAt
    ensures s.credit.createdAt == r.credit.createdAt ==> s.credit.id <= r.credit.id
  {
  }

  lemma CountedIdsSplit(rows: set<Row>)
    ensures (set c | c in Counted(rows) :: c.id) == IdsIn(rows, InConfirmed) + IdsIn(rows, InEstimated)
        + IdsIn(rows, InPending)
  {
  }

  // The three counts partition the counted credits.
  lemma CountsPartition(rows: set<Row>)
    requires OneCreditPerId(rows)
    ensures CountOf(rows, InConfirmed) + CountOf(rows, InEstimated) + CountOf(rows, InPending)
        == |set c | c in Counted(rows) :: c.id|
  {
    CountedIdsSplit(rows);
    assert IdsIn(rows, InConfirmed) + IdsIn(rows, InEstimated) !! IdsIn(rows, InPending);
  }

  // Every attribution of a credit names the credit's producer (see PromotionCredits).
  ghost predicate Frozen(rows: set<Row>) {
    forall r :: r in rows ==> r.agentId == r.credit.producerAgentId
  }

  // With frozen attributions no event is both personal and team production, so the
  // agency total is the sum of the two.
  lemma AgencyTotalIsSum(rows: set<Row>, v: View, b: Bucket)
    requires Frozen(rows) && v.includeAgency
    ensures Total(Both(rows, v, b)) == Total(Side(rows, v, false, b)) + Total(Side(rows, v, true, b))
  {
    TotalDisjoint(Side(rows, v, false, b), Side(rows, v, true, b));
  }

  // ---------- query predicates ----------

  datatype Filter = PersonalRows(agentId: Id) | AgencyRows(leaderAgentId: Id, producers: Option<set<Id>>)

  // `getPromotionAttributionPredicates`: the alternatives of the snapshot's query.
  function AttributionPredicates(v: View): seq<Filter> {
    [PersonalRows(v.agentId)] + (if v.includeAgency then [AgencyRows(v.agentId, v.producers)] else [])
  }

  predicate Matches(row: Row, f: Filter) {
    match f
    case PersonalRows(g) => row.kind == Personal && row.agentId == g
    case AgencyRows(g, producers) =>
      row.kind == Agency && row.leaderAgentId == Some(g)
        && (producers.None? || row.credit.producerAgentId in producers.value)
  }

  predicate Fetched(row: Row, filters: seq<Filter>) {
    exists i :: 0 <= i < |filters| && Matches(row, filters[i])
  }

  lemma FetchedIs(row: Row, v: View)
    ensures Fetched(row, AttributionPredicates(v)) <==>
      || Matches(row, PersonalRows(v.agentId))
      || (v.includeAgency && Matches(row, AgencyRows(v.agentId, v.producers)))
  {
    var filters := AttributionPredicates(v);
    assert filters[0] == PersonalRows(v.agentId);
    assert v.includeAgency ==> filters[1] == AgencyRows(v.agentId, v.producers);
  }

  // Folding only the fetched rows equals folding the whole ledger.
  lemma PushdownIsExact(all: seq<Row>, fetched: seq<Row>, v: View)
    requires forall row :: row in fetched <==> row in all && Fetched(row, AttributionPredicates(v))
    ensures EligibleSet(fetched, v) == EligibleSet(all, v)
  {
    forall row {
      FetchedIs(row, v);
    }
  }

  // Without the entitlement no AGENCY row reaches any figure.
  lemma NoEntitlementNoAgency(all: seq<Row>, personal: seq<Row>, v: View)
    requires !v.includeAgency && forall row :: row in personal <==> row in all && row.kind == Personal
    ensures EligibleSet(personal, v) == EligibleSet(all, v)
    ensures forall r :: IsRollup(EligibleSet(all, v), v, r) ==>
        r.agencyPc == 0.0 && r.estimatedAgencyPc == 0.0 && r.pendingAgencyPc == 0.0
  {
  }
}