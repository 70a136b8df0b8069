/** What appending one event to the ledger can do to an agent's rank. */
module PromotionProgress {
  import opened Wrappers
  import opened PromotionLedger
  import opened PromotionCredits
  import opened PromotionJourney

  function ModeOf(v: View): Mode {
    if v.includeAgency then AgencyMode else IndividualMode
  }

  // The attribution rows of one credit that is not in the ledger yet.
  ghost predicate RowsOfNew(rows: set<Row>, added: set<Row>, c: Credit) {
    && (forall r :: r in added ==> r.credit == c)
    && (forall r :: r in rows ==> r.credit.id != c.id)
  }

  ghost predicate Reaches(added: set<Row>, v: View, team: bool) {
    exists r :: r in added && OnSide(r, v, team)
  }

  lemma TotalGrows(before: set<Credit>, after: set<Credit>, c: Credit)
    requires c !in before && (after == before || after == before + {c})
    ensures Total(after) == Total(before) || Total(after) == Total(before) + c.creditedPc
  {
    if after == before + {c} {
      TotalRemove(after, c);
      assert after - {c} == before;
    }
  }

  // Neither confirmed total goes down, unless the new credit is a correction with a
  // negative amount.
  lemma TotalsOnlyGrow(rows: set<Row>, added: set<Row>, c: Credit, v: View)
    requires RowsOfNew(rows, added, c) && (c.creditedPc >= 0.0 || !Recognized(c.status))
    ensures Total(Side(rows + added, v, false, InConfirmed)) >= Total(Side(rows, v, false, InConfirmed))
    ensures Total(Both(rows + added, v, InConfirmed)) >= Total(Both(rows, v, InConfirmed))
  {
    TotalGrows(Side(rows, v, false, InConfirmed), Side(rows + added, v, false, InConfirmed), c);
    TotalGrows(Both(rows, v, InConfirmed), Both(rows + added, v, InConfirmed), c);
  }

  // Appending a validated event with a fresh id never lowers the current rank; only a
  // negative adjustment or a reversal can.
  lemma OnlyCorrectionsLowerTheRank(rows: set<Row>, added: set<Row>, c: Credit, supersedes: Option<string>, v: View,
                                    before: Rollup, after: Rollup)
    requires RowsOfNew(rows, added, c) && ValidateEvent(c.status, c.creditedPc, supersedes).Ok?
    requires IsRollup(rows, v, before) && IsRollup(rows + added, v, after)
    ensures
      || CurrentIndex(ModeOf(v), before.personalPc, before.agencyPc) <= CurrentIndex(ModeOf(v), after.personalPc,
        after.agencyPc)
      || ((c.status == Adjusted || c.status == Reversed) && c.creditedPc < 0.0)
  {
    if !((c.status == Adjusted || c.status == Reversed) && c.creditedPc < 0.0) {
      TotalsOnlyGrow(rows, added, c, v);
      MoreNeverHurts(ModeOf(v), ModeOf(v), before.personalPc, before.agencyPc, after.personalPc, after.agencyPc);
    }
  }
}
