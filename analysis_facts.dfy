/** Properties of the aggregation engine: what the window selects, how the
    per-stage counts relate to a campaign's total, determinism, and the
    effect of narrowing the window. */
module AnalysisFacts {
  import opened Dicts
  import opened Analysis
  import opened Dates

  // ---------------------------------------------------------------------
  // The window

  /** `from` is not after `to` when both are given: bounds of a timestamp
      window in order. */
  predicate Ordered(w: Window)
  {
    !(w.from.Some? && w.to.Some? && w.from.value > w.to.value)
  }

  /** A timestamp window selects some timestamp exactly when its bounds are
      in order. */
  lemma OrderedIffNonEmpty(w: Window)
    ensures Ordered(w) <==> exists t :: InWindow(t, w)
  {
    if Ordered(w) {
      var t := if w.from.Some? then w.from.value else if w.to.Some? then w.to.value else 0;
      assert InWindow(t, w);
    }
  }

  /** The wizard's date constraint on calendar days: 'From Date' may not lie
      after 'To Date'. */
  predicate DatesAccepted(from: Option<int>, to: Option<int>)
  {
    !(from.Some? && to.Some? && from.value > to.value)
  }

  /** The constraint accepts exactly the day ranges whose whole-day window
      is in order, which are exactly those that select some timestamp. */
  lemma DaysAcceptedIffNonEmpty(from: Option<int>, to: Option<int>)
    ensures DatesAccepted(from, to) <==> Ordered(ExportWindow(from, to))
    ensures DatesAccepted(from, to) <==> exists t :: InWindow(t, ExportWindow(from, to))
  {
    if DatesAccepted(from, to) {
      var t := if from.Some? then StartOf(Day(from.value)) else if to.Some? then EndOf(Day(to.value)) else 0;
      DayWindowSelects(if from.Some? then Some(Day(from.value)) else None,
                       if to.Some? then Some(Day(to.value)) else None, t);
      assert InWindow(t, ExportWindow(from, to));
    } else {
      forall t ensures !InWindow(t, ExportWindow(from, to)) {
        DayWindowSelects(Some(Day(from.value)), Some(Day(to.value)), t);
      }
    }
    OrderedIffNonEmpty(ExportWindow(from, to));
  }

  /** An inverted window selects no lead, so no campaign reaches the result. */
  lemma {:induction false} InvertedWindowIsEmpty(r: AnalysisResult, campaignReg: seq<Entry>, stageReg: seq<Entry>,
                                                 leads: seq<Lead>, w: Window)
    requires IsAnalysis(r, campaignReg, stageReg, leads, w)
    requires !Ordered(w)
    ensures r.campaigns.keys == [] && r.campaigns.entries == map[]
  {
    forall c ensures c !in TotalsQuery(leads, w) {
      NothingSelected(leads, w, c);
    }
    assert TotalsQuery(leads, w) == map[];
    LiveOfNothing(campaignReg);
    assert forall k :: k in r.campaigns.entries <==> k in r.campaigns.keys;
  }

  lemma {:induction false} LiveOfNothing(reg: seq<Entry>)
    ensures Live(reg, map[]) == []
  {
    if reg != [] {
      LiveOfNothing(reg[..|reg| - 1]);
    }
  }

  lemma {:induction false} NothingSelected(leads: seq<Lead>, w: Window, c: int)
    requires !Ordered(w)
    ensures CountCampaign(leads, w, c) == 0
  {
    if leads != [] {
      NothingSelected(leads[1..], w, c);
    }
  }

  /** `inner` lies inside `outer`: each bound of `outer` is absent or no
      tighter than the same bound of `inner`. */
  predicate Narrows(inner: Window, outer: Window)
  {
    && (outer.from.None? || (inner.from.Some? && inner.from.value >= outer.from.value))
    && (outer.to.None? || (inner.to.Some? && inner.to.value <= outer.to.value))
  }

  lemma NarrowsSelects(inner: Window, outer: Window, t: int)
    requires Narrows(inner, outer) && InWindow(t, inner)
    ensures InWindow(t, outer)
  {
  }

  /** Raising `date_from` or lowering `date_to` never raises a total. */
  lemma {:induction false} CampaignCountMonotone(leads: seq<Lead>, inner: Window, outer: Window, c: int)
    requires Narrows(inner, outer)
    ensures CountCampaign(leads, inner, c) <= CountCampaign(leads, outer, c)
  {
    if leads != [] {
      if Selected(leads[0], inner) {
        NarrowsSelects(inner, outer, leads[0].created);
      }
      CampaignCountMonotone(leads[1..], inner, outer, c);
    }
  }

  /** ... nor any (campaign, stage) count. */
  lemma {:induction false} GroupCountMonotone(leads: seq<Lead>, inner: Window, outer: Window, c: int, s: Option<int>)
    requires Narrows(inner, outer)
    ensures CountGroup(leads, inner, c, s) <= CountGroup(leads, outer, c, s)
  {
    if leads != [] {
      if Selected(leads[0], inner) {
        NarrowsSelects(inner, outer, leads[0].created);
      }
      GroupCountMonotone(leads[1..], inner, outer, c, s);
    }
  }

  /** Narrowing the window, on the same lead store and registries: every
      campaign still in the result was in the wider one, with no fewer
      leads in total and no fewer in any stage. */
  lemma NarrowerWindowNeverGrows(r: AnalysisResult, wide: AnalysisResult, campaignReg: seq<Entry>,
                                 stageReg: seq<Entry>, leads: seq<Lead>, inner: Window, outer: Window)
    requires IsAnalysis(r, campaignReg, stageReg, leads, inner)
    requires IsAnalysis(wide, campaignReg, stageReg, leads, outer)
    requires Narrows(inner, outer)
    ensures forall c :: c in r.campaigns.entries ==>
              && c in wide.campaigns.entries
              && r.campaigns.entries[c].totalLeads <= wide.campaigns.entries[c].totalLeads
              && (forall s :: s in r.campaigns.entries[c].stages ==>
                    && s in wide.campaigns.entries[c].stages
                    && r.campaigns.entries[c].stages[s].leadCount <= wide.campaigns.entries[c].stages[s].leadCount)
  {
    LiveMembers(campaignReg, TotalsQuery(leads, inner));
    LiveMembers(campaignReg, TotalsQuery(leads, outer));
    forall c | c in r.campaigns.entries
      ensures c in wide.campaigns.entries
      ensures r.campaigns.entries[c].totalLeads <= wide.campaigns.entries[c].totalLeads
      ensures forall s :: s in r.campaigns.entries[c].stages ==>
                && s in wide.campaigns.entries[c].stages
                && r.campaigns.entries[c].stages[s].leadCount <= wide.campaigns.entries[c].stages[s].leadCount
    {
      assert c in r.campaigns.keys;
      var i :| 0 <= i < |campaignReg| && Ids(campaignReg)[i] == c;
      CampaignCountMonotone(leads, inner, outer, c);
      assert c in wide.campaigns.keys;
      forall s | s in r.campaigns.entries[c].stages
        ensures s in wide.campaigns.entries[c].stages
        ensures r.campaigns.entries[c].stages[s].leadCount <= wide.campaigns.entries[c].stages[s].leadCount
      {
        GroupCountMonotone(leads, inner, outer, c, Some(s));
      }
    }
  }

  // ---------------------------------------------------------------------
  // Per-stage counts against the campaign total

  /** A selected lead of campaign `c` whose stage is null or not among `ids`:
      it counts toward the total but gets no breakdown entry. */
  predicate Unlisted(l: Lead, w: Window, c: int, ids: seq<int>)
  {
    Selected(l, w) && l.campaign.value == c && (l.stage.None? || l.stage.value !in ids)
  }

  function CountUnlisted(leads: seq<Lead>, w: Window, c: int, ids: seq<int>): nat
  {
    if leads == [] then 0
    else (if Unlisted(leads[0], w, c, ids) then 1 else 0) + CountUnlisted(leads[1..], w, c, ids)
  }

  /** Sum of the per-stage counts of campaign `c` over the stages `ids`. */
  function SumGroups(leads: seq<Lead>, w: Window, c: int, ids: seq<int>): nat
  {
    if ids == [] then 0 else CountGroup(leads, w, c, Some(ids[0])) + SumGroups(leads, w, c, ids[1..])
  }

  lemma {:induction false} CountUnlistedZero(leads: seq<Lead>, w: Window, c: int, ids: seq<int>)
    ensures CountUnlisted(leads, w, c, ids) == 0 <==> forall i :: 0 <= i < |leads| ==> !Unlisted(leads[i], w, c, ids)
  {
    if leads != [] {
      CountUnlistedZero(leads[1..], w, c, ids);
      assert forall i :: 1 <= i < |leads| ==> leads[i] == leads[1..][i - 1];
    }
  }

  lemma {:induction false} UnlistedAll(leads: seq<Lead>, w: Window, c: int)
    ensures CountUnlisted(leads, w, c, []) == CountCampaign(leads, w, c)
  {
    if leads != [] {
      UnlistedAll(leads[1..], w, c);
    }
  }

  /** Listing one more stage moves its count out of the unlisted leads. */
  lemma {:induction false} UnlistedSplit(leads: seq<Lead>, w: Window, c: int, s: int, ids: seq<int>)
    requires s !in ids
    ensures CountUnlisted(leads, w, c, ids) == CountUnlisted(leads, w, c, [s] + ids) + CountGroup(leads, w, c, Some(s))
  {
    if leads != [] {
      UnlistedSplit(leads[1..], w, c, s, ids);
    }
  }

  /** A campaign's total splits into its per-stage counts over distinct
      stages `ids` and the leads whose stage is null or not listed. */
  lemma {:induction false} StagePartition(leads: seq<Lead>, w: Window, c: int, ids: seq<int>)
    requires forall i, j :: 0 <= i < j < |ids| ==> ids[i] != ids[j]
    ensures SumGroups(leads, w, c, ids) + CountUnlisted(leads, w, c, ids) == CountCampaign(leads, w, c)
  {
    if ids == [] {
      UnlistedAll(leads, w, c);
    } else {
      StagePartition(leads, w, c, ids[1..]);
      assert ids == [ids[0]] + ids[1..];
      UnlistedSplit(leads, w, c, ids[0], ids[1..]);
    }
  }

  lemma {:induction false} GroupWithinCampaign(leads: seq<Lead>, w: Window, c: int, s: Option<int>)
    ensures CountGroup(leads, w, c, s) <= CountCampaign(leads, w, c)
  {
    if leads != [] {
      GroupWithinCampaign(leads[1..], w, c, s);
    }
  }

  /** Sum of the `lead_count`s in a campaign's breakdown over the stages
      `ids`, a missing entry counting 0. */
  function SumLeadCounts(sm: Summary, ids: seq<int>): nat
  {
    if ids == [] then 0
    else (if ids[0] in sm.stages then sm.stages[ids[0]].leadCount else 0) + SumLeadCounts(sm, ids[1..])
  }

  lemma {:induction false} SumLeadCountsIsSumGroups(sm: Summary, e: Entry, stageReg: seq<Entry>, leads: seq<Lead>,
                                                    w: Window, ids: seq<int>)
    requires Summarizes(sm, e, stageReg, leads, w)
    requires forall s :: s in ids ==> s in Ids(stageReg)
    ensures SumLeadCounts(sm, ids) == SumGroups(leads, w, e.id, ids)
  {
    if ids != [] {
      SumLeadCountsIsSumGroups(sm, e, stageReg, leads, w, ids[1..]);
      var s := ids[0];
      assert s in Ids(stageReg);
      if s in sm.stages {
        assert sm.stages[s].leadCount == CountGroup(leads, w, e.id, Some(s));
      } else {
        assert CountGroup(leads, w, e.id, Some(s)) == 0;
      }
    }
  }

  /** For a campaign in the result, the `lead_count`s over the stage
      registry add up to at most `total_leads`, exactly when no selected
      lead of it has a null or unregistered stage. */
  lemma BreakdownWithinTotal(sm: Summary, e: Entry, stageReg: seq<Entry>, leads: seq<Lead>, w: Window)
    requires UniqueIds(stageReg)
    requires Summarizes(sm, e, stageReg, leads, w)
    ensures SumLeadCounts(sm, Ids(stageReg)) + CountUnlisted(leads, w, e.id, Ids(stageReg)) == sm.totalLeads
    ensures SumLeadCounts(sm, Ids(stageReg)) <= sm.totalLeads
    ensures SumLeadCounts(sm, Ids(stageReg)) == sm.totalLeads <==>
              forall i :: 0 <= i < |leads| ==> !Unlisted(leads[i], w, e.id, Ids(stageReg))
  {
    SumLeadCountsIsSumGroups(sm, e, stageReg, leads, w, Ids(stageReg));
    StagePartition(leads, w, e.id, Ids(stageReg));
    CountUnlistedZero(leads, w, e.id, Ids(stageReg));
  }

  /** Every breakdown entry of a campaign in the result has a positive
      `lead_count` no larger than `total_leads`, and its percentage lies in
      (0, 100]. */
  lemma PercentagesInRange(sm: Summary, e: Entry, stageReg: seq<Entry>, leads: seq<Lead>, w: Window)
    requires Summarizes(sm, e, stageReg, leads, w)
    ensures forall s :: s in sm.stages ==>
              && 0 < sm.stages[s].leadCount <= sm.totalLeads
              && 0.0 < sm.stages[s].percentage <= 100.0
  {
    forall s | s in sm.stages
      ensures 0 < sm.stages[s].leadCount <= sm.totalLeads
      ensures 0.0 < sm.stages[s].percentage <= 100.0
    {
      GroupWithinCampaign(leads, w, e.id, Some(s));
      var n, t := sm.stages[s].leadCount, sm.totalLeads;
      assert sm.stages[s].percentage == Percentage(n, t);
      assert Percentage(n, t) * (t as real) == (n as real) * 100.0;
      assert Percentage(n, t) == (n as real) * 100.0 / (t as real);
    }
  }

  // ---------------------------------------------------------------------
  // Determinism

  lemma SummaryDetermined(a: Summary, b: Summary, e: Entry, stageReg: seq<Entry>, leads: seq<Lead>, w: Window)
    requires Summarizes(a, e, stageReg, leads, w) && Summarizes(b, e, stageReg, leads, w)
    ensures a == b
  {
    forall s ensures s in a.stages <==> s in b.stages {
      assert s in a.stages <==> s in Ids(stageReg) && CountGroup(leads, w, e.id, Some(s)) > 0;
    }
    forall s | s in a.stages ensures a.stages[s] == b.stages[s] {
      assert a.stages[s] == Breakdown(CountGroup(leads, w, e.id, Some(s)),
                                      Percentage(CountGroup(leads, w, e.id, Some(s)), a.totalLeads));
    }
    assert a.stages == b.stages;
  }

  /** The result depends on nothing but the registries, the lead store and
      the window: two runs on the same inputs return the same value. */
  lemma AnalysisDetermined(r1: AnalysisResult, r2: AnalysisResult, campaignReg: seq<Entry>, stageReg: seq<Entry>,
                           leads: seq<Lead>, w: Window)
    requires IsAnalysis(r1, campaignReg, stageReg, leads, w)
    requires IsAnalysis(r2, campaignReg, stageReg, leads, w)
    ensures r1 == r2
  {
    forall k | k in r1.stages.entries
      ensures k in r2.stages.entries && r1.stages.entries[k] == r2.stages.entries[k]
    {
      assert k in r1.stages.keys;
      var i :| 0 <= i < |stageReg| && Ids(stageReg)[i] == k;
    }
    forall k | k in r2.stages.entries ensures k in r1.stages.entries {
      assert k in r2.stages.keys;
    }
    assert r1.stages.entries == r2.stages.entries;
    LiveMembers(campaignReg, TotalsQuery(leads, w));
    forall c | c in r1.campaigns.entries
      ensures c in r2.campaigns.entries && r1.campaigns.entries[c] == r2.campaigns.entries[c]
    {
      assert c in r1.campaigns.keys;
      var i :| 0 <= i < |campaignReg| && Ids(campaignReg)[i] == c;
      assert c in r2.campaigns.keys;
      SummaryDetermined(r1.campaigns.entries[c], r2.campaigns.entries[c], campaignReg[i], stageReg, leads, w);
    }
    forall c | c in r2.campaigns.entries ensures c in r1.campaigns.entries {
      assert c in r2.campaigns.keys;
    }
    assert r1.campaigns.entries == r2.campaigns.entries;
  }
}
