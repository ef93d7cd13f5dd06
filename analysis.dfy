/** The aggregation engine: lead totals per campaign and lead counts per
    (campaign, stage) over an optional inclusive creation-date window,
    assembled into the campaign → stage breakdown that every report reads. */
module Analysis {
  import opened Dicts

  /** A CRM lead as the two aggregate queries see it; `created` is its
      creation timestamp. */
  datatype Lead = Lead(campaign: Option<int>, stage: Option<int>, created: int)

  /** The optional bounds `date_from` and `date_to`; `None` stands for a
      falsy argument, which adds no condition. */
  datatype Window = Window(from: Option<int>, to: Option<int>)

  /** A registry row `(id, name)` of `utm_campaign` or `crm_stage`. */
  datatype Entry = Entry(id: int, name: string)

  datatype Breakdown = Breakdown(leadCount: nat, percentage: real)

  /** One value of the result's `campaigns` dict. */
  datatype Summary = Summary(name: string, totalLeads: nat, stages: map<int, Breakdown>)

  /** `{'campaigns': ..., 'stages': ...}` */
  datatype AnalysisResult = AnalysisResult(campaigns: Dict<Summary>, stages: Dict<string>)
  {
    ghost predicate Valid()
    {
      campaigns.Valid() && stages.Valid()
    }
  }

  // ---------------------------------------------------------------------
  // The two GROUP BY queries

  /** The date condition: `create_date >= date_from` and `create_date <= date_to`,
      each only when its bound is given. */
  predicate InWindow(created: int, w: Window)
  {
    && (w.from.None? || created >= w.from.value)
    && (w.to.None? || created <= w.to.value)
  }

  /** The WHERE clause both queries share. */
  predicate Selected(l: Lead, w: Window)
  {
    l.campaign.Some? && InWindow(l.created, w)
  }

  /** `COUNT(l.id)` of the group `campaign_id = c`. */
  function CountCampaign(leads: seq<Lead>, w: Window, c: int): nat
  {
    if leads == [] then 0
    else
      (if Selected(leads[0], w) && leads[0].campaign.value == c then 1 else 0)
      + CountCampaign(leads[1..], w, c)
  }

  /** `COUNT(l.id)` of the group `(campaign_id, stage_id) = (c, s)`; `s` is
      `None` for the group of leads without a stage. */
  function CountGroup(leads: seq<Lead>, w: Window, c: int, s: Option<int>): nat
  {
    if leads == [] then 0
    else
      (if Selected(leads[0], w) && leads[0].campaign.value == c && leads[0].stage == s then 1 else 0)
      + CountGroup(leads[1..], w, c, s)
  }

  /** The totals query as the dict `totals_result`: one key per campaign
      that has a selected lead, holding that campaign's count. */
  function TotalsQuery(leads: seq<Lead>, w: Window): (totals: map<int, nat>)
    ensures forall c :: c in totals <==> CountCampaign(leads, w, c) > 0
    ensures forall c :: c in totals ==> totals[c] == CountCampaign(leads, w, c)
  {
    if leads == [] then map[]
    else
      var rest := TotalsQuery(leads[1..], w);
      if Selected(leads[0], w) then
        var c := leads[0].campaign.value;
        rest[c := (if c in rest then rest[c] else 0) + 1]
      else rest
  }

  /** The counts query: one row per non-empty (campaign, stage) group; the
      rows come back in no particular order, so they are kept as a map. */
  function CountsQuery(leads: seq<Lead>, w: Window): (counts: map<(int, Option<int>), nat>)
    ensures forall g :: g in counts <==> CountGroup(leads, w, g.0, g.1) > 0
    ensures forall g :: g in counts ==> counts[g] == CountGroup(leads, w, g.0, g.1)
  {
    if leads == [] then map[]
    else
      var rest := CountsQuery(leads[1..], w);
      if Selected(leads[0], w) then
        var g := (leads[0].campaign.value, leads[0].stage);
        rest[g := (if g in rest then rest[g] else 0) + 1]
      else rest
  }

  /** `lead_count * 100.0 / total if total else 0.0` */
  function Percentage(count: nat, total: nat): (p: real)
    ensures total == 0 ==> p == 0.0
    ensures total > 0 ==> p * (total as real) == (count as real) * 100.0
    ensures count <= total ==> 0.0 <= p <= 100.0
  {
    if total == 0 then 0.0
    else
      var p := (count as real) * 100.0 / (total as real);
      assert p * (total as real) == (count as real) * 100.0;
      p
  }

  // ---------------------------------------------------------------------
  // Registries

  /** Registry ids are primary keys. */
  ghost predicate UniqueIds(reg: seq<Entry>)
  {
    forall i, j :: 0 <= i < j < |reg| ==> reg[i].id != reg[j].id
  }

  function Ids(reg: seq<Entry>): seq<int>
  {
    seq(|reg|, i requires 0 <= i < |reg| => reg[i].id)
  }

  /** The registry ids, in registry order, that have a key in `totals`. */
  function Live(reg: seq<Entry>, totals: map<int, nat>): seq<int>
  {
    if reg == [] then []
    else
      var rest := Live(reg[..|reg| - 1], totals);
      if reg[|reg| - 1].id in totals then rest + [reg[|reg| - 1].id] else rest
  }

  lemma {:induction false} LiveMembers(reg: seq<Entry>, totals: map<int, nat>)
    ensures forall c :: c in Live(reg, totals) <==> c in Ids(reg) && c in totals
  {
    if reg != [] {
      var init := reg[..|reg| - 1];
      LiveMembers(init, totals);
      assert Ids(reg) == Ids(init) + [reg[|reg| - 1].id];
    }
  }

  lemma {:induction false} LiveDistinct(reg: seq<Entry>, totals: map<int, nat>)
    requires UniqueIds(reg)
    ensures forall i, j :: 0 <= i < j < |Live(reg, totals)| ==> Live(reg, totals)[i] != Live(reg, totals)[j]
  {
    if reg != [] {
      var init := reg[..|reg| - 1];
      LiveDistinct(init, totals);
      LiveMembers(init, totals);
    }
  }

  // ---------------------------------------------------------------------
  // Assembly of the result

  /** The loop filling `stages` from the registry, in `sequence` order. */
  method CollectStages(stageReg: seq<Entry>) returns (stages: Dict<string>)
    requires UniqueIds(stageReg)
    ensures stages.Valid() && stages.keys == Ids(stageReg)
    ensures forall i :: 0 <= i < |stageReg| ==>
              stageReg[i].id in stages.entries && stages.entries[stageReg[i].id] == stageReg[i].name
  {
    stages := EmptyDict();
    for i := 0 to |stageReg|
      invariant stages.Valid() && stages.keys == Ids(stageReg[..i])
      invariant forall k :: 0 <= k < i ==>
                  stageReg[k].id in stages.entries && stages.entries[stageReg[k].id] == stageReg[k].name
    {
      assert Ids(stageReg[..i + 1]) == Ids(stageReg[..i]) + [stageReg[i].id];
      stages := stages.Put(stageReg[i].id, stageReg[i].name);
    }
    assert stageReg[..|stageReg|] == stageReg;
  }

  /** The loop copying each registry campaign that has a total, in registry
      (name) order, with an empty breakdown. */
  method CollectCampaigns(campaignReg: seq<Entry>, totals: map<int, nat>) returns (campaigns: Dict<Summary>)
    requires UniqueIds(campaignReg)
    ensures campaigns.Valid() && campaigns.keys == Live(campaignReg, totals)
    ensures forall i :: 0 <= i < |campaignReg| && campaignReg[i].id in totals ==>
              campaignReg[i].id in campaigns.entries &&
              campaigns.entries[campaignReg[i].id] == Summary(campaignReg[i].name, totals[campaignReg[i].id], map[])
  {
    campaigns := EmptyDict();
    for i := 0 to |campaignReg|
      invariant campaigns.Valid() && campaigns.keys == Live(campaignReg[..i], totals)
      invariant forall k :: 0 <= k < i && campaignReg[k].id in totals ==>
                  campaignReg[k].id in campaigns.entries &&
                  campaigns.entries[campaignReg[k].id] == Summary(campaignReg[k].name, totals[campaignReg[k].id], map[])
    {
      var e := campaignReg[i];
      assert campaignReg[..i + 1][..i] == campaignReg[..i];
      LiveMembers(campaignReg[..i], totals);
      if e.id in totals {
        assert e.id !in campaigns.entries;
        campaigns := campaigns.Put(e.id, Summary(e.name, totals[e.id], map[]));
      }
    }
    assert campaignReg[..|campaignReg|] == campaignReg;
  }

  /** `sm.stages` holds an entry for stage `s` exactly when `(c, s)` is a
      group in `done` and `s` is a registry stage, and that entry is the
      group's count with its percentage of the campaign's total. */
  ghost predicate HasBreakdowns(sm: Summary, c: int, stages: Dict<string>,
                                counts: map<(int, Option<int>), nat>, done: set<(int, Option<int>)>)
  {
    && (forall s :: s in sm.stages <==> s in stages.entries && (c, Some(s)) in done && (c, Some(s)) in counts)
    && (forall s :: s in sm.stages ==>
          (c, Some(s)) in counts &&
          sm.stages[s] == Breakdown(counts[(c, Some(s))], Percentage(counts[(c, Some(s))], sm.totalLeads)))
  }

  /** `result` is `campaigns` with the rows in `done` added: the same
      campaigns with the same names and totals, and breakdowns for `done`. */
  ghost predicate BreakdownsAdded(result: Dict<Summary>, campaigns: Dict<Summary>, stages: Dict<string>,
                                  counts: map<(int, Option<int>), nat>, done: set<(int, Option<int>)>)
  {
    && (forall c :: c in result.entries <==> c in campaigns.entries)
    && (forall c :: c in result.entries ==>
          && result.entries[c].name == campaigns.entries[c].name
          && result.entries[c].totalLeads == campaigns.entries[c].totalLeads
          && HasBreakdowns(result.entries[c], c, stages, counts, done))
  }

  /** One row of the counts loop keeps `BreakdownsAdded`. */
  lemma AddRow(prev: Dict<Summary>, next: Dict<Summary>, campaigns: Dict<Summary>, stages: Dict<string>,
               counts: map<(int, Option<int>), nat>, done: set<(int, Option<int>)>, g: (int, Option<int>))
    requires BreakdownsAdded(prev, campaigns, stages, counts, done)
    requires g in counts && g !in done
    requires next.entries.Keys == prev.entries.Keys
    requires forall c :: c in next.entries && c != g.0 ==> next.entries[c] == prev.entries[c]
    requires g.0 in prev.entries && g.1.Some? && g.1.value in stages.entries ==>
               var sm := prev.entries[g.0];
               next.entries[g.0] == sm.(stages := sm.stages[g.1.value := Breakdown(counts[g], Percentage(counts[g], sm.totalLeads))])
    requires !(g.0 in prev.entries && g.1.Some? && g.1.value in stages.entries) ==> next.entries == prev.entries
    ensures BreakdownsAdded(next, campaigns, stages, counts, done + {g})
  {
    forall c | c in next.entries
      ensures HasBreakdowns(next.entries[c], c, stages, counts, done + {g})
    {
      if c != g.0 {
        assert next.entries[c] == prev.entries[c];
      }
    }
  }

  /** The loop over the counts rows: a row whose campaign is in the result
      and whose stage is a registry stage becomes a breakdown entry; every
      other row is skipped. */
  method AddStageCounts(campaigns: Dict<Summary>, stages: Dict<string>, counts: map<(int, Option<int>), nat>)
    returns (result: Dict<Summary>)
    requires campaigns.Valid()
    requires forall c :: c in campaigns.entries ==> campaigns.entries[c].stages == map[]
    ensures result.Valid() && result.keys == campaigns.keys
    ensures BreakdownsAdded(result, campaigns, stages, counts, counts.Keys)
  {
    result := campaigns;
    var remaining := counts.Keys;
    while remaining != {}
      invariant remaining <= counts.Keys
      invariant result.Valid() && result.keys == campaigns.keys
      invariant BreakdownsAdded(result, campaigns, stages, counts, counts.Keys - remaining)
      decreases remaining
    {
      var g :| g in remaining;
      ghost var prev := result;
      var c, s := g.0, g.1;
      if c in result.entries && s.Some? && s.value in stages.entries {
        var sm := result.entries[c];
        var n := counts[g];
        result := result.Put(c, sm.(stages := sm.stages[s.value := Breakdown(n, Percentage(n, sm.totalLeads))]));
        AddRow(prev, result, campaigns, stages, counts, counts.Keys - remaining, g);
      } else {
        AddRow(prev, result, campaigns, stages, counts, counts.Keys - remaining, g);
      }
      assert counts.Keys - (remaining - {g}) == (counts.Keys - remaining) + {g};
      remaining := remaining - {g};
    }
  }

  /** What `get_campaign_stage_analysis` returns for this registry, lead
      store and window: the result is fully determined by these clauses. */
  ghost predicate IsAnalysis(r: AnalysisResult, campaignReg: seq<Entry>, stageReg: seq<Entry>,
                             leads: seq<Lead>, w: Window)
  {
    && r.Valid()
    // every registry stage, in `sequence` order, used or not
    && r.stages.keys == Ids(stageReg)
    && (forall i :: 0 <= i < |stageReg| ==>
          stageReg[i].id in r.stages.entries && r.stages.entries[stageReg[i].id] == stageReg[i].name)
    // the registry campaigns with a selected lead, in registry order
    && r.campaigns.keys == Live(campaignReg, TotalsQuery(leads, w))
    && (forall i :: 0 <= i < |campaignReg| && campaignReg[i].id in r.campaigns.entries ==>
          Summarizes(r.campaigns.entries[campaignReg[i].id], campaignReg[i], stageReg, leads, w))
  }

  /** `sm` is campaign `e`'s entry: its name, its number of selected leads,
      and one breakdown per registry stage that some selected lead of the
      campaign is in. */
  ghost predicate Summarizes(sm: Summary, e: Entry, stageReg: seq<Entry>, leads: seq<Lead>, w: Window)
  {
    && sm.name == e.name
    && sm.totalLeads == CountCampaign(leads, w, e.id)
    && (forall s :: s in sm.stages <==> s in Ids(stageReg) && CountGroup(leads, w, e.id, Some(s)) > 0)
    && (forall s :: s in sm.stages ==>
          sm.stages[s] == Breakdown(CountGroup(leads, w, e.id, Some(s)),
                                    Percentage(CountGroup(leads, w, e.id, Some(s)), sm.totalLeads)))
  }

  /** `get_campaign_stage_analysis(date_from, date_to)` */
  method CampaignStageAnalysis(campaignReg: seq<Entry>, stageReg: seq<Entry>, leads: seq<Lead>, w: Window)
    returns (r: AnalysisResult)
    requires UniqueIds(campaignReg) && UniqueIds(stageReg)
    ensures IsAnalysis(r, campaignReg, stageReg, leads, w)
    ensures forall c :: c in r.campaigns.entries <==> c in Ids(campaignReg) && CountCampaign(leads, w, c) > 0
  {
    var totals := TotalsQuery(leads, w);
    var counts := CountsQuery(leads, w);
    var stages := CollectStages(stageReg);
    var campaigns := CollectCampaigns(campaignReg, totals);
    LiveMembers(campaignReg, totals);
    campaigns := AddStageCounts(campaigns, stages, counts);
    r := AnalysisResult(campaigns, stages);
    forall i | 0 <= i < |campaignReg| && campaignReg[i].id in r.campaigns.entries
      ensures Summarizes(r.campaigns.entries[campaignReg[i].id], campaignReg[i], stageReg, leads, w)
    {
      var e := campaignReg[i];
      var sm := r.campaigns.entries[e.id];
      assert sm.totalLeads == CountCampaign(leads, w, e.id);
      forall s ensures s in sm.stages <==> s in Ids(stageReg) && CountGroup(leads, w, e.id, Some(s)) > 0 {
        assert s in stages.entries <==> s in Ids(stageReg);
        assert (e.id, Some(s)) in counts <==> CountGroup(leads, w, e.id, Some(s)) > 0;
      }
    }
  }
}
