/** `_get_report_values` of the HTML report: the date bounds are taken from
    the context or the report data and widened to whole days, the analysis
    runs over that window, and its result is reshaped for the template. */
module HtmlReport {
  import opened Dicts
  import opened Analysis
  import opened Dates

  /** `ctx.get(key) or (data and data.get(key))`: a bound in the context wins;
      `fromData` is `None` when `data` is missing or has no such key. */
  function PickBound(fromContext: Option<Bound>, fromData: Option<Bound>): (b: Option<Bound>)
    ensures b.Some? <==> fromContext.Some? || fromData.Some?
    ensures fromContext.Some? ==> b == fromContext
  {
    if fromContext.Some? then fromContext else fromData
  }

  /** A context bound hides the data bound; the data bound is used only
      when the context has none. */
  lemma ContextWins(fromContext: Option<Bound>, fromData: Option<Bound>, b: Bound)
    ensures PickBound(fromContext, fromData) == Some(b) <==>
              fromContext == Some(b) || (fromContext.None? && fromData == Some(b))
  {
  }

  /** The per-campaign record of `campaign_data`: `total_leads`, and for
      every stage of the result either its breakdown or, when the campaign
      has none for it, the empty record `{}` (written `None`). */
  datatype CampaignRow = CampaignRow(totalLeads: nat, stages: map<int, Option<Breakdown>>)

  /** The template values. */
  datatype ReportValues = ReportValues(
    dateFrom: Option<int>,
    dateTo: Option<int>,
    campaigns: seq<int>,
    stages: seq<int>,
    campaignNames: map<int, string>,
    stageNames: Dict<string>,
    campaignData: Dict<CampaignRow>)

  /** `campaign_names`: each listed campaign's name, keyed by its id. */
  function CampaignNames(r: AnalysisResult): (names: map<int, string>)
    requires r.Valid()
    ensures forall c :: c in names <==> c in r.campaigns.keys
    ensures forall c :: c in names ==> c in r.campaigns.entries && names[c] == r.campaigns.entries[c].name
  {
    map c | c in r.campaigns.entries :: r.campaigns.entries[c].name
  }

  /** Each name in `campaign_names` is the campaign's registry name. */
  lemma NamesFromRegistry(r: AnalysisResult, campaignReg: seq<Entry>, stageReg: seq<Entry>,
                          leads: seq<Lead>, w: Window, i: nat)
    requires IsAnalysis(r, campaignReg, stageReg, leads, w)
    requires i < |campaignReg| && campaignReg[i].id in CampaignNames(r)
    ensures CampaignNames(r)[campaignReg[i].id] == campaignReg[i].name
  {
    assert Summarizes(r.campaigns.entries[campaignReg[i].id], campaignReg[i], stageReg, leads, w);
  }

  /** What `campaign_data[c][s]` holds for a stage `s` of the result. */
  function StageInfo(sm: Summary, s: int): Option<Breakdown>
  {
    if s in sm.stages then Some(sm.stages[s]) else None
  }

  /** The row of a campaign summarised by `sm`: its total, and one entry
      for each of `stages`. */
  ghost predicate IsRow(row: CampaignRow, sm: Summary, stages: seq<int>)
  {
    && row.totalLeads == sm.totalLeads
    && (forall s :: s in row.stages <==> s in stages)
    && (forall s :: s in row.stages ==> row.stages[s] == StageInfo(sm, s))
  }

  /** `campaign_data`: one row per listed campaign, in the same order, with
      the campaign's total and one entry per stage of the result. */
  ghost predicate IsCampaignData(r: AnalysisResult, data: Dict<CampaignRow>)
  {
    && data.Valid()
    && data.keys == r.campaigns.keys
    && forall c :: c in data.entries ==>
         c in r.campaigns.entries && IsRow(data.entries[c], r.campaigns.entries[c], r.stages.keys)
  }

  /** The nested loop over campaigns and stages that fills `campaign_data`. */
  method CampaignData(r: AnalysisResult) returns (data: Dict<CampaignRow>)
    requires r.Valid()
    ensures IsCampaignData(r, data)
  {
    var campaigns := r.campaigns.keys;
    var stages := r.stages.keys;
    data := EmptyDict();
    for i := 0 to |campaigns|
      invariant data.Valid() && data.keys == campaigns[..i]
      invariant forall c :: c in data.entries ==>
                  c in r.campaigns.entries && IsRow(data.entries[c], r.campaigns.entries[c], stages)
    {
      var c := campaigns[i];
      assert c in r.campaigns.entries;
      var sm := r.campaigns.entries[c];
      assert c !in data.entries by {
        assert forall k :: 0 <= k < i ==> campaigns[k] != campaigns[i];
      }
      var done := data;
      data := data.Put(c, CampaignRow(sm.totalLeads, map[]));
      for j := 0 to |stages|
        invariant data.Valid() && data.keys == campaigns[..i] + [c]
        invariant c in data.entries && data.entries[c].totalLeads == sm.totalLeads
        invariant forall s :: s in data.entries[c].stages <==> s in stages[..j]
        invariant forall s :: s in data.entries[c].stages ==> data.entries[c].stages[s] == StageInfo(sm, s)
        invariant forall k :: k in data.entries && k != c ==> k in done.entries && data.entries[k] == done.entries[k]
      {
        var s := stages[j];
        var row := data.entries[c];
        data := data.Put(c, row.(stages := row.stages[s := StageInfo(sm, s)]));
      }
      assert stages[..|stages|] == stages;
      assert IsRow(data.entries[c], sm, stages);
      assert campaigns[..i + 1] == campaigns[..i] + [c];
    }
    assert campaigns[..|campaigns|] == campaigns;
  }

  /** Read against the leads: a row's total is its campaign's number of
      selected leads, and its entry for a registry stage is empty exactly
      when no selected lead of the campaign is in that stage; otherwise it
      carries that stage's count. */
  lemma RowsCountLeads(r: AnalysisResult, data: Dict<CampaignRow>, campaignReg: seq<Entry>, stageReg: seq<Entry>,
                       leads: seq<Lead>, w: Window, i: nat, s: int)
    requires IsAnalysis(r, campaignReg, stageReg, leads, w) && IsCampaignData(r, data)
    requires i < |campaignReg| && campaignReg[i].id in data.entries && s in Ids(stageReg)
    ensures data.entries[campaignReg[i].id].totalLeads == CountCampaign(leads, w, campaignReg[i].id)
    ensures s in data.entries[campaignReg[i].id].stages
    ensures data.entries[campaignReg[i].id].stages[s].None? <==> CountGroup(leads, w, campaignReg[i].id, Some(s)) == 0
    ensures data.entries[campaignReg[i].id].stages[s].Some? ==>
              data.entries[campaignReg[i].id].stages[s].value.leadCount == CountGroup(leads, w, campaignReg[i].id, Some(s))
  {
    var c := campaignReg[i].id;
    assert c in r.campaigns.entries;
    assert Summarizes(r.campaigns.entries[c], campaignReg[i], stageReg, leads, w);
  }

  /** `_get_report_values`: pick and widen the bounds, run the analysis
      over them, and reshape its result. */
  method GetReportValues(campaignReg: seq<Entry>, stageReg: seq<Entry>, leads: seq<Lead>,
                         contextFrom: Option<Bound>, contextTo: Option<Bound>,
                         dataFrom: Option<Bound>, dataTo: Option<Bound>)
    returns (v: ReportValues, ghost r: AnalysisResult)
    requires UniqueIds(campaignReg) && UniqueIds(stageReg)
    ensures var w := DayWindow(PickBound(contextFrom, dataFrom), PickBound(contextTo, dataTo));
            && IsAnalysis(r, campaignReg, stageReg, leads, w)
            && v.dateFrom == w.from && v.dateTo == w.to
    ensures v.campaigns == r.campaigns.keys && v.stages == r.stages.keys
    ensures v.stageNames == r.stages
    ensures v.campaignNames == CampaignNames(r)
    ensures IsCampaignData(r, v.campaignData)
    ensures v.stages == Ids(stageReg)
    ensures forall c :: c in v.campaignNames <==>
              c in Ids(campaignReg) &&
              CountCampaign(leads, DayWindow(PickBound(contextFrom, dataFrom), PickBound(contextTo, dataTo)), c) > 0
  {
    var w := DayWindow(PickBound(contextFrom, dataFrom), PickBound(contextTo, dataTo));
    var result := CampaignStageAnalysis(campaignReg, stageReg, leads, w);
    r := result;
    var data := CampaignData(result);
    v := ReportValues(w.from, w.to, result.campaigns.keys, result.stages.keys,
                      CampaignNames(result), result.stages, data);
  }
}
