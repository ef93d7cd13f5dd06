# CRM campaign analysis — a Dafny model

This project models the core of an Odoo add-on that analyses CRM leads by
marketing campaign and pipeline stage. The core has three parts.

- **The aggregation engine** is `get_campaign_stage_analysis`. It counts the
  leads of each campaign inside an optional, inclusive creation-date window.
  It also counts them per (campaign, stage) and turns those counts into
  percentages of the campaign total. The result is the nested
  `campaigns` / `stages` dictionaries that every report reads.
- **The export wizard** renders that result in two ways. One is CSV rows:
  a campaign column, one "<stage> (%)" column per stage, and a total column.
  The other is a spreadsheet: cells with a red format chosen by a four-rule
  flag predicate, and a legend. Each export names the file after the day of
  the export and records it in the wizard's `data`, `filename` and `state`
  fields.
- **The HTML report** takes its date bounds from the context or from the
  report data and widens plain dates to whole days. It then runs the engine
  and reshapes the result for the template.

Modules, one per file:

| file | module | models |
|---|---|---|
| dicts.dfy | `Dicts` | `Option`; Python's insertion-ordered `dict` keyed by record ids |
| analysis.dfy | `Analysis` | the two GROUP BY queries as counting functions; the assembly loops as methods; `IsAnalysis`, the specification of the result |
| analysis_facts.dfy | `AnalysisFacts` | properties of the engine: window, partition of a campaign's leads over the stages, ranges, monotonicity, determinism |
| dates.dfy | `Dates` | date bounds and timestamps; the windows built from them |
| text.dfy | `Text` | `str(n)`, `:.2f` and `%Y%m%d` zero padding, each with its parser and round trip; `in` on strings |
| export.dfy | `Export` | CSV rows; the flag rule; the `Worksheet` class and the sheet layout; the file name; the `ExportWizard` class |
| html_report.dfy | `HtmlReport` | `_get_report_values` |

Modelling choices:

- Leads, campaigns and stages are values. A lead has an optional campaign,
  an optional stage and a creation timestamp, counted in microseconds.
- The campaign and stage registries are sequences of `(id, name)`. They are
  already in the SQL `ORDER BY` order, and their ids are distinct because
  they are primary keys.
- A dictionary whose iteration order matters is a `Dict`: a key sequence in
  insertion order plus a map. Each campaign's nested `stages` dictionary
  is only looked up, so it is a plain `map`.
- The rows of the counts query come back in no specified order. The loop
  that consumes them takes the (campaign, stage) groups in an arbitrary
  order; its specification does not depend on that order.
- Percentages are exact reals. `f"{x:.2f}"` is fixed point with halves
  rounded up.
- Stage names are plain strings.
- The spreadsheet is a `Worksheet` object whose `Write` method updates a
  map from (row, column) to a cell holding a value and a format.
- The wizard is an `ExportWizard` object whose export methods update its
  `data`, `filename` and `state` fields.
- A wall-clock date is a parameter:
  - the export day is a `CalendarDate`;
  - the HTML report's context and report-data bounds are `Bound`s, either a
    day number or a timestamp;
  - the export wizard's context dates are day numbers, which the database
    reads as midnight of that day.
- The PDF bytes rendered by the report engine are a parameter of
  `ExportPdf`.

Two behaviours of the code are kept as written:

- Neither query filters on the `active` flag of leads or campaigns.
- The engine accepts an inverted window; only the analysis wizard's
  constraint rejects one. `AnalysisFacts.InvertedWindowIsEmpty` states what
  the engine then returns.

## Model

| member | source | states |
|---|---|---|
| Dicts.Dict.Put | models/crm_campaign_analysis_report.py:110-121 | assigning `d[k] = v` keeps the dict well formed, maps `k` to `v`, and appends `k` to the iteration order only when it is new |
| Analysis.TotalsQuery | models/crm_campaign_analysis_report.py:84-92 | the totals map has exactly the campaigns with at least one selected lead, each mapped to its number of leads inside the window |
| Analysis.CountsQuery | models/crm_campaign_analysis_report.py:95-103 | the counts map has exactly the (campaign, stage-or-null) groups with a selected lead, each mapped to its size |
| Analysis.Percentage | models/crm_campaign_analysis_report.py:128-130 | the percentage times the total is the count times 100; it is 0.0 when the total is 0; it lies in [0, 100] when the count does not exceed the total |
| Analysis.LiveMembers | models/crm_campaign_analysis_report.py:114-116 | a campaign is kept exactly when it is in the registry and has a total |
| Analysis.LiveDistinct | models/crm_campaign_analysis_report.py:114-121 | with distinct registry ids, no kept campaign is listed twice |
| Analysis.CollectStages | models/crm_campaign_analysis_report.py:110-111 | `stages` lists every registry stage in `sequence` order, with its name, whether or not any lead uses it |
| Analysis.CollectCampaigns | models/crm_campaign_analysis_report.py:113-121 | `campaigns` lists, in registry name order, exactly the registry campaigns with a total; each has its name, its total and an empty breakdown |
| Analysis.AddRow | models/crm_campaign_analysis_report.py:124-135 | handling one counts row preserves the loop invariant: every result campaign has a breakdown for exactly the rows handled so far whose stage is registered |
| Analysis.AddStageCounts | models/crm_campaign_analysis_report.py:123-135 | after all counts rows, a campaign has a breakdown for stage `s` exactly when `(campaign, s)` is a group and `s` is a registry stage; the breakdown is the group's count and its percentage of the campaign total; names, totals and order are unchanged |
| Analysis.CampaignStageAnalysis | models/crm_campaign_analysis_report.py:47-140 | the result satisfies `IsAnalysis`; a campaign is in it exactly when it is in the registry and has at least one lead in the window, so a zero-lead campaign never appears with total 0 |
| AnalysisFacts.OrderedIffNonEmpty | models/crm_campaign_analysis_report.py:74-80 | the inclusive `create_date >= date_from` and `create_date <= date_to` conditions select some timestamp exactly when `date_from` is not after `date_to` |
| AnalysisFacts.DaysAcceptedIffNonEmpty | report/crm_campaign_analysis_report.py:13-17 | the wizard's constraint on calendar days accepts `date_from`/`date_to` exactly when the whole-day window from the start of `date_from` to the end of `date_to` is in order, and exactly when that window selects some timestamp |
| AnalysisFacts.InvertedWindowIsEmpty | models/crm_campaign_analysis_report.py:74-92 | for a window with `date_from` after `date_to`, the engine returns no campaigns |
| AnalysisFacts.NarrowsSelects | models/crm_campaign_analysis_report.py:76-81 | a timestamp inside a narrower window is inside the wider one |
| AnalysisFacts.CampaignCountMonotone | models/crm_campaign_analysis_report.py:84-92 | narrowing the window never raises a campaign's lead count |
| AnalysisFacts.GroupCountMonotone | models/crm_campaign_analysis_report.py:95-103 | narrowing the window never raises a (campaign, stage) count |
| AnalysisFacts.NarrowerWindowNeverGrows | models/crm_campaign_analysis_report.py:76-103 | over a narrower window, every campaign in the result was in the wider result; its `total_leads` and every stage's `lead_count` are no larger, and its stages are a subset |
| AnalysisFacts.StagePartition | models/crm_campaign_analysis_report.py:95-103 | a campaign's selected leads split into the per-stage groups of the registry plus the leads with a null or unregistered stage |
| AnalysisFacts.GroupWithinCampaign | models/crm_campaign_analysis_report.py:95-101 | a group is never larger than its campaign's total |
| AnalysisFacts.SumLeadCountsIsSumGroups | models/crm_campaign_analysis_report.py:124-135 | the `lead_count`s of a result campaign, summed over the stage registry, equal the sum of the per-stage group counts |
| AnalysisFacts.BreakdownWithinTotal | models/crm_campaign_analysis_report.py:123-135 | the `lead_count`s of a result campaign plus its unstaged leads equal `total_leads`; so they sum to at most `total_leads`, and to exactly that when no lead of it has a null or unregistered stage |
| AnalysisFacts.PercentagesInRange | models/crm_campaign_analysis_report.py:128-130 | every breakdown entry has 0 < `lead_count` <= `total_leads` and a percentage in (0, 100] |
| AnalysisFacts.SummaryDetermined | models/crm_campaign_analysis_report.py:114-135 | a campaign's entry is fixed by the registry, the leads and the window |
| AnalysisFacts.AnalysisDetermined | models/crm_campaign_analysis_report.py:47-140 | two results for the same registries, leads and window are equal, order included |
| Dates.StartOf | report/campaign_analysis_html_report.py:18-19 | a plain date becomes the first instant of that day, which bounds exactly the timestamps on or after the day; a datetime is kept |
| Dates.EndOf | report/campaign_analysis_html_report.py:20-21 | a plain date becomes the last instant of that day, which bounds exactly the timestamps on or before the day; a datetime is kept |
| Dates.Midnight | report/export_wizard.py:28-34 | a plain date compared with a timestamp means midnight at the start of that day |
| Dates.DayWindowSelects | report/campaign_analysis_html_report.py:14-21 | the widened window selects a timestamp exactly when it is on or after `from` and on or before `to`; plain dates compare by calendar day, datetimes by instant |
| Dates.MidnightDropsLastDay | report/export_wizard.py:28-34 | a lead created on the `to` day is inside the whole-day window, but inside the midnight window only at midnight itself |
| Text.Decimal | report/export_wizard.py:69 | `str(n)` is a non-empty string of digits |
| Text.DecimalRoundTrip | report/export_wizard.py:69 | parsing `str(n)` gives back `n` |
| Text.PaddedRoundTrip | report/export_wizard.py:73 | a value below 10^width pads to exactly `width` digits that parse back to it |
| Text.Hundredths | report/export_wizard.py:68 | the rounded number of hundredths is within half a hundredth of the value |
| Text.Fixed2RoundTrip | report/export_wizard.py:68 | `:.2f` of a non-negative value is `<digits>.<d><d>` and parses back to the value rounded to the nearest hundredth, within 0.005 of it |
| Export.CsvHeader | report/export_wizard.py:50-61 | the header is "Campaign", then "<stage name> (%)" for each stage in result order, then "Total Leads" |
| Export.CsvRow | report/export_wizard.py:65-69 | a row is the campaign name, one "<p:.2f>%" cell per stage (0.0 for a stage missing from the breakdown), then the total |
| Export.RenderCsv | report/export_wizard.py:44-70 | the rows are the header plus one row per result campaign in result order, each as wide as the header (stages + 2) |
| Export.CsvRoundTrip | report/export_wizard.py:50-70 | from the CSV rows one reads back every stage name, every campaign name and total, and every percentage rounded to two decimals |
| Export.UseRedFormat | report/export_wizard.py:161-178 | the four sequential checks set the red format exactly when one of the four rules holds |
| Export.JunkStageFlag | report/export_wizard.py:163-165 | in a stage named "JUNK" a cell is red exactly when 5 * lead_count > total_leads (20% itself is not red) |
| Export.AdmissionStageFlag | report/export_wizard.py:171-173 | in a stage named "Admission" a cell is red exactly when 20 * lead_count < total_leads |
| Export.JunkName | report/export_wizard.py:161-178 | for the name "JUNK" only the more-than-20% rule can fire |
| Export.AdmissionName | report/export_wizard.py:161-178 | for the name "Admission" only the less-than-5% rule can fire |
| Export.MissingStageFlag | report/export_wizard.py:151-178 | a stage missing from the breakdown, read as 0.0, is red exactly for the Admission, A, Hot/Future Prospect, HP and FP names, and never by the JUNK or Not Connected rules |
| Export.FractionAbove | report/export_wizard.py:164 | the fraction exceeds 0.2 exactly when 5 * lead_count > total_leads |
| Export.FractionBelow | report/export_wizard.py:172 | the fraction is under 0.05 exactly when 20 * lead_count < total_leads |
| Export.Worksheet.Write | report/export_wizard.py:182 | writing a cell sets that one (row, column) to the value and format and leaves every other cell as it was |
| Export.WriteHeader | report/export_wizard.py:126-142 | row 0 holds "Campaign", the stage titles and "Total Leads" in header format, and nothing else is written |
| Export.WriteCampaignRow | report/export_wizard.py:146-186 | campaign i goes in row i+1: name at column 0, one fraction per stage with the red format when flagged, total at column stages+1 |
| Export.RenderXlsx | report/export_wizard.py:89-199 | the sheet has cells exactly at the header row, one row per campaign, and five legend lines in column 0 from row (campaigns + 1) + 3 |
| Export.WriteLegend | report/export_wizard.py:193-199 | the five legend lines go in column 0 from row (campaigns + 1) + 3, the title in its own format, and the sheet is then complete |
| Export.LegendAdded | report/export_wizard.py:193-199 | the legend rows lie below the campaign rows, so writing them changes no header or data cell |
| Export.SheetCellIsShare | report/export_wizard.py:150-182 | a stage cell holds the fraction of the campaign's leads in that stage, not the scaled percentage, and is red exactly when the flag rule holds for it |
| Export.ShareOfCampaign | report/export_wizard.py:151-152 | for a result campaign and a registry stage, the fraction times the campaign total is the stage's lead count, 0 for a missing stage |
| Export.ListedSummary | models/crm_campaign_analysis_report.py:114-121 | every campaign of the result summarises the leads of a registry campaign with that id |
| Export.SummaryShare | report/export_wizard.py:151-152 | the fraction a campaign entry shows for a registry stage, times its total, is that stage's lead count |
| Export.FileNameParts | report/export_wizard.py:73 | the file name is "campaign_analysis_", eight digits that read back as the export day's year, month and day, ".", and the extension |
| Export.ExportWizard.constructor | report/export_wizard.py:12-22 | a new wizard has the Excel type, no file, no file name and state 'choose' |
| Export.ExportWizard.ExportCsv | report/export_wizard.py:44-78 | `data` becomes the CSV rows of the result, `filename` the `.csv` name of the day, and `state` 'done' |
| Export.ExportWizard.ExportXlsx | report/export_wizard.py:89-210 | `data` becomes the sheet of the result, `filename` the `.xlsx` name of the day, and `state` 'done' |
| Export.ExportWizard.ExportPdf | report/export_wizard.py:221-240 | `data` becomes the rendered PDF, `filename` the `.pdf` name of the day, and `state` 'done' |
| Export.ExportWizard.ActionExport | report/export_wizard.py:25-42 | runs the analysis over the context's plain dates as passed, each read as midnight of its day, and dispatches on the export type; the file is of that type, its name is that of the export day, and the state is 'done' |
| Export.AsWrittenExportNeverListsMore | report/export_wizard.py:30-35 | the export over the midnight bounds lists no campaign or stage that the whole-day window would not, and no larger total or lead count |
| Export.MidnightExportMissesLastDay | report/export_wizard.py:28-34 | a lead created at noon on the `to` day leaves its campaign out of the export as written, while the whole-day window lists the campaign with one lead |
| HtmlReport.PickBound | report/campaign_analysis_html_report.py:14-15 | a bound is present when the context or the data gives one; the context's bound wins |
| HtmlReport.ContextWins | report/campaign_analysis_html_report.py:14-15 | the chosen bound is the context's, or the data's only when the context has none |
| HtmlReport.CampaignNames | report/campaign_analysis_html_report.py:29-30 | `campaign_names` has exactly the listed campaigns as keys, each with its name from the result |
| HtmlReport.NamesFromRegistry | report/campaign_analysis_html_report.py:29-30 | each name in `campaign_names` is the campaign's registry name |
| HtmlReport.CampaignData | report/campaign_analysis_html_report.py:37-45 | `campaign_data` has a row per listed campaign in order, with its `total_leads` and, for every stage, the breakdown or the empty record; there is no 0.0 default |
| HtmlReport.RowsCountLeads | report/campaign_analysis_html_report.py:37-45 | a row's total is the campaign's number of selected leads; a stage entry is empty exactly when no selected lead of the campaign is in that stage, and otherwise carries that count |
| HtmlReport.GetReportValues | report/campaign_analysis_html_report.py:10-56 | the analysis runs over the chosen, widened bounds; `campaigns` and `stages` are the result's key lists in order, so `stages` is every registry stage; `stage_names` is the result's stages; `campaign_names` has exactly the registry campaigns with a lead in the window; `campaign_data` is as above |

## Findings

| source | as written | input that shows it | evidently intended | confidence | as-written member | corrected member |
|---|---|---|---|---|---|---|
| report/export_wizard.py:28-34 | `action_export` passes the plain `date_from`/`date_to` dates of the context to the engine. Compared with the timestamp `create_date`, a date means midnight, so leads created on the last day after 00:00:00 are not exported. | `date_to` = day 7, and a lead of a registered campaign created at noon on day 7: the export lists no campaign, while the HTML report over the same days lists it with one lead | the whole of both days, as `action_export_report` (report/crm_campaign_analysis_report.py:43-44) and `_get_report_values` (report/campaign_analysis_html_report.py:18-21) build them | medium; not executed; relies on PostgreSQL reading a date as midnight when comparing it with a timestamp | Export.MidnightExportMissesLastDay | Dates.DayWindowSelects |

`Dates.MidnightWindow` is the window as written, and
`Export.ExportWizard.ActionExport` runs the analysis over it. `Dates.ExportWindow`
is the whole-day window that the HTML report and the analysis wizard build from
the same days; `Export.AsWrittenExportNeverListsMore` shows that the export as
written only ever drops leads relative to it.

## Left out

- SQL execution: cursors, `dictfetchall`, and the `CREATE VIEW` of `init`. The queries are modelled by their results.
- `refresh_materialized_view` is defined in none of the files modelled here. Its callers are not part of this model.
- Odoo plumbing is not modelled: `ensure_one`, `env.ref` and the returned action dictionaries. The ORM call `self.write` is modelled only by its effect: it assigns the wizard's `data`, `filename` and `state` fields. The base64 encoding of `data` is not modelled; the payload is stored unencoded.
- Library output formats are not modelled:
  - CSV quoting and escaping; the rows are modelled before the CSV writer;
  - xlsxwriter's binary format, colours, borders and column widths; a format is a `Style` tag, and only the red one matters;
  - PDF rendering; the bytes are a parameter.
- The translation-dict unwrapping of stage names ("first value or 'Unknown'") depends on Python dict iteration order; stage names are plain strings.
- Floating point is not modelled. Percentages are exact reals, so the 0.2 and 0.05 thresholds are exact.
- Text.Fixed2 rounds halves up. Python's `:.2f` rounds the binary float to nearest-even, which can differ on values that are exactly halfway in decimal.
- Export.ValidDate bounds the day of the month by 31 and does not check it against the month's length; only the digits of the date matter to the file name.
- The JavaScript dashboards are not modelled. They build the DOM, make RPC calls and use a different, case-insensitive highlight rule.
- The controller and the analysis wizard are request glue that reads the wall clock. Their one rule kept here is the `date_from > date_to` rejection, as `AnalysisFacts.DatesAccepted`.
- The HTML template, which consumes the report values, is not part of this model.
- HtmlReport.GetReportValues does not return the `'isinstance'` entry of the report values (report/campaign_analysis_html_report.py:55): it is Python's built-in, passed through for the template's type checks, and carries no data.
