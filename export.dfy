/** The export wizard: one column model (campaign, one column per stage,
    total) rendered as CSV rows or as spreadsheet cells, the red-flag rule
    for spreadsheet percentages, the export file name, and the wizard
    record that each export fills in. */
module Export {
  import opened Dicts
  import opened Analysis
  import opened Text
  import opened Dates
  import opened AnalysisFacts

  // ---------------------------------------------------------------------
  // The shared column model

  /** Display name of the `j`-th stage of the result. */
  function StageName(r: AnalysisResult, j: nat): string
    requires r.Valid() && j < |r.stages.keys|
  {
    assert r.stages.keys[j] in r.stages.keys;
    r.stages.entries[r.stages.keys[j]]
  }

  /** The `i`-th campaign of the result. */
  function CampaignAt(r: AnalysisResult, i: nat): Summary
    requires r.Valid() && i < |r.campaigns.keys|
  {
    assert r.campaigns.keys[i] in r.campaigns.keys;
    r.campaigns.entries[r.campaigns.keys[i]]
  }

  /** Title of column `col`: the campaign column, one "<stage> (%)" column
      per stage in result order, then the total column. */
  function ColumnTitle(r: AnalysisResult, col: nat): string
    requires r.Valid() && col <= |r.stages.keys| + 1
  {
    if col == 0 then "Campaign"
    else if col <= |r.stages.keys| then StageName(r, col - 1) + " (%)"
    else "Total Leads"
  }

  /** `campaign_data['stages'].get(stage_id, {'percentage': 0.0, ...})['percentage']`:
      a stage missing from the breakdown reads as 0.0. */
  function PercentOrZero(sm: Summary, s: int): real
  {
    if s in sm.stages then sm.stages[s].percentage else 0.0
  }

  // ---------------------------------------------------------------------
  // CSV, before quoting

  /** A CSV percentage cell: two decimals and a percent sign. */
  function PercentCell(p: real): string
  {
    Fixed2(p) + "%"
  }

  /** `rows` is the CSV export of `r`: the header row, then one row per
      campaign in result order, each as wide as the header. */
  ghost predicate IsCsv(r: AnalysisResult, rows: seq<seq<string>>)
    requires r.Valid()
  {
    var m, n := |r.campaigns.keys|, |r.stages.keys|;
    && |rows| == m + 1
    && (forall i :: 0 <= i < |rows| ==> |rows[i]| == n + 2)
    && (forall col :: 0 <= col <= n + 1 ==> rows[0][col] == ColumnTitle(r, col))
    && (forall i :: 1 <= i <= m ==>
          && rows[i][0] == CampaignAt(r, i - 1).name
          && rows[i][n + 1] == Decimal(CampaignAt(r, i - 1).totalLeads))
    && (forall i, j :: 1 <= i <= m && 1 <= j <= n ==>
          rows[i][j] == PercentCell(PercentOrZero(CampaignAt(r, i - 1), r.stages.keys[j - 1])))
  }

  /** The header list, built by appending one title per stage. */
  method CsvHeader(r: AnalysisResult) returns (header: seq<string>)
    requires r.Valid()
    ensures |header| == |r.stages.keys| + 2
    ensures forall col :: 0 <= col < |header| ==> header[col] == ColumnTitle(r, col)
  {
    header := ["Campaign"];
    for j := 0 to |r.stages.keys|
      invariant |header| == j + 1
      invariant forall col :: 0 <= col <= j ==> header[col] == ColumnTitle(r, col)
    {
      header := header + [StageName(r, j) + " (%)"];
    }
    header := header + ["Total Leads"];
  }

  /** One campaign's row: its name, one percentage per stage, its total. */
  method CsvRow(r: AnalysisResult, sm: Summary) returns (row: seq<string>)
    requires r.Valid()
    ensures |row| == |r.stages.keys| + 2
    ensures row[0] == sm.name && row[|r.stages.keys| + 1] == Decimal(sm.totalLeads)
    ensures forall j :: 1 <= j <= |r.stages.keys| ==> row[j] == PercentCell(PercentOrZero(sm, r.stages.keys[j - 1]))
  {
    row := [sm.name];
    for j := 0 to |r.stages.keys|
      invariant |row| == j + 1 && row[0] == sm.name
      invariant forall k :: 1 <= k <= j ==> row[k] == PercentCell(PercentOrZero(sm, r.stages.keys[k - 1]))
    {
      var stageId := r.stages.keys[j];
      var percentage := if stageId in sm.stages then sm.stages[stageId].percentage else 0.0;
      row := row + [PercentCell(percentage)];
    }
    row := row + [Decimal(sm.totalLeads)];
  }

  /** The rows `_export_csv` hands to the CSV writer. */
  method RenderCsv(r: AnalysisResult) returns (rows: seq<seq<string>>)
    requires r.Valid()
    ensures IsCsv(r, rows)
  {
    var header := CsvHeader(r);
    rows := [header];
    for i := 0 to |r.campaigns.keys|
      invariant |rows| == i + 1 && rows[0] == header
      invariant forall k :: 1 <= k <= i ==>
                  && |rows[k]| == |r.stages.keys| + 2
                  && rows[k][0] == CampaignAt(r, k - 1).name
                  && rows[k][|r.stages.keys| + 1] == Decimal(CampaignAt(r, k - 1).totalLeads)
                  && (forall j :: 1 <= j <= |r.stages.keys| ==>
                        rows[k][j] == PercentCell(PercentOrZero(CampaignAt(r, k - 1), r.stages.keys[j - 1])))
    {
      var row := CsvRow(r, CampaignAt(r, i));
      rows := rows + [row];
    }
  }

  /** Reading the CSV back recovers the stage names from the header, and
      from each campaign row its name, its total and every percentage
      rounded to two decimals. */
  lemma CsvRoundTrip(r: AnalysisResult, rows: seq<seq<string>>)
    requires r.Valid() && IsCsv(r, rows)
    requires forall i, s :: 0 <= i < |r.campaigns.keys| && s in CampaignAt(r, i).stages ==>
               CampaignAt(r, i).stages[s].percentage >= 0.0
    ensures forall j :: 1 <= j <= |r.stages.keys| ==>
              rows[0][j][..|rows[0][j]| - 4] == StageName(r, j - 1)
    ensures forall i :: 1 <= i < |rows| ==>
              && rows[i][0] == CampaignAt(r, i - 1).name
              && ParseDecimal(rows[i][|r.stages.keys| + 1]) == CampaignAt(r, i - 1).totalLeads
    ensures forall i, j :: 1 <= i < |rows| && 1 <= j <= |r.stages.keys| ==>
              |rows[i][j]| >= 4 &&
              ParseFixed2(rows[i][j][..|rows[i][j]| - 1]) * 100.0 ==
                Hundredths(PercentOrZero(CampaignAt(r, i - 1), r.stages.keys[j - 1])) as real
  {
    var n := |r.stages.keys|;
    forall j | 1 <= j <= n ensures rows[0][j][..|rows[0][j]| - 4] == StageName(r, j - 1) {
      assert rows[0][j] == StageName(r, j - 1) + " (%)";
    }
    forall i | 1 <= i < |rows|
      ensures ParseDecimal(rows[i][n + 1]) == CampaignAt(r, i - 1).totalLeads
    {
      DecimalRoundTrip(CampaignAt(r, i - 1).totalLeads);
    }
    forall i, j | 1 <= i < |rows| && 1 <= j <= n
      ensures |rows[i][j]| >= 4
      ensures ParseFixed2(rows[i][j][..|rows[i][j]| - 1]) * 100.0 ==
                Hundredths(PercentOrZero(CampaignAt(r, i - 1), r.stages.keys[j - 1])) as real
    {
      var p := PercentOrZero(CampaignAt(r, i - 1), r.stages.keys[j - 1]);
      Fixed2RoundTrip(p);
      assert rows[i][j] == Fixed2(p) + "%";
      assert rows[i][j][..|rows[i][j]| - 1] == Fixed2(p);
    }
  }

  // ---------------------------------------------------------------------
  // The red-flag rule of the spreadsheet

  /** "JUNK" in the stage name and more than 20%. */
  predicate JunkRule(name: string, f: real)
  {
    Contains(name, "JUNK") && f > 0.2
  }

  /** "Not Connected" or "NC" in the stage name and more than 20%. */
  predicate NotConnectedRule(name: string, f: real)
  {
    (Contains(name, "Not Connected") || Contains(name, "NC")) && f > 0.2
  }

  /** "Admission" in the stage name, or the name "A", and less than 5%. */
  predicate AdmissionRule(name: string, f: real)
  {
    (Contains(name, "Admission") || name == "A") && f < 0.05
  }

  /** "Hot Prospect" or "Future Prospect" in the stage name, or the name
      "HP" or "FP", and less than 5%. */
  predicate ProspectRule(name: string, f: real)
  {
    (Contains(name, "Hot Prospect") || name == "HP" || Contains(name, "Future Prospect") || name == "FP") && f < 0.05
  }

  /** A cell holding fraction `f` in the column of stage `name` is red. */
  predicate Flagged(name: string, f: real)
  {
    JunkRule(name, f) || NotConnectedRule(name, f) || AdmissionRule(name, f) || ProspectRule(name, f)
  }

  /** `use_red_format`, set by four independent checks in turn. */
  method UseRedFormat(name: string, f: real) returns (red: bool)
    ensures red <==> Flagged(name, f)
  {
    red := false;
    if Contains(name, "JUNK") && f > 0.2 {
      red := true;
    }
    if (Contains(name, "Not Connected") || Contains(name, "NC")) && f > 0.2 {
      red := true;
    }
    if (Contains(name, "Admission") || name == "A") && f < 0.05 {
      red := true;
    }
    if (Contains(name, "Hot Prospect") || name == "HP" || Contains(name, "Future Prospect") || name == "FP") && f < 0.05 {
      red := true;
    }
  }

  /** A stage named exactly "JUNK" is red exactly when more than a fifth of
      the campaign's leads are in it (20% is not enough). */
  lemma JunkStageFlag(count: nat, total: nat)
    requires 0 < total
    ensures Flagged("JUNK", Percentage(count, total) / 100.0) <==> 5 * count > total
  {
    JunkName(Percentage(count, total) / 100.0);
    FractionAbove(count, total);
  }

  /** A stage named exactly "Admission" is red exactly when fewer than one
      in twenty of the campaign's leads are in it. */
  lemma AdmissionStageFlag(count: nat, total: nat)
    requires 0 < total
    ensures Flagged("Admission", Percentage(count, total) / 100.0) <==> 20 * count < total
  {
    AdmissionName(Percentage(count, total) / 100.0);
    FractionBelow(count, total);
  }

  /** The fraction exceeds 20% exactly when five times the count exceeds the total. */
  lemma FractionAbove(count: nat, total: nat)
    requires 0 < total
    ensures Percentage(count, total) / 100.0 > 0.2 <==> 5 * count > total
  {
    var f, t, c := Percentage(count, total) / 100.0, total as real, count as real;
    FractionOfTotal(count, total);
    CompareFraction(f, 0.2, t, c);
    assert c > 0.2 * t <==> 5.0 * c > t;
    assert 5.0 * c == (5 * count) as real;
  }

  /** The fraction is under 5% exactly when twenty times the count is under the total. */
  lemma FractionBelow(count: nat, total: nat)
    requires 0 < total
    ensures Percentage(count, total) / 100.0 < 0.05 <==> 20 * count < total
  {
    var f, t, c := Percentage(count, total) / 100.0, total as real, count as real;
    FractionOfTotal(count, total);
    CompareFraction(f, 0.05, t, c);
    assert c < 0.05 * t <==> 20.0 * c < t;
    assert 20.0 * c == (20 * count) as real;
  }

  /** Scaling both sides by a positive total keeps their order. */
  lemma CompareFraction(f: real, bound: real, t: real, c: real)
    requires t > 0.0 && f * t == c
    ensures f > bound <==> c > bound * t
    ensures f < bound <==> c < bound * t
  {
    assert c - bound * t == (f - bound) * t;
    if f > bound {
      assert (f - bound) * t > 0.0;
    } else if f < bound {
      assert (bound - f) * t > 0.0;
    }
  }

  lemma FractionOfTotal(count: nat, total: nat)
    requires 0 < total
    ensures (Percentage(count, total) / 100.0) * (total as real) == count as real
  {
    var p := Percentage(count, total);
    assert p * (total as real) == (count * 100) as real;
  }

  /** For the name "JUNK" only the more-than-20% rule applies. */
  lemma JunkName(f: real)
    ensures Flagged("JUNK", f) <==> f > 0.2
  {
    AbsentChar("JUNK", "NC", 'C');
    assert OccursAt("JUNK", "JUNK", 0);
  }

  /** For the name "Admission" only the less-than-5% rule applies. */
  lemma AdmissionName(f: real)
    ensures Flagged("Admission", f) <==> f < 0.05
  {
    AbsentChar("Admission", "JUNK", 'J');
    AbsentChar("Admission", "NC", 'N');
    AbsentChar("Admission", "Hot Prospect", 'H');
    AbsentChar("Admission", "Future Prospect", 'F');
    AbsentChar("Admission", "Not Connected", 'N');
    assert OccursAt("Admission", "Admission", 0);
  }

  /** A stage missing from a campaign's breakdown reads as 0.0, which is red
      exactly for the Admission and prospect names and never for the JUNK
      and Not Connected names. */
  lemma MissingStageFlag(name: string)
    ensures Flagged(name, 0.0) <==>
              (Contains(name, "Admission") || name == "A" || Contains(name, "Hot Prospect") || name == "HP" ||
               Contains(name, "Future Prospect") || name == "FP")
    ensures !JunkRule(name, 0.0) && !NotConnectedRule(name, 0.0)
  {
  }

  /** `sub` does not occur in `s` when one of its characters is absent from `s`. */
  lemma AbsentChar(s: string, sub: string, c: char)
    requires c in sub && c !in s
    ensures !Contains(s, sub)
  {
    forall i | 0 <= i <= |s| - |sub| ensures !OccursAt(s, sub, i) {
      var k :| 0 <= k < |sub| && sub[k] == c;
      assert s[i..i + |sub|][k] == s[i + k];
    }
  }

  // ---------------------------------------------------------------------
  // The worksheet

  datatype CellValue = Str(text: string) | Float(x: real) | Int(n: int)

  /** The cell formats of the export; only the red one carries the flag. */
  datatype Style = HeaderStyle | TextStyle | PercentStyle | RedPercentStyle | NumberStyle | LegendTitleStyle | DefaultStyle

  datatype Cell = Cell(value: CellValue, style: Style)
  {
    predicate IsRed()
    {
      style == RedPercentStyle
    }
  }

  /** The cells written so far, by (row, column). */
  class Worksheet {
    var cells: map<(int, int), Cell>

    constructor()
      ensures cells == map[]
    {
      cells := map[];
    }

    /** `worksheet.write(row, col, value, format)` */
    method Write(row: nat, col: nat, value: CellValue, style: Style)
      modifies this
      ensures cells == old(cells)[(row, col) := Cell(value, style)]
    {
      cells := cells[(row, col) := Cell(value, style)];
    }
  }

  /** The cell of campaign `i` in column `col`: its name, the fraction of
      each stage (red when flagged), its total. */
  function DataCell(r: AnalysisResult, i: nat, col: nat): Cell
    requires r.Valid() && i < |r.campaigns.keys| && col <= |r.stages.keys| + 1
  {
    var sm := CampaignAt(r, i);
    if col == 0 then Cell(Str(sm.name), TextStyle)
    else if col == |r.stages.keys| + 1 then Cell(Int(sm.totalLeads), NumberStyle)
    else
      var f := PercentOrZero(sm, r.stages.keys[col - 1]) / 100.0;
      Cell(Float(f), if Flagged(StageName(r, col - 1), f) then RedPercentStyle else PercentStyle)
  }

  /** The legend starts three rows below the row after the last campaign. */
  function LegendRow(campaignCount: nat): nat
  {
    (campaignCount + 1) + 3
  }

  const LegendLines: seq<string> := [
    "Highlighted Conditions (Red):",
    "\U{2022} JUNK > 20%",
    "\U{2022} Not Connected (NC) > 20%",
    "\U{2022} Admission (A) < 5%",
    "\U{2022} Hot Prospect (HP) and Future Prospect (FP) < 5%"
  ]

  function LegendCell(k: nat): Cell
    requires k < |LegendLines|
  {
    Cell(Str(LegendLines[k]), if k == 0 then LegendTitleStyle else DefaultStyle)
  }

  /** The positions `_export_xlsx` writes: the header row, one row per
      campaign, and the five legend lines in the first column. */
  predicate InLayout(r: AnalysisResult, row: int, col: int)
  {
    var m, n := |r.campaigns.keys|, |r.stages.keys|;
    || (0 <= row <= m && 0 <= col <= n + 1)
    || (LegendRow(m) <= row < LegendRow(m) + |LegendLines| && col == 0)
  }

  /** `cells` is the worksheet `_export_xlsx` writes for `r`. */
  ghost predicate IsSheet(r: AnalysisResult, cells: map<(int, int), Cell>)
    requires r.Valid()
  {
    var m, n := |r.campaigns.keys|, |r.stages.keys|;
    && (forall row, col :: (row, col) in cells <==> InLayout(r, row, col))
    && (forall col :: 0 <= col <= n + 1 ==> cells[(0, col)] == Cell(Str(ColumnTitle(r, col)), HeaderStyle))
    && (forall row, col :: 1 <= row <= m && 0 <= col <= n + 1 ==> cells[(row, col)] == DataCell(r, row - 1, col))
    && (forall row :: LegendRow(m) <= row < LegendRow(m) + |LegendLines| ==>
          cells[(row, 0)] == LegendCell(row - LegendRow(m)))
  }

  /** The header row and the first `rows` campaign rows are written, and nothing else. */
  ghost predicate RowsWritten(r: AnalysisResult, cells: map<(int, int), Cell>, rows: nat)
    requires r.Valid() && rows <= |r.campaigns.keys|
  {
    var n := |r.stages.keys|;
    && (forall row, col :: (row, col) in cells <==> 0 <= row <= rows && 0 <= col <= n + 1)
    && (forall col :: 0 <= col <= n + 1 ==> cells[(0, col)] == Cell(Str(ColumnTitle(r, col)), HeaderStyle))
    && (forall row, col :: 1 <= row <= rows && 0 <= col <= n + 1 ==> cells[(row, col)] == DataCell(r, row - 1, col))
  }

  /** The header row, written left to right. */
  method WriteHeader(r: AnalysisResult, sheet: Worksheet)
    requires r.Valid() && sheet.cells == map[]
    modifies sheet
    ensures RowsWritten(r, sheet.cells, 0)
  {
    sheet.Write(0, 0, Str("Campaign"), HeaderStyle);
    var col := 1;
    for j := 0 to |r.stages.keys|
      invariant col == j + 1
      invariant forall row, c :: (row, c) in sheet.cells <==> row == 0 && 0 <= c < col
      invariant forall c :: 0 <= c < col ==> sheet.cells[(0, c)] == Cell(Str(ColumnTitle(r, c)), HeaderStyle)
    {
      sheet.Write(0, col, Str(StageName(r, j) + " (%)"), HeaderStyle);
      col := col + 1;
    }
    sheet.Write(0, col, Str("Total Leads"), HeaderStyle);
  }

  /** The row of campaign `i`, written left to right. */
  method WriteCampaignRow(r: AnalysisResult, sheet: Worksheet, i: nat)
    requires r.Valid() && i < |r.campaigns.keys|
    requires RowsWritten(r, sheet.cells, i)
    modifies sheet
    ensures RowsWritten(r, sheet.cells, i + 1)
  {
    var n := |r.stages.keys|;
    var row := i + 1;
    var sm := CampaignAt(r, i);
    sheet.Write(row, 0, Str(sm.name), TextStyle);
    var col := 1;
    for j := 0 to n
      invariant col == j + 1
      invariant forall rw, c :: (rw, c) in sheet.cells <==>
                  (0 <= rw < row && 0 <= c <= n + 1) || (rw == row && 0 <= c < col)
      invariant forall c :: 0 <= c <= n + 1 ==> sheet.cells[(0, c)] == Cell(Str(ColumnTitle(r, c)), HeaderStyle)
      invariant forall rw, c :: 1 <= rw < row && 0 <= c <= n + 1 ==> sheet.cells[(rw, c)] == DataCell(r, rw - 1, c)
      invariant forall c :: 0 <= c < col ==> sheet.cells[(row, c)] == DataCell(r, i, c)
    {
      var stageId := r.stages.keys[j];
      var percentage := if stageId in sm.stages then sm.stages[stageId].percentage else 0.0;
      var percentageValue := percentage / 100.0;
      var red := UseRedFormat(StageName(r, j), percentageValue);
      assert Cell(Float(percentageValue), if red then RedPercentStyle else PercentStyle) == DataCell(r, i, col);
      sheet.Write(row, col, Float(percentageValue), if red then RedPercentStyle else PercentStyle);
      col := col + 1;
    }
    sheet.Write(row, col, Int(sm.totalLeads), NumberStyle);
  }

  /** The worksheet of `_export_xlsx`. */
  method RenderXlsx(r: AnalysisResult) returns (sheet: Worksheet)
    requires r.Valid()
    ensures fresh(sheet) && IsSheet(r, sheet.cells)
  {
    var m := |r.campaigns.keys|;
    sheet := new Worksheet();
    WriteHeader(r, sheet);
    var row := 1;
    for i := 0 to m
      invariant row == i + 1
      invariant RowsWritten(r, sheet.cells, i)
    {
      WriteCampaignRow(r, sheet, i);
      row := row + 1;
    }
    WriteLegend(r, sheet, row + 3);
  }

  /** The legend: a title and four rule lines in the first column. */
  method WriteLegend(r: AnalysisResult, sheet: Worksheet, legendRow: nat)
    requires r.Valid() && RowsWritten(r, sheet.cells, |r.campaigns.keys|)
    requires legendRow == LegendRow(|r.campaigns.keys|)
    modifies sheet
    ensures IsSheet(r, sheet.cells)
  {
    ghost var before := sheet.cells;
    sheet.Write(legendRow, 0, Str(LegendLines[0]), LegendTitleStyle);
    sheet.Write(legendRow + 1, 0, Str(LegendLines[1]), DefaultStyle);
    sheet.Write(legendRow + 2, 0, Str(LegendLines[2]), DefaultStyle);
    sheet.Write(legendRow + 3, 0, Str(LegendLines[3]), DefaultStyle);
    sheet.Write(legendRow + 4, 0, Str(LegendLines[4]), DefaultStyle);
    LegendAdded(r, before, sheet.cells);
  }

  /** Adding the five legend cells below the campaign rows completes the sheet. */
  lemma LegendAdded(r: AnalysisResult, before: map<(int, int), Cell>, after: map<(int, int), Cell>)
    requires r.Valid() && RowsWritten(r, before, |r.campaigns.keys|)
    requires var l := LegendRow(|r.campaigns.keys|);
             after == before[(l, 0) := LegendCell(0)][(l + 1, 0) := LegendCell(1)][(l + 2, 0) := LegendCell(2)]
                            [(l + 3, 0) := LegendCell(3)][(l + 4, 0) := LegendCell(4)]
    ensures IsSheet(r, after)
  {
    var m, n, l := |r.campaigns.keys|, |r.stages.keys|, LegendRow(|r.campaigns.keys|);
    forall row, col ensures (row, col) in after <==> InLayout(r, row, col) {
    }
    forall row, col | 0 <= row <= m && 0 <= col <= n + 1 ensures after[(row, col)] == before[(row, col)] {
      assert row < l;
    }
  }

  /** Read against the leads: a stage cell of the sheet holds the share of
      the campaign's selected leads that are in that stage, as a fraction
      (0 for a stage the campaign has no breakdown for), and it is red
      exactly when the flag rule holds for the stage's name and that share. */
  lemma SheetCellIsShare(r: AnalysisResult, cells: map<(int, int), Cell>, campaignReg: seq<Entry>,
                         stageReg: seq<Entry>, leads: seq<Lead>, w: Window, i: nat, j: nat)
    requires IsAnalysis(r, campaignReg, stageReg, leads, w) && IsSheet(r, cells)
    requires i < |r.campaigns.keys| && 1 <= j <= |r.stages.keys|
    ensures (i + 1, j) in cells && cells[(i + 1, j)].value.Float?
    ensures cells[(i + 1, j)].value.x * (CampaignAt(r, i).totalLeads as real) ==
              CountGroup(leads, w, r.campaigns.keys[i], Some(r.stages.keys[j - 1])) as real
    ensures cells[(i + 1, j)].IsRed() <==> Flagged(StageName(r, j - 1), cells[(i + 1, j)].value.x)
  {
    var s := r.stages.keys[j - 1];
    assert s in Ids(stageReg);
    ShareOfCampaign(r, campaignReg, stageReg, leads, w, i, s);
    CellFromShare(r, cells, i, j, CountGroup(leads, w, r.campaigns.keys[i], Some(s)));
  }

  /** The sheet alone: when campaign `i`'s fraction for stage `j`, times its
      total, is `count`, so is the value of its cell, and the cell is red
      exactly when the flag rule holds for that value. */
  lemma CellFromShare(r: AnalysisResult, cells: map<(int, int), Cell>, i: nat, j: nat, count: nat)
    requires r.Valid() && IsSheet(r, cells)
    requires i < |r.campaigns.keys| && 1 <= j <= |r.stages.keys|
    requires ShareIs(CampaignAt(r, i), r.stages.keys[j - 1], count)
    ensures (i + 1, j) in cells && cells[(i + 1, j)].value.Float?
    ensures cells[(i + 1, j)].value.x * (CampaignAt(r, i).totalLeads as real) == count as real
    ensures cells[(i + 1, j)].IsRed() <==> Flagged(StageName(r, j - 1), cells[(i + 1, j)].value.x)
  {
    assert InLayout(r, i + 1, j);
    assert cells[(i + 1, j)] == DataCell(r, i, j);
  }

  /** The fraction `sm` shows for stage `s`, times its total, is `count`. */
  predicate ShareIs(sm: Summary, s: int, count: nat)
  {
    (PercentOrZero(sm, s) / 100.0) * (sm.totalLeads as real) == count as real
  }

  /** The fraction a listed campaign shows for a registry stage, times the
      campaign's total, is the stage's lead count. */
  lemma ShareOfCampaign(r: AnalysisResult, campaignReg: seq<Entry>, stageReg: seq<Entry>, leads: seq<Lead>,
                        w: Window, i: nat, s: int)
    requires IsAnalysis(r, campaignReg, stageReg, leads, w)
    requires i < |r.campaigns.keys| && s in Ids(stageReg)
    ensures ShareIs(CampaignAt(r, i), s, CountGroup(leads, w, r.campaigns.keys[i], Some(s)))
  {
    var k := ListedSummary(r, campaignReg, stageReg, leads, w, i);
    SummaryShare(CampaignAt(r, i), campaignReg[k], stageReg, leads, w, r.campaigns.keys[i], s);
  }

  /** A listed campaign summarises some registry campaign's leads. */
  lemma ListedSummary(r: AnalysisResult, campaignReg: seq<Entry>, stageReg: seq<Entry>, leads: seq<Lead>,
                      w: Window, i: nat)
    returns (k: nat)
    requires IsAnalysis(r, campaignReg, stageReg, leads, w)
    requires i < |r.campaigns.keys|
    ensures k < |campaignReg| && campaignReg[k].id == r.campaigns.keys[i]
    ensures Summarizes(CampaignAt(r, i), campaignReg[k], stageReg, leads, w)
  {
    LiveMembers(campaignReg, TotalsQuery(leads, w));
    assert r.campaigns.keys[i] in r.campaigns.keys;
    assert r.campaigns.keys[i] in Ids(campaignReg);
    k :| 0 <= k < |campaignReg| && campaignReg[k].id == r.campaigns.keys[i];
  }

  /** The fraction a campaign's summary shows for a registry stage, times
      the campaign's total, is the stage's lead count. */
  lemma SummaryShare(sm: Summary, e: Entry, stageReg: seq<Entry>, leads: seq<Lead>, w: Window, c: int, s: int)
    requires Summarizes(sm, e, stageReg, leads, w) && e.id == c && s in Ids(stageReg)
    ensures ShareIs(sm, s, CountGroup(leads, w, c, Some(s)))
  {
    GroupWithinCampaign(leads, w, c, Some(s));
    ShareOfBreakdown(sm, s, CountGroup(leads, w, c, Some(s)));
  }

  /** The summary alone: a stage with a breakdown of `count` leads out of
      the total shows `count / total`, and a stage without one has no lead. */
  lemma ShareOfBreakdown(sm: Summary, s: int, count: nat)
    requires count <= sm.totalLeads
    requires s in sm.stages ==> count > 0 && sm.stages[s].percentage == Percentage(count, sm.totalLeads)
    requires s !in sm.stages ==> count == 0
    ensures ShareIs(sm, s, count)
  {
    if s in sm.stages {
      FractionOfTotal(count, sm.totalLeads);
    }
  }

  // ---------------------------------------------------------------------
  // File name

  /** `fields.Date.today()` of the export. */
  datatype CalendarDate = CalendarDate(year: int, month: int, day: int)

  predicate ValidDate(d: CalendarDate)
  {
    1 <= d.year <= 9999 && 1 <= d.month <= 12 && 1 <= d.day <= 31
  }

  /** `strftime("%Y%m%d")` */
  function Stamp(d: CalendarDate): string
    requires ValidDate(d)
  {
    Padded(d.year, 4) + Padded(d.month, 2) + Padded(d.day, 2)
  }

  datatype ExportType = Csv | Xlsx | Pdf

  function Extension(t: ExportType): string
  {
    match t
    case Csv => "csv"
    case Xlsx => "xlsx"
    case Pdf => "pdf"
  }

  function FileName(today: CalendarDate, t: ExportType): string
    requires ValidDate(today)
  {
    "campaign_analysis_" + Stamp(today) + "." + Extension(t)
  }

  /** The file name is the fixed prefix, eight digits that read back as
      the export day's year, month and day, a dot and the extension. */
  lemma FileNameParts(today: CalendarDate, t: ExportType)
    requires ValidDate(today)
    ensures var f := FileName(today, t);
      && |f| == 27 + |Extension(t)|
      && f[..18] == "campaign_analysis_"
      && (forall i :: 18 <= i < 26 ==> IsDigit(f[i]))
      && ParseDecimal(f[18..22]) == today.year
      && ParseDecimal(f[22..24]) == today.month
      && ParseDecimal(f[24..26]) == today.day
      && f[26] == '.'
      && f[27..] == Extension(t)
  {
    assert Pow10(2) == 100 && Pow10(4) == 10000;
    PaddedRoundTrip(today.year, 4);
    PaddedRoundTrip(today.month, 2);
    PaddedRoundTrip(today.day, 2);
    var f := FileName(today, t);
    var y, m, d := Padded(today.year, 4), Padded(today.month, 2), Padded(today.day, 2);
    assert f == "campaign_analysis_" + y + m + d + "." + Extension(t);
    assert f[18..22] == y;
    assert f[22..24] == m;
    assert f[24..26] == d;
    forall i | 18 <= i < 26 ensures IsDigit(f[i]) {
      if i < 22 { assert f[i] == y[i - 18]; }
      else if i < 24 { assert f[i] == m[i - 22]; }
      else { assert f[i] == d[i - 24]; }
    }
  }

  // ---------------------------------------------------------------------
  // The wizard record

  datatype WizardState = Choose | Done

  /** The `data` field: the produced file, before base64 encoding. */
  datatype Payload = NoFile | CsvFile(rows: seq<seq<string>>) | XlsxFile(cells: map<(int, int), Cell>) | PdfFile(bytes: seq<bv8>)

  class ExportWizard {
    var exportType: ExportType
    var data: Payload
    var filename: Option<string>
    var state: WizardState

    /** A new wizard: Excel chosen, nothing exported yet. */
    constructor()
      ensures exportType == Xlsx && data == NoFile && filename == None && state == Choose
    {
      exportType := Xlsx;
      data := NoFile;
      filename := None;
      state := Choose;
    }

    /** `_export_csv` */
    method ExportCsv(r: AnalysisResult, today: CalendarDate)
      requires r.Valid() && ValidDate(today)
      modifies this
      ensures data.CsvFile? && IsCsv(r, data.rows)
      ensures filename == Some(FileName(today, Csv)) && state == Done
      ensures exportType == old(exportType)
    {
      var rows := RenderCsv(r);
      data := CsvFile(rows);
      filename := Some(FileName(today, Csv));
      state := Done;
    }

    /** `_export_xlsx` */
    method ExportXlsx(r: AnalysisResult, today: CalendarDate)
      requires r.Valid() && ValidDate(today)
      modifies this
      ensures data.XlsxFile? && IsSheet(r, data.cells)
      ensures filename == Some(FileName(today, Xlsx)) && state == Done
      ensures exportType == old(exportType)
    {
      var sheet := RenderXlsx(r);
      data := XlsxFile(sheet.cells);
      filename := Some(FileName(today, Xlsx));
      state := Done;
    }

    /** `_export_pdf`; `pdf` is what the report engine renders. */
    method ExportPdf(today: CalendarDate, pdf: seq<bv8>)
      requires ValidDate(today)
      modifies this
      ensures data == PdfFile(pdf)
      ensures filename == Some(FileName(today, Pdf)) && state == Done
      ensures exportType == old(exportType)
    {
      data := PdfFile(pdf);
      filename := Some(FileName(today, Pdf));
      state := Done;
    }

    /** `action_export`: analyse the context's `dateFrom` to `dateTo`, then
        export in the chosen format. The plain dates go to the engine as they
        are, so each bound is midnight of its day (`MidnightWindow`);
        `AsWrittenExportNeverListsMore` compares this with the whole-day
        `ExportWindow`. */
    method ActionExport(campaignReg: seq<Entry>, stageReg: seq<Entry>, leads: seq<Lead>,
                        dateFrom: Option<int>, dateTo: Option<int>, today: CalendarDate, pdf: seq<bv8>)
      returns (ghost r: AnalysisResult)
      requires UniqueIds(campaignReg) && UniqueIds(stageReg) && ValidDate(today)
      modifies this
      ensures IsAnalysis(r, campaignReg, stageReg, leads, MidnightWindow(dateFrom, dateTo))
      ensures filename == Some(FileName(today, exportType)) && state == Done
      ensures exportType == old(exportType)
      ensures exportType == Csv ==> data.CsvFile? && IsCsv(r, data.rows)
      ensures exportType == Xlsx ==> data.XlsxFile? && IsSheet(r, data.cells)
      ensures exportType == Pdf ==> data == PdfFile(pdf)
    {
      var result := CampaignStageAnalysis(campaignReg, stageReg, leads, MidnightWindow(dateFrom, dateTo));
      r := result;
      match exportType
      case Csv => ExportCsv(result, today);
      case Xlsx => ExportXlsx(result, today);
      case Pdf => ExportPdf(today, pdf);
    }
  }

  /** Each midnight bound lies inside the whole day it names. */
  lemma MidnightWithinDays(from: Option<int>, to: Option<int>)
    ensures Narrows(MidnightWindow(from, to), ExportWindow(from, to))
  {
    if to.Some? {
      assert Midnight(to.value) <= EndOf(Day(to.value));
    }
  }

  /** The export as written never lists a campaign, a stage or a count that
      the whole-day window would not: its window is the narrower one. */
  lemma AsWrittenExportNeverListsMore(asWritten: AnalysisResult, intended: AnalysisResult, campaignReg: seq<Entry>,
                                      stageReg: seq<Entry>, leads: seq<Lead>, from: Option<int>, to: Option<int>)
    requires IsAnalysis(asWritten, campaignReg, stageReg, leads, MidnightWindow(from, to))
    requires IsAnalysis(intended, campaignReg, stageReg, leads, ExportWindow(from, to))
    ensures forall c :: c in asWritten.campaigns.entries ==>
              && c in intended.campaigns.entries
              && asWritten.campaigns.entries[c].totalLeads <= intended.campaigns.entries[c].totalLeads
              && (forall s :: s in asWritten.campaigns.entries[c].stages ==>
                    && s in intended.campaigns.entries[c].stages
                    && asWritten.campaigns.entries[c].stages[s].leadCount <= intended.campaigns.entries[c].stages[s].leadCount)
  {
    MidnightWithinDays(from, to);
    NarrowerWindowNeverGrows(asWritten, intended, campaignReg, stageReg, leads,
                             MidnightWindow(from, to), ExportWindow(from, to));
  }

  /** A lead created at noon on the `to` day: the export as written leaves
      its campaign out, while the HTML report over the same days lists it. */
  lemma MidnightExportMissesLastDay(asWritten: AnalysisResult, intended: AnalysisResult)
    requires IsAnalysis(asWritten, [Entry(1, "Spring")], [], [Lead(Some(1), None, Midnight(7) + MicrosPerDay / 2)],
                        MidnightWindow(None, Some(7)))
    requires IsAnalysis(intended, [Entry(1, "Spring")], [], [Lead(Some(1), None, Midnight(7) + MicrosPerDay / 2)],
                        ExportWindow(None, Some(7)))
    ensures asWritten.campaigns.keys == []
    ensures intended.campaigns.keys == [1] && intended.campaigns.entries[1].totalLeads == 1
  {
    var reg := [Entry(1, "Spring")];
    var leads := [Lead(Some(1), None, Midnight(7) + MicrosPerDay / 2)];
    MidnightDropsLastDay(None, 7, leads[0].created);
    var late := MidnightWindow(None, Some(7));
    var full := ExportWindow(None, Some(7));
    assert CountCampaign(leads, late, 1) == 0 by { assert CountCampaign(leads[1..], late, 1) == 0; }
    assert CountCampaign(leads, full, 1) == 1 by { assert CountCampaign(leads[1..], full, 1) == 0; }
    LiveMembers(reg, TotalsQuery(leads, late));
    LiveMembers(reg, TotalsQuery(leads, full));
    assert Ids(reg) == [1];
    LiveDistinct(reg, TotalsQuery(leads, full));
    var live := Live(reg, TotalsQuery(leads, full));
    assert forall k :: k in live <==> k == 1;
    assert live == [1] by {
      assert Live(reg, TotalsQuery(leads, full)) == Live([], TotalsQuery(leads, full)) + [1];
    }
    assert Live(reg, TotalsQuery(leads, late)) == [] by {
      assert Live(reg, TotalsQuery(leads, late)) == Live([], TotalsQuery(leads, late));
    }
  }
}
