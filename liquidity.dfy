/**
 * The liquidity block that follows the processed table: the current ratio of
 * each year (current assets over current liabilities), the growth of current
 * assets, and the year-over-year delta of the ratio.  Every figure that cannot
 * be computed is "N/A", here None.
 */
module Liquidity {
  import opened Wrappers
  import opened Matching
  import opened Statement

  /** Marker of the current-assets line ("CURRENT ASSETS"). */
  const CurrentAssetsMarker: string := "TÀI SẢN NGẮN HẠN"

  /** Marker of the current-liabilities line ("CURRENT LIABILITIES"). */
  const CurrentLiabilitiesMarker: string := "NỢ NGẮN HẠN"

  /** Both markers are written in capitals, so folding them changes nothing. */
  lemma CurrentAssetsMarkerFolded()
    ensures IsFolded(CurrentAssetsMarker)
  {
    forall i | 0 <= i < |CurrentAssetsMarker| ensures Fold(CurrentAssetsMarker[i]) == CurrentAssetsMarker[i] {
      assert CurrentAssetsMarker[i] in {'T', 'À', 'I', ' ', 'S', 'Ả', 'N', 'G', 'Ắ', 'H', 'Ạ'};
    }
    FoldsByCharacters(CurrentAssetsMarker, CurrentAssetsMarker);
  }

  lemma CurrentLiabilitiesMarkerFolded()
    ensures IsFolded(CurrentLiabilitiesMarker)
  {
    forall i | 0 <= i < |CurrentLiabilitiesMarker| ensures Fold(CurrentLiabilitiesMarker[i]) == CurrentLiabilitiesMarker[i] {
      assert CurrentLiabilitiesMarker[i] in {'N', 'Ợ', ' ', 'G', 'Ắ', 'H', 'Ạ'};
    }
    FoldsByCharacters(CurrentLiabilitiesMarker, CurrentLiabilitiesMarker);
  }

  /** Each of the three markers matches a line item that is the marker itself. */
  lemma MarkersMatchThemselves()
    ensures Matches(Text(TotalAssetsMarker), TotalAssetsMarker)
    ensures Matches(Text(CurrentAssetsMarker), CurrentAssetsMarker)
    ensures Matches(Text(CurrentLiabilitiesMarker), CurrentLiabilitiesMarker)
  {
    TotalAssetsMarkerFolded();
    CurrentAssetsMarkerFolded();
    CurrentLiabilitiesMarkerFolded();
    MatchesWhenFoldedEqual(TotalAssetsMarker, TotalAssetsMarker);
    MatchesWhenFoldedEqual(CurrentAssetsMarker, CurrentAssetsMarker);
    MatchesWhenFoldedEqual(CurrentLiabilitiesMarker, CurrentLiabilitiesMarker);
  }

  /** The total-assets marker also matches the line item written all in lower case. */
  lemma LowerCaseTotalAssetsMatches()
    ensures Matches(Text("tổng cộng tài sản"), TotalAssetsMarker)
  {
    var lower := "tổng cộng tài sản";
    forall i | 0 <= i < |lower| ensures Fold(lower[i]) == TotalAssetsMarker[i] {
      assert (lower[i], TotalAssetsMarker[i]) in
        {('t', 'T'), ('ổ', 'Ổ'), ('n', 'N'), ('g', 'G'), (' ', ' '), ('c', 'C'),
         ('ộ', 'Ộ'), ('à', 'À'), ('i', 'I'), ('s', 'S'), ('ả', 'Ả')};
    }
    FoldsByCharacters(lower, TotalAssetsMarker);
    TotalAssetsMarkerFolded();
    MatchesWhenFoldedEqual(lower, TotalAssetsMarker);
  }

  /**
   * The figures of the block: the current ratio of the current and of the
   * prior year, the growth of current assets (shown as "x.xx%"), and whether
   * the missing-row warning is raised.
   */
  datatype Indicators = Indicators(
    ratioCurrent: Option<real>,
    ratioPrior: Option<real>,
    assetsGrowth: Option<real>,
    missingInput: bool)

  function RowItems(rows: seq<AnalyzedRow>): seq<Label>
  {
    seq(|rows|, i requires 0 <= i < |rows| => rows[i].item)
  }

  /** One year's ratio: computed only when that year's liabilities are nonzero. */
  function YearRatio(assets: real, liabilities: real): Option<real>
  {
    if liabilities != 0.0 then Some(assets / liabilities) else None
  }

  lemma YearRatioMeaning(assets: real, liabilities: real)
    ensures YearRatio(assets, liabilities).Some? <==> liabilities != 0.0
    ensures YearRatio(assets, liabilities).Some? ==> YearRatio(assets, liabilities).value * liabilities == assets
  {
  }

  /**
   * The block as the source runs it: the current-assets row is looked up
   * first and its growth recorded; only then is the liabilities row looked
   * up.  A missing row stops the block with both ratios left at "N/A".
   */
  function CurrentRatios(rows: seq<AnalyzedRow>): (ind: Indicators)
    ensures ind.missingInput ==> ind.ratioCurrent.None? && ind.ratioPrior.None?
    ensures ind.assetsGrowth.None? ==> ind.missingInput
  {
    match FirstMatch(RowItems(rows), CurrentAssetsMarker)
    case None => Indicators(None, None, None, true)
    case Some(a) =>
      match FirstMatch(RowItems(rows), CurrentLiabilitiesMarker)
      case None => Indicators(None, None, Some(rows[a].growth), true)
      case Some(l) =>
        Indicators(YearRatio(rows[a].current, rows[l].current),
                   YearRatio(rows[a].prior, rows[l].prior),
                   Some(rows[a].growth), false)
  }

  /** The delta shown beside the current-year ratio: only when both ratios are numbers. */
  function RatioDelta(ind: Indicators): (d: Option<real>)
    ensures d.Some? <==> ind.ratioCurrent.Some? && ind.ratioPrior.Some?
    ensures d.Some? ==> ind.ratioPrior.value + d.value == ind.ratioCurrent.value
  {
    if ind.ratioCurrent.Some? && ind.ratioPrior.Some? then
      Some(ind.ratioCurrent.value - ind.ratioPrior.value)
    else None
  }

  /**
   * With both rows present, the ratios come from the first current-assets row a
   * and the first current-liabilities row l, each year decided on its own
   * liabilities value, and no warning is raised.
   */
  lemma RatiosWhenRowsPresent(rows: seq<AnalyzedRow>, a: int, l: int)
    requires IsFirstMatch(RowItems(rows), CurrentAssetsMarker, a)
    requires IsFirstMatch(RowItems(rows), CurrentLiabilitiesMarker, l)
    ensures var ind := CurrentRatios(rows);
      && 0 <= a < |rows| && 0 <= l < |rows|
      && (rows[l].current != 0.0 ==> ind.ratioCurrent == Some(rows[a].current / rows[l].current))
      && (rows[l].current == 0.0 ==> ind.ratioCurrent == None)
      && (rows[l].prior != 0.0 ==> ind.ratioPrior == Some(rows[a].prior / rows[l].prior))
      && (rows[l].prior == 0.0 ==> ind.ratioPrior == None)
      && ind.assetsGrowth == Some(rows[a].growth)
      && !ind.missingInput
  {
    FirstMatchFinds(RowItems(rows), CurrentAssetsMarker, a);
    FirstMatchFinds(RowItems(rows), CurrentLiabilitiesMarker, l);
  }

  /** Without a current-assets row nothing is computed: both ratios and the growth are "N/A" and the warning is raised. */
  lemma RatiosWhenAssetsMissing(rows: seq<AnalyzedRow>)
    requires forall i :: 0 <= i < |rows| ==> !Matches(rows[i].item, CurrentAssetsMarker)
    ensures CurrentRatios(rows) == Indicators(None, None, None, true)
  {
    FirstMatchCorrect(RowItems(rows), CurrentAssetsMarker);
    assert !HasMatch(RowItems(rows), CurrentAssetsMarker);
  }

  /**
   * With a current-assets row a but no current-liabilities row, both ratios are
   * "N/A" and the warning is raised, yet the current-assets growth has already been taken.
   */
  lemma RatiosWhenLiabilitiesMissing(rows: seq<AnalyzedRow>, a: int)
    requires IsFirstMatch(RowItems(rows), CurrentAssetsMarker, a)
    requires forall i :: 0 <= i < |rows| ==> !Matches(rows[i].item, CurrentLiabilitiesMarker)
    ensures 0 <= a < |rows|
    ensures CurrentRatios(rows) == Indicators(None, None, Some(rows[a].growth), true)
  {
    FirstMatchFinds(RowItems(rows), CurrentAssetsMarker, a);
    FirstMatchCorrect(RowItems(rows), CurrentLiabilitiesMarker);
    assert !HasMatch(RowItems(rows), CurrentLiabilitiesMarker);
  }

  /** The warning is raised exactly when one of the two rows is missing. */
  lemma WarningIffRowMissing(rows: seq<AnalyzedRow>)
    ensures CurrentRatios(rows).missingInput <==>
      !HasMatch(RowItems(rows), CurrentAssetsMarker) || !HasMatch(RowItems(rows), CurrentLiabilitiesMarker)
    ensures CurrentRatios(rows).assetsGrowth.Some? <==> HasMatch(RowItems(rows), CurrentAssetsMarker)
  {
    FirstMatchCorrect(RowItems(rows), CurrentAssetsMarker);
    FirstMatchCorrect(RowItems(rows), CurrentLiabilitiesMarker);
  }

  /** The report of one upload: the processed table and its liquidity figures. */
  datatype Report = Report(rows: seq<AnalyzedRow>, indicators: Indicators)

  /** Processing, then the liquidity block on the processed table. */
  function Analyze(raw: seq<RawRow>): (r: Result<Report, AnalysisError>)
    ensures r.Failure? <==> Process(raw).Failure?
    ensures r.Failure? ==> r.error == Process(raw).error
    ensures r.Success? ==> r.value.rows == Process(raw).value
    ensures r.Success? ==> r.value.indicators == CurrentRatios(r.value.rows)
  {
    match Process(raw)
    case Failure(e) => Failure(e)
    case Success(rows) => Success(Report(rows, CurrentRatios(rows)))
  }

  /** The liquidity figures are computed only for a table that has a total-assets row. */
  lemma AnalyzeFailsIffNoTotalAssets(raw: seq<RawRow>)
    ensures Analyze(raw).Failure? <==>
      forall i :: 0 <= i < |raw| ==> !Matches(raw[i].item, TotalAssetsMarker)
    ensures Analyze(raw).Failure? ==>
      Analyze(raw).error == (if |raw| > 0 && forall i :: 0 <= i < |raw| ==> raw[i].item.NotText? then LabelsNotText else MissingTotalAssets)
  {
    ProcessFailsIffNoTotalAssets(raw);
  }

  /**
   * Example: current assets 500 and 600, current liabilities 250
   * and 0, give a prior-year ratio of 2 and an "N/A" current-year ratio, so no delta.
   */
  lemma CurrentRatioExample(rows: seq<AnalyzedRow>, a: int, l: int)
    requires IsFirstMatch(RowItems(rows), CurrentAssetsMarker, a)
    requires IsFirstMatch(RowItems(rows), CurrentLiabilitiesMarker, l)
    requires rows[a].prior == 500.0 && rows[a].current == 600.0
    requires rows[l].prior == 250.0 && rows[l].current == 0.0
    ensures CurrentRatios(rows).ratioPrior == Some(2.0)
    ensures CurrentRatios(rows).ratioCurrent == None
    ensures RatioDelta(CurrentRatios(rows)) == None
  {
    RatiosWhenRowsPresent(rows, a, l);
  }
}
