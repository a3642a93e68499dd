/**
 * The statement analysis of `process_financial_data`: coerce the two value
 * columns to numbers, add the growth column, locate the total-assets row and
 * add the two composition columns.
 */
module Statement {
  import opened Wrappers
  import opened Matching

  /** The stand-in divisor used wherever a zero would be divided by. */
  const Epsilon: real := 0.000000001

  /** 100 / Epsilon: the factor a percentage over a zero denominator is scaled by. */
  const EpsilonScale: real := 100000000000.0

  /** Marker of the total-assets line ("TOTAL ASSETS"). */
  const TotalAssetsMarker: string := "TỔNG CỘNG TÀI SẢN"

  /** The marker is written in capitals, so it matches a line item that spells it in any case. */
  lemma TotalAssetsMarkerFolded()
    ensures IsFolded(TotalAssetsMarker)
  {
    forall i | 0 <= i < |TotalAssetsMarker| ensures Fold(TotalAssetsMarker[i]) == TotalAssetsMarker[i] {
      assert TotalAssetsMarker[i] in {'T', 'Ổ', 'N', 'G', ' ', 'C', 'Ộ', 'À', 'I', 'S', 'Ả'};
    }
    FoldsByCharacters(TotalAssetsMarker, TotalAssetsMarker);
  }

  /** A value cell as read from the sheet: a parsed number, or anything numeric coercion rejects (text, blank). */
  datatype Cell = Number(v: real) | Unparsable

  /** One input row: line item, prior-year value, current-year value. */
  datatype RawRow = RawRow(item: Label, prior: Cell, current: Cell)

  /** A row after coercion of its two value cells. */
  datatype Line = Line(item: Label, prior: real, current: real)

  /** A row of the processed table: the three input columns and the three derived percentages. */
  datatype AnalyzedRow = AnalyzedRow(
    item: Label, prior: real, current: real,
    growth: real, priorShare: real, currentShare: real)

  /**
   * Why processing stops: no line item contains the total-assets marker, or
   * the label column of a nonempty table holds no text at all, which the
   * string accessor of the lookup rejects outright.
   */
  datatype AnalysisError = MissingTotalAssets | LabelsNotText

  /** Some line item is text: the condition under which the string accessor accepts a nonempty label column. */
  predicate LabelsHoldText(raw: seq<RawRow>)
  {
    exists i :: 0 <= i < |raw| && raw[i].item.Text?
  }

  /** `pd.to_numeric(errors='coerce').fillna(0)` on one cell. */
  function ToNumeric(c: Cell): real
  {
    match c
    case Number(v) => v
    case Unparsable => 0.0
  }

  /** `x if x != 0 else 1e-9`. */
  function SafeDivisor(x: real): (d: real)
    ensures d != 0.0
    ensures x != 0.0 ==> d == x
  {
    if x != 0.0 then x else Epsilon
  }

  /**
   * Growth in percent from prior to current.  With a nonzero prior value it is
   * the relative change; with a zero prior value the change is scaled by 100 / 1e-9.
   */
  function GrowthPercent(prior: real, current: real): real
  {
    (current - prior) / SafeDivisor(prior) * 100.0
  }

  lemma GrowthPercentMeaning(prior: real, current: real)
    ensures prior != 0.0 ==> GrowthPercent(prior, current) * prior == (current - prior) * 100.0
    ensures prior == 0.0 ==> GrowthPercent(prior, current) == current * EpsilonScale
  {
  }

  /** Share in percent of a value in a total; a zero total is replaced by 1e-9. */
  function SharePercent(value: real, total: real): real
  {
    value / SafeDivisor(total) * 100.0
  }

  lemma SharePercentMeaning(value: real, total: real)
    ensures total != 0.0 ==> SharePercent(value, total) * total == value * 100.0
    ensures total == 0.0 ==> SharePercent(value, total) == value * EpsilonScale
    ensures value == total && total != 0.0 ==> SharePercent(value, total) == 100.0
  {
  }

  /** The line-item column. */
  function Items(raw: seq<RawRow>): seq<Label>
  {
    seq(|raw|, i requires 0 <= i < |raw| => raw[i].item)
  }

  /** The coercion loop over the two value columns. */
  function Coerce(raw: seq<RawRow>): (lines: seq<Line>)
    ensures |lines| == |raw|
    ensures forall i :: 0 <= i < |raw| ==>
      lines[i] == Line(raw[i].item, ToNumeric(raw[i].prior), ToNumeric(raw[i].current))
  {
    if raw == [] then []
    else [Line(raw[0].item, ToNumeric(raw[0].prior), ToNumeric(raw[0].current))] + Coerce(raw[1..])
  }

  /** Adds the growth column and the two composition columns over the given per-year totals. */
  function Extend(lines: seq<Line>, priorTotal: real, currentTotal: real): (rows: seq<AnalyzedRow>)
    ensures |rows| == |lines|
    ensures forall i :: 0 <= i < |lines| ==>
      rows[i] == AnalyzedRow(lines[i].item, lines[i].prior, lines[i].current,
                             GrowthPercent(lines[i].prior, lines[i].current),
                             SharePercent(lines[i].prior, priorTotal),
                             SharePercent(lines[i].current, currentTotal))
  {
    if lines == [] then []
    else
      var l := lines[0];
      [AnalyzedRow(l.item, l.prior, l.current, GrowthPercent(l.prior, l.current),
                   SharePercent(l.prior, priorTotal), SharePercent(l.current, currentTotal))]
      + Extend(lines[1..], priorTotal, currentTotal)
  }

  /**
   * `process_financial_data`: the processed table, or why it could not be built.
   * The source rejects a label column without text before it filters; since a
   * matching row always holds text, asking only when no row matches is the same.
   */
  function Process(raw: seq<RawRow>): (r: Result<seq<AnalyzedRow>, AnalysisError>)
    ensures r.Success? ==> |r.value| == |raw|
  {
    var lines := Coerce(raw);
    match FirstMatch(Items(raw), TotalAssetsMarker)
    case None => Failure(if raw != [] && !LabelsHoldText(raw) then LabelsNotText else MissingTotalAssets)
    case Some(k) => Success(Extend(lines, lines[k].prior, lines[k].current))
  }

  /** The processed table, spelt out over the first total-assets row k. */
  lemma ProcessValue(raw: seq<RawRow>, k: int)
    requires FirstMatch(Items(raw), TotalAssetsMarker) == Some(k)
    ensures 0 <= k < |raw|
    ensures Process(raw) == Success(Extend(Coerce(raw), Coerce(raw)[k].prior, Coerce(raw)[k].current))
  {
  }

  /**
   * Processing fails exactly when no line item contains the total-assets
   * marker; the error says the labels are not text exactly when the table is
   * nonempty and none of its line items is text.
   */
  lemma ProcessFailsIffNoTotalAssets(raw: seq<RawRow>)
    ensures Process(raw).Failure? <==>
      forall i :: 0 <= i < |raw| ==> !Matches(raw[i].item, TotalAssetsMarker)
    ensures Process(raw).Failure? ==>
      Process(raw).error == (if |raw| > 0 && forall i :: 0 <= i < |raw| ==> raw[i].item.NotText? then LabelsNotText else MissingTotalAssets)
  {
    FirstMatchCorrect(Items(raw), TotalAssetsMarker);
    if Process(raw).Failure? {
      assert !HasMatch(Items(raw), TotalAssetsMarker);
      forall i | 0 <= i < |raw| ensures !Matches(raw[i].item, TotalAssetsMarker) {
        assert Items(raw)[i] == raw[i].item;
      }
    } else {
      var k := FirstMatch(Items(raw), TotalAssetsMarker).value;
      assert Items(raw)[k] == raw[k].item;
    }
  }

  /**
   * The processed table has the input's rows, in order, with line items unchanged;
   * a value cell that fails coercion reads as 0 and a number reads as itself.
   */
  lemma ProcessKeepsRows(raw: seq<RawRow>)
    requires Process(raw).Success?
    ensures |Process(raw).value| == |raw|
    ensures forall i :: 0 <= i < |raw| ==>
      var r := Process(raw).value[i];
      && r.item == raw[i].item
      && (raw[i].prior.Unparsable? ==> r.prior == 0.0)
      && (raw[i].prior.Number? ==> r.prior == raw[i].prior.v)
      && (raw[i].current.Unparsable? ==> r.current == 0.0)
      && (raw[i].current.Number? ==> r.current == raw[i].current.v)
  {
  }

  /** Row i of the processed table, spelt out. */
  lemma ProcessRow(raw: seq<RawRow>, i: int)
    requires Process(raw).Success?
    requires 0 <= i < |raw|
    ensures var k := FirstMatch(Items(raw), TotalAssetsMarker).value;
      && k < |raw| && i < |Process(raw).value|
      && Process(raw).value[i] == AnalyzedRow(
           raw[i].item, ToNumeric(raw[i].prior), ToNumeric(raw[i].current),
           GrowthPercent(ToNumeric(raw[i].prior), ToNumeric(raw[i].current)),
           SharePercent(ToNumeric(raw[i].prior), ToNumeric(raw[k].prior)),
           SharePercent(ToNumeric(raw[i].current), ToNumeric(raw[k].current)))
  {
    ProcessValue(raw, FirstMatch(Items(raw), TotalAssetsMarker).value);
  }

  /** Every row's growth is the percentage change, and the 1e-9 stand-in applies exactly when prior is 0. */
  lemma ProcessGrowth(raw: seq<RawRow>, i: int)
    requires Process(raw).Success?
    requires 0 <= i < |raw|
    ensures i < |Process(raw).value|
    ensures var r := Process(raw).value[i];
      && (r.prior != 0.0 ==> r.growth == (r.current - r.prior) / r.prior * 100.0)
      && (r.prior == 0.0 ==> r.growth == (r.current - r.prior) / Epsilon * 100.0)
  {
    ProcessRow(raw, i);
  }

  /**
   * Composition uses the first total-assets row k: each year's share of every
   * row is its value over row k's value of that year, that value replaced by
   * 1e-9 when it is 0, each year independently.
   */
  lemma ProcessComposition(raw: seq<RawRow>, k: int, i: int)
    requires IsFirstMatch(Items(raw), TotalAssetsMarker, k)
    requires 0 <= i < |raw|
    ensures Process(raw).Success?
    ensures var rows := Process(raw).value;
      && |rows| == |raw|
      && (rows[k].prior != 0.0 ==> rows[i].priorShare == rows[i].prior / rows[k].prior * 100.0)
      && (rows[k].prior == 0.0 ==> rows[i].priorShare == rows[i].prior / Epsilon * 100.0)
      && (rows[k].current != 0.0 ==> rows[i].currentShare == rows[i].current / rows[k].current * 100.0)
      && (rows[k].current == 0.0 ==> rows[i].currentShare == rows[i].current / Epsilon * 100.0)
  {
    FirstMatchFinds(Items(raw), TotalAssetsMarker, k);
    ProcessRow(raw, i);
    ProcessRow(raw, k);
  }

  /** The total-assets row's own share is 100 in a year where its value is nonzero, and 0 otherwise. */
  lemma TotalAssetsShare(raw: seq<RawRow>, k: int)
    requires IsFirstMatch(Items(raw), TotalAssetsMarker, k)
    ensures Process(raw).Success?
    ensures var rows := Process(raw).value;
      && |rows| == |raw|
      && rows[k].priorShare == (if rows[k].prior != 0.0 then 100.0 else 0.0)
      && rows[k].currentShare == (if rows[k].current != 0.0 then 100.0 else 0.0)
  {
    FirstMatchFinds(Items(raw), TotalAssetsMarker, k);
    ProcessRow(raw, k);
    var p, c := ToNumeric(raw[k].prior), ToNumeric(raw[k].current);
    OwnShare(p);
    OwnShare(c);
  }

  /** A value's share in itself. */
  lemma OwnShare(x: real)
    ensures SharePercent(x, x) == (if x != 0.0 then 100.0 else 0.0)
  {
    if x != 0.0 {
      assert x / x == 1.0;
    }
  }

  /** The processed table's first three columns, as they would be read back. */
  function Resubmit(rows: seq<AnalyzedRow>): (raw: seq<RawRow>)
    ensures |raw| == |rows|
    ensures forall i :: 0 <= i < |rows| ==>
      raw[i] == RawRow(rows[i].item, Number(rows[i].prior), Number(rows[i].current))
  {
    if rows == [] then []
    else [RawRow(rows[0].item, Number(rows[0].prior), Number(rows[0].current))] + Resubmit(rows[1..])
  }

  /** Processing its own output again reproduces the same table: the analysis is idempotent. */
  lemma ReprocessIsIdentity(raw: seq<RawRow>)
    requires Process(raw).Success?
    ensures Process(Resubmit(Process(raw).value)) == Process(raw)
  {
    var k := FirstMatch(Items(raw), TotalAssetsMarker).value;
    ProcessValue(raw, k);
    var lines := Coerce(raw);
    var rows := Process(raw).value;
    var again := Resubmit(rows);
    assert Items(again) == Items(raw) by {
      forall i | 0 <= i < |raw| ensures Items(again)[i] == Items(raw)[i] {
        assert rows[i].item == lines[i].item;
      }
    }
    assert Coerce(again) == lines by {
      forall i | 0 <= i < |raw| ensures Coerce(again)[i] == lines[i] {
        assert again[i] == RawRow(rows[i].item, Number(rows[i].prior), Number(rows[i].current));
      }
    }
    assert FirstMatch(Items(again), TotalAssetsMarker) == Some(k);
    ProcessValue(again, k);
  }

  /** Example: totals 1000 and 2000, a row of 100 and 300 has shares 10% and 15%. */
  lemma CompositionExample(a: Label, b: Label)
    requires Matches(a, TotalAssetsMarker) && !Matches(b, TotalAssetsMarker)
    ensures var raw := [RawRow(a, Number(1000.0), Number(2000.0)), RawRow(b, Number(100.0), Number(300.0))];
      && Process(raw).Success?
      && |Process(raw).value| == 2
      && Process(raw).value[1].priorShare == 10.0
      && Process(raw).value[1].currentShare == 15.0
      && Process(raw).value[1].growth == 200.0
  {
    var raw := [RawRow(a, Number(1000.0), Number(2000.0)), RawRow(b, Number(100.0), Number(300.0))];
    assert IsFirstMatch(Items(raw), TotalAssetsMarker, 0);
    ProcessComposition(raw, 0, 1);
  }
}
