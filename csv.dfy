/**
 * The text of the CSV export: a metric table (header and five rows), an empty
 * line, and a month table (header and one row per breakdown entry), joined with
 * newlines. Number formatting (`String(n)`) is left abstract as the argument
 * `show`; the browser download itself is not modelled.
 */
module Csv {
  import opened Optional
  import opened Text
  import opened EstimateTypes

  /** Number formatting never produces a comma or a newline. */
  ghost predicate PlainFormat(show: real -> string) {
    forall x :: ',' !in show(x) && '\n' !in show(x)
  }

  /**
   * `String(result.roiPct)`. The export runs on the JSON reply, where a NaN ROI
   * arrives as `null`, which prints as "null".
   */
  function ShowRoi(roi: Option<real>, show: real -> string): (text: string) {
    match roi
    case Some(x) => show(x)
    case None => "null"
  }

  /** The header of the metric table. */
  const MetricHeader: seq<string> := ["Metric", "Value"]

  /** The header of the month table. */
  const MonthlyHeader: seq<string> := ["Month", "Spend", "Revenue"]

  /** The five metric rows, label then value, in the order of the export. */
  function MetricRows(result: EstimateResponse, show: real -> string): (rows: seq<seq<string>>)
    ensures |rows| == 5 && |rows[2]| == 2 && rows[2][0] == "ROI (%)" && rows[2][1] == ShowRoi(result.roiPct, show)
  {
    [ ["Estimated Spend (Total)", show(result.totalSpend)],
      ["Estimated Revenue (Total)", show(result.totalRevenue)],
      ["ROI (%)", ShowRoi(result.roiPct, show)],
      ["Estimated CPC", show(result.estimatedCpc)],
      ["Estimated CPM", show(result.estimatedCpm)] ]
  }

  /** One month as cells: month number, spend, revenue. */
  function MonthlyRow(m: MonthlyBreakdown, show: real -> string): (row: seq<string>) {
    [show(m.month as real), show(m.spend), show(m.revenue)]
  }

  /** The month rows, one per breakdown entry, in breakdown order, three cells each. */
  function MonthlyRows(months: seq<MonthlyBreakdown>, show: real -> string): (rows: seq<seq<string>>)
    ensures |rows| == |months|
    ensures forall i :: 0 <= i < |rows| ==> |rows[i]| == 3
  {
    seq(|months|, i requires 0 <= i < |months| => MonthlyRow(months[i], show))
  }

  /** `rows.map((r) => r.join(','))`. */
  function JoinRows(rows: seq<seq<string>>): (lines: seq<string>)
    ensures |lines| == |rows|
  {
    seq(|rows|, i requires 0 <= i < |rows| => Join(rows[i], ','))
  }

  /**
   * The lines of the export, before they are joined: two headers, five metrics,
   * one empty separator line and one line per month.
   */
  function CsvLines(result: EstimateResponse, show: real -> string): (lines: seq<string>)
    ensures |lines| == 8 + |result.monthlyBreakdown|
    ensures lines[6] == ""
  {
    [Join(MetricHeader, ',')]
    + JoinRows(MetricRows(result, show))
    + ["", Join(MonthlyHeader, ',')]
    + JoinRows(MonthlyRows(result.monthlyBreakdown, show))
  }

  /**
   * The exported text. With plain number formatting it splits on newlines into
   * exactly its lines, and, since the last line is not empty, it does not end with
   * a newline.
   */
  function CsvText(result: EstimateResponse, show: real -> string): (text: string)
    ensures PlainFormat(show) ==> Split(text, '\n') == CsvLines(result, show)
    ensures PlainFormat(show) ==> text != [] && text[|text| - 1] != '\n'
  {
    LinesJoinApart(result, show);
    Join(CsvLines(result, show), '\n')
  }

  /** Joining two cells with a comma. */
  lemma JoinTwo(a: string, b: string)
    ensures Join([a, b], ',') == a + "," + b
  {
    assert [a, b][1..] == [b];
  }

  /** Joining three cells with a comma. */
  lemma JoinThree(a: string, b: string, c: string)
    ensures Join([a, b, c], ',') == a + "," + b + "," + c
  {
    assert [a, b, c][1..] == [b, c];
    JoinTwo(b, c);
  }

  /** A character that is not the separator and is in no part is not in the join. */
  lemma {:induction false} JoinLacks(parts: seq<string>, sep: char, c: char)
    requires c != sep
    requires forall k :: 0 <= k < |parts| ==> c !in parts[k]
    ensures c !in Join(parts, sep)
    decreases |parts|
  {
    if |parts| > 1 {
      JoinLacks(parts[1..], sep, c);
    }
  }

  /** Joining `n` separator-free parts puts exactly `n - 1` separators in the text. */
  lemma {:induction false} JoinSeparatorCount(parts: seq<string>, sep: char)
    requires |parts| >= 1
    requires forall k :: 0 <= k < |parts| ==> sep !in parts[k]
    ensures multiset(Join(parts, sep))[sep] == |parts| - 1
    decreases |parts|
  {
    if |parts| == 1 {
      assert multiset(parts[0])[sep] == 0;
    } else {
      JoinSeparatorCount(parts[1..], sep);
      var rest := Join(parts[1..], sep);
      assert multiset(parts[0] + [sep] + rest) == multiset(parts[0]) + multiset([sep]) + multiset(rest);
      assert multiset(parts[0])[sep] == 0;
    }
  }

  /** A join ends with its last part. */
  lemma {:induction false} JoinEndsWithLast(parts: seq<string>, sep: char)
    requires |parts| > 0
    ensures var j := Join(parts, sep); var last := parts[|parts| - 1];
      |last| <= |j| && j[|j| - |last|..] == last
    decreases |parts|
  {
    if |parts| > 1 {
      JoinEndsWithLast(parts[1..], sep);
    }
  }

  /** With plain number formatting no cell of the export holds a comma or a newline. */
  lemma CellsPlain(result: EstimateResponse, show: real -> string)
    requires PlainFormat(show)
    ensures forall i, j :: 0 <= i < 5 && 0 <= j < 2 ==>
      ',' !in MetricRows(result, show)[i][j] && '\n' !in MetricRows(result, show)[i][j]
    ensures var rows := MonthlyRows(result.monthlyBreakdown, show);
      forall i, j :: 0 <= i < |rows| && 0 <= j < 3 ==> ',' !in rows[i][j] && '\n' !in rows[i][j]
  {
    var roi := ShowRoi(result.roiPct, show);
    assert ',' !in roi && '\n' !in roi;
    var rows := MetricRows(result, show);
    LabelsPlain(result, show);
    forall i, j | 0 <= i < 5 && 0 <= j < 2 ensures ',' !in rows[i][j] && '\n' !in rows[i][j] {
      if j == 1 {
        assert rows[i][1] in {show(result.totalSpend), show(result.totalRevenue), roi,
                              show(result.estimatedCpc), show(result.estimatedCpm)};
      }
    }
  }

  /** No metric label holds a comma or a newline. */
  lemma LabelsPlain(result: EstimateResponse, show: real -> string)
    ensures forall i :: 0 <= i < 5 ==>
      ',' !in MetricRows(result, show)[i][0] && '\n' !in MetricRows(result, show)[i][0]
  {
    var rows := MetricRows(result, show);
    forall i | 0 <= i < 5 ensures ',' !in rows[i][0] && '\n' !in rows[i][0] {
      var caption := rows[i][0];
      assert forall k :: 0 <= k < |caption| ==> caption[k] != ',' && caption[k] != '\n';
    }
  }

  // ---------------------------------------------------------------- properties

  /**
   * The export's lines: the header `Metric,Value`, the five metrics as
   * `label,value` in the order spend, revenue, ROI, CPC, CPM, an empty line, the
   * header `Month,Spend,Revenue`, then one `month,spend,revenue` line per
   * breakdown entry in breakdown order: 8 lines plus one per month.
   */
  lemma CsvLayout(result: EstimateResponse, show: real -> string)
    ensures var lines := CsvLines(result, show);
      && |lines| == 8 + |result.monthlyBreakdown|
      && lines[0] == "Metric,Value"
      && lines[1] == "Estimated Spend (Total)," + show(result.totalSpend)
      && lines[2] == "Estimated Revenue (Total)," + show(result.totalRevenue)
      && lines[3] == "ROI (%)," + ShowRoi(result.roiPct, show)
      && lines[4] == "Estimated CPC," + show(result.estimatedCpc)
      && lines[5] == "Estimated CPM," + show(result.estimatedCpm)
      && lines[6] == ""
      && lines[7] == "Month,Spend,Revenue"
      && forall i :: 0 <= i < |result.monthlyBreakdown| ==>
           var m := result.monthlyBreakdown[i];
           lines[8 + i] == show(m.month as real) + "," + show(m.spend) + "," + show(m.revenue)
  {
    var rows := MetricRows(result, show);
    var metricLines := JoinRows(rows);
    var monthLines := JoinRows(MonthlyRows(result.monthlyBreakdown, show));
    HeaderLines();
    forall i | 0 <= i < 5 ensures metricLines[i] == rows[i][0] + "," + rows[i][1] {
      JoinTwo(rows[i][0], rows[i][1]);
    }
    forall i | 0 <= i < |result.monthlyBreakdown|
      ensures var m := result.monthlyBreakdown[i];
        monthLines[i] == show(m.month as real) + "," + show(m.spend) + "," + show(m.revenue)
    {
      var m := result.monthlyBreakdown[i];
      JoinThree(show(m.month as real), show(m.spend), show(m.revenue));
    }
  }

  /** With plain number formatting the lines joined with newlines split back apart, with no trailing newline. */
  lemma LinesJoinApart(result: EstimateResponse, show: real -> string)
    ensures PlainFormat(show) ==> Split(Join(CsvLines(result, show), '\n'), '\n') == CsvLines(result, show)
    ensures PlainFormat(show) ==>
      var text := Join(CsvLines(result, show), '\n'); text != [] && text[|text| - 1] != '\n'
  {
    if PlainFormat(show) {
      LinesSplitApart(result, show);
    }
  }

  lemma LinesSplitApart(result: EstimateResponse, show: real -> string)
    requires PlainFormat(show)
    ensures Split(Join(CsvLines(result, show), '\n'), '\n') == CsvLines(result, show)
    ensures var text := Join(CsvLines(result, show), '\n'); text != [] && text[|text| - 1] != '\n'
  {
    var lines := CsvLines(result, show);
    var metric := MetricRows(result, show);
    var monthly := MonthlyRows(result.monthlyBreakdown, show);
    CellsPlain(result, show);
    HeaderLines();
    forall i | 0 <= i < |metric| ensures '\n' !in JoinRows(metric)[i] {
      JoinLacks(metric[i], ',', '\n');
    }
    forall i | 0 <= i < |monthly| ensures '\n' !in JoinRows(monthly)[i] {
      JoinLacks(monthly[i], ',', '\n');
    }
    assert forall k :: 0 <= k < |lines| ==> '\n' !in lines[k];
    SplitJoin(lines, '\n');
    JoinEndsWithLast(lines, '\n');
    var last := lines[|lines| - 1];
    assert last != [] && last[|last| - 1] in last;
  }

  /**
   * With plain number formatting each metric line holds exactly one comma and
   * each month line exactly two.
   */
  lemma CsvCommaCounts(result: EstimateResponse, show: real -> string)
    requires PlainFormat(show)
    ensures var lines := CsvLines(result, show);
      && (forall k :: 1 <= k < 6 ==> multiset(lines[k])[','] == 1)
      && (forall k :: 8 <= k < |lines| ==> multiset(lines[k])[','] == 2)
  {
    var metric := MetricRows(result, show);
    var monthly := MonthlyRows(result.monthlyBreakdown, show);
    RowLineCommas(result, show);
    LineCommaCounts(Join(MetricHeader, ','), JoinRows(metric), Join(MonthlyHeader, ','), JoinRows(monthly));
  }

  /** The comma counts of the export's lines, from those of its pieces. */
  lemma LineCommaCounts(head: string, metric: seq<string>, monthHead: string, monthly: seq<string>)
    requires |metric| == 5
    requires forall k :: 0 <= k < |metric| ==> multiset(metric[k])[','] == 1
    requires forall k :: 0 <= k < |monthly| ==> multiset(monthly[k])[','] == 2
    ensures var lines := [head] + metric + ["", monthHead] + monthly;
      && (forall k :: 1 <= k < 6 ==> multiset(lines[k])[','] == 1)
      && (forall k :: 8 <= k < |lines| ==> multiset(lines[k])[','] == 2)
  {
    LinesAt(head, metric, monthHead, monthly);
  }

  /** The header lines. */
  lemma HeaderLines()
    ensures Join(MetricHeader, ',') == "Metric,Value"
    ensures Join(MonthlyHeader, ',') == "Month,Spend,Revenue"
  {
    JoinTwo("Metric", "Value");
    JoinThree("Month", "Spend", "Revenue");
  }

  /** With plain number formatting metric lines hold one comma and month lines two. */
  lemma RowLineCommas(result: EstimateResponse, show: real -> string)
    requires PlainFormat(show)
    ensures var metric := JoinRows(MetricRows(result, show));
      |metric| == 5 && forall k :: 0 <= k < 5 ==> multiset(metric[k])[','] == 1
    ensures var monthly := JoinRows(MonthlyRows(result.monthlyBreakdown, show));
      forall k :: 0 <= k < |monthly| ==> multiset(monthly[k])[','] == 2
  {
    CellsPlain(result, show);
    RowCommaCounts(MetricRows(result, show), 2);
    RowCommaCounts(MonthlyRows(result.monthlyBreakdown, show), 3);
  }

  /** Where the pieces of the export sit in its list of lines. */
  lemma LinesAt(head: string, metric: seq<string>, monthHead: string, monthly: seq<string>)
    ensures var lines := [head] + metric + ["", monthHead] + monthly;
      && |lines| == |metric| + |monthly| + 3
      && lines[0] == head && lines[|metric| + 1] == "" && lines[|metric| + 2] == monthHead
      && (forall k :: 1 <= k <= |metric| ==> lines[k] == metric[k - 1])
      && (forall k :: |metric| + 3 <= k < |lines| ==> lines[k] == monthly[k - |metric| - 3])
  {
  }

  /** Rows of `width` comma-free cells join into lines of `width - 1` commas each. */
  lemma RowCommaCounts(rows: seq<seq<string>>, width: nat)
    requires width >= 1
    requires forall i :: 0 <= i < |rows| ==> |rows[i]| == width
    requires forall i, j :: 0 <= i < |rows| && 0 <= j < width ==> ',' !in rows[i][j]
    ensures forall i :: 0 <= i < |rows| ==> multiset(JoinRows(rows)[i])[','] == width - 1
  {
    forall i | 0 <= i < |rows| ensures multiset(JoinRows(rows)[i])[','] == width - 1 {
      JoinSeparatorCount(rows[i], ',');
    }
  }
}
