/**
 * The web-search queries of the gathering nodes. Each is an f-string whose only
 * variable parts are the month name and the year, written one space apart:
 * fixed text, the month, a space, the year, fixed text.
 */
module SearchQuery {

  /** The fixed text before the month and after the year. */
  datatype Template = Template(lead: string, tail: string)

  /** The query a template gives for a reporting period. */
  function Fill(t: Template, month: string, year: string): (q: string)
    ensures |q| == |t.lead| + |month| + 1 + |year| + |t.tail|
    ensures q[..|t.lead|] == t.lead && q[|q| - |t.tail|..] == t.tail
    ensures q[|t.lead|..|t.lead| + |month| + 1 + |year|] == month + " " + year
  {
    var period := month + " " + year;
    assert t.lead + month + " " + year + t.tail == t.lead + period + t.tail;
    t.lead + period + t.tail
  }

  /** Where the period starts and ends inside a filled query. */
  lemma PeriodSlice(t: Template, month: string, year: string)
    ensures var q, i := Fill(t, month, year), |t.lead|;
      q[i..i + |month|] == month && q[i + |month|] == ' ' && q[i + |month| + 1..i + |month| + 1 + |year|] == year
  {
    var q, i := Fill(t, month, year), |t.lead|;
    var period := q[i..i + |month| + 1 + |year|];
    assert period == month + " " + year;
    assert q[i..i + |month|] == period[..|month|];
    assert q[i + |month| + 1..i + |month| + 1 + |year|] == period[|month| + 1..];
  }

  /**
   * A query pins down its period: when the month name holds no space, two periods
   * that give the same query are the same period.
   */
  lemma FillDeterminesPeriod(t: Template, month: string, year: string, month': string, year': string)
    requires ' ' !in month && ' ' !in month'
    requires Fill(t, month, year) == Fill(t, month', year')
    ensures month == month' && year == year'
  {
    var q, i := Fill(t, month, year), |t.lead|;
    PeriodSlice(t, month, year);
    PeriodSlice(t, month', year');
    if |month| < |month'| {
      assert false;
    } else if |month'| < |month| {
      assert false;
    }
  }
}
