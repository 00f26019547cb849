/**
 * The KPI tiles filled by `loadSummaryData`: the totals copied from the
 * summary payload and the success and failure rates derived from them.
 */
module Summary {
  import opened Wrappers
  import opened Rounding
  import Text

  /** The summary payload: `total_volume` may be missing or null. */
  datatype SummaryPayload = SummaryPayload(
    totalTransactions: int,
    totalVolume: Option<int>,
    successful: int,
    failed: int)

  /** What the KPI tiles show, before locale digit grouping. */
  datatype SummaryView = SummaryView(
    totalTransactions: int,
    totalVolume: int,
    successful: int,
    failed: int,
    successRate: int,
    failureRate: int)

  /**
   * The tiles for a payload: counts copied, a missing volume shown as 0, and
   * the rates rounded from the counts when there are transactions, 100% and
   * 0% otherwise. The counts need not add up to the total.
   */
  function Summarize(p: SummaryPayload): (v: SummaryView)
    ensures v.totalTransactions == p.totalTransactions
    ensures v.successful == p.successful && v.failed == p.failed
    ensures p.totalVolume.None? ==> v.totalVolume == 0
    ensures p.totalVolume.Some? ==> v.totalVolume == p.totalVolume.value
    ensures p.totalTransactions > 0 ==>
      IsRounded(v.successRate, 100 * p.successful, p.totalTransactions) &&
      IsRounded(v.failureRate, 100 * p.failed, p.totalTransactions)
    ensures p.totalTransactions <= 0 ==> v.successRate == 100 && v.failureRate == 0
  {
    var total := p.totalTransactions;
    SummaryView(
      total,
      p.totalVolume.GetOr(0),
      p.successful,
      p.failed,
      if total > 0 then RoundedPercent(p.successful, total) else 100,
      if total > 0 then RoundedPercent(p.failed, total) else 0)
  }

  /** `${successRate}% success rate` */
  function SuccessRateText(v: SummaryView): string {
    Text.IntToString(v.successRate) + "% success rate"
  }

  /** `${failureRate}% failure rate` */
  function FailureRateText(v: SummaryView): string {
    Text.IntToString(v.failureRate) + "% failure rate"
  }

  /**
   * When every transaction is either successful or failed, the two rates are
   * each within 0..100 and add up to 100 or, when both round up from a half,
   * to 101; never to 99.
   */
  lemma {:induction false} RatesOfExhaustiveCounts(p: SummaryPayload)
    requires p.totalTransactions > 0
    requires p.successful >= 0 && p.failed >= 0
    requires p.successful + p.failed == p.totalTransactions
    ensures 0 <= Summarize(p).successRate <= 100
    ensures 0 <= Summarize(p).failureRate <= 100
    ensures Summarize(p).successRate + Summarize(p).failureRate in {100, 101}
  {
    var d := p.totalTransactions;
    var v := Summarize(p);
    RoundedPercentBounds(p.successful, d);
    RoundedPercentBounds(p.failed, d);
    RoundedPercentsOfSplit(v.successRate, v.failureRate, p.successful, p.failed, d);
  }

  /** Two successes out of three transactions show as 67%, and no transactions as 100% / 0%. */
  lemma RateExamples()
    ensures Summarize(SummaryPayload(3, None, 2, 1)).successRate == 67
    ensures Summarize(SummaryPayload(3, None, 2, 1)).failureRate == 33
    ensures Summarize(SummaryPayload(0, None, 0, 0)).successRate == 100
    ensures Summarize(SummaryPayload(0, None, 0, 0)).failureRate == 0
  {
  }

  /** The payload {100 transactions, 80 successful, 20 failed} renders "80% success rate" and "20% failure rate". */
  lemma RateTextExample()
    ensures SuccessRateText(Summarize(SummaryPayload(100, Some(5000), 80, 20))) == "80% success rate"
    ensures FailureRateText(Summarize(SummaryPayload(100, Some(5000), 80, 20))) == "20% failure rate"
  {
    var v := Summarize(SummaryPayload(100, Some(5000), 80, 20));
    assert v.successRate == 80 && v.failureRate == 20;
    assert Text.IntToString(80) == "80" by {
      assert Text.NatToString(8) == "8";
    }
    assert Text.IntToString(20) == "20" by {
      assert Text.NatToString(2) == "2";
    }
    assert "80" + "% success rate" == "80% success rate";
    assert "20" + "% failure rate" == "20% failure rate";
  }
}
