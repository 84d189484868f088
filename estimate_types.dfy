/**
 * The records exchanged by the form, the estimation endpoint and the CSV export,
 * and the keyword idea the ads provider returns. Money and rates are `real`;
 * `campaignMonths` is a whole number of months.
 */
module EstimateTypes {
  import opened Optional

  /** What the form posts to the estimation endpoint. */
  datatype EstimateRequest = EstimateRequest(
    keywords: seq<string>,
    targetCpc: real,
    estimatedMonthlyClicks: real,
    conversionRatePct: real,
    targetRoas: real,
    campaignMonths: int)

  /** One month of the projection. */
  datatype MonthlyBreakdown = MonthlyBreakdown(month: int, spend: real, revenue: real)

  /**
   * What the endpoint answers. `roiPct` is `None` where JavaScript computes NaN
   * (a zero total spend), which JSON serialises as `null`.
   */
  datatype EstimateResponse = EstimateResponse(
    totalSpend: real,
    totalRevenue: real,
    roiPct: Option<real>,
    estimatedCpc: real,
    estimatedCpm: real,
    monthlyBreakdown: seq<MonthlyBreakdown>,
    usedApi: bool,
    notes: Option<string>)

  /** One keyword idea from the ads provider; every metric may be missing. */
  datatype KeywordIdea = KeywordIdea(
    keyword: string,
    avgMonthlySearches: Option<real>,
    avgCpc: Option<real>,
    estimatedClicks: Option<real>)
}
