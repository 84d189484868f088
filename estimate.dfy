/**
 * The estimation endpoint: request validation, the choice of the effective CPC
 * and monthly clicks (request defaults, the mean over live keyword ideas, or the
 * first keyword found in the fallback table), and the forecast arithmetic with
 * its month-by-month breakdown.
 *
 * The ads provider is an input outcome (`Provider`), the fallback table a map
 * argument, and the HTTP reply a `HandlerResult`.
 */
module Estimate {
  import opened Optional
  import opened Text
  import opened EstimateTypes

  // ---------------------------------------------------------------- inputs

  /**
   * A request body as the JSON parser hands it over. `NoBody` is a missing or
   * falsy body; a field is `None` when it is absent or not of the expected JSON
   * type (an array of strings for `keywords`, a number for the others).
   */
  datatype RawBody =
    | NoBody
    | Body(
        keywords: Option<seq<string>>,
        targetCpc: Option<real>,
        estimatedMonthlyClicks: Option<real>,
        conversionRatePct: Option<real>,
        targetRoas: Option<real>,
        campaignMonths: Option<int>)

  /** The body a typed request serialises to. */
  function ToBody(req: EstimateRequest): (body: RawBody) {
    Body(Some(req.keywords), Some(req.targetCpc), Some(req.estimatedMonthlyClicks),
         Some(req.conversionRatePct), Some(req.targetRoas), Some(req.campaignMonths))
  }

  /** What the keyword-ideas provider does for this request. */
  datatype Provider =
    | EnvMissing                         // one of the six credentials is not configured
    | Throws                             // the provider call failed
    | Returns(ideas: seq<KeywordIdea>)   // the provider answered with these ideas

  /** A row of the static fallback table. */
  datatype FallbackEntry = FallbackEntry(avgCpc: real, estimatedClicks: real)

  /** The static fallback table, keyed by lower-case keyword. */
  type FallbackTable = map<string, FallbackEntry>

  /** The CPC and monthly clicks the forecast uses, and whether they came from the provider. */
  datatype Effective = Effective(usedApi: bool, cpc: real, clicks: real)

  /** The HTTP reply: an error status with its message, or status 200 with the estimate. */
  datatype HandlerResult =
    | Failed(status: int, error: string)
    | Succeeded(response: EstimateResponse)

  const FallbackNote: string := "Used fallback sample data when API not available"

  /** The largest length a JavaScript array can be created with; `Array.from` throws a RangeError above it. */
  const MaxArrayLength: int := 0xFFFF_FFFF

  // ---------------------------------------------------------------- validation

  /** The five numeric fields are all strictly positive. */
  predicate Valid(req: EstimateRequest) {
    && req.targetCpc > 0.0
    && req.estimatedMonthlyClicks > 0.0
    && req.conversionRatePct > 0.0
    && req.targetRoas > 0.0
    && req.campaignMonths > 0
  }

  predicate PositiveNumber(field: Option<real>) {
    field.Some? && field.value > 0.0
  }

  /**
   * `validate`: the checks in source order, each rejecting on its own. The request
   * is accepted exactly when there is a body, `keywords` is an array and each of the
   * five numeric fields is a number greater than zero; an accepted request carries
   * the body's fields unchanged.
   */
  function Validate(body: RawBody): (r: Option<EstimateRequest>)
    ensures r.Some? <==>
      && body.Body?
      && body.keywords.Some?
      && PositiveNumber(body.targetCpc)
      && PositiveNumber(body.estimatedMonthlyClicks)
      && PositiveNumber(body.conversionRatePct)
      && PositiveNumber(body.targetRoas)
      && body.campaignMonths.Some? && body.campaignMonths.value > 0
    ensures r.Some? ==> Valid(r.value) && ToBody(r.value) == body
  {
    if body.NoBody? then None
    else if body.keywords.None? then None
    else if body.targetCpc.None? || body.targetCpc.value <= 0.0 then None
    else if body.estimatedMonthlyClicks.None? || body.estimatedMonthlyClicks.value <= 0.0 then None
    else if body.conversionRatePct.None? || body.conversionRatePct.value <= 0.0 then None
    else if body.targetRoas.None? || body.targetRoas.value <= 0.0 then None
    else if body.campaignMonths.None? || body.campaignMonths.value <= 0 then None
    else Some(EstimateRequest(body.keywords.value, body.targetCpc.value, body.estimatedMonthlyClicks.value,
                              body.conversionRatePct.value, body.targetRoas.value, body.campaignMonths.value))
  }

  /** A serialised request passes validation exactly when it is valid, and comes back unchanged. */
  lemma ValidateRoundTrip(req: EstimateRequest)
    ensures Validate(ToBody(req)) == if Valid(req) then Some(req) else None
  {
  }

  // ---------------------------------------------------------------- source selection (specification)

  /**
   * Sum of the ideas' CPCs, the request's target CPC standing in for a missing one
   * (a left fold, as `reduce`). When no idea has a CPC the sum is the target CPC
   * once per idea, so the mean is the target CPC; positive terms give a positive sum.
   */
  function SumCpc(ideas: seq<KeywordIdea>, targetCpc: real): (sum: real)
    ensures (forall i :: 0 <= i < |ideas| ==> ideas[i].avgCpc.None?) ==> sum == targetCpc * |ideas| as real
    ensures |ideas| > 0 && (forall i :: 0 <= i < |ideas| ==> ideas[i].avgCpc.GetOr(targetCpc) > 0.0) ==> sum > 0.0
    decreases |ideas|
  {
    if |ideas| == 0 then 0.0
    else SumCpc(ideas[..|ideas| - 1], targetCpc) + ideas[|ideas| - 1].avgCpc.GetOr(targetCpc)
  }

  /**
   * Sum of the ideas' estimated clicks, zero standing in for a missing one. When no
   * idea has a click estimate the sum is zero; non-negative terms give a
   * non-negative sum.
   */
  function SumClicks(ideas: seq<KeywordIdea>): (sum: real)
    ensures (forall i :: 0 <= i < |ideas| ==> ideas[i].estimatedClicks.None?) ==> sum == 0.0
    ensures (forall i :: 0 <= i < |ideas| ==> ideas[i].estimatedClicks.GetOr(0.0) >= 0.0) ==> sum >= 0.0
    decreases |ideas|
  {
    if |ideas| == 0 then 0.0
    else SumClicks(ideas[..|ideas| - 1]) + ideas[|ideas| - 1].estimatedClicks.GetOr(0.0)
  }

  /**
   * The first keyword, in input order, whose lower-cased form is a key of the
   * table: its entry, which is one of the table's entries.
   */
  function FirstMatch(keywords: seq<string>, table: FallbackTable): (entry: Option<FallbackEntry>)
    ensures entry.Some? ==> entry.value in table.Values
    decreases |keywords|
  {
    if |keywords| == 0 then None
    else if ToLower(keywords[0]) in table then Some(table[ToLower(keywords[0])])
    else FirstMatch(keywords[1..], table)
  }

  /** The defaults the request supplies. */
  function Defaults(req: EstimateRequest): (e: Effective) {
    Effective(false, req.targetCpc, req.estimatedMonthlyClicks)
  }

  /**
   * The three-way source decision: no keywords keeps the defaults; a non-empty
   * answer from the provider gives the means (each kept only when positive); an
   * empty answer keeps the defaults; a missing configuration or a failed call
   * takes the first keyword found in the table, if any.
   *
   * Live data is used exactly when there are keywords and the provider answered
   * with ideas; otherwise the values are the request's or a row of the table. A
   * valid request and a table of positive rows give positive values.
   */
  function Selected(req: EstimateRequest, provider: Provider, table: FallbackTable): (e: Effective)
    ensures e.usedApi <==> |req.keywords| > 0 && provider.Returns? && |provider.ideas| > 0
    ensures !e.usedApi ==> e == Defaults(req) || FallbackEntry(e.cpc, e.clicks) in table.Values
    ensures Valid(req) && (forall key :: key in table ==> table[key].avgCpc > 0.0 && table[key].estimatedClicks > 0.0) ==>
      e.cpc > 0.0 && e.clicks > 0.0
  {
    if |req.keywords| == 0 then Defaults(req)
    else match provider
      case Returns(ideas) =>
        if |ideas| == 0 then Defaults(req)
        else
          var avgCpc := SumCpc(ideas, req.targetCpc) / |ideas| as real;
          var avgClicks := SumClicks(ideas) / |ideas| as real;
          Effective(true,
                    if avgCpc > 0.0 then avgCpc else req.targetCpc,
                    if avgClicks > 0.0 then avgClicks else req.estimatedMonthlyClicks)
      case _ =>
        match FirstMatch(req.keywords, table)
        case None => Defaults(req)
        case Some(f) => Effective(false, f.avgCpc, f.estimatedClicks)
  }

  // ---------------------------------------------------------------- forecast

  lemma DivideOut(x: real, d: real)
    requires d != 0.0
    ensures (x * d) / d == x
  {
  }

  /** `((totalRevenue - totalSpend) / totalSpend) * 100`, NaN (`None`) exactly when the spend is zero. */
  function RoiPct(totalSpend: real, totalRevenue: real): (roi: Option<real>)
    ensures roi.None? <==> totalSpend == 0.0
  {
    if totalSpend == 0.0 then None else Some(((totalRevenue - totalSpend) / totalSpend) * 100.0)
  }

  /** For a positive spend the ROI is positive exactly when revenue exceeds spend, and zero exactly when they are equal. */
  lemma RoiSign(totalSpend: real, totalRevenue: real)
    requires totalSpend > 0.0
    ensures RoiPct(totalSpend, totalRevenue).value > 0.0 <==> totalRevenue > totalSpend
    ensures RoiPct(totalSpend, totalRevenue).value == 0.0 <==> totalRevenue == totalSpend
  {
  }

  /** When revenue is spend times ROAS, ROI depends on ROAS alone. */
  lemma RoiFromRoas(spend: real, roas: real)
    ensures spend != 0.0 ==> RoiPct(spend, spend * roas) == Some((roas - 1.0) * 100.0)
  {
    if spend != 0.0 {
      var gain := roas - 1.0;
      var net := spend * roas - spend;
      assert net == gain * spend;
      DivideOut(gain, spend);
      assert net / spend == gain;
    }
  }

  /**
   * The forecast from the effective values: totals, ROI, CPC, CPM, one breakdown
   * entry per month, and the fallback note whenever live data was not used.
   * ROI depends on the target ROAS alone, and is NaN (`None`) when nothing is spent.
   */
  function Forecast(campaignMonths: nat, targetRoas: real, e: Effective): (resp: EstimateResponse)
    ensures resp.totalRevenue == resp.totalSpend * targetRoas
    ensures resp.totalSpend != 0.0 ==> resp.roiPct == Some((targetRoas - 1.0) * 100.0)
    ensures resp.totalSpend == 0.0 ==> resp.roiPct == None
    ensures |resp.monthlyBreakdown| == campaignMonths
  {
    var monthlySpend := e.clicks * e.cpc;
    var totalSpend := monthlySpend * campaignMonths as real;
    var totalRevenue := totalSpend * targetRoas;
    RoiFromRoas(totalSpend, targetRoas);
    var roiPct := RoiPct(totalSpend, totalRevenue);
    var monthlyBreakdown :=
      seq(campaignMonths, i => MonthlyBreakdown(i + 1, monthlySpend, monthlySpend * targetRoas));
    var estimatedCpm := e.cpc * 1000.0 * (1.0 / (if e.clicks == 0.0 then 1.0 else e.clicks));
    EstimateResponse(totalSpend, totalRevenue, roiPct, e.cpc, estimatedCpm, monthlyBreakdown,
                     e.usedApi, if e.usedApi then None else Some(FallbackNote))
  }

  // ---------------------------------------------------------------- handler (specification)

  /**
   * The endpoint as a function of the HTTP method, the body, the provider's
   * behaviour and the table. It succeeds exactly for a POST with a valid body
   * whose month count an array can hold.
   */
  function Handle(httpMethod: string, body: RawBody, provider: Provider, table: FallbackTable): (r: HandlerResult)
    ensures r.Succeeded? <==>
      httpMethod == "POST" && Validate(body).Some? && Validate(body).value.campaignMonths <= MaxArrayLength
    ensures r.Failed? ==> r.status in {400, 405, 500}
  {
    if httpMethod != "POST" then Failed(405, "Method not allowed")
    else match Validate(body)
      case None => Failed(400, "Invalid input")
      case Some(req) =>
        if req.campaignMonths > MaxArrayLength then Failed(500, "Internal server error")
        else Succeeded(Forecast(req.campaignMonths, req.targetRoas, Selected(req, provider, table)))
  }

  // ---------------------------------------------------------------- handler (implementation)

  /**
   * The scan over the keywords in the fallback branches: the first keyword whose
   * lower-cased form is in the table overwrites both values, and the scan stops.
   */
  method ScanFallback(keywords: seq<string>, table: FallbackTable, cpc: real, clicks: real)
    returns (cpc': real, clicks': real)
    ensures FirstMatch(keywords, table).None? ==> cpc' == cpc && clicks' == clicks
    ensures FirstMatch(keywords, table).Some? ==>
      cpc' == FirstMatch(keywords, table).value.avgCpc && clicks' == FirstMatch(keywords, table).value.estimatedClicks
  {
    cpc', clicks' := cpc, clicks;
    var i := 0;
    while i < |keywords|
      invariant 0 <= i <= |keywords|
      invariant FirstMatch(keywords, table) == FirstMatch(keywords[i..], table)
      invariant cpc' == cpc && clicks' == clicks
    {
      var key := ToLower(keywords[i]);
      if key in table {
        cpc', clicks' := table[key].avgCpc, table[key].estimatedClicks;
        break;
      }
      assert keywords[i..][1..] == keywords[i + 1..];
      i := i + 1;
    }
  }

  /** The request handler, step by step: it answers what `Handle` specifies. */
  method Handler(httpMethod: string, body: RawBody, provider: Provider, table: FallbackTable)
    returns (r: HandlerResult)
    ensures r == Handle(httpMethod, body, provider, table)
  {
    if httpMethod != "POST" {
      return Failed(405, "Method not allowed");
    }
    var parsed := Validate(body);
    if parsed.None? {
      return Failed(400, "Invalid input");
    }
    var req := parsed.value;

    var usedApi := false;
    var effectiveCpc := req.targetCpc;
    var effectiveMonthlyClicks := req.estimatedMonthlyClicks;
    if |req.keywords| > 0 {
      match provider {
        case Returns(ideas) =>
          if |ideas| > 0 {
            var avgCpc := SumCpc(ideas, req.targetCpc) / |ideas| as real;
            var avgClicks := SumClicks(ideas) / |ideas| as real;
            if avgCpc > 0.0 { effectiveCpc := avgCpc; }
            if avgClicks > 0.0 { effectiveMonthlyClicks := avgClicks; }
            usedApi := true;
          }
        case EnvMissing =>
          effectiveCpc, effectiveMonthlyClicks := ScanFallback(req.keywords, table, effectiveCpc, effectiveMonthlyClicks);
        case Throws =>
          effectiveCpc, effectiveMonthlyClicks := ScanFallback(req.keywords, table, effectiveCpc, effectiveMonthlyClicks);
      }
    }
    assert Effective(usedApi, effectiveCpc, effectiveMonthlyClicks) == Selected(req, provider, table);

    if req.campaignMonths > MaxArrayLength {
      return Failed(500, "Internal server error");
    }
    r := Succeeded(Forecast(req.campaignMonths, req.targetRoas, Effective(usedApi, effectiveCpc, effectiveMonthlyClicks)));
  }

  // ---------------------------------------------------------------- properties

  /** A non-POST call is refused with 405, and an invalid body with 400, whatever the provider and the table. */
  lemma RejectedBeforeComputing(httpMethod: string, body: RawBody, provider: Provider, table: FallbackTable)
    ensures httpMethod != "POST" ==> Handle(httpMethod, body, provider, table) == Failed(405, "Method not allowed")
    ensures httpMethod == "POST" && Validate(body).None? ==>
      Handle(httpMethod, body, provider, table) == Failed(400, "Invalid input")
  {
  }

  /** Without keywords neither the provider nor the table is consulted: the defaults are used, with the note. */
  lemma NoKeywordsKeepDefaults(req: EstimateRequest, provider: Provider, table: FallbackTable)
    requires |req.keywords| == 0
    ensures Selected(req, provider, table) == Effective(false, req.targetCpc, req.estimatedMonthlyClicks)
    ensures Valid(req) && req.campaignMonths <= MaxArrayLength ==>
      var r := Handle("POST", ToBody(req), provider, table);
      && r.Succeeded?
      && r.response.estimatedCpc == req.targetCpc
      && r.response.totalSpend == req.estimatedMonthlyClicks * req.targetCpc * req.campaignMonths as real
      && !r.response.usedApi
      && r.response.notes == Some(FallbackNote)
  {
  }

  /**
   * A non-empty answer from the provider sets CPC to the mean of the ideas' CPCs
   * (target CPC for a missing one) when that mean is positive, and clicks to the
   * mean of their clicks (zero for a missing one) when positive; `usedApi` is set.
   */
  lemma LiveIdeasAveraged(req: EstimateRequest, ideas: seq<KeywordIdea>, table: FallbackTable)
    requires |req.keywords| > 0 && |ideas| > 0
    ensures var e := Selected(req, Returns(ideas), table);
      var meanCpc := SumCpc(ideas, req.targetCpc) / |ideas| as real;
      var meanClicks := SumClicks(ideas) / |ideas| as real;
      && e.usedApi
      && e.cpc == (if meanCpc > 0.0 then meanCpc else req.targetCpc)
      && e.clicks == (if meanClicks > 0.0 then meanClicks else req.estimatedMonthlyClicks)
  {
  }

  /** Live values are positive for a valid request: each mean is kept only when positive, and the defaults are. */
  lemma LiveValuesPositive(req: EstimateRequest, ideas: seq<KeywordIdea>, table: FallbackTable)
    requires Valid(req) && |req.keywords| > 0 && |ideas| > 0
    ensures Selected(req, Returns(ideas), table).cpc > 0.0
    ensures Selected(req, Returns(ideas), table).clicks > 0.0
  {
  }

  /** An empty answer from the provider keeps the defaults without consulting the table, and `usedApi` stays false. */
  lemma EmptyIdeasKeepDefaults(req: EstimateRequest, table: FallbackTable, other: FallbackTable)
    ensures Selected(req, Returns([]), table) == Defaults(req)
    ensures Selected(req, Returns([]), table) == Selected(req, Returns([]), other)
  {
  }

  /** A failed provider call and a missing configuration give the same reply: both run the same scan. */
  lemma ThrowsLikeEnvMissing(httpMethod: string, body: RawBody, table: FallbackTable)
    ensures Handle(httpMethod, body, Throws, table) == Handle(httpMethod, body, EnvMissing, table)
  {
  }

  /**
   * The table entry chosen is that of the first keyword, in input order, whose
   * lower-cased form is a key; none is chosen exactly when no keyword is a key.
   */
  lemma {:induction false} FirstMatchIsFirst(keywords: seq<string>, table: FallbackTable)
    ensures FirstMatch(keywords, table).None? <==> forall k :: 0 <= k < |keywords| ==> ToLower(keywords[k]) !in table
    ensures FirstMatch(keywords, table).Some? ==>
      exists i :: && 0 <= i < |keywords|
                  && ToLower(keywords[i]) in table
                  && FirstMatch(keywords, table).value == table[ToLower(keywords[i])]
                  && forall j :: 0 <= j < i ==> ToLower(keywords[j]) !in table
    decreases |keywords|
  {
    if |keywords| > 0 && ToLower(keywords[0]) !in table {
      var rest := keywords[1..];
      FirstMatchIsFirst(rest, table);
      assert forall k :: 1 <= k < |keywords| ==> keywords[k] == rest[k - 1];
      if FirstMatch(rest, table).Some? {
        var i :| && 0 <= i < |rest|
                 && ToLower(rest[i]) in table
                 && FirstMatch(rest, table).value == table[ToLower(rest[i])]
                 && forall j :: 0 <= j < i ==> ToLower(rest[j]) !in table;
        assert keywords[i + 1] == rest[i];
        assert forall j :: 0 <= j < i + 1 ==> ToLower(keywords[j]) !in table by {
          forall j | 0 <= j < i + 1 ensures ToLower(keywords[j]) !in table {
            if j > 0 { assert keywords[j] == rest[j - 1]; }
          }
        }
      }
    }
  }

  /** Once a keyword matches, the keywords after it are ignored. */
  lemma {:induction false} FirstMatchIgnoresLater(keywords: seq<string>, later: seq<string>, table: FallbackTable)
    requires FirstMatch(keywords, table).Some?
    ensures FirstMatch(keywords + later, table) == FirstMatch(keywords, table)
    decreases |keywords|
  {
    assert (keywords + later)[0] == keywords[0];
    if ToLower(keywords[0]) !in table {
      assert (keywords + later)[1..] == keywords[1..] + later;
      FirstMatchIgnoresLater(keywords[1..], later, table);
    }
  }

  /**
   * With keywords and no live data, if no keyword is in the table the reply is the
   * one for the same request without keywords: the defaults, with the note.
   */
  lemma UnmatchedKeywordsActLikeNone(req: EstimateRequest, provider: Provider, table: FallbackTable)
    requires !provider.Returns?
    requires forall k :: 0 <= k < |req.keywords| ==> ToLower(req.keywords[k]) !in table
    ensures Handle("POST", ToBody(req), provider, table) == Handle("POST", ToBody(req.(keywords := [])), provider, table)
  {
    FirstMatchIsFirst(req.keywords, table);
    var bare := req.(keywords := []);
    if Valid(req) {
      assert Selected(req, provider, table) == Defaults(req) == Selected(bare, provider, table);
    }
  }

  /**
   * With a valid request and a table of positive entries the total spend is
   * positive, so ROI is always `(targetRoas - 1) * 100` and never NaN.
   */
  lemma PositiveTableKeepsRoiDefined(req: EstimateRequest, provider: Provider, table: FallbackTable)
    requires Valid(req) && req.campaignMonths <= MaxArrayLength
    requires forall key :: key in table ==> table[key].avgCpc > 0.0 && table[key].estimatedClicks > 0.0
    ensures var r := Handle("POST", ToBody(req), provider, table);
      && r.Succeeded?
      && r.response.totalSpend > 0.0
      && r.response.roiPct == Some((req.targetRoas - 1.0) * 100.0)
  {
    var e := Selected(req, provider, table);
    assert e.cpc > 0.0 && e.clicks > 0.0;
    assert e.clicks * e.cpc > 0.0;
    assert e.clicks * e.cpc * req.campaignMonths as real > 0.0;
  }

  /** Sum of the breakdown's monthly spends. */
  function SumSpend(breakdown: seq<MonthlyBreakdown>): (sum: real)
    decreases |breakdown|
  {
    if |breakdown| == 0 then 0.0 else SumSpend(breakdown[..|breakdown| - 1]) + breakdown[|breakdown| - 1].spend
  }

  /** Sum of the breakdown's monthly revenues. */
  function SumRevenue(breakdown: seq<MonthlyBreakdown>): (sum: real)
    decreases |breakdown|
  {
    if |breakdown| == 0 then 0.0 else SumRevenue(breakdown[..|breakdown| - 1]) + breakdown[|breakdown| - 1].revenue
  }

  lemma {:induction false} ConstantSums(breakdown: seq<MonthlyBreakdown>, spend: real, revenue: real)
    requires forall i :: 0 <= i < |breakdown| ==> breakdown[i].spend == spend && breakdown[i].revenue == revenue
    ensures SumSpend(breakdown) == spend * |breakdown| as real
    ensures SumRevenue(breakdown) == revenue * |breakdown| as real
    decreases |breakdown|
  {
    if |breakdown| > 0 {
      ConstantSums(breakdown[..|breakdown| - 1], spend, revenue);
      assert spend * (|breakdown| - 1) as real + spend == spend * |breakdown| as real;
      assert revenue * (|breakdown| - 1) as real + revenue == revenue * |breakdown| as real;
    }
  }

  /**
   * The breakdown lists months 1..campaignMonths in order; every month has the
   * same spend, the total spread evenly over the months, and revenue equal to that
   * spend times the target ROAS; the spends and revenues add up to the totals.
   */
  lemma BreakdownAddsUp(campaignMonths: nat, targetRoas: real, e: Effective)
    ensures var resp := Forecast(campaignMonths, targetRoas, e);
      && |resp.monthlyBreakdown| == campaignMonths
      && (forall i :: 0 <= i < campaignMonths ==>
            && resp.monthlyBreakdown[i].month == i + 1
            && resp.monthlyBreakdown[i].spend * campaignMonths as real == resp.totalSpend
            && resp.monthlyBreakdown[i].revenue == resp.monthlyBreakdown[i].spend * targetRoas)
      && SumSpend(resp.monthlyBreakdown) == resp.totalSpend
      && SumRevenue(resp.monthlyBreakdown) == resp.totalRevenue
  {
    var resp := Forecast(campaignMonths, targetRoas, e);
    var spend := e.clicks * e.cpc;
    ForecastShape(campaignMonths, targetRoas, e);
    EvenSums(resp.monthlyBreakdown, spend, targetRoas, resp.totalSpend, resp.totalRevenue);
  }

  /** The totals and the breakdown entries of a forecast, in terms of the monthly spend. */
  lemma ForecastShape(campaignMonths: nat, targetRoas: real, e: Effective)
    ensures var resp := Forecast(campaignMonths, targetRoas, e); var spend := e.clicks * e.cpc;
      && resp.totalSpend == spend * campaignMonths as real
      && resp.totalRevenue == resp.totalSpend * targetRoas
      && |resp.monthlyBreakdown| == campaignMonths
      && forall i :: 0 <= i < campaignMonths ==> resp.monthlyBreakdown[i] == MonthlyBreakdown(i + 1, spend, spend * targetRoas)
  {
  }

  /** Equal months spread the totals evenly and add up to them. */
  lemma EvenSums(breakdown: seq<MonthlyBreakdown>, spend: real, roas: real, total: real, revenue: real)
    requires forall i :: 0 <= i < |breakdown| ==> breakdown[i].spend == spend && breakdown[i].revenue == spend * roas
    requires total == spend * |breakdown| as real && revenue == total * roas
    ensures forall i :: 0 <= i < |breakdown| ==> breakdown[i].spend * |breakdown| as real == total
    ensures SumSpend(breakdown) == total && SumRevenue(breakdown) == revenue
  {
    var months := |breakdown| as real;
    ConstantSums(breakdown, spend, spend * roas);
    assert spend * roas * months == spend * months * roas;
  }

  /**
   * CPC is the effective CPC, and CPM is that CPC times 1000 over the effective
   * clicks, a zero click count counting as one.
   */
  lemma CpcAndCpm(campaignMonths: nat, targetRoas: real, e: Effective)
    ensures Forecast(campaignMonths, targetRoas, e).estimatedCpc == e.cpc
    ensures e.clicks != 0.0 ==> Forecast(campaignMonths, targetRoas, e).estimatedCpm * e.clicks == e.cpc * 1000.0
    ensures e.clicks == 0.0 ==> Forecast(campaignMonths, targetRoas, e).estimatedCpm == e.cpc * 1000.0
  {
  }

  /**
   * The note is present exactly when live data was not used, which is exactly when
   * the request has no keywords or the provider did not answer with ideas.
   */
  lemma NoteIffNotLive(httpMethod: string, body: RawBody, provider: Provider, table: FallbackTable)
    requires Handle(httpMethod, body, provider, table).Succeeded?
    ensures var resp := Handle(httpMethod, body, provider, table).response;
      && (resp.notes.Some? <==> !resp.usedApi)
      && (resp.notes.Some? ==> resp.notes.value == FallbackNote)
      && (resp.usedApi <==> |Validate(body).value.keywords| > 0 && provider.Returns? && |provider.ideas| > 0)
  {
  }

  // ---------------------------------------------------------------- worked examples

  /** No keywords, CPC 2, 500 clicks, ROAS 4, three months. */
  lemma ScenarioDefaults(provider: Provider, table: FallbackTable)
    ensures var r := Handle("POST", ToBody(EstimateRequest([], 2.0, 500.0, 3.0, 4.0, 3)), provider, table);
      && r.Succeeded?
      && r.response.totalSpend == 3000.0
      && r.response.totalRevenue == 12000.0
      && r.response.roiPct == Some(300.0)
      && r.response.estimatedCpc == 2.0
      && r.response.estimatedCpm == 4.0
      && r.response.monthlyBreakdown == [MonthlyBreakdown(1, 1000.0, 4000.0), MonthlyBreakdown(2, 1000.0, 4000.0),
                                         MonthlyBreakdown(3, 1000.0, 4000.0)]
      && !r.response.usedApi
      && r.response.notes == Some(FallbackNote)
  {
    var resp := Forecast(3, 4.0, Effective(false, 2.0, 500.0));
    assert resp.estimatedCpm == 2.0 * 1000.0 * (1.0 / 500.0);
  }

  /** "shoes" with no provider configured and a table holding "shoes": the table's values are used. */
  lemma ScenarioFallback(req: EstimateRequest)
    requires req.keywords == ["shoes"]
    ensures Selected(req, EnvMissing, map["shoes" := FallbackEntry(1.5, 800.0)]) == Effective(false, 1.5, 800.0)
  {
    assert ToLower("shoes") == "shoes";
  }

  /** Two ideas, one with CPC 3 and 600 clicks, one with 400 clicks and no CPC, target CPC 2. */
  lemma ScenarioLive(req: EstimateRequest, table: FallbackTable)
    requires |req.keywords| > 0 && req.targetCpc == 2.0
    ensures Selected(req, Returns([KeywordIdea("shoes", None, Some(3.0), Some(600.0)),
                                   KeywordIdea("running shoes", None, None, Some(400.0))]), table)
            == Effective(true, 2.5, 500.0)
  {
    var ideas := [KeywordIdea("shoes", None, Some(3.0), Some(600.0)),
                  KeywordIdea("running shoes", None, None, Some(400.0))];
    assert ideas[..1] == [ideas[0]];
    assert ideas[..1][..0] == [];
    assert SumCpc(ideas[..1], 2.0) == 3.0;
    assert SumCpc(ideas, 2.0) == 5.0;
    assert SumClicks(ideas[..1]) == 600.0;
    assert SumClicks(ideas) == 1000.0;
  }
}
