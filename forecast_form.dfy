/**
 * The forecast form's logic (not its rendering): when the Calculate button is
 * disabled, and how the keyword text and the numeric inputs become the request
 * posted to the estimation endpoint.
 */
module ForecastForm {
  import opened Optional
  import opened Text
  import opened EstimateTypes
  import Estimate

  /**
   * The form's state: the keyword text as typed, and the numeric inputs as parsed
   * (`parseFloat` for CPC, conversion rate and ROAS; `parseInt` for the monthly
   * clicks and the months).
   */
  datatype FormState = FormState(
    keywords: string,
    cpc: real,
    monthlyClicks: int,
    conversionRate: real,
    roas: real,
    months: int)

  /**
   * The button is disabled while a request is in flight or while any numeric input
   * is not positive: with no request in flight, exactly when the payload it would
   * submit is not a valid request.
   */
  function Disabled(loading: bool, form: FormState): (disabled: bool)
    ensures loading ==> disabled
    ensures !loading ==> (disabled <==> !Estimate.Valid(BuildPayload(form)))
  {
    if loading then true
    else if form.cpc <= 0.0 || form.monthlyClicks <= 0 || form.conversionRate <= 0.0
         || form.roas <= 0.0 || form.months <= 0 then true
    else false
  }

  /**
   * `filter(Boolean)` on strings: the non-empty ones. The result is empty exactly
   * when every piece is empty; `DropEmptyCounts` and `DropEmptyAppend` say that
   * every non-empty piece is kept, as often as it occurs and in input order.
   */
  function DropEmpty(pieces: seq<string>): (kept: seq<string>)
    ensures forall k :: 0 <= k < |kept| ==> kept[k] != [] && kept[k] in pieces
    ensures kept == [] <==> forall k :: 0 <= k < |pieces| ==> pieces[k] == []
    decreases |pieces|
  {
    if |pieces| == 0 then []
    else (if pieces[0] == [] then [] else [pieces[0]]) + DropEmpty(pieces[1..])
  }

  /** Every non-empty piece is kept as often as it occurs, and no empty piece is. */
  lemma {:induction false} DropEmptyCounts(pieces: seq<string>)
    ensures multiset(DropEmpty(pieces)) == multiset(pieces)["" := 0]
    decreases |pieces|
  {
    if |pieces| > 0 {
      var first := pieces[0];
      var rest := pieces[1..];
      DropEmptyCounts(rest);
      assert pieces == [first] + rest;
      var head: seq<string> := if first == [] then [] else [first];
      assert multiset(head) == multiset([first])["" := 0];
      assert DropEmpty(pieces) == head + DropEmpty(rest);
      MultisetDropSplits(multiset([first]), multiset(rest));
    }
  }

  /** Removing the empty string from a sum of multisets removes it from each. */
  lemma MultisetDropSplits(m: multiset<string>, n: multiset<string>)
    ensures (m + n)["" := 0] == m["" := 0] + n["" := 0]
  {
  }

  /** Filtering commutes with concatenation: the kept pieces stay in their input order. */
  lemma {:induction false} DropEmptyAppend(a: seq<string>, b: seq<string>)
    ensures DropEmpty(a + b) == DropEmpty(a) + DropEmpty(b)
    decreases |a|
  {
    if |a| == 0 {
      assert a + b == b;
    } else {
      assert (a + b)[0] == a[0];
      assert (a + b)[1..] == a[1..] + b;
      DropEmptyAppend(a[1..], b);
    }
  }

  /** `map((k) => k.trim())`: one trimmed piece per piece, none padded with white space. */
  function TrimAll(pieces: seq<string>): (trimmed: seq<string>)
    ensures |trimmed| == |pieces|
    ensures forall k :: 0 <= k < |pieces| ==> trimmed[k] == Trim(pieces[k])
    ensures forall k :: 0 <= k < |trimmed| ==>
      trimmed[k] == [] || (!IsSpace(trimmed[k][0]) && !IsSpace(trimmed[k][|trimmed[k]| - 1]))
  {
    seq(|pieces|, i requires 0 <= i < |pieces| => Trim(pieces[i]))
  }

  /**
   * `keywords.split(',').map((k) => k.trim()).filter(Boolean)`: every keyword is
   * non-empty, has no comma, and neither starts nor ends with white space.
   */
  function ParseKeywords(input: string): (keywords: seq<string>)
    ensures forall k :: 0 <= k < |keywords| ==> WellFormedKeyword(keywords[k])
  {
    var pieces := Split(input, ',');
    PiecesTrimWellFormed(pieces);
    DropEmpty(TrimAll(pieces))
  }

  /** The payload the form submits: the parsed keywords and the five numbers as entered. */
  function BuildPayload(form: FormState): (req: EstimateRequest)
    ensures forall k :: 0 <= k < |req.keywords| ==> WellFormedKeyword(req.keywords[k])
    ensures && req.targetCpc == form.cpc
            && req.estimatedMonthlyClicks == form.monthlyClicks as real
            && req.conversionRatePct == form.conversionRate
            && req.targetRoas == form.roas
            && req.campaignMonths == form.months
  {
    EstimateRequest(ParseKeywords(form.keywords), form.cpc, form.monthlyClicks as real,
                    form.conversionRate, form.roas, form.months)
  }

  /** A keyword as the parser produces it: non-empty, without a comma, not padded with white space. */
  predicate WellFormedKeyword(k: string) {
    k != [] && ',' !in k && !IsSpace(k[0]) && !IsSpace(k[|k| - 1])
  }

  /** Every character is a comma or white space. */
  ghost predicate Blank(s: string) {
    forall i :: 0 <= i < |s| ==> s[i] == ',' || IsSpace(s[i])
  }

  // ---------------------------------------------------------------- properties

  /** Comma-free pieces trim to nothing or to well-formed keywords. */
  lemma PiecesTrimWellFormed(pieces: seq<string>)
    requires forall k :: 0 <= k < |pieces| ==> ',' !in pieces[k]
    ensures forall piece :: piece in TrimAll(pieces) ==> piece == [] || WellFormedKeyword(piece)
  {
    var trimmed := TrimAll(pieces);
    forall piece | piece in trimmed ensures piece == [] || WellFormedKeyword(piece) {
      var i :| 0 <= i < |pieces| && trimmed[i] == piece;
      TrimmedPieceWellFormed(pieces[i]);
    }
  }

  /** A comma-free piece trims to nothing or to a well-formed keyword. */
  lemma TrimmedPieceWellFormed(piece: string)
    requires ',' !in piece
    ensures Trim(piece) == [] || WellFormedKeyword(Trim(piece))
  {
    var u := TrimStart(piece);
    SliceLacks(piece, |piece| - |u|, |piece|, ',');
    SliceLacks(u, 0, |TrimEnd(u)|, ',');
  }

  /** A character missing from a string is missing from each of its slices. */
  lemma SliceLacks(s: string, i: int, j: int, c: char)
    requires 0 <= i <= j <= |s| && c !in s
    ensures c !in s[i..j]
  {
    forall k | 0 <= k < j - i ensures s[i..j][k] != c {
      assert s[i..j][k] == s[i + k];
    }
  }

  lemma {:induction false} BlankJoin(pieces: seq<string>)
    requires forall k :: 0 <= k < |pieces| ==> ',' !in pieces[k]
    ensures Blank(Join(pieces, ',')) <==> forall k :: 0 <= k < |pieces| ==> AllSpace(pieces[k])
    decreases |pieces|
  {
    if |pieces| > 1 {
      BlankJoin(pieces[1..]);
      var rest := Join(pieces[1..], ',');
      var s := pieces[0] + [','] + rest;
      assert forall i :: 0 <= i < |pieces[0]| ==> s[i] == pieces[0][i];
      assert forall i :: 0 <= i < |rest| ==> s[|pieces[0]| + 1 + i] == rest[i];
      if Blank(s) {
        assert Blank(pieces[0]) by {
          forall i | 0 <= i < |pieces[0]| ensures pieces[0][i] == ',' || IsSpace(pieces[0][i]) {
            assert s[i] == pieces[0][i];
          }
        }
        assert Blank(rest) by {
          forall i | 0 <= i < |rest| ensures rest[i] == ',' || IsSpace(rest[i]) {
            assert s[|pieces[0]| + 1 + i] == rest[i];
          }
        }
        assert forall k :: 1 <= k < |pieces| ==> pieces[k] == pieces[1..][k - 1];
      } else if forall k :: 0 <= k < |pieces| ==> AllSpace(pieces[k]) {
        assert forall k :: 0 <= k < |pieces| - 1 ==> pieces[1..][k] == pieces[k + 1];
        assert Blank(rest);
        assert Blank(s) by {
          forall i | 0 <= i < |s| ensures s[i] == ',' || IsSpace(s[i]) {
            if i < |pieces[0]| {
              assert s[i] == pieces[0][i];
            } else if i > |pieces[0]| {
              assert s[i] == rest[i - |pieces[0]| - 1];
            }
          }
        }
      }
    }
  }

  /** The parser yields no keyword exactly when the text holds nothing but commas and white space. */
  lemma KeywordsEmptyIffBlank(input: string)
    ensures ParseKeywords(input) == [] <==> Blank(input)
  {
    var pieces := Split(input, ',');
    var trimmed := TrimAll(pieces);
    forall i | 0 <= i < |pieces| ensures trimmed[i] == [] <==> AllSpace(pieces[i]) {
      TrimEmptyIffSpace(pieces[i]);
    }
    JoinSplit(input, ',');
    BlankJoin(pieces);
  }

  /**
   * Well-formed keywords joined with commas parse back to themselves, in order:
   * the parser inverts joining the keyword list.
   */
  lemma KeywordsRoundTrip(keywords: seq<string>)
    requires forall k :: 0 <= k < |keywords| ==> WellFormedKeyword(keywords[k])
    ensures ParseKeywords(Join(keywords, ',')) == keywords
  {
    if |keywords| == 0 {
      EmptyInputNoKeywords();
    } else {
      var joined := Join(keywords, ',');
      assert Split(joined, ',') == keywords by { SplitJoinKeywords(keywords); }
      assert TrimAll(keywords) == keywords by { TrimEach(keywords); }
      assert DropEmpty(keywords) == keywords by { DropEmptyKeepsNonEmpty(keywords); }
      assert ParseKeywords(joined) == DropEmpty(TrimAll(Split(joined, ',')));
    }
  }

  lemma EmptyInputNoKeywords()
    ensures ParseKeywords("") == []
  {
    assert Split("", ',') == [""];
    assert TrimAll([""]) == [""];
  }

  lemma SplitJoinKeywords(keywords: seq<string>)
    requires |keywords| > 0
    requires forall k :: 0 <= k < |keywords| ==> WellFormedKeyword(keywords[k])
    ensures Split(Join(keywords, ','), ',') == keywords
  {
    assert forall k :: 0 <= k < |keywords| ==> ',' !in keywords[k];
    SplitJoin(keywords, ',');
  }

  lemma TrimEach(keywords: seq<string>)
    requires forall k :: 0 <= k < |keywords| ==> WellFormedKeyword(keywords[k])
    ensures TrimAll(keywords) == keywords
  {
    forall i | 0 <= i < |keywords| ensures Trim(keywords[i]) == keywords[i] {
      TrimUnpadded(keywords[i]);
    }
  }

  lemma {:induction false} DropEmptyKeepsNonEmpty(pieces: seq<string>)
    requires forall k :: 0 <= k < |pieces| ==> pieces[k] != []
    ensures DropEmpty(pieces) == pieces
    decreases |pieces|
  {
    if |pieces| > 0 {
      DropEmptyKeepsNonEmpty(pieces[1..]);
      assert [pieces[0]] + pieces[1..] == pieces;
    }
  }

  /**
   * With no request in flight, the button is enabled exactly when the payload it
   * would submit passes the endpoint's validation, and the endpoint then receives
   * that payload unchanged.
   */
  lemma EnabledIffValid(loading: bool, form: FormState)
    ensures !Disabled(loading, form) ==>
      Estimate.Validate(Estimate.ToBody(BuildPayload(form))) == Some(BuildPayload(form))
    ensures !loading && Disabled(loading, form) ==>
      Estimate.Validate(Estimate.ToBody(BuildPayload(form))) == None
  {
    Estimate.ValidateRoundTrip(BuildPayload(form));
  }
}
