/**
 * `find_recommended` (report_generator.py:77-89): the quote with the lowest
 * non-zero final total, first one on a tie, without its internal numeric total.
 */
module Recommendation {
  import opened Values
  import opened Dicts

  /** The internal key that carries a quote's final total as a number. */
  const NumericTotalKey: string := "_final_total_numeric"

  /**
   * How a quote's numeric total takes part in the search: Ok(None) when it is
   * skipped (missing, which reads as infinity, or falsy), Ok(Some(x)) when it is
   * compared, and an error when it is a string, list or dict that cannot be
   * ordered against a number.
   */
  function Ranking(quote: Dict<Value>): (r: Result<Option<real>>)
    ensures Get(quote, NumericTotalKey).None? ==> r == Ok(None)
    ensures Get(quote, NumericTotalKey).Some? ==>
      var v := Get(quote, NumericTotalKey).value;
      && (!Truthy(v) ==> r == Ok(None))
      && (Truthy(v) && v.VNum? ==> r == Ok(Some(v.n)))
      && (Truthy(v) && v.VBool? ==> r == Ok(Some(1.0)))
      && (r.Err? <==> Truthy(v) && !v.VNum? && !v.VBool?)
    ensures r.Ok? && r.value.Some? ==> r.value.value != 0.0
  {
    match Get(quote, NumericTotalKey)
    case None => Ok(None)
    case Some(v) =>
      if !Truthy(v) then Ok(None)
      else match v
        case VNum(x) => Ok(Some(x))
        case VBool(_) => Ok(Some(1.0))
        case _ => Err(Unordered(NumericTotalKey))
  }

  /** Quote `i` is compared with total `x`. */
  predicate RankedAt(quotes: Dict<Dict<Value>>, i: int, x: real)
  {
    0 <= i < |quotes| && Ranking(quotes[i].1) == Ok(Some(x))
  }

  /**
   * The loop of lines 80-84: the position and total of the best quote so far,
   * None while nothing has been compared, or the error a comparison raises.
   * A later quote replaces the best only when its total is strictly lower.
   */
  function Select(quotes: Dict<Dict<Value>>): (r: Result<Option<(nat, real)>>)
    ensures r.Ok? && r.value.Some? ==> RankedAt(quotes, r.value.value.0, r.value.value.1)
  {
    if quotes == [] then Ok(None)
    else
      var n := |quotes| - 1;
      match Select(quotes[..n])
      case Err(e) => Err(e)
      case Ok(best) =>
        match Ranking(quotes[n].1)
        case Err(e) => Err(e)
        case Ok(None) => Ok(best)
        case Ok(Some(x)) =>
          if best.None? || x < best.value.1 then Ok(Some((n, x)))
          else
            assert quotes[..n][best.value.0] == quotes[best.value.0];
            Ok(best)
  }

  /** `find_recommended(enriched_quotes)`: a copy of the best quote without its numeric total, or `{}`. */
  function Recommend(quotes: Dict<Dict<Value>>): Result<Dict<Value>>
  {
    match Select(quotes)
    case Err(e) => Err(e)
    case Ok(None) => Ok([])
    case Ok(Some((i, _))) =>
      var best := quotes[i].1;
      if best == [] then Ok([]) else Ok(Remove(best, NumericTotalKey))
  }

  /** One more quote: the search so far, then that quote's comparison. */
  lemma SelectStep(quotes: Dict<Dict<Value>>, i: nat)
    requires i < |quotes|
    ensures Select(quotes[..i + 1]) ==
      match Select(quotes[..i])
      case Err(e) => Err(e)
      case Ok(best) =>
        match Ranking(quotes[i].1)
        case Err(e) => Err(e)
        case Ok(None) => Ok(best)
        case Ok(Some(x)) => if best.None? || x < best.value.1 then Ok(Some((i, x))) else Ok(best)
  {
    assert quotes[..i + 1][..i] == quotes[..i];
  }

  /** Once a comparison raises, the search raises that error whatever follows. */
  lemma {:induction false} SelectStopsAtError(quotes: Dict<Dict<Value>>, i: nat)
    requires i <= |quotes|
    requires Select(quotes[..i]).Err?
    ensures Select(quotes) == Select(quotes[..i])
    decreases |quotes| - i
  {
    if i == |quotes| {
      assert quotes[..i] == quotes;
    } else {
      assert quotes[..|quotes| - 1][..i] == quotes[..i];
      SelectStopsAtError(quotes[..|quotes| - 1], i);
    }
  }

  /** `find_recommended`, as written: a running minimum over the quotes in order. */
  method FindRecommended(enrichedQuotes: Dict<Dict<Value>>) returns (r: Result<Dict<Value>>)
    ensures r == Recommend(enrichedQuotes)
  {
    var minTotal: Option<real> := None;  // None stands for float("inf")
    var best: Option<Dict<Value>> := None;
    ghost var bestIndex: nat := 0;
    var i := 0;
    while i < |enrichedQuotes|
      invariant 0 <= i <= |enrichedQuotes|
      invariant Select(enrichedQuotes[..i]).Ok?
      invariant Select(enrichedQuotes[..i]).value.None? <==> best.None?
      invariant minTotal.None? <==> best.None?
      invariant best.Some? ==>
        && minTotal.Some? && bestIndex < |enrichedQuotes| && best.value == enrichedQuotes[bestIndex].1
        && Select(enrichedQuotes[..i]).value == Some((bestIndex, minTotal.value))
    {
      var (_, quote) := enrichedQuotes[i];
      SelectStep(enrichedQuotes, i);
      var totalVal := Ranking(quote);
      if totalVal.Err? {
        SelectStopsAtError(enrichedQuotes, i + 1);
        return Err(totalVal.error);
      }
      if totalVal.value.Some? && (minTotal.None? || totalVal.value.value < minTotal.value) {
        minTotal := totalVal.value;
        best := Some(quote);
        bestIndex := i;
      }
      i := i + 1;
    }
    assert enrichedQuotes[..i] == enrichedQuotes;
    if best.Some? && best.value != [] {
      var result := best.value;
      result := Remove(result, NumericTotalKey);
      return Ok(result);
    }
    return Ok([]);
  }

  /**
   * The chosen quote has the lowest total among those compared: no compared
   * total is lower, and every quote before it has a strictly higher one, so
   * the first of several equal totals wins.
   */
  lemma {:induction false} SelectIsFirstMinimum(quotes: Dict<Dict<Value>>)
    requires Select(quotes).Ok? && Select(quotes).value.Some?
    ensures var (i, x) := Select(quotes).value.value;
      && (forall j, y :: RankedAt(quotes, j, y) ==> x <= y)
      && (forall j, y :: RankedAt(quotes, j, y) && j < i ==> x < y)
  {
    var n := |quotes| - 1;
    var pre := quotes[..n];
    var (i, x) := Select(quotes).value.value;
    assert forall j, y :: 0 <= j < n ==> (RankedAt(pre, j, y) <==> RankedAt(quotes, j, y)) by {
      assert forall j :: 0 <= j < n ==> pre[j] == quotes[j];
    }
    if Select(pre).value.Some? {
      SelectIsFirstMinimum(pre);
    } else {
      SelectNoneMeansUnranked(pre);
    }
  }

  /** Nothing is chosen exactly when no quote's total is compared at all. */
  lemma {:induction false} SelectNoneMeansUnranked(quotes: Dict<Dict<Value>>)
    requires Select(quotes).Ok?
    ensures Select(quotes).value.None? <==> forall j :: 0 <= j < |quotes| ==> Ranking(quotes[j].1) == Ok(None)
  {
    if quotes != [] {
      var n := |quotes| - 1;
      var pre := quotes[..n];
      SelectNoneMeansUnranked(pre);
      assert forall j :: 0 <= j < n ==> pre[j] == quotes[j];
    }
  }

  /** The search raises exactly when some quote's total is a string, list or dict that is not empty. */
  lemma {:induction false} SelectFails(quotes: Dict<Dict<Value>>)
    ensures Select(quotes).Err? <==> exists j :: 0 <= j < |quotes| && Ranking(quotes[j].1).Err?
  {
    if quotes != [] {
      var n := |quotes| - 1;
      var pre := quotes[..n];
      SelectFails(pre);
      assert forall j :: 0 <= j < n ==> pre[j] == quotes[j];
    }
  }

  /**
   * The recommendation is the chosen quote with every field but the numeric
   * total, and `{}` when nothing was compared.
   */
  lemma RecommendFields(quotes: Dict<Dict<Value>>)
    requires Recommend(quotes).Ok?
    ensures NumericTotalKey !in Keys(Recommend(quotes).value)
    ensures Select(quotes).Ok?
    ensures Select(quotes).value.None? ==> Recommend(quotes).value == []
    ensures Select(quotes).value.Some? ==>
      forall k :: k != NumericTotalKey ==>
        Get(Recommend(quotes).value, k) == Get(quotes[Select(quotes).value.value.0].1, k)
  {
  }
}
