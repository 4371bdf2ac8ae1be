/**
 * `enrich_insurer_quotes` (report_generator.py:45-75): each insurer's quote is
 * copied and extended with the broker fee, its GST, the remuneration and its
 * split with the strata manager, and the final total, each rounded to cents as
 * soon as it is computed.
 */
module Enrichment {
  import opened Values
  import opened Dicts
  import opened Money
  import opened Numbers
  import opened Pricing

  /** `float(quote.get(key, 0) or 0)`: a missing or blank value is 0; a value `float` rejects raises. */
  function MoneyField(quote: Dict<Value>, key: string): (r: Result<real>)
    ensures (Get(quote, key).None? || !Truthy(Get(quote, key).value)) ==> r == Ok(0.0)
    ensures r.Err? <==> Get(quote, key).Some? && Truthy(Get(quote, key).value) && !IsNumber(Get(quote, key).value)
    ensures r.Ok? && Get(quote, key).Some? && Truthy(Get(quote, key).value) ==> Some(r.value) == ToFloat(Get(quote, key).value)
  {
    match Get(quote, key)
    case None => Ok(0.0)
    case Some(v) =>
      if !Truthy(v) then Ok(0.0)
      else match ToFloat(v)
        case None => Err(NotANumber(key))
        case Some(x) => Ok(x)
  }

  /** The commission: like a money field, except that a value `float` rejects counts as 0. */
  function CommissionField(quote: Dict<Value>): (c: real)
    ensures MoneyField(quote, "commission_without_gst").Ok? ==> c == MoneyField(quote, "commission_without_gst").value
    ensures MoneyField(quote, "commission_without_gst").Err? ==> c == 0.0
  {
    match Get(quote, "commission_without_gst")
    case None => 0.0
    case Some(v) => if Truthy(v) then FloatOrZero(v) else 0.0
  }

  /** `associate_split / 100` needs a number (or a bool); anything else raises. */
  function SplitPct(split: Value): (r: Result<real>)
    ensures r.Ok? <==> split.VNum? || split.VBool?
    ensures split.VNum? ==> r == Ok(split.n)
    ensures split.VBool? ==> r == Ok(if split.b then 1.0 else 0.0)
  {
    match split
    case VNum(n) => Ok(n)
    case VBool(b) => Ok(if b then 1.0 else 0.0)
    case _ => Err(BadOperand("associate_split"))
  }

  /** The six derived amounts of one quote. */
  datatype Figures = Figures(
    brokerFee: real,
    brokerGst: real,
    remuneration: real,
    smRemuneration: real,
    brokerRemuneration: real,
    finalTotal: real)

  /** `split` percent of `x`, before rounding. */
  function PercentOf(x: real, split: real): real
  {
    x * (split / 100.0)
  }

  /** The strata manager's share of the remuneration: `split` percent of it, to the cent. */
  function ManagerShare(remuneration: real, split: real): (sm: real)
    ensures IsCents(sm)
    ensures -0.005 <= sm - PercentOf(remuneration, split) <= 0.005
    ensures split == 0.0 ==> sm == 0.0
    ensures IsCents(remuneration) && split == 100.0 ==> sm == remuneration
  {
    var sm := Round2(PercentOf(remuneration, split));
    Round2OfCents(0.0);
    assert split == 100.0 ==> remuneration * (split / 100.0) == remuneration;
    SumOfCents(remuneration, 0.0);
    sm
  }

  /** What is left for the broker: the remuneration less the manager's share, to the cent. */
  function BrokerShare(remuneration: real, share: real): (b: real)
    ensures IsCents(b)
    ensures IsCents(remuneration) && IsCents(share) ==> b == remuneration - share
  {
    var b := Round2(remuneration - share);
    DifferenceOfCents(remuneration, share);
    b
  }

  /**
   * Lines 56-62. Every amount is rounded to cents where it is produced and the
   * later ones are computed from the rounded earlier ones, so the remuneration
   * splits into its two shares without a cent lost.
   */
  function ComputeFigures(base: real, total: real, commission: real,
                          brokerFeePct: int, commissionPct: int, split: real): (f: Figures)
    ensures IsCents(f.brokerFee) && IsCents(f.brokerGst) && IsCents(f.remuneration)
    ensures IsCents(f.smRemuneration) && IsCents(f.brokerRemuneration) && IsCents(f.finalTotal)
    ensures f.brokerFee == BrokerFee(base, brokerFeePct, commissionPct, VNum(commission))
    ensures -0.005 <= f.brokerGst - f.brokerFee / 10.0 <= 0.005
    ensures -0.005 <= f.remuneration - (commission + f.brokerFee) <= 0.005
    ensures -0.005 <= f.smRemuneration - PercentOf(f.remuneration, split) <= 0.005
    ensures -0.005 <= f.finalTotal - (total + f.brokerFee + f.brokerGst) <= 0.005
    ensures f.smRemuneration + f.brokerRemuneration == f.remuneration
    ensures split == 0.0 ==> f.smRemuneration == 0.0 && f.brokerRemuneration == f.remuneration
    ensures split == 100.0 ==> f.smRemuneration == f.remuneration && f.brokerRemuneration == 0.0
    ensures IsCents(commission) ==> f.remuneration == commission + f.brokerFee
    ensures IsCents(total) ==> f.finalTotal == total + f.brokerFee + f.brokerGst
    ensures base == 0.0 ==> f.brokerFee == 0.0 && f.brokerGst == 0.0
  {
    var fee := BrokerFee(base, brokerFeePct, commissionPct, VNum(commission));
    var gst := Round2(fee * 0.1);
    var rem := Round2(commission + fee);
    var final := Round2(total + fee + gst);
    var sm := ManagerShare(rem, split);
    var brem := BrokerShare(rem, sm);
    assert -0.005 <= rem - (commission + fee) <= 0.005;
    assert -0.005 <= final - (total + fee + gst) <= 0.005;
    Round2OfCents(0.0);
    SumOfCents(commission, fee);
    FinalTotalExact(total, fee, gst);
    Figures(fee, gst, rem, sm, brem, final)
  }

  /** Adding whole cents to whole cents needs no rounding. */
  lemma SumOfCents(a: real, b: real)
    requires IsCents(b)
    ensures IsCents(a) ==> Round2(a + b) == a + b
  {
    if IsCents(a) {
      CentsArith(a, b);
      Round2OfCents(a + b);
    }
  }

  /** Subtracting whole cents from whole cents needs no rounding. */
  lemma DifferenceOfCents(a: real, b: real)
    ensures IsCents(a) && IsCents(b) ==> Round2(a - b) == a - b
  {
    if IsCents(a) && IsCents(b) {
      CentsArith(a, b);
      Round2OfCents(a - b);
    }
  }

  lemma FinalTotalExact(total: real, fee: real, gst: real)
    requires IsCents(fee) && IsCents(gst)
    ensures IsCents(total) ==> Round2(total + fee + gst) == total + fee + gst
  {
    CentsArith(fee, gst);
    assert total + fee + gst == total + (fee + gst);
    SumOfCents(total, fee + gst);
  }

  /** The keys enrichment writes, in the order it writes them. */
  const DerivedKeys: seq<string> :=
    ["broker_fee", "broker_gst", "remuneration", "sm_remuneration",
     "broker_remuneration", "final_total", "_final_total_numeric", "insurer"]

  /** Lines 64-72: the fields written into the copy, in order. */
  function DerivedWrites(insurer: string, f: Figures): Dict<Value>
  {
    [("broker_fee", VNum(f.brokerFee)),
     ("broker_gst", VNum(f.brokerGst)),
     ("remuneration", VNum(f.remuneration)),
     ("sm_remuneration", VNum(f.smRemuneration)),
     ("broker_remuneration", VNum(f.brokerRemuneration)),
     ("final_total", VNum(f.finalTotal)),
     ("_final_total_numeric", VNum(f.finalTotal)),
     ("insurer", VStr(insurer))]
  }

  /** The copy of the quote with the derived fields written on top. */
  function WithFigures(quote: Dict<Value>, insurer: string, f: Figures): Dict<Value>
  {
    ApplyAll(quote, DerivedWrites(insurer, f))
  }

  /** One iteration of the loop: the enriched copy of `insurer`'s quote, or the exception it raises. */
  function EnrichQuote(insurer: string, quote: Value, brokerFeePct: int, commissionPct: int, split: Value): (r: Result<Dict<Value>>)
  {
    if !quote.VDict? then Err(NotAMapping(insurer))
    else
      var q := quote.entries;
      match MoneyField(q, "base")
      case Err(e) => Err(e)
      case Ok(base) =>
        match MoneyField(q, "total")
        case Err(e) => Err(e)
        case Ok(total) =>
          match SplitPct(split)
          case Err(e) => Err(e)
          case Ok(s) =>
            Ok(WithFigures(q, insurer, ComputeFigures(base, total, CommissionField(q), brokerFeePct, commissionPct, s)))
  }

  /** The loop body as a function of the insurer and its quote. */
  function EnrichStep(brokerFeePct: int, commissionPct: int, split: Value): (string, Value) -> Result<Dict<Value>>
  {
    (insurer, quote) => EnrichQuote(insurer, quote, brokerFeePct, commissionPct, split)
  }

  /** The whole loop: the enriched quotes in the input's order, or the first exception. */
  function EnrichAll(quotes: Dict<Value>, brokerFeePct: int, commissionPct: int, split: Value): Result<Dict<Dict<Value>>>
  {
    TryMap(quotes, EnrichStep(brokerFeePct, commissionPct, split))
  }

  /** The derived writes name each derived key once. */
  lemma DerivedWritesKeys(insurer: string, f: Figures)
    ensures Keys(DerivedWrites(insurer, f)) == DerivedKeys
    ensures NoDup(DerivedWrites(insurer, f))
  {
  }

  /**
   * The enriched copy keeps the quote's own fields first and in order, changes
   * none of them except the derived ones, and holds each derived amount; the
   * numeric final total is the displayed one.
   */
  lemma WithFiguresShape(quote: Dict<Value>, insurer: string, f: Figures)
    ensures var out := WithFigures(quote, insurer, f);
      |Keys(quote)| <= |Keys(out)| && Keys(out)[..|Keys(quote)|] == Keys(quote)
    ensures forall k :: k !in DerivedKeys ==> Get(WithFigures(quote, insurer, f), k) == Get(quote, k)
    ensures forall k :: k in Keys(WithFigures(quote, insurer, f)) ==> k in Keys(quote) || k in DerivedKeys
    ensures NoDup(quote) ==> NoDup(WithFigures(quote, insurer, f))
  {
    var ws := DerivedWrites(insurer, f);
    var out := WithFigures(quote, insurer, f);
    DerivedWritesKeys(insurer, f);
    ApplyAllKeepsOrder(quote, ws);
    forall k ensures Get(out, k) == if k in DerivedKeys then Get(ws, k) else Get(quote, k) {
      ApplyAllGet(quote, ws, k);
      LastWriteIsGet(ws, k);
    }
    if NoDup(quote) {
      ApplyAllNoDup(quote, ws);
    }
  }

  /** The derived field written `i`-th holds the value written there. */
  lemma WithFiguresAt(quote: Dict<Value>, insurer: string, f: Figures, i: nat)
    requires i < |DerivedKeys|
    ensures Get(WithFigures(quote, insurer, f), DerivedKeys[i]) == Some(DerivedWrites(insurer, f)[i].1)
  {
    var ws := DerivedWrites(insurer, f);
    DerivedWritesKeys(insurer, f);
    assert Keys(ws)[i] == ws[i].0;
    ApplyAllGet(quote, ws, ws[i].0);
    LastWriteIsGet(ws, ws[i].0);
    NoDupGet(ws, i);
  }

  /** The enriched quote's figures, read back by name. */
  lemma WithFiguresFields(quote: Dict<Value>, insurer: string, f: Figures)
    ensures var out := WithFigures(quote, insurer, f);
      && Get(out, "broker_fee") == Some(VNum(f.brokerFee))
      && Get(out, "broker_gst") == Some(VNum(f.brokerGst))
      && Get(out, "remuneration") == Some(VNum(f.remuneration))
      && Get(out, "sm_remuneration") == Some(VNum(f.smRemuneration))
      && Get(out, "broker_remuneration") == Some(VNum(f.brokerRemuneration))
      && Get(out, "final_total") == Some(VNum(f.finalTotal))
      && Get(out, "_final_total_numeric") == Some(VNum(f.finalTotal))
      && Get(out, "insurer") == Some(VStr(insurer))
  {
    WithFiguresAt(quote, insurer, f, 0);
    WithFiguresAt(quote, insurer, f, 1);
    WithFiguresAt(quote, insurer, f, 2);
    WithFiguresAt(quote, insurer, f, 3);
    WithFiguresAt(quote, insurer, f, 4);
    WithFiguresAt(quote, insurer, f, 5);
    WithFiguresAt(quote, insurer, f, 6);
    WithFiguresAt(quote, insurer, f, 7);
  }

  /**
   * A quote raises exactly when it is not a mapping, when its base or total is a
   * non-blank value that is not a number, or when the split is not a number.
   * A bad commission never raises.
   */
  lemma EnrichQuoteFails(insurer: string, quote: Value, brokerFeePct: int, commissionPct: int, split: Value)
    ensures EnrichQuote(insurer, quote, brokerFeePct, commissionPct, split).Err? <==>
      || !quote.VDict?
      || (exists key :: key in {"base", "total"} && Get(quote.entries, key).Some?
            && Truthy(Get(quote.entries, key).value) && !IsNumber(Get(quote.entries, key).value))
      || !(split.VNum? || split.VBool?)
  {
    if quote.VDict? {
      var q := quote.entries;
      var bad := (key: string) => Get(q, key).Some? && Truthy(Get(q, key).value) && !IsNumber(Get(q, key).value);
      assert MoneyField(q, "base").Err? <==> bad("base");
      assert MoneyField(q, "total").Err? <==> bad("total");
      if bad("base") || bad("total") {
        var key := if bad("base") then "base" else "total";
        assert key in {"base", "total"} && bad(key);
      }
    }
  }

  /** An enriched quote is the quote with the figures of its own base, total and commission written on top. */
  lemma EnrichQuoteFigures(insurer: string, quote: Value, brokerFeePct: int, commissionPct: int, split: Value)
    requires EnrichQuote(insurer, quote, brokerFeePct, commissionPct, split).Ok?
    ensures quote.VDict? && MoneyField(quote.entries, "base").Ok? && MoneyField(quote.entries, "total").Ok?
    ensures SplitPct(split).Ok?
    ensures EnrichQuote(insurer, quote, brokerFeePct, commissionPct, split).value
         == WithFigures(quote.entries, insurer,
              ComputeFigures(MoneyField(quote.entries, "base").value, MoneyField(quote.entries, "total").value,
                             CommissionField(quote.entries), brokerFeePct, commissionPct, SplitPct(split).value))
  {
  }

  /**
   * Lines 48-72, read back by key: an enriched quote holds the broker fee of its
   * own base and commission, shows the same numeric and displayed final total,
   * names its insurer, keeps the quote's keys first and in order, and leaves
   * every field that is not a derived one as it was.
   */
  lemma EnrichQuoteFields(insurer: string, quote: Value, brokerFeePct: int, commissionPct: int, split: Value)
    requires EnrichQuote(insurer, quote, brokerFeePct, commissionPct, split).Ok?
    ensures quote.VDict?
    ensures var r := EnrichQuote(insurer, quote, brokerFeePct, commissionPct, split).value;
      && MoneyField(quote.entries, "base").Ok?
      && Get(r, "broker_fee")
         == Some(VNum(BrokerFee(MoneyField(quote.entries, "base").value, brokerFeePct, commissionPct,
                                VNum(CommissionField(quote.entries)))))
      && Get(r, "_final_total_numeric") == Get(r, "final_total")
      && Get(r, "insurer") == Some(VStr(insurer))
      && |Keys(quote.entries)| <= |Keys(r)| && Keys(r)[..|Keys(quote.entries)|] == Keys(quote.entries)
      && forall k :: k !in DerivedKeys ==> Get(r, k) == Get(quote.entries, k)
  {
    EnrichQuoteFigures(insurer, quote, brokerFeePct, commissionPct, split);
    var q := quote.entries;
    var f := ComputeFigures(MoneyField(q, "base").value, MoneyField(q, "total").value,
                            CommissionField(q), brokerFeePct, commissionPct, SplitPct(split).value);
    WithFiguresFields(q, insurer, f);
    WithFiguresShape(q, insurer, f);
  }

  /** Base 10000, total 10000, commission 2000 at 20% / 20%, no split: fee 2000, GST 200, final 12200. */
  lemma ComputeFiguresExample()
    ensures ComputeFigures(10000.0, 10000.0, 2000.0, 20, 20, 0.0)
         == Figures(2000.0, 200.0, 4000.0, 0.0, 4000.0, 12200.0)
  {
    BrokerFeeExampleMet();
    assert IsCents(200.0);
    Round2OfCents(200.0);
    assert 2000.0 * 0.1 == 200.0;
  }

  /** The loop succeeds exactly when every quote can be enriched. */
  lemma EnrichAllOk(quotes: Dict<Value>, brokerFeePct: int, commissionPct: int, split: Value)
    ensures EnrichAll(quotes, brokerFeePct, commissionPct, split).Ok? <==>
      forall i :: 0 <= i < |quotes| ==> EnrichQuote(quotes[i].0, quotes[i].1, brokerFeePct, commissionPct, split).Ok?
  {
    TryMapOk(quotes, EnrichStep(brokerFeePct, commissionPct, split));
    assert AllOk(quotes, EnrichStep(brokerFeePct, commissionPct, split)) <==>
      forall i :: 0 <= i < |quotes| ==> EnrichQuote(quotes[i].0, quotes[i].1, brokerFeePct, commissionPct, split).Ok?;
  }

  /** A successful loop maps each insurer, in the input's order, to its own enriched quote. */
  lemma EnrichAllEntries(quotes: Dict<Value>, brokerFeePct: int, commissionPct: int, split: Value)
    requires NoDup(quotes)
    requires EnrichAll(quotes, brokerFeePct, commissionPct, split).Ok?
    ensures Keys(EnrichAll(quotes, brokerFeePct, commissionPct, split).value) == Keys(quotes)
    ensures forall i :: 0 <= i < |quotes| ==>
      EnrichQuote(quotes[i].0, quotes[i].1, brokerFeePct, commissionPct, split).Ok? &&
      Get(EnrichAll(quotes, brokerFeePct, commissionPct, split).value, quotes[i].0)
        == Some(EnrichQuote(quotes[i].0, quotes[i].1, brokerFeePct, commissionPct, split).value)
  {
    TryMapEntries(quotes, EnrichStep(brokerFeePct, commissionPct, split));
    assert MapsEach(EnrichAll(quotes, brokerFeePct, commissionPct, split).value, quotes, EnrichStep(brokerFeePct, commissionPct, split));
  }

  /** When the loop raises, it raises the exception of the first quote that cannot be enriched. */
  lemma EnrichAllFirstError(quotes: Dict<Value>, brokerFeePct: int, commissionPct: int, split: Value)
    requires EnrichAll(quotes, brokerFeePct, commissionPct, split).Err?
    ensures exists i :: (0 <= i < |quotes|
      && EnrichQuote(quotes[i].0, quotes[i].1, brokerFeePct, commissionPct, split)
           == Err(EnrichAll(quotes, brokerFeePct, commissionPct, split).error)
      && forall j :: 0 <= j < i ==> EnrichQuote(quotes[j].0, quotes[j].1, brokerFeePct, commissionPct, split).Ok?)
  {
    TryMapFirstError(quotes, EnrichStep(brokerFeePct, commissionPct, split));
  }

  /** `enrich_insurer_quotes(quotes_dict, broker_fee_pct, commission_pct, associate_split)`. */
  method EnrichInsurerQuotes(quotes: Dict<Value>, brokerFeePct: int, commissionPct: int, split: Value)
    returns (r: Result<Dict<Dict<Value>>>)
    ensures r == EnrichAll(quotes, brokerFeePct, commissionPct, split)
  {
    ghost var step := EnrichStep(brokerFeePct, commissionPct, split);
    var enriched: Dict<Dict<Value>> := [];
    var i := 0;
    while i < |quotes|
      invariant 0 <= i <= |quotes|
      invariant TryMap(quotes[..i], step) == Ok(enriched)
    {
      var (insurer, quote) := quotes[i];
      if !quote.VDict? {
        TryMapErrAt(quotes, step, i, enriched, NotAMapping(insurer));
        return Err(NotAMapping(insurer));
      }
      var q := quote.entries;
      var base := MoneyField(q, "base");
      if base.Err? {
        TryMapErrAt(quotes, step, i, enriched, base.error);
        return Err(base.error);
      }
      var total := MoneyField(q, "total");
      if total.Err? {
        TryMapErrAt(quotes, step, i, enriched, total.error);
        return Err(total.error);
      }
      var s := SplitPct(split);
      if s.Err? {
        TryMapErrAt(quotes, step, i, enriched, s.error);
        return Err(s.error);
      }
      var f := ComputeFigures(base.value, total.value, CommissionField(q), brokerFeePct, commissionPct, s.value);
      var enrichedQuote := StoreAll(q, DerivedWrites(insurer, f));
      TryMapOkAt(quotes, step, i, enriched, enrichedQuote);
      enriched := Set(enriched, insurer, enrichedQuote);
      i := i + 1;
    }
    assert quotes[..i] == quotes;
    return Ok(enriched);
  }
}
