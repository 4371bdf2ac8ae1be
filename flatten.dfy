/**
 * `flatten_data_for_replace` (report_generator.py:91-113): one flat dict of
 * placeholder values for the report template. General information first,
 * then `<insurer>.<field>` for every enriched quote, then
 * `recommended.<field>`, then the two percentages and the strata manager.
 * Later writes win, as with repeated `flat[key] = value`.
 */
module Flatten {
  import opened Values
  import opened Text
  import opened Dicts
  import opened Numbers
  import opened Enrichment
  import opened Recommendation

  /** `field.startswith("_")`: internal fields are not shown. */
  predicate IsInternal(field: string)
  {
    |field| > 0 && field[0] == '_'
  }

  /** Fields shown as entered even when they are numbers. */
  const RawFields: seq<string> := ["uwgst", "uw", "uwgst_fee"]

  /** Line 100-103: a number is shown as currency unless its field is one of the raw fields. */
  function InsurerDisplay(field: string, v: Value): (r: Value)
    ensures field in RawFields || !IsNumber(v) ==> r == v
    ensures field !in RawFields && IsNumber(v) ==> r == FormatCurrency(v, 2) && r.VStr?
  {
    if IsNumber(v) && field !in RawFields then FormatCurrency(v, 2) else v
  }

  /** Lines 106-109: every number of the recommended quote is shown as currency. */
  function RecommendedDisplay(v: Value): (r: Value)
    ensures !IsNumber(v) ==> r == v
    ensures IsNumber(v) ==> r == FormatCurrency(v, 2) && r.VStr?
  {
    if IsNumber(v) then FormatCurrency(v, 2) else v
  }

  /** `<insurer>.<field>`. */
  function FieldKey(insurer: string, field: string): string
  {
    insurer + "." + field
  }

  /** The writes of the inner loop (lines 98-103) for one insurer's fields. */
  function FieldWrites(insurer: string, fields: Dict<Value>): Dict<Value>
  {
    if fields == [] then []
    else
      var (field, v) := fields[|fields| - 1];
      FieldWrites(insurer, fields[..|fields| - 1])
        + (if IsInternal(field) then [] else [(FieldKey(insurer, field), InsurerDisplay(field, v))])
  }

  /** The writes of the outer loop (lines 97-103), insurer after insurer. */
  function InsurerWrites(enriched: Dict<Dict<Value>>): Dict<Value>
  {
    if enriched == [] then []
    else
      var (insurer, fields) := enriched[|enriched| - 1];
      InsurerWrites(enriched[..|enriched| - 1]) + FieldWrites(insurer, fields)
  }

  /** The writes of lines 105-109 for the recommended quote. */
  function RecommendedWrites(recommended: Dict<Value>): Dict<Value>
  {
    if recommended == [] then []
    else
      var (field, v) := recommended[|recommended| - 1];
      RecommendedWrites(recommended[..|recommended| - 1]) + [(FieldKey("recommended", field), RecommendedDisplay(v))]
  }

  /** `f"{pct}%"` for an integer percentage. */
  function PercentText(pct: int): (s: string)
    ensures |s| >= 2 && s[|s| - 1] == '%'
    ensures s[..|s| - 1] == IntText(pct)
    ensures ParseDecimal(s[..|s| - 1]) == Some(pct as real)
  {
    var s := IntText(pct) + "%";
    assert s[..|s| - 1] == IntText(pct);
    ParseIntText(pct);
    s
  }

  /** The keys lines 110-112 write, in order. */
  const TrailingKeys: seq<string> := ["broker_fee_pct", "commission_pct", "strata_manager"]

  /** Lines 110-112. */
  function TrailingWrites(brokerFeePct: int, commissionPct: int, strataManager: Value): Dict<Value>
  {
    [("broker_fee_pct", VStr(PercentText(brokerFeePct))),
     ("commission_pct", VStr(PercentText(commissionPct))),
     ("strata_manager", strataManager)]
  }

  /**
   * `data.get(key, {})` where the caller goes on to read it as a dict: a
   * missing entry is empty, and anything but a dict raises.
   */
  function MappingAt(data: Dict<Value>, key: string): (r: Result<Dict<Value>>)
    ensures Get(data, key).None? ==> r == Ok([])
    ensures r.Ok? && Get(data, key).Some? ==> Get(data, key).value == VDict(r.value)
    ensures r.Err? <==> Get(data, key).Some? && !Get(data, key).value.VDict?
  {
    match Get(data, key)
    case None => Ok([])
    case Some(v) => if v.VDict? then Ok(v.entries) else Err(NotAMapping(key))
  }

  /** `data.get("general_info", {}).items()`. */
  function GeneralInfo(data: Dict<Value>): Result<Dict<Value>>
  {
    MappingAt(data, "general_info")
  }

  /** `data.get("associate_split", 0)`. */
  function SplitOf(data: Dict<Value>): (v: Value)
    ensures Get(data, "associate_split").None? ==> v == VNum(0.0)
    ensures Get(data, "associate_split").Some? ==> v == Get(data, "associate_split").value
  {
    match Get(data, "associate_split")
    case None => VNum(0.0)
    case Some(v) => v
  }

  /** `data.get("Quotes", {})`, which enrichment iterates with `.items()`. */
  function QuotesOf(data: Dict<Value>): Result<Dict<Value>>
  {
    MappingAt(data, "Quotes")
  }

  /** The enriched quotes of `data` (line 96), or the exception reading or enriching them raises. */
  function EnrichedOf(data: Dict<Value>, brokerFeePct: int, commissionPct: int): Result<Dict<Dict<Value>>>
  {
    match QuotesOf(data)
    case Err(e) => Err(e)
    case Ok(quotes) => EnrichAll(quotes, brokerFeePct, commissionPct, SplitOf(data))
  }

  /** Every write the function performs, in order, or the exception it raises first. */
  function FlattenWrites(data: Dict<Value>, brokerFeePct: int, commissionPct: int, strataManager: Value): Result<Dict<Value>>
  {
    match GeneralInfo(data)
    case Err(e) => Err(e)
    case Ok(info) =>
      match EnrichedOf(data, brokerFeePct, commissionPct)
      case Err(e) => Err(e)
      case Ok(enriched) =>
        match Recommend(enriched)
        case Err(e) => Err(e)
        case Ok(recommended) =>
          Ok(info + InsurerWrites(enriched) + RecommendedWrites(recommended)
             + TrailingWrites(brokerFeePct, commissionPct, strataManager))
  }

  /** `flatten_data_for_replace(data, broker_fee_pct, commission_pct, strata_manager)`. */
  function Flat(data: Dict<Value>, brokerFeePct: int, commissionPct: int, strataManager: Value): Result<Dict<Value>>
  {
    match FlattenWrites(data, brokerFeePct, commissionPct, strataManager)
    case Err(e) => Err(e)
    case Ok(writes) => Ok(ApplyAll([], writes))
  }

  lemma FieldWritesStep(insurer: string, fields: Dict<Value>, j: nat)
    requires j < |fields|
    ensures FieldWrites(insurer, fields[..j + 1]) == FieldWrites(insurer, fields[..j])
      + (if IsInternal(fields[j].0) then [] else [(FieldKey(insurer, fields[j].0), InsurerDisplay(fields[j].0, fields[j].1))])
  {
    assert fields[..j + 1][..j] == fields[..j];
  }

  lemma InsurerWritesStep(enriched: Dict<Dict<Value>>, i: nat)
    requires i < |enriched|
    ensures InsurerWrites(enriched[..i + 1]) == InsurerWrites(enriched[..i]) + FieldWrites(enriched[i].0, enriched[i].1)
  {
    assert enriched[..i + 1][..i] == enriched[..i];
  }

  lemma RecommendedWritesStep(recommended: Dict<Value>, j: nat)
    requires j < |recommended|
    ensures RecommendedWrites(recommended[..j + 1]) == RecommendedWrites(recommended[..j])
      + [(FieldKey("recommended", recommended[j].0), RecommendedDisplay(recommended[j].1))]
  {
    assert recommended[..j + 1][..j] == recommended[..j];
  }

  /** `flat[key] = value`, one more write after the writes `ws` made on top of `start`. */
  method Store(flat: Dict<Value>, ghost start: Dict<Value>, ghost ws: Dict<Value>, key: string, value: Value)
    returns (flat': Dict<Value>)
    requires flat == ApplyAll(start, ws)
    ensures flat' == ApplyAll(start, ws + [(key, value)])
  {
    ApplyAllSnocEntry(start, ws, (key, value));
    flat' := Set(flat, key, value);
  }

  /** The inner loop of lines 98-103: the fields of one insurer stored into `flat`. */
  method StoreInsurerFields(flat: Dict<Value>, insurer: string, insurerData: Dict<Value>)
    returns (flat': Dict<Value>)
    ensures flat' == ApplyAll(flat, FieldWrites(insurer, insurerData))
  {
    flat' := flat;
    var j := 0;
    assert insurerData[..j] == [];
    while j < |insurerData|
      invariant 0 <= j <= |insurerData|
      invariant flat' == ApplyAll(flat, FieldWrites(insurer, insurerData[..j]))
    {
      var (field, value) := insurerData[j];
      ghost var done := FieldWrites(insurer, insurerData[..j]);
      FieldWritesStep(insurer, insurerData, j);
      if !IsInternal(field) {
        assert FieldWrites(insurer, insurerData[..j + 1])
            == done + [(FieldKey(insurer, field), InsurerDisplay(field, value))];
        if IsNumber(value) && field !in RawFields {
          flat' := Store(flat', flat, done, FieldKey(insurer, field), FormatCurrency(value, 2));
        } else {
          flat' := Store(flat', flat, done, FieldKey(insurer, field), value);
        }
      } else {
        assert FieldWrites(insurer, insurerData[..j + 1]) == done + [];
        assert done + [] == done;
      }
      j := j + 1;
    }
    assert insurerData[..j] == insurerData;
  }

  /** The four groups of writes, applied one group after another. */
  lemma ApplyInStages(info: Dict<Value>, insurerWrites: Dict<Value>, recommendedWrites: Dict<Value>, trailing: Dict<Value>)
    ensures ApplyAll([], info + insurerWrites + recommendedWrites + trailing)
         == ApplyAll(ApplyAll(ApplyAll(ApplyAll([], info), insurerWrites), recommendedWrites), trailing)
  {
    ApplyAllAppend([], info + insurerWrites + recommendedWrites, trailing);
    ApplyAllAppend([], info + insurerWrites, recommendedWrites);
    ApplyAllAppend([], info, insurerWrites);
  }

  /** The outer loop of lines 97-103: every insurer's fields stored into `flat`. */
  method StoreInsurers(flat: Dict<Value>, insurers: Dict<Dict<Value>>) returns (flat': Dict<Value>)
    ensures flat' == ApplyAll(flat, InsurerWrites(insurers))
  {
    flat' := flat;
    var i := 0;
    assert insurers[..i] == [];
    while i < |insurers|
      invariant 0 <= i <= |insurers|
      invariant flat' == ApplyAll(flat, InsurerWrites(insurers[..i]))
    {
      var (insurer, insurerData) := insurers[i];
      InsurerWritesStep(insurers, i);
      ApplyAllAppend(flat, InsurerWrites(insurers[..i]), FieldWrites(insurer, insurerData));
      flat' := StoreInsurerFields(flat', insurer, insurerData);
      i := i + 1;
    }
    assert insurers[..i] == insurers;
  }

  /** The loop of lines 105-109: the recommended quote's fields stored into `flat`. */
  method StoreRecommended(flat: Dict<Value>, recommended: Dict<Value>) returns (flat': Dict<Value>)
    ensures flat' == ApplyAll(flat, RecommendedWrites(recommended))
  {
    flat' := flat;
    var i := 0;
    assert recommended[..i] == [];
    while i < |recommended|
      invariant 0 <= i <= |recommended|
      invariant flat' == ApplyAll(flat, RecommendedWrites(recommended[..i]))
    {
      var (field, value) := recommended[i];
      RecommendedWritesStep(recommended, i);
      if IsNumber(value) {
        flat' := Store(flat', flat, RecommendedWrites(recommended[..i]), FieldKey("recommended", field), FormatCurrency(value, 2));
      } else {
        flat' := Store(flat', flat, RecommendedWrites(recommended[..i]), FieldKey("recommended", field), value);
      }
      i := i + 1;
    }
    assert recommended[..i] == recommended;
  }

  /** Lines 110-112: the percentages and the strata manager stored last. */
  method StoreTrailing(flat: Dict<Value>, brokerFeePct: int, commissionPct: int, strataManager: Value)
    returns (flat': Dict<Value>)
    ensures flat' == ApplyAll(flat, TrailingWrites(brokerFeePct, commissionPct, strataManager))
  {
    var feeText, commissionText := VStr(PercentText(brokerFeePct)), VStr(PercentText(commissionPct));
    flat' := Set(flat, "broker_fee_pct", feeText);
    flat' := Set(flat', "commission_pct", commissionText);
    flat' := Set(flat', "strata_manager", strataManager);
    ApplyAllThree(flat, ("broker_fee_pct", feeText), ("commission_pct", commissionText), ("strata_manager", strataManager));
  }

  /** `flatten_data_for_replace`, as written: the stores into `flat`, loop by loop. */
  method FlattenDataForReplace(data: Dict<Value>, brokerFeePct: int, commissionPct: int, strataManager: Value)
    returns (r: Result<Dict<Value>>)
    ensures r == Flat(data, brokerFeePct, commissionPct, strataManager)
  {
    var info := GeneralInfo(data);
    if info.Err? {
      return Err(info.error);
    }
    var flat := StoreAll([], info.value);
    var associateSplit := SplitOf(data);
    var quotes := QuotesOf(data);
    if quotes.Err? {
      return Err(quotes.error);
    }
    var enriched := EnrichInsurerQuotes(quotes.value, brokerFeePct, commissionPct, associateSplit);
    if enriched.Err? {
      return Err(enriched.error);
    }
    flat := StoreInsurers(flat, enriched.value);
    var recommended := FindRecommended(enriched.value);
    if recommended.Err? {
      return Err(recommended.error);
    }
    flat := StoreRecommended(flat, recommended.value);
    flat := StoreTrailing(flat, brokerFeePct, commissionPct, strataManager);
    ApplyInStages(info.value, InsurerWrites(enriched.value), RecommendedWrites(recommended.value),
                  TrailingWrites(brokerFeePct, commissionPct, strataManager));
    return Ok(flat);
  }

  /** `<insurer>.<field>` names one insurer and one field when insurer names hold no `.`. */
  lemma FieldKeySplit(insurer: string, field: string, other: string, otherField: string)
    requires '.' !in insurer && '.' !in other
    requires FieldKey(insurer, field) == FieldKey(other, otherField)
    ensures insurer == other && field == otherField
  {
    var k := FieldKey(insurer, field);
    assert k == insurer + "." + field == other + "." + otherField;
    assert k[|insurer|] == '.' && k[|other|] == '.';
    assert |insurer| == |other|;
    assert insurer == k[..|insurer|] && other == k[..|other|];
    assert field == k[|insurer| + 1..] && otherField == k[|other| + 1..];
  }

  /**
   * The inner loop writes `<insurer>.<field>` for exactly the fields of its own
   * insurer that are not internal, with the display value of the field's last entry.
   */
  lemma {:induction false} FieldWritesLast(insurer: string, fields: Dict<Value>, other: string, field: string)
    requires '.' !in insurer && '.' !in other
    ensures LastWrite(FieldWrites(insurer, fields), FieldKey(other, field)) ==
      if other != insurer || IsInternal(field) || LastWrite(fields, field).None? then None
      else Some(InsurerDisplay(field, LastWrite(fields, field).value))
  {
    if fields != [] {
      var n := |fields| - 1;
      var (f, v) := fields[n];
      FieldWritesLast(insurer, fields[..n], other, field);
      var tail: Dict<Value> := if IsInternal(f) then [] else [(FieldKey(insurer, f), InsurerDisplay(f, v))];
      LastWriteAppend(FieldWrites(insurer, fields[..n]), tail, FieldKey(other, field));
      if FieldKey(insurer, f) == FieldKey(other, field) {
        FieldKeySplit(insurer, f, other, field);
      }
    }
  }

  /** A key without `.` is never written by the inner loop. */
  lemma {:induction false} FieldWritesUndotted(insurer: string, fields: Dict<Value>, k: string)
    requires '.' !in k
    ensures LastWrite(FieldWrites(insurer, fields), k) == None
  {
    if fields != [] {
      var n := |fields| - 1;
      var (f, v) := fields[n];
      FieldWritesUndotted(insurer, fields[..n], k);
      var tail: Dict<Value> := if IsInternal(f) then [] else [(FieldKey(insurer, f), InsurerDisplay(f, v))];
      LastWriteAppend(FieldWrites(insurer, fields[..n]), tail, k);
      assert (insurer + "." + f)[|insurer|] == '.';
    }
  }

  /** The outer loop writes `<insurer>.<field>` only while visiting that insurer. */
  lemma {:induction false} InsurerWritesLast(enriched: Dict<Dict<Value>>, insurer: string, field: string)
    requires NoDup(enriched)
    requires forall j :: 0 <= j < |enriched| ==> '.' !in enriched[j].0
    requires '.' !in insurer
    ensures LastWrite(InsurerWrites(enriched), FieldKey(insurer, field)) ==
      match Get(enriched, insurer)
      case None => None
      case Some(fields) => LastWrite(FieldWrites(insurer, fields), FieldKey(insurer, field))
  {
    if enriched != [] {
      var n := |enriched| - 1;
      var pre, last := enriched[..n], enriched[n];
      assert NoDup(pre);
      InsurerWritesLast(pre, insurer, field);
      LastWriteAppend(InsurerWrites(pre), FieldWrites(last.0, last.1), FieldKey(insurer, field));
      FieldWritesLast(last.0, last.1, insurer, field);
      assert pre + [last] == enriched;
      IndexOfAppend(pre, last, insurer);
      if last.0 == insurer {
        assert forall j :: 0 <= j < n ==> Keys(pre)[j] == enriched[j].0 != last.0;
      }
    }
  }

  /** A key without `.` is never written by the outer loop. */
  lemma {:induction false} InsurerWritesUndotted(enriched: Dict<Dict<Value>>, k: string)
    requires '.' !in k
    ensures LastWrite(InsurerWrites(enriched), k) == None
  {
    if enriched != [] {
      var n := |enriched| - 1;
      InsurerWritesUndotted(enriched[..n], k);
      FieldWritesUndotted(enriched[n].0, enriched[n].1, k);
      LastWriteAppend(InsurerWrites(enriched[..n]), FieldWrites(enriched[n].0, enriched[n].1), k);
    }
  }

  /** The recommended loop writes `recommended.<field>` for every field, with its display value. */
  lemma {:induction false} RecommendedWritesLast(recommended: Dict<Value>, field: string)
    ensures LastWrite(RecommendedWrites(recommended), FieldKey("recommended", field)) ==
      if LastWrite(recommended, field).None? then None
      else Some(RecommendedDisplay(LastWrite(recommended, field).value))
  {
    if recommended != [] {
      var n := |recommended| - 1;
      var (f, v) := recommended[n];
      RecommendedWritesLast(recommended[..n], field);
      LastWriteAppend(RecommendedWrites(recommended[..n]), [(FieldKey("recommended", f), RecommendedDisplay(v))],
                      FieldKey("recommended", field));
      if FieldKey("recommended", f) == FieldKey("recommended", field) {
        FieldKeySplit("recommended", f, "recommended", field);
      }
    }
  }

  /** The recommended loop writes only keys of the form `recommended.<field>`. */
  lemma {:induction false} RecommendedWritesOnly(recommended: Dict<Value>, k: string)
    requires forall field :: k != FieldKey("recommended", field)
    ensures LastWrite(RecommendedWrites(recommended), k) == None
  {
    if recommended != [] {
      var n := |recommended| - 1;
      var (f, v) := recommended[n];
      RecommendedWritesOnly(recommended[..n], k);
      LastWriteAppend(RecommendedWrites(recommended[..n]), [(FieldKey("recommended", f), RecommendedDisplay(v))], k);
    }
  }

  /** A key without `.` is never written by the recommended loop. */
  lemma RecommendedWritesUndotted(recommended: Dict<Value>, k: string)
    requires '.' !in k
    ensures LastWrite(RecommendedWrites(recommended), k) == None
  {
    forall field ensures k != FieldKey("recommended", field) {
      assert ("recommended" + "." + field)[11] == '.';
    }
    RecommendedWritesOnly(recommended, k);
  }

  /**
   * Later writes win: a key of the flat dict holds what the last group of
   * writes that names it wrote — the trailing three, the recommended quote,
   * the insurers, or general information, in that order of precedence.
   */
  lemma FlatLookup(data: Dict<Value>, brokerFeePct: int, commissionPct: int, strataManager: Value, k: string)
    requires Flat(data, brokerFeePct, commissionPct, strataManager).Ok?
    ensures GeneralInfo(data).Ok? && EnrichedOf(data, brokerFeePct, commissionPct).Ok?
    ensures Recommend(EnrichedOf(data, brokerFeePct, commissionPct).value).Ok?
    ensures var info := GeneralInfo(data).value;
      var enriched := EnrichedOf(data, brokerFeePct, commissionPct).value;
      var trailing := TrailingWrites(brokerFeePct, commissionPct, strataManager);
      var recommended := RecommendedWrites(Recommend(enriched).value);
      Get(Flat(data, brokerFeePct, commissionPct, strataManager).value, k) ==
        if LastWrite(trailing, k).Some? then LastWrite(trailing, k)
        else if LastWrite(recommended, k).Some? then LastWrite(recommended, k)
        else if LastWrite(InsurerWrites(enriched), k).Some? then LastWrite(InsurerWrites(enriched), k)
        else LastWrite(info, k)
  {
    var info := GeneralInfo(data).value;
    var enriched := EnrichedOf(data, brokerFeePct, commissionPct).value;
    var iw, rw := InsurerWrites(enriched), RecommendedWrites(Recommend(enriched).value);
    var tw := TrailingWrites(brokerFeePct, commissionPct, strataManager);
    ApplyAllGet([], info + iw + rw + tw, k);
    LastWriteAppend(info + iw + rw, tw, k);
    LastWriteAppend(info + iw, rw, k);
    LastWriteAppend(info, iw, k);
  }

  lemma TrailingLast(brokerFeePct: int, commissionPct: int, strataManager: Value)
    ensures var trailing := TrailingWrites(brokerFeePct, commissionPct, strataManager);
      && LastWrite(trailing, "broker_fee_pct") == Some(VStr(PercentText(brokerFeePct)))
      && LastWrite(trailing, "commission_pct") == Some(VStr(PercentText(commissionPct)))
      && LastWrite(trailing, "strata_manager") == Some(strataManager)
  {
    var trailing := TrailingWrites(brokerFeePct, commissionPct, strataManager);
    assert "strata_manager"[0] != "commission_pct"[0] && "strata_manager"[0] != "broker_fee_pct"[0];
    assert "commission_pct"[0] != "broker_fee_pct"[0];
    LastWriteOfThree(trailing[0], trailing[1], trailing[2], "broker_fee_pct");
    LastWriteOfThree(trailing[0], trailing[1], trailing[2], "commission_pct");
    LastWriteOfThree(trailing[0], trailing[1], trailing[2], "strata_manager");
  }

  /** Lines 110-112 write nothing but their own three keys. */
  lemma NotTrailing(brokerFeePct: int, commissionPct: int, strataManager: Value, k: string)
    requires k !in TrailingKeys
    ensures LastWrite(TrailingWrites(brokerFeePct, commissionPct, strataManager), k) == None
  {
    var trailing := TrailingWrites(brokerFeePct, commissionPct, strataManager);
    assert k != TrailingKeys[0] && k != TrailingKeys[1] && k != TrailingKeys[2];
    LastWriteOfThree(trailing[0], trailing[1], trailing[2], k);
  }

  /** Lines 110-112: the two percentages and the strata manager are always present, as written last. */
  lemma FlatTrailing(data: Dict<Value>, brokerFeePct: int, commissionPct: int, strataManager: Value)
    requires Flat(data, brokerFeePct, commissionPct, strataManager).Ok?
    ensures var flat := Flat(data, brokerFeePct, commissionPct, strataManager).value;
      && Get(flat, "broker_fee_pct") == Some(VStr(PercentText(brokerFeePct)))
      && Get(flat, "commission_pct") == Some(VStr(PercentText(commissionPct)))
      && Get(flat, "strata_manager") == Some(strataManager)
  {
    TrailingLast(brokerFeePct, commissionPct, strataManager);
    FlatLookup(data, brokerFeePct, commissionPct, strataManager, "broker_fee_pct");
    FlatLookup(data, brokerFeePct, commissionPct, strataManager, "commission_pct");
    FlatLookup(data, brokerFeePct, commissionPct, strataManager, "strata_manager");
  }

  /**
   * Lines 93-94: a general-information key without `.` keeps its value, unless
   * it is one of the three keys written last.
   */
  lemma FlatKeepsGeneralInfo(data: Dict<Value>, brokerFeePct: int, commissionPct: int, strataManager: Value, k: string)
    requires Flat(data, brokerFeePct, commissionPct, strataManager).Ok?
    requires GeneralInfo(data).Ok? && NoDup(GeneralInfo(data).value)
    requires '.' !in k && k !in TrailingKeys
    ensures Get(Flat(data, brokerFeePct, commissionPct, strataManager).value, k) == Get(GeneralInfo(data).value, k)
  {
    FlatLookup(data, brokerFeePct, commissionPct, strataManager, k);
    var enriched := EnrichedOf(data, brokerFeePct, commissionPct).value;
    NotTrailing(brokerFeePct, commissionPct, strataManager, k);
    InsurerWritesUndotted(enriched, k);
    RecommendedWritesUndotted(Recommend(enriched).value, k);
    LastWriteIsGet(GeneralInfo(data).value, k);
  }

  /** An enriched quote always carries its final total as a number, so ranking it never raises. */
  lemma EnrichedQuoteRanks(insurer: string, quote: Value, brokerFeePct: int, commissionPct: int, split: Value)
    requires EnrichQuote(insurer, quote, brokerFeePct, commissionPct, split).Ok?
    ensures Ranking(EnrichQuote(insurer, quote, brokerFeePct, commissionPct, split).value).Ok?
  {
    EnrichQuoteFigures(insurer, quote, brokerFeePct, commissionPct, split);
    var q := quote.entries;
    var f := ComputeFigures(MoneyField(q, "base").value, MoneyField(q, "total").value,
                            CommissionField(q), brokerFeePct, commissionPct, SplitPct(split).value);
    WithFiguresFields(q, insurer, f);
  }

  /** `find_recommended` never raises on what `enrich_insurer_quotes` returns. */
  lemma RecommendEnrichedOk(quotes: Dict<Value>, brokerFeePct: int, commissionPct: int, split: Value)
    requires EnrichAll(quotes, brokerFeePct, commissionPct, split).Ok?
    ensures Recommend(EnrichAll(quotes, brokerFeePct, commissionPct, split).value).Ok?
  {
    var step := EnrichStep(brokerFeePct, commissionPct, split);
    var enriched := EnrichAll(quotes, brokerFeePct, commissionPct, split).value;
    var ranked := (q: Dict<Value>) => Ranking(q).Ok?;
    forall i | 0 <= i < |quotes| && step(quotes[i].0, quotes[i].1).Ok?
      ensures ranked(step(quotes[i].0, quotes[i].1).value)
    {
      EnrichedQuoteRanks(quotes[i].0, quotes[i].1, brokerFeePct, commissionPct, split);
    }
    TryMapValues(quotes, step, ranked);
    SelectFails(enriched);
  }

  /**
   * The function raises exactly when general information or the quotes are not
   * mappings, or when enriching a quote raises; choosing the recommendation
   * never does.
   */
  lemma FlatFails(data: Dict<Value>, brokerFeePct: int, commissionPct: int, strataManager: Value)
    ensures Flat(data, brokerFeePct, commissionPct, strataManager).Err? <==>
      || GeneralInfo(data).Err?
      || QuotesOf(data).Err?
      || EnrichAll(QuotesOf(data).value, brokerFeePct, commissionPct, SplitOf(data)).Err?
  {
    if QuotesOf(data).Ok? && EnrichAll(QuotesOf(data).value, brokerFeePct, commissionPct, SplitOf(data)).Ok? {
      RecommendEnrichedOk(QuotesOf(data).value, brokerFeePct, commissionPct, SplitOf(data));
    }
  }

  /**
   * Quotes as a JSON document gives them: each quote's fields distinct, as in
   * any Python dict, and no insurer name holding `.`, so that
   * `<insurer>.<field>` names one insurer.
   */
  predicate PlainQuotes(quotes: Dict<Value>)
  {
    forall i :: 0 <= i < |quotes| ==> '.' !in quotes[i].0 && (quotes[i].1.VDict? ==> NoDup(quotes[i].1.entries))
  }

  lemma UndottedNames<W>(quotes: Dict<Value>, enriched: Dict<W>)
    requires PlainQuotes(quotes)
    requires forall k :: k in Keys(enriched) ==> k in Keys(quotes)
    ensures forall j :: 0 <= j < |enriched| ==> '.' !in enriched[j].0
  {
    forall j | 0 <= j < |enriched| ensures '.' !in enriched[j].0 {
      assert Keys(enriched)[j] == enriched[j].0;
      assert enriched[j].0 in Keys(quotes);
      var i :| 0 <= i < |Keys(quotes)| && Keys(quotes)[i] == enriched[j].0;
      assert quotes[i].0 == Keys(quotes)[i];
    }
  }

  /** Enrichment keeps plain quotes plain, and names each insurer once. */
  lemma EnrichedPlain(quotes: Dict<Value>, brokerFeePct: int, commissionPct: int, split: Value)
    requires EnrichAll(quotes, brokerFeePct, commissionPct, split).Ok?
    requires PlainQuotes(quotes)
    ensures var enriched := EnrichAll(quotes, brokerFeePct, commissionPct, split).value;
      && NoDup(enriched)
      && (forall j :: 0 <= j < |enriched| ==> '.' !in enriched[j].0 && NoDup(enriched[j].1))
  {
    var step := EnrichStep(brokerFeePct, commissionPct, split);
    var enriched := EnrichAll(quotes, brokerFeePct, commissionPct, split).value;
    TryMapKeys(quotes, step);
    UndottedNames(quotes, enriched);
    var distinct := (q: Dict<Value>) => NoDup(q);
    forall i | 0 <= i < |quotes| && step(quotes[i].0, quotes[i].1).Ok?
      ensures distinct(step(quotes[i].0, quotes[i].1).value)
    {
      var (insurer, quote) := quotes[i];
      EnrichQuoteFigures(insurer, quote, brokerFeePct, commissionPct, split);
      var q := quote.entries;
      WithFiguresShape(q, insurer, ComputeFigures(MoneyField(q, "base").value, MoneyField(q, "total").value,
                                                  CommissionField(q), brokerFeePct, commissionPct, SplitPct(split).value));
    }
    TryMapValues(quotes, step, distinct);
  }

  /** The recommended loop never writes an insurer's key, unless the insurer is called `recommended`. */
  lemma InsurerKeyNotRecommended(recommended: Dict<Value>, insurer: string, field: string)
    requires '.' !in insurer && insurer != "recommended"
    ensures LastWrite(RecommendedWrites(recommended), FieldKey(insurer, field)) == None
  {
    forall f ensures FieldKey(insurer, field) != FieldKey("recommended", f) {
      if FieldKey(insurer, field) == FieldKey("recommended", f) {
        FieldKeySplit(insurer, field, "recommended", f);
      }
    }
    RecommendedWritesOnly(recommended, FieldKey(insurer, field));
  }

  /** For plain enriched quotes the insurer loop writes each shown field with its display value. */
  lemma InsurerFieldWritten(enriched: Dict<Dict<Value>>, insurer: string, field: string)
    requires NoDup(enriched)
    requires forall j :: 0 <= j < |enriched| ==> '.' !in enriched[j].0 && NoDup(enriched[j].1)
    requires '.' !in insurer && !IsInternal(field)
    requires Get(enriched, insurer).Some? && Get(Get(enriched, insurer).value, field).Some?
    ensures LastWrite(InsurerWrites(enriched), FieldKey(insurer, field))
         == Some(InsurerDisplay(field, Get(Get(enriched, insurer).value, field).value))
  {
    var quote := Get(enriched, insurer).value;
    InsurerWritesLast(enriched, insurer, field);
    FieldWritesLast(insurer, quote, insurer, field);
    LastWriteIsGet(quote, field);
  }

  /**
   * Lines 97-103: every field of an enriched quote that is not internal is shown
   * as `<insurer>.<field>`, as currency when it is a number outside the raw fields.
   */
  lemma FlatShowsInsurerField(data: Dict<Value>, brokerFeePct: int, commissionPct: int, strataManager: Value,
                              insurer: string, field: string)
    requires Flat(data, brokerFeePct, commissionPct, strataManager).Ok?
    requires QuotesOf(data).Ok? && PlainQuotes(QuotesOf(data).value)
    requires '.' !in insurer && insurer != "recommended" && !IsInternal(field)
    requires EnrichedOf(data, brokerFeePct, commissionPct).Ok?
    requires Get(EnrichedOf(data, brokerFeePct, commissionPct).value, insurer).Some?
    requires Get(Get(EnrichedOf(data, brokerFeePct, commissionPct).value, insurer).value, field).Some?
    ensures Get(Flat(data, brokerFeePct, commissionPct, strataManager).value, FieldKey(insurer, field))
         == Some(InsurerDisplay(field, Get(Get(EnrichedOf(data, brokerFeePct, commissionPct).value, insurer).value, field).value))
  {
    var enriched := EnrichedOf(data, brokerFeePct, commissionPct).value;
    var k := FieldKey(insurer, field);
    EnrichedPlain(QuotesOf(data).value, brokerFeePct, commissionPct, SplitOf(data));
    FlatLookup(data, brokerFeePct, commissionPct, strataManager, k);
    FieldKeyNotTrailing(insurer, field);
    NotTrailing(brokerFeePct, commissionPct, strataManager, k);
    InsurerKeyNotRecommended(Recommend(enriched).value, insurer, field);
    InsurerFieldWritten(enriched, insurer, field);
  }

  /** Lines 99: an internal field of an insurer is never shown; only general information could name its key. */
  lemma FlatHidesInternalField(data: Dict<Value>, brokerFeePct: int, commissionPct: int, strataManager: Value,
                               insurer: string, field: string)
    requires Flat(data, brokerFeePct, commissionPct, strataManager).Ok?
    requires QuotesOf(data).Ok? && PlainQuotes(QuotesOf(data).value)
    requires '.' !in insurer && insurer != "recommended" && IsInternal(field)
    ensures GeneralInfo(data).Ok?
    ensures Get(Flat(data, brokerFeePct, commissionPct, strataManager).value, FieldKey(insurer, field))
         == LastWrite(GeneralInfo(data).value, FieldKey(insurer, field))
  {
    var enriched := EnrichedOf(data, brokerFeePct, commissionPct).value;
    var k := FieldKey(insurer, field);
    EnrichedPlain(QuotesOf(data).value, brokerFeePct, commissionPct, SplitOf(data));
    FlatLookup(data, brokerFeePct, commissionPct, strataManager, k);
    FieldKeyNotTrailing(insurer, field);
    NotTrailing(brokerFeePct, commissionPct, strataManager, k);
    InsurerKeyNotRecommended(Recommend(enriched).value, insurer, field);
    InsurerWritesLast(enriched, insurer, field);
    if Get(enriched, insurer).Some? {
      FieldWritesLast(insurer, Get(enriched, insurer).value, insurer, field);
    }
  }

  /**
   * Lines 104-109: every field of the recommended quote is shown as
   * `recommended.<field>`, as currency when it is a number.
   */
  lemma FlatShowsRecommended(data: Dict<Value>, brokerFeePct: int, commissionPct: int, strataManager: Value, field: string)
    requires Flat(data, brokerFeePct, commissionPct, strataManager).Ok?
    requires QuotesOf(data).Ok? && PlainQuotes(QuotesOf(data).value)
    requires EnrichedOf(data, brokerFeePct, commissionPct).Ok?
    requires Recommend(EnrichedOf(data, brokerFeePct, commissionPct).value).Ok?
    requires Get(Recommend(EnrichedOf(data, brokerFeePct, commissionPct).value).value, field).Some?
    ensures Get(Flat(data, brokerFeePct, commissionPct, strataManager).value, FieldKey("recommended", field))
         == Some(RecommendedDisplay(Get(Recommend(EnrichedOf(data, brokerFeePct, commissionPct).value).value, field).value))
  {
    var enriched := EnrichedOf(data, brokerFeePct, commissionPct).value;
    var recommended := Recommend(enriched).value;
    var k := FieldKey("recommended", field);
    EnrichedPlain(QuotesOf(data).value, brokerFeePct, commissionPct, SplitOf(data));
    FlatLookup(data, brokerFeePct, commissionPct, strataManager, k);
    FieldKeyNotTrailing("recommended", field);
    NotTrailing(brokerFeePct, commissionPct, strataManager, k);
    RecommendedWritesLast(recommended, field);
    assert NoDup(recommended);
    LastWriteIsGet(recommended, field);
  }

  /** A key `<insurer>.<field>` is none of the three keys written last. */
  lemma FieldKeyNotTrailing(insurer: string, field: string)
    ensures FieldKey(insurer, field) !in TrailingKeys
  {
    assert (insurer + "." + field)[|insurer|] == '.';
    assert '.' !in "strata_manager" && '.' !in "commission_pct" && '.' !in "broker_fee_pct";
  }

}
