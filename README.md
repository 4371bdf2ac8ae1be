# Broker report pricing core, in Dafny

This project models the pricing, recommendation and projection core of the
broker quote-comparison report generator (`report_generator.py`, lines
13-113), and proves what that code promises:

- `is_number` / `format_currency`: which values `float()` accepts, and the
  `$1,234.50` text the report prints, read back to the amount it shows.
- `calculate_broker_fee`: a percentage broker fee topped up by the
  commission the insurer's quote falls short of the target percentage.
- `enrich_insurer_quotes`: a copy of every insurer's quote with six derived
  money fields, the numeric final total and an `insurer` tag, in input order.
- `find_recommended`: the first quote with the lowest non-zero final total,
  without its internal numeric total, or `{}`.
- `flatten_data_for_replace`: one flat map of placeholder values —
  general information, `<insurer>.<field>`, `recommended.<field>`, then the
  two percentages and the strata manager.

Modules, one per concern:

- `Values`: JSON-like values, Python truthiness and the exceptions the code
  can raise.
- `Text`: decimal digits, thousands grouping and decimal parsing.
- `Money`: Python's `round` as exact round-half-to-even.
- `Dicts`: insertion-ordered dicts as sequences of pairs. Writes overwrite in
  place or append, and a loop that may raise is `TryMap`.
- `Numbers`: `is_number` / `format_currency`.
- `Pricing`: `calculate_broker_fee`.
- `Enrichment`: `enrich_insurer_quotes`.
- `Recommendation`: `find_recommended`.
- `Flatten`: `flatten_data_for_replace`.

Money is an exact `real`, and `round(x, d)` rounds the exact value half to
even. Dicts keep Python's insertion order, so ties in the recommendation are
decided the way the code decides them.

The loops of the three looping functions are methods with loop invariants:
`EnrichInsurerQuotes`, `FindRecommended`, and within `FlattenDataForReplace`
the loops `StoreAll`, `StoreInsurers`, `StoreInsurerFields` and
`StoreRecommended`. Each of the three functions is proved equal to a
specification function: `EnrichInsurerQuotes` to `EnrichAll`,
`FindRecommended` to `Recommend`, and `FlattenDataForReplace` to `Flat`.
What the code promises is then proved about those functions.

With no commission the whole `commission_pct` is added to the broker's
rate: base 10000 at 20% / 20% gives a fee of 4000.00
(`Pricing.BrokerFeeExampleNone`).

## Model

| member | source | states |
|---|---|---|
| Numbers.ToFloat | report_generator.py:13-18 | `float(v)` accepts a number as itself and a bool as 1/0; it rejects `None`, lists and dicts; text goes through `ParseDecimal` |
| Text.ParseDecimal | report_generator.py:15 | only text that starts with a digit, a sign or `.` parses as a number |
| Text.ParseDecimalShape | report_generator.py:15 | text parses exactly when it is an optional `-` or `+` followed by digits, or by digits, one point and digits with at least one digit in all |
| Text.ParseDigitsText | report_generator.py:15 | any non-empty digit string, leading zeros allowed, with an optional `-` or `+`, parses to the number it denotes ("007" and "+7" are 7) |
| Text.ParseDecimalRejects | report_generator.py:15 | "12 months", "1.2.3", "--5" and "1-2" are not numbers |
| Text.ParseFractionText | report_generator.py:15 | digits, a point and digits (at least one digit in all), with an optional `-` or `+`, parse to the integer digits plus the fraction digits over `10^` their count, negated after `-` |
| Text.ParseIntText | report_generator.py:15 | `float(str(i)) == i` for every integer |
| Text.NatText | report_generator.py:110-111 | `str(n)` is digits denoting `n` with no leading zero (`0` alone for zero) |
| Text.NatTextCanonical | report_generator.py:110-111 | every digit string without a leading zero is `str` of its value, so `str(n)` is the one such numeral |
| Text.IntText | report_generator.py:110-111 | `str(i)` is `str(-i)` after a `-` for a negative `i`, and `str(i)` of the digits otherwise |
| Numbers.FormatCurrency | report_generator.py:20-28 | a number `x` becomes `FormatNumber(x, decimals)` for every `decimals`, which starts with `$`; anything else comes back unchanged, with `None` as `"None"` |
| Numbers.FormatNumber | report_generator.py:22-26 | the printed text starts with `$`; what it reads back as is stated by the `FormatNumber…` lemmas below |
| Numbers.FormatCurrencyCents | report_generator.py:20-26 | when `float(v) == x`, the default format is the 2-decimal text of `x`, which reads back as `round(x, 2)` |
| Numbers.FormatNumberTwoDecimals | report_generator.py:22-26 | the 2-decimal currency text reads back as exactly `round(x, 2)` |
| Numbers.FormatNumberWhole | report_generator.py:22-24 | with `decimals=0` the text has no `.` and reads back as `round(x, 0)` |
| Numbers.FormatNumberCents | report_generator.py:22-26 | with `decimals != 0` the text reads back as `round(round(x, d), 2)` |
| Numbers.ParseFormatCents | report_generator.py:26 | the two-decimal text of `c` cents, negative or not, reads back as `c / 100` |
| Numbers.ParseFormatWhole | report_generator.py:24 | the whole-dollar text of an integer reads back as that integer |
| Numbers.FormatWholeNoDot | report_generator.py:24 | whole-dollar text has no decimal point |
| Numbers.ParseCurrencyText | report_generator.py:26 | `$`, a sign, the grouped units, `.` and two cents digits read back as the signed amount |
| Numbers.FormattedIsNotNumber | report_generator.py:13-28 | formatted currency text is no longer a number for `is_number` |
| Numbers.Round2Twice | report_generator.py:22-26 | rounding to 2 decimals twice is rounding once |
| Numbers.FormatCurrencyExample | report_generator.py:20-26 | 1234.5 formats as `"$1,234.50"` |
| Numbers.CurrencyText1234 | report_generator.py:26 | 1234 units and 50 cents spell `"$1,234.50"` |
| Text.Group | report_generator.py:24-26 | the `,` grouping is made of digits and commas only |
| Text.GroupCommas | report_generator.py:24-26 | for `n` digits the grouping has `(n - 1) / 3` commas, and position `i` holds a comma exactly when it is a multiple of four places from the end, not after every digit or anywhere else |
| Text.GroupExample | report_generator.py:24-26 | 1234567 groups as `1,234,567` |
| Text.UngroupGroup | report_generator.py:24-26 | dropping the thousands commas gives back the digits |
| Text.GroupStartsWithDigit | report_generator.py:24-26 | grouped digits start with a digit, never a comma |
| Money.RoundHalfEven | report_generator.py:22 | the result is within 1/2 of `y`, and a tie goes to the even integer |
| Money.Round | report_generator.py:22 | `round(x, d)` scaled up by `10^d` is the whole number nearest `x` scaled up: within half a unit of the `d`-th decimal of `x`, and on a tie the even one |
| Money.Round2 | report_generator.py:42 | `round(x, 2)` is a whole number of cents within half a cent of `x` |
| Money.Round2OfCents | report_generator.py:57-62 | rounding an amount already in whole cents changes nothing |
| Money.CentsArith | report_generator.py:58-62 | sums and differences of whole cents are whole cents |
| Pricing.ShortfallPct | report_generator.py:37 | the shortfall is never negative, and it is 0 for a zero base or when the commission meets the target |
| Pricing.EffectivePct | report_generator.py:40 | the effective rate is never below `broker_fee_pct`, and equals it for a zero base |
| Pricing.BrokerFee | report_generator.py:30-42 | the fee is whole cents, and a zero base gives a zero fee |
| Pricing.ShortfallInDollars | report_generator.py:37-42 | for a positive base, the shortfall in dollars is `max(base * commission_pct / 100 - commission, 0)` |
| Pricing.BrokerFeeClosedForm | report_generator.py:37-42 | for a positive base, the fee is `round(base * broker_fee_pct / 100 + max(target commission - commission, 0), 2)` |
| Pricing.FeeWhenCommissionMeetsTarget | report_generator.py:37-42 | for a positive base, a commission at or above target leaves `round(base * broker_fee_pct / 100, 2)` |
| Pricing.FeeWhenNoCommission | report_generator.py:37-42 | for a positive base and a non-negative `commission_pct`, with no commission the whole `commission_pct` is added to `broker_fee_pct` |
| Pricing.ShortfallInDollarsNegative | report_generator.py:37-42 | for a negative base, the shortfall in dollars is `min(base * commission_pct / 100 - commission, 0)` |
| Pricing.BrokerFeeNegativeBase | report_generator.py:37-42 | for a negative base, the fee is `round(base * broker_fee_pct / 100 + min(base * commission_pct / 100 - commission, 0), 2)` |
| Pricing.BrokerFeeExampleMet | report_generator.py:30-42 | base 10000, 20% / 20%, commission 2000 gives fee 2000.00 |
| Pricing.BrokerFeeExampleNone | report_generator.py:30-42 | base 10000, 20% / 20%, commission 0 gives fee 4000.00 |
| Enrichment.MoneyField | report_generator.py:48-49 | a missing or falsy field is 0; a truthy non-number raises; otherwise the result is `float` of it |
| Enrichment.CommissionField | report_generator.py:50-54 | a commission that `float` rejects becomes 0 instead of raising |
| Enrichment.SplitPct | report_generator.py:61 | `associate_split / 100` works for numbers and bools and raises for anything else; a number is used as it is, and `True` counts as 1 and `False` as 0 (`True / 100 == 0.01`) |
| Enrichment.ManagerShare | report_generator.py:61 | the manager's share is whole cents within half a cent of `split` percent of the remuneration: 0 at split 0, all of it at split 100 |
| Enrichment.BrokerShare | report_generator.py:62 | the broker's share is exactly remuneration minus the manager's share |
| Enrichment.ComputeFigures | report_generator.py:56-62 | the fee is `BrokerFee`; GST is within half a cent of a tenth of the fee; every figure is whole cents; remuneration, the manager's share and the final total are each within half a cent of commission + fee, `split` percent of remuneration, and total + fee + GST, and exact when the inputs are whole cents; the two shares add up to remuneration |
| Enrichment.ComputeFiguresExample | report_generator.py:56-62 | base/total 10000, commission 2000, 20% / 20%: fee 2000, GST 200, final 12200 |
| Enrichment.DerivedWritesKeys | report_generator.py:65-72 | the eight derived keys, each written once, in the code's order |
| Enrichment.WithFiguresShape | report_generator.py:64-72 | the copy keeps the quote's keys first and in order, and every non-derived field keeps its value |
| Enrichment.WithFiguresFields | report_generator.py:65-72 | each derived key holds its figure; `_final_total_numeric` equals `final_total`, and `insurer` is the map key |
| Enrichment.EnrichQuoteFails | report_generator.py:47-61 | a quote raises exactly when it is not a dict, its base or total is a truthy non-number, or the split is not a number |
| Enrichment.EnrichQuoteFields | report_generator.py:48-72 | an enriched quote holds the broker fee of its own base and commission, equal numeric and displayed final totals, and its insurer's name; the quote's keys stay first and in order and every non-derived field keeps its value |
| Enrichment.EnrichAllOk | report_generator.py:45-75 | the loop succeeds exactly when every quote can be enriched |
| Enrichment.EnrichAllEntries | report_generator.py:45-75 | the output has the input's insurer keys in order, each mapped to its own enriched quote |
| Enrichment.EnrichAllFirstError | report_generator.py:47-61 | a failing loop raises the error of the first quote that fails |
| Enrichment.EnrichInsurerQuotes | report_generator.py:45-75 | the loop computes exactly `EnrichAll` |
| Recommendation.Ranking | report_generator.py:81-82 | a missing or falsy total is skipped; a number is compared; a truthy non-number raises; a compared total is never 0 |
| Recommendation.Select | report_generator.py:80-84 | a chosen position holds a compared total |
| Recommendation.SelectIsFirstMinimum | report_generator.py:80-84 | no compared total is lower than the chosen one, and every earlier one is strictly higher, so the first of equal totals wins |
| Recommendation.SelectNoneMeansUnranked | report_generator.py:85-89 | nothing is chosen exactly when no quote's total is compared |
| Recommendation.SelectFails | report_generator.py:82 | the search raises exactly when some total is a truthy non-number |
| Recommendation.SelectStopsAtError | report_generator.py:82 | once a comparison raises, later quotes do not matter |
| Recommendation.RecommendFields | report_generator.py:85-89 | the result lacks `_final_total_numeric`; it has every other field of the chosen quote, or is `{}` when nothing was chosen |
| Recommendation.FindRecommended | report_generator.py:77-89 | the loop computes exactly `Recommend` |
| Dicts.Get | report_generator.py:48 | `d.get(k)` is absent exactly when `k` is not a key |
| Dicts.Set | report_generator.py:74 | `d[k] = v` keeps the key order or appends `k`, and `k` then reads `v` |
| Dicts.GetSet | report_generator.py:65-72 | after `d[k] = v` every other key reads as before |
| Dicts.Remove | report_generator.py:87 | `pop(k, None)` removes `k` and leaves every other key's value |
| Dicts.RemoveKeys | report_generator.py:87 | after `pop(k, None)` the other keys stay in the order they had |
| Dicts.LastWrite | report_generator.py:93-112 | a key is written by a sequence of writes exactly when it is among their keys |
| Dicts.StoreAll | report_generator.py:64-72 | writing in a loop is `ApplyAll` of the writes |
| Dicts.ApplyAllGet | report_generator.py:93-112 | after a sequence of writes a key holds its last write, or its old value |
| Dicts.ApplyAllKeepsOrder | report_generator.py:64-72 | writes keep the old keys first, in their old order |
| Dicts.ApplyAllNoDup | report_generator.py:64-72 | writes never duplicate a key |
| Dicts.ApplyAllCopies | report_generator.py:93-94 | copying a dict key by key into an empty one rebuilds it exactly |
| Dicts.ApplyAllAppend | report_generator.py:91-113 | two batches of writes are their concatenation |
| Dicts.TryMapOk | report_generator.py:47-74 | a loop that may raise succeeds exactly when no entry raises |
| Dicts.TryMapEntries | report_generator.py:47-74 | a successful loop keeps the input's keys, each mapped to its own result |
| Dicts.TryMapFirstError | report_generator.py:47-74 | a failing loop raises the first entry's error |
| Flatten.InsurerDisplay | report_generator.py:99-103 | a number is formatted as currency unless the field is `uwgst`, `uw` or `uwgst_fee`; anything else is kept |
| Flatten.RecommendedDisplay | report_generator.py:106-109 | a number is formatted as currency with no exclusions; anything else is kept |
| Flatten.PercentText | report_generator.py:110-111 | the text is `str(pct)` followed by `%`, and what precedes the `%` reads back as the percentage |
| Flatten.MappingAt | report_generator.py:93-96 | `data.get(key, {})` read as a dict (`general_info` and `Quotes`): a missing key is `{}`; a non-dict raises; otherwise its own entries |
| Flatten.SplitOf | report_generator.py:95 | `associate_split` comes from the data, defaulting to 0 |
| Flatten.StoreInsurerFields | report_generator.py:98-103 | the field loop performs exactly one insurer's field writes |
| Flatten.StoreInsurers | report_generator.py:97-103 | the insurer loop performs exactly `InsurerWrites` |
| Flatten.StoreRecommended | report_generator.py:105-109 | the recommended loop performs exactly `RecommendedWrites` |
| Flatten.StoreTrailing | report_generator.py:110-112 | the last three assignments perform exactly `TrailingWrites` |
| Flatten.FlattenDataForReplace | report_generator.py:91-113 | the whole function computes exactly `Flat` |
| Flatten.FieldKeySplit | report_generator.py:101 | `"{insurer}.{field}"` determines both parts when insurer names have no `.` |
| Flatten.FieldWritesLast | report_generator.py:98-103 | an insurer's field key holds that field's displayed value, and internal fields are never written |
| Flatten.InsurerWritesLast | report_generator.py:97-103 | an insurer's key is written only by that insurer's own fields |
| Flatten.RecommendedWritesLast | report_generator.py:105-109 | `recommended.<field>` holds that field's displayed value |
| Flatten.FlatLookup | report_generator.py:91-113 | a key reads, in order of precedence: the trailing writes, `recommended.*`, insurer fields, then general info |
| Flatten.TrailingLast | report_generator.py:110-112 | the two percentages and the strata manager are written as stated |
| Flatten.NotTrailing | report_generator.py:110-112 | the trailing writes touch only their own three keys |
| Flatten.FlatTrailing | report_generator.py:110-112 | `broker_fee_pct`, `commission_pct` and `strata_manager` always end up with the trailing values, overriding earlier entries |
| Flatten.FlatKeepsGeneralInfo | report_generator.py:93-94 | a general-information key without `.` keeps its value, unless it is one of the three trailing keys |
| Flatten.RecommendEnrichedOk | report_generator.py:104 | the recommendation over enriched quotes never raises |
| Flatten.FlatFails | report_generator.py:91-113 | flattening raises exactly when `general_info` or `Quotes` is not a dict, or enrichment raises |
| Flatten.EnrichedPlain | report_generator.py:96 | enriched quotes keep distinct, dot-free insurer names and distinct field names |
| Flatten.FlatShowsInsurerField | report_generator.py:97-103 | every non-internal field of every insurer appears under `insurer.field` with its displayed value |
| Flatten.FlatHidesInternalField | report_generator.py:99 | `insurer._field` is never written by the insurer loop |
| Flatten.FlatShowsRecommended | report_generator.py:104-109 | every field of the recommended quote appears under `recommended.field` with its displayed value |
| Flatten.FieldKeyNotTrailing | report_generator.py:101 | no `"{insurer}.{field}"` key is one of the trailing keys |

## Left out

- The document rendering (tables, borders, placeholder replacement, page
  setup) is calls into a foreign document library and is not modelled. So is
  `load_json` and the command-line driver, which do file I/O.
- `extract.py` and `gui.py` are not part of this model. They hold PDF
  extraction, a remote model call, and a desktop UI.
- Binary floating point: money is an exact decimal, and `round` rounds the
  exact value half to even. Representation error, `nan`, `inf` and `-0.0` are
  not modelled. In particular `0.1` in `broker_fee * 0.1` is the exact tenth.
- `Numbers.ToFloat`: text is accepted only as an optional sign, digits and an
  optional `.` with digits. `float()` also accepts surrounding whitespace,
  exponents, underscores, `nan` and `inf`, and these are not modelled.
- `Numbers.FormatCurrency`: `str()` of a list or dict is not modelled; the
  value is returned as it is. Negative amounts that round to zero print as
  `$0.00` here, where Python prints `$-0.00`.
- `Numbers.FormatCurrency`: `decimals` is a natural number. A negative
  `decimals` is not modelled.
- `Pricing.FeeWhenCommissionMeetsTarget` and `Pricing.FeeWhenNoCommission`
  are stated for a positive base, and the latter for a non-negative
  `commission_pct`. A negative base is covered by `Pricing.BrokerFeeNegativeBase`,
  and a negative `commission_pct` by `Pricing.BrokerFeeClosedForm`.
- `Pricing.BrokerFee`: `broker_fee_pct` and `commission_pct` are integers,
  which is how the callers pass them. Fractional percentages are not modelled.
- `Flatten.FlatShowsInsurerField`, `Flatten.FlatHidesInternalField` and
  `Flatten.FlatShowsRecommended` assume insurer names contain no `.`, are
  not `recommended`, and that each quote has distinct field names
  (`PlainQuotes`). With a dotted insurer name two different `insurer.field`
  pairs can build the same flat key, and the later write wins. `Flat` and
  `Flatten.FlatLookup` still cover that case.
- `Flatten.FlatKeepsGeneralInfo` is stated for general-information keys
  without `.`, because a dotted key can collide with an insurer's field key.
  `Flatten.FlatLookup` gives the precedence in every case.
- The callers' hard-coded 20% / 20% rates for the market and comparison
  tables are outside this core.
