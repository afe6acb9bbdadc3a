/**
  Fixed-point money, cost estimates, budget admission and cost summaries. A stored amount is a whole
  number of millionths; amounts before rounding are reals.
 */
module Costs {
  import opened Common

  /** Millionths of a dollar. */
  type Micros = int

  function Amount(m: Micros): real {
    m as real / 1000000.0
  }

  /** `_money`: the nearest millionth, halves away from zero. */
  function Round(v: real): Micros {
    if v >= 0.0 then (v * 1000000.0 + 0.5).Floor else -((-v * 1000000.0 + 0.5).Floor)
  }

  /** Rounding picks a nearest millionth, and of two equally near ones the one farther from zero. */
  lemma RoundIsNearest(v: real, m: Micros)
    ensures Near(Round(v), v)
    ensures m == Round(v) <==>
            (v >= 0.0 && m as real - 0.5 <= v * 1000000.0 < m as real + 0.5)
            || (v < 0.0 && m as real - 0.5 < v * 1000000.0 <= m as real + 0.5)
  {
  }

  lemma RoundExact(m: Micros)
    ensures Round(Amount(m)) == m
  {
  }

  lemma RoundMonotone(v: real, w: real)
    requires v <= w
    ensures Round(v) <= Round(w)
  {
  }

  /** Sums of stored amounts need no rounding: `_money(a + b)` is exact. */
  lemma SumExact(a: Micros, b: Micros)
    ensures Round(Amount(a) + Amount(b)) == a + b
    ensures Round(Amount(a) - Amount(b)) == a - b
  {
    assert Amount(a) + Amount(b) == Amount(a + b);
    assert Amount(a) - Amount(b) == Amount(a - b);
    RoundExact(a + b);
    RoundExact(a - b);
  }

  // ---------------------------------------------------------------- estimates

  function Quantity(count: int, averageUnits: real): real {
    count as real * averageUnits
  }

  function TotalCost(quantity: real, unitCost: real): Micros {
    Round(quantity * unitCost)
  }

  datatype Estimate = Estimate(estimated: Micros, minimum: Micros, maximum: Micros)

  function Uncertainty(base: Micros, ratio: real): Micros {
    Round(Scaled(base, ratio))
  }

  function EstimateAround(base: Micros, u: Micros): Estimate {
    Estimate(base, if base - u > 0 then base - u else 0, base + u)
  }

  function EstimateBatchCost(count: int, averageUnits: real, unitCost: real, ratio: real): Estimate {
    var base := TotalCost(Quantity(count, averageUnits), unitCost);
    EstimateAround(base, Uncertainty(base, ratio))
  }

  /** The three figures are ordered exactly when neither the base nor the uncertainty is negative. */
  lemma EstimateOrderedIff(count: int, averageUnits: real, unitCost: real, ratio: real)
    ensures var e := EstimateBatchCost(count, averageUnits, unitCost, ratio);
            0 <= e.minimum <= e.estimated <= e.maximum <==>
            e.estimated >= 0 && Uncertainty(e.estimated, ratio) >= 0
  {
  }

  function Scaled(base: Micros, ratio: real): real {
    Amount(base) * ratio
  }

  lemma AroundIsOrdered(base: Micros, u: Micros)
    requires base >= 0 && u >= 0
    ensures var e := EstimateAround(base, u);
            && 0 <= e.minimum <= e.estimated <= e.maximum
            && e.minimum == (if u <= e.estimated then e.estimated - u else 0)
            && e.maximum - e.estimated == u && e.estimated == base
  {
  }

  /** Every estimate the request schema allows is ordered, and its uncertainty is within half a
      millionth of base times ratio. */
  lemma EstimateBounds(count: int, averageUnits: real, unitCost: real, ratio: real)
    requires count > 0 && averageUnits > 0.0 && unitCost >= 0.0 && ratio >= 0.0
    ensures var e := EstimateBatchCost(count, averageUnits, unitCost, ratio); var u := e.maximum - e.estimated;
            && 0 <= e.minimum <= e.estimated <= e.maximum
            && e.minimum == (if u <= e.estimated then e.estimated - u else 0) && (ratio <= 1.0 ==> u <= e.estimated)
            && Near(e.estimated, (count as real * averageUnits) * unitCost)
            && Near(u, Amount(e.estimated) * ratio)
  {
    RoundIsNearest(Quantity(count, averageUnits) * unitCost, 0);
    ProductNonNegative(count as real, averageUnits);
    TotalNonNegative(Quantity(count, averageUnits), unitCost);
    var base := TotalCost(Quantity(count, averageUnits), unitCost);
    ScaledRounding(base, ratio);
    AroundIsOrdered(base, Uncertainty(base, ratio));
  }

  /** Within half a millionth. */
  predicate Near(m: Micros, v: real) {
    Amount(m) - v <= 0.0000005 && v - Amount(m) <= 0.0000005
  }

  lemma ProductNonNegative(a: real, b: real)
    requires a >= 0.0 && b >= 0.0
    ensures a * b >= 0.0
  {
  }

  lemma ScaledDown(a: real, ratio: real)
    requires a >= 0.0 && ratio <= 1.0
    ensures a * ratio <= a
  {
    ProductNonNegative(a, 1.0 - ratio);
    assert a * (1.0 - ratio) == a - a * ratio;
  }

  lemma RoundNonNegative(v: real)
    requires v >= 0.0
    ensures Round(v) >= 0
  {
  }

  lemma TotalNonNegative(quantity: real, unitCost: real)
    requires quantity >= 0.0 && unitCost >= 0.0
    ensures TotalCost(quantity, unitCost) >= 0
  {
    ProductNonNegative(quantity, unitCost);
    RoundNonNegative(quantity * unitCost);
  }

  lemma ScaledRounding(base: Micros, ratio: real)
    requires base >= 0 && ratio >= 0.0
    ensures Uncertainty(base, ratio) >= 0
    ensures ratio <= 1.0 ==> Uncertainty(base, ratio) <= base
    ensures Near(Uncertainty(base, ratio), Scaled(base, ratio))
  {
    ProductNonNegative(Amount(base), ratio);
    var scaled := Scaled(base, ratio);
    RoundNonNegative(scaled);
    RoundIsNearest(scaled, 0);
    if ratio <= 1.0 {
      ScaledDown(Amount(base), ratio);
      RoundMonotone(scaled, Amount(base));
      RoundExact(base);
    }
  }

  // ---------------------------------------------------------------- the ledger

  datatype Kind = EstimateEntry | ActualEntry | CreditEntry

  datatype Entry = Entry(kind: Kind, total: Micros, stage: string, operation: string, provider: string, model: string)

  function Signed(e: Entry): Micros {
    if e.kind == CreditEntry then -e.total else e.total
  }

  function SumBy(entries: seq<Entry>, weight: Entry -> int): int {
    if entries == [] then 0 else weight(entries[0]) + SumBy(entries[1..], weight)
  }

  function NetCost(entries: seq<Entry>): Micros {
    SumBy(entries, Signed)
  }

  lemma {:induction false} SumByAppend(a: seq<Entry>, b: seq<Entry>, weight: Entry -> int)
    ensures SumBy(a + b, weight) == SumBy(a, weight) + SumBy(b, weight)
  {
    if a == [] {
      assert a + b == b;
    } else {
      assert (a + b)[1..] == a[1..] + b;
      SumByAppend(a[1..], b, weight);
    }
  }

  lemma SumBySnoc(entries: seq<Entry>, e: Entry, weight: Entry -> int)
    ensures SumBy(entries + [e], weight) == SumBy(entries, weight) + weight(e)
  {
    SumByAppend(entries, [e], weight);
    assert SumBy([e], weight) == weight(e) + SumBy([], weight);
  }

  lemma SumByWithout(entries: seq<Entry>, i: nat, weight: Entry -> int)
    requires i < |entries|
    ensures SumBy(entries, weight) == weight(entries[i]) + SumBy(entries[..i] + entries[i + 1..], weight)
  {
    assert entries == entries[..i] + entries[i..] && entries[i..][1..] == entries[i + 1..];
    SumByAppend(entries[..i], entries[i..], weight);
    SumByAppend(entries[..i], entries[i + 1..], weight);
  }

  lemma WithoutIsMultiset(entries: seq<Entry>, i: nat)
    requires i < |entries|
    ensures multiset(entries[..i] + entries[i + 1..]) == multiset(entries) - multiset{entries[i]}
  {
    assert entries == entries[..i] + [entries[i]] + entries[i + 1..];
  }

  /** A sum over entries does not depend on their order. */
  lemma {:induction false} SumByPermutation(a: seq<Entry>, b: seq<Entry>, weight: Entry -> int)
    requires multiset(a) == multiset(b)
    ensures SumBy(a, weight) == SumBy(b, weight)
  {
    if a == [] {
      assert |b| == |multiset(b)| == 0;
    } else {
      assert a[0] in multiset(b);
      var i :| 0 <= i < |b| && b[i] == a[0];
      assert a[..0] + a[1..] == a[1..];
      WithoutIsMultiset(a, 0);
      WithoutIsMultiset(b, i);
      SumByWithout(b, i, weight);
      SumByPermutation(a[1..], b[..i] + b[i + 1..], weight);
    }
  }

  // ---------------------------------------------------------------- budget

  datatype Check = Check(allowed: bool, current: Micros, estimated: Micros, projected: Micros, limit: Option<Micros>)

  function BudgetAllows(current: real, estimated: real, limit: Option<Micros>): Check {
    var projected := Round(current + estimated);
    Check(limit.None? || projected <= limit.value, Round(current), Round(estimated), projected, limit)
  }

  function CheckBudget(entries: seq<Entry>, estimated: real, limit: Option<Micros>): Check {
    BudgetAllows(Amount(NetCost(entries)), estimated, limit)
  }

  /** One serial use of the budget: an estimate is checked and, if admitted, an entry is recorded. */
  datatype Charge = Charge(estimate: real, entry: Entry)

  /** What is recorded is worth at most the rounded estimate that was checked. */
  predicate Honest(c: Charge) {
    0 <= c.entry.total <= Round(c.estimate)
  }

  function Spend(entries: seq<Entry>, c: Charge, limit: Option<Micros>): seq<Entry> {
    if CheckBudget(entries, c.estimate, limit).allowed then entries + [c.entry] else entries
  }

  function SpendAll(entries: seq<Entry>, charges: seq<Charge>, limit: Option<Micros>): seq<Entry>
    decreases |charges|
  {
    if charges == [] then entries
    else Spend(SpendAll(entries, charges[..|charges| - 1], limit), charges[|charges| - 1], limit)
  }

  /** Rounding the projected sum and rounding the estimate admit the same amounts, although the two sums
      differ when the projection is a net credit that falls on half a millionth. */
  lemma RoundedSumCovers(net: Micros, estimate: real, limit: Micros)
    requires limit >= 0 && Round(estimate) >= 0
    ensures Round(Amount(net) + estimate) <= limit <==> net + Round(estimate) <= limit
  {
    var x := Amount(net) + estimate;
    assert x * 1000000.0 == net as real + estimate * 1000000.0;
    if estimate >= 0.0 {
      assert (net as real + (estimate * 1000000.0 + 0.5)).Floor == net + (estimate * 1000000.0 + 0.5).Floor;
    }
  }

  /** A charge is admitted exactly when there is no limit or its rounded estimate still fits under it. */
  lemma AdmittedIff(entries: seq<Entry>, estimate: real, limit: Option<Micros>)
    requires limit.Some? ==> limit.value >= 0
    requires Round(estimate) >= 0
    ensures CheckBudget(entries, estimate, limit).allowed <==>
            limit.None? || NetCost(entries) + Round(estimate) <= limit.value
  {
    if limit.Some? { RoundedSumCovers(NetCost(entries), estimate, limit.value); }
  }

  // ---------------------------------------------------------------- the net cost by kinds

  /** A credit takes its amount off the net cost; an estimate or an actual puts it on. */
  lemma NetGrows(entries: seq<Entry>, e: Entry)
    ensures NetCost([]) == 0
    ensures NetCost(entries + [e]) ==
            match e.kind
            case EstimateEntry => NetCost(entries) + e.total
            case ActualEntry => NetCost(entries) + e.total
            case CreditEntry => NetCost(entries) - e.total
  {
    SumBySnoc(entries, e, Signed);
  }

  /** The net cost is what was estimated and what was spent, less what was credited. */
  lemma {:induction false} NetByKind(entries: seq<Entry>)
    ensures NetCost(entries) == SumBy(entries, OfKind(EstimateEntry)) + SumBy(entries, OfKind(ActualEntry))
                                - SumBy(entries, OfKind(CreditEntry))
  {
    if entries != [] { NetByKind(entries[1..]); }
  }

  /** A credit makes exactly its own amount of room under the limit. */
  lemma CreditMakesRoom(entries: seq<Entry>, credit: Entry, estimate: real, limit: Micros)
    requires credit.kind == CreditEntry && limit >= 0 && Round(estimate) >= 0
    ensures NetCost(entries + [credit]) == NetCost(entries) - credit.total
    ensures CheckBudget(entries + [credit], estimate, Some(limit)).allowed <==>
            NetCost(entries) + Round(estimate) <= limit + credit.total
  {
    NetGrows(entries, credit);
    AdmittedIff(entries + [credit], estimate, Some(limit));
  }

  /** An estimate is admitted exactly if, with all that was estimated and spent so far and less what was
      credited, it fits under the limit. */
  lemma AdmittedByKind(entries: seq<Entry>, estimate: real, limit: Option<Micros>)
    requires limit.Some? ==> limit.value >= 0
    requires Round(estimate) >= 0
    ensures var s := Summarized(entries);
            CheckBudget(entries, estimate, limit).allowed <==>
            limit.None? || s.estimated + s.actual - s.credit + Round(estimate) <= limit.value
  {
    AdmittedIff(entries, estimate, limit);
    NetByKind(entries);
  }

  lemma SpendStaysWithinLimit(entries: seq<Entry>, c: Charge, limit: Micros)
    requires limit >= 0 && NetCost(entries) <= limit && Honest(c)
    ensures NetCost(Spend(entries, c, Some(limit))) <= limit
  {
    SumBySnoc(entries, c.entry, Signed);
    AdmittedIff(entries, c.estimate, Some(limit));
  }

  /** For a fixed limit, no serial run of honest charges takes the net cost past it. */
  lemma {:induction false} RunStaysWithinLimit(entries: seq<Entry>, charges: seq<Charge>, limit: Micros)
    requires limit >= 0 && NetCost(entries) <= limit
    requires forall i :: 0 <= i < |charges| ==> Honest(charges[i])
    ensures NetCost(SpendAll(entries, charges, Some(limit))) <= limit
    decreases |charges|
  {
    if charges != [] {
      RunStaysWithinLimit(entries, charges[..|charges| - 1], limit);
      SpendStaysWithinLimit(SpendAll(entries, charges[..|charges| - 1], Some(limit)), charges[|charges| - 1], limit);
    }
  }

  /** Checking twice before recording is another matter: both checks pass and the limit is passed. */
  lemma InterleavedChecksOverspend(e: Entry)
    requires e.kind == ActualEntry && e.total == 1
    ensures CheckBudget([], Amount(1), Some(1)).allowed
    ensures NetCost([e, e]) == 2
  {
    SumExact(0, 1);
    assert NetCost([]) == 0 && Amount(0) == 0.0;
    SumBySnoc([e], e, Signed);
    SumBySnoc([], e, Signed);
    assert [e, e] == [e] + [e] && [e] == [] + [e];
  }

  // ---------------------------------------------------------------- summary

  datatype Axis = ByStage | ByProvider | ByModel

  function OrUnknown(s: string): string {
    if s == "" then "unknown" else s
  }

  function KeyOf(axis: Axis, e: Entry): string {
    match axis
    case ByStage => if e.stage != "" then e.stage else if e.operation != "" then e.operation else "uncategorized"
    case ByProvider => OrUnknown(e.provider)
    case ByModel => OrUnknown(e.model)
  }

  datatype Item = Item(estimated: Micros, actual: Micros, credit: Micros, total: Micros)

  const EMPTY_ITEM := Item(0, 0, 0, 0)

  function Max(a: int, b: int): int { if a < b then b else a }

  /** `_add_to_breakdown`, rounding after every addition as the code does. */
  function AddToBreakdown(item: Item, e: Entry): Item {
    var added :=
      match e.kind
      case EstimateEntry => item.(estimated := Round(Amount(item.estimated) + Amount(e.total)))
      case ActualEntry => item.(actual := Round(Amount(item.actual) + Amount(e.total)))
      case CreditEntry => item.(credit := Round(Amount(item.credit) + Amount(e.total)));
    added.(total := Round(Amount(Max(added.actual, added.estimated)) - Amount(added.credit)))
  }

  function OfKind(kind: Kind): Entry -> int {
    (e: Entry) => if e.kind == kind then e.total else 0
  }

  function OfKindAt(kind: Kind, at: Entry -> bool): Entry -> int {
    (e: Entry) => if e.kind == kind && at(e) then e.total else 0
  }

  function At(axis: Axis, key: string): Entry -> bool {
    (e: Entry) => KeyOf(axis, e) == key
  }

  /** The item of some entries: plain sums over them. */
  function ItemAmong(entries: seq<Entry>, at: Entry -> bool): Item {
    ItemOfSums(SumBy(entries, OfKindAt(EstimateEntry, at)),
               SumBy(entries, OfKindAt(ActualEntry, at)),
               SumBy(entries, OfKindAt(CreditEntry, at)))
  }

  function ItemOfSums(estimated: Micros, actual: Micros, credit: Micros): Item {
    Item(estimated, actual, credit, Max(actual, estimated) - credit)
  }

  function ItemOf(entries: seq<Entry>, axis: Axis, key: string): Item {
    ItemAmong(entries, At(axis, key))
  }

  function KeysOf(entries: seq<Entry>, axis: Axis): set<string> {
    set e | e in entries :: KeyOf(axis, e)
  }

  function Breakdown(entries: seq<Entry>, axis: Axis): map<string, Item> {
    map key | key in KeysOf(entries, axis) :: ItemOf(entries, axis, key)
  }

  datatype Summary = Summary(
    estimated: Micros, actual: Micros, credit: Micros, total: Micros, delta: Micros,
    byStage: map<string, Item>, byProvider: map<string, Item>, byModel: map<string, Item>)

  function Summarized(entries: seq<Entry>): Summary {
    var e, a, c := SumBy(entries, OfKind(EstimateEntry)), SumBy(entries, OfKind(ActualEntry)), SumBy(entries, OfKind(CreditEntry));
    Summary(e, a, c, Max(a, e) - c, a - e,
            Breakdown(entries, ByStage), Breakdown(entries, ByProvider), Breakdown(entries, ByModel))
  }

  function Added(item: Item, e: Entry): Item {
    ItemOfSums(item.estimated + OfKind(EstimateEntry)(e), item.actual + OfKind(ActualEntry)(e),
               item.credit + OfKind(CreditEntry)(e))
  }

  /** Rounding after every addition changes nothing. */
  lemma AddIsExact(item: Item, e: Entry)
    ensures AddToBreakdown(item, e) == Added(item, e)
  {
    var added := Added(item, e);
    match e.kind {
      case EstimateEntry => SumExact(item.estimated, e.total);
      case ActualEntry => SumExact(item.actual, e.total);
      case CreditEntry => SumExact(item.credit, e.total);
    }
    SumExact(Max(added.actual, added.estimated), added.credit);
  }

  lemma SumAtSnoc(entries: seq<Entry>, e: Entry, at: Entry -> bool, kind: Kind)
    ensures SumBy(entries + [e], OfKindAt(kind, at)) ==
            SumBy(entries, OfKindAt(kind, at)) + (if at(e) then OfKind(kind)(e) else 0)
  {
    SumBySnoc(entries, e, OfKindAt(kind, at));
  }

  lemma ItemAmongSnoc(entries: seq<Entry>, e: Entry, at: Entry -> bool)
    ensures ItemAmong(entries + [e], at) == if at(e) then Added(ItemAmong(entries, at), e) else ItemAmong(entries, at)
  {
    SumAtSnoc(entries, e, at, EstimateEntry);
    SumAtSnoc(entries, e, at, ActualEntry);
    SumAtSnoc(entries, e, at, CreditEntry);
    assert ItemAmong(entries + [e], at) == ItemOfSums(
      SumBy(entries + [e], OfKindAt(EstimateEntry, at)),
      SumBy(entries + [e], OfKindAt(ActualEntry, at)),
      SumBy(entries + [e], OfKindAt(CreditEntry, at)));
  }

  /** Adding an entry to the item of its key gives the item of the longer list. */
  lemma AddIsItem(entries: seq<Entry>, e: Entry, axis: Axis, key: string)
    ensures ItemOf(entries + [e], axis, key) ==
            if KeyOf(axis, e) == key then AddToBreakdown(ItemOf(entries, axis, key), e) else ItemOf(entries, axis, key)
  {
    ItemAmongSnoc(entries, e, At(axis, key));
    AddIsExact(ItemOf(entries, axis, key), e);
  }

  lemma {:induction false} NothingAmong(entries: seq<Entry>, at: Entry -> bool, kind: Kind)
    requires forall e :: e in entries ==> !at(e)
    ensures SumBy(entries, OfKindAt(kind, at)) == 0
  {
    if entries != [] {
      assert entries[0] in entries;
      NothingAmong(entries[1..], at, kind);
    }
  }

  lemma AbsentKeyIsEmpty(entries: seq<Entry>, axis: Axis, key: string)
    requires key !in KeysOf(entries, axis)
    ensures ItemOf(entries, axis, key) == EMPTY_ITEM
  {
    forall e | e in entries ensures !At(axis, key)(e) {
      assert KeyOf(axis, e) in KeysOf(entries, axis);
    }
    NothingAmong(entries, At(axis, key), EstimateEntry);
    NothingAmong(entries, At(axis, key), ActualEntry);
    NothingAmong(entries, At(axis, key), CreditEntry);
  }

  lemma BreakdownSnoc(entries: seq<Entry>, e: Entry, axis: Axis)
    ensures var b := Breakdown(entries, axis); var key := KeyOf(axis, e);
            Breakdown(entries + [e], axis) == b[key := AddToBreakdown(if key in b then b[key] else EMPTY_ITEM, e)]
  {
    var b, key := Breakdown(entries, axis), KeyOf(axis, e);
    var after := Breakdown(entries + [e], axis);
    assert KeysOf(entries + [e], axis) == KeysOf(entries, axis) + {key};
    forall k | k in after ensures after[k] == b[key := AddToBreakdown(if key in b then b[key] else EMPTY_ITEM, e)][k] {
      AddIsItem(entries, e, axis, k);
      if key !in b {
        AbsentKeyIsEmpty(entries, axis, key);
      }
    }
  }

  /** Two lists with the same entries in any order have the same summary. */
  lemma SummaryIgnoresOrder(a: seq<Entry>, b: seq<Entry>)
    requires multiset(a) == multiset(b)
    ensures Summarized(a) == Summarized(b)
  {
    forall weight: Entry -> int ensures SumBy(a, weight) == SumBy(b, weight) {
      SumByPermutation(a, b, weight);
    }
    forall axis ensures Breakdown(a, axis) == Breakdown(b, axis) {
      assert forall e :: e in a <==> e in b by {
        assert forall e :: (e in a <==> e in multiset(a)) && (e in b <==> e in multiset(b));
      }
      assert KeysOf(a, axis) == KeysOf(b, axis);
      assert forall key :: ItemOf(a, axis, key) == ItemOf(b, axis, key);
    }
  }

  // ---------------------------------------------------------------- one more entry

  /** One more entry adds its amount to the figure of its own kind and to no other; the total nets the larger
      of estimates and actuals, and the delta is actuals less estimates. */
  lemma SummaryGrows(entries: seq<Entry>, e: Entry)
    ensures var s, s' := Summarized(entries), Summarized(entries + [e]);
            && s'.estimated == (if e.kind == EstimateEntry then s.estimated + e.total else s.estimated)
            && s'.actual == (if e.kind == ActualEntry then s.actual + e.total else s.actual)
            && s'.credit == (if e.kind == CreditEntry then s.credit + e.total else s.credit)
            && s'.total == (if s'.actual < s'.estimated then s'.estimated else s'.actual) - s'.credit
            && s'.delta == s'.actual - s'.estimated
    ensures Summarized([]) == Summary(0, 0, 0, 0, 0, map[], map[], map[])
  {
    TotalsSnoc(entries, e);
    assert Breakdown([], ByStage) == Breakdown([], ByProvider) == Breakdown([], ByModel) == map[];
  }

  /** The entry adds its amount to the figure of its own kind and to no other. */
  predicate Grows(was: Item, now: Item, e: Entry) {
    && now.estimated == (if e.kind == EstimateEntry then was.estimated + e.total else was.estimated)
    && now.actual == (if e.kind == ActualEntry then was.actual + e.total else was.actual)
    && now.credit == (if e.kind == CreditEntry then was.credit + e.total else was.credit)
    && now.total == (if now.actual < now.estimated then now.estimated else now.actual) - now.credit
  }

  /** `b'` is `b` with the entry added under `key`. */
  ghost predicate FiledUnder(b: map<string, Item>, b': map<string, Item>, key: string, e: Entry) {
    match e
    case Entry(_, _, _, _, _, _) =>
      && b'.Keys == b.Keys + {key}
      && (forall k :: k in b && k != key ==> b'[k] == b[k])
      && Grows(if key in b then b[key] else Item(0, 0, 0, 0), b'[key], e)
  }

  lemma AddGrows(item: Item, e: Entry)
    ensures Grows(item, AddToBreakdown(item, e), e)
  {
    AddIsExact(item, e);
  }

  lemma PutIsFiled(b: map<string, Item>, key: string, item: Item, e: Entry)
    requires Grows(if key in b then b[key] else EMPTY_ITEM, item, e)
    ensures FiledUnder(b, b[key := item], key, e)
  {
  }

  lemma BreakdownFiles(entries: seq<Entry>, e: Entry, axis: Axis)
    ensures FiledUnder(Breakdown(entries, axis), Breakdown(entries + [e], axis), KeyOf(axis, e), e)
  {
    var b, key := Breakdown(entries, axis), KeyOf(axis, e);
    var item := AddToBreakdown(if key in b then b[key] else EMPTY_ITEM, e);
    BreakdownSnoc(entries, e, axis);
    AddGrows(if key in b then b[key] else EMPTY_ITEM, e);
    PutIsFiled(b, key, item, e);
  }

  /** An entry is filed under its provider, its model, and its stage or, without one, its operation. */
  lemma EntryIsFiled(entries: seq<Entry>, e: Entry)
    ensures var s, s' := Summarized(entries), Summarized(entries + [e]);
            && FiledUnder(s.byProvider, s'.byProvider, if e.provider != "" then e.provider else "unknown", e)
            && FiledUnder(s.byModel, s'.byModel, if e.model != "" then e.model else "unknown", e)
            && FiledUnder(s.byStage, s'.byStage,
                          if e.stage != "" then e.stage else if e.operation != "" then e.operation else "uncategorized", e)
  {
    BreakdownFiles(entries, e, ByProvider);
    BreakdownFiles(entries, e, ByModel);
    BreakdownFiles(entries, e, ByStage);
  }

  // ---------------------------------------------------------------- breakdowns against totals

  function Part(kind: Kind): Item -> int {
    (item: Item) => match kind case EstimateEntry => item.estimated case ActualEntry => item.actual case CreditEntry => item.credit
  }

  function WholeTotal(): Item -> int {
    (item: Item) => item.total
  }

  /** The sum of one figure over all items of a breakdown. */
  ghost function SumOf(b: map<string, Item>, part: Item -> int): int
    decreases |b|
  {
    if b == map[] then 0
    else
      var k :| k in b;
      assert |b - {k}| < |b| by { assert (b - {k}).Keys == b.Keys - {k}; }
      part(b[k]) + SumOf(b - {k}, part)
  }

  lemma {:induction false} SumOfRemove(b: map<string, Item>, k: string, part: Item -> int)
    requires k in b
    ensures SumOf(b, part) == part(b[k]) + SumOf(b - {k}, part)
    decreases |b|
  {
    var c :| c in b && SumOf(b, part) == part(b[c]) + SumOf(b - {c}, part);
    if c != k {
      assert |b - {c}| < |b| && |b - {k}| < |b| by {
        assert (b - {c}).Keys == b.Keys - {c} && (b - {k}).Keys == b.Keys - {k};
      }
      SumOfRemove(b - {c}, k, part);
      SumOfRemove(b - {k}, c, part);
      assert b - {c} - {k} == b - {k} - {c};
    }
  }

  lemma SumOfPut(b: map<string, Item>, k: string, item: Item, part: Item -> int)
    ensures SumOf(b[k := item], part) == SumOf(b, part) - (if k in b then part(b[k]) else 0) + part(item)
  {
    SumOfRemove(b[k := item], k, part);
    if k in b {
      SumOfRemove(b, k, part);
      assert b[k := item] - {k} == b - {k};
    } else {
      assert b[k := item] - {k} == b;
    }
  }

  lemma AddAddsPart(item: Item, e: Entry, kind: Kind)
    ensures Part(kind)(AddToBreakdown(item, e)) == Part(kind)(item) + OfKind(kind)(e)
  {
    AddIsExact(item, e);
  }

  /** Along each axis the items' estimates add up exactly to the overall estimate, and so do the actuals and the credits. */
  lemma {:induction false} BreakdownAddsUp(entries: seq<Entry>, axis: Axis, kind: Kind)
    ensures SumOf(Breakdown(entries, axis), Part(kind)) == SumBy(entries, OfKind(kind))
    decreases |entries|
  {
    if entries == [] {
      assert Breakdown(entries, axis) == map[];
    } else {
      var front, e := entries[..|entries| - 1], entries[|entries| - 1];
      assert entries == front + [e];
      var b, key := Breakdown(front, axis), KeyOf(axis, e);
      var prior := if key in b then b[key] else EMPTY_ITEM;
      BreakdownAddsUp(front, axis, kind);
      BreakdownSnoc(front, e, axis);
      AddAddsPart(prior, e, kind);
      SumOfPut(b, key, AddToBreakdown(prior, e), Part(kind));
      SumBySnoc(front, e, OfKind(kind));
    }
  }

  /** Every item's `kind` figure is at least its other one. */
  ghost predicate Covers(b: map<string, Item>, kind: Kind) {
    forall k :: k in b ==> Wins(b[k], kind)
  }

  predicate Wins(item: Item, kind: Kind) {
    Part(kind)(item) >= item.actual && Part(kind)(item) >= item.estimated
  }

  lemma CoversWithout(b: map<string, Item>, k: string, kind: Kind)
    requires k in b
    ensures Covers(b, kind) <==> Covers(b - {k}, kind) && Wins(b[k], kind)
  {
    if Covers(b - {k}, kind) && Wins(b[k], kind) {
      forall j | j in b ensures Wins(b[j], kind) {
        assert j == k || (j in b - {k} && (b - {k})[j] == b[j]);
      }
    }
    if Covers(b, kind) {
      forall j | j in b - {k} ensures Wins((b - {k})[j], kind) {
        assert (b - {k})[j] == b[j];
      }
    }
  }

  /** Netting key by key never gives less than netting the sums of one kind, and gives the same exactly
      when that kind is the larger one under every key. */
  lemma {:induction false} NetDominates(b: map<string, Item>, kind: Kind)
    requires kind != CreditEntry
    requires forall k :: k in b ==> b[k].total == Max(b[k].actual, b[k].estimated) - b[k].credit
    ensures SumOf(b, WholeTotal()) >= SumOf(b, Part(kind)) - SumOf(b, Part(CreditEntry))
    ensures SumOf(b, WholeTotal()) == SumOf(b, Part(kind)) - SumOf(b, Part(CreditEntry)) <==> Covers(b, kind)
    decreases |b|
  {
    if b != map[] {
      var k :| k in b;
      assert |b - {k}| < |b| by { assert (b - {k}).Keys == b.Keys - {k}; }
      NetDominates(b - {k}, kind);
      SumOfRemove(b, k, WholeTotal());
      SumOfRemove(b, k, Part(kind));
      SumOfRemove(b, k, Part(CreditEntry));
      CoversWithout(b, k, kind);
    }
  }

  function Along(s: Summary, axis: Axis): map<string, Item> {
    match axis case ByStage => s.byStage case ByProvider => s.byProvider case ByModel => s.byModel
  }

  /** The three-way agreement: along every axis the breakdown's estimates, actuals and credits sum to
      the top-level figures. The top-level total is at most the sum of the breakdown's totals, and
      equal to it exactly when the same kind of figure wins under every key. */
  lemma SummaryAgrees(entries: seq<Entry>, axis: Axis)
    ensures var s := Summarized(entries); var b := Along(s, axis);
            && SumOf(b, Part(EstimateEntry)) == s.estimated
            && SumOf(b, Part(ActualEntry)) == s.actual
            && SumOf(b, Part(CreditEntry)) == s.credit
            && s.total <= SumOf(b, WholeTotal())
            && (s.total == SumOf(b, WholeTotal()) <==> Covers(b, ActualEntry) || Covers(b, EstimateEntry))
  {
    BreakdownAddsUp(entries, axis, EstimateEntry);
    BreakdownAddsUp(entries, axis, ActualEntry);
    BreakdownAddsUp(entries, axis, CreditEntry);
    NetDominates(Breakdown(entries, axis), ActualEntry);
    NetDominates(Breakdown(entries, axis), EstimateEntry);
  }

  lemma TotalsSnoc(entries: seq<Entry>, e: Entry)
    ensures forall kind :: SumBy(entries + [e], OfKind(kind)) == SumBy(entries, OfKind(kind)) + OfKind(kind)(e)
  {
    forall kind ensures SumBy(entries + [e], OfKind(kind)) == SumBy(entries, OfKind(kind)) + OfKind(kind)(e) {
      SumBySnoc(entries, e, OfKind(kind));
    }
  }

  // ---------------------------------------------------------------- the code

  method AddEntry(items: map<string, Item>, key: string, e: Entry) returns (r: map<string, Item>)
    ensures r == items[key := AddToBreakdown(if key in items then items[key] else EMPTY_ITEM, e)]
  {
    r := if key in items then items else items[key := EMPTY_ITEM];
    r := r[key := AddToBreakdown(r[key], e)];
  }

  method ProjectCostSummary(entries: seq<Entry>) returns (s: Summary)
    ensures s == Summarized(entries)
  {
    var byStage: map<string, Item>, byProvider: map<string, Item>, byModel: map<string, Item> := map[], map[], map[];
    var estimated, actual, credit := 0.0, 0.0, 0.0;
    for i := 0 to |entries|
      invariant Grouped(entries[..i], byStage, byProvider, byModel)
      invariant Counted(entries[..i], estimated, actual, credit)
    {
      var e := entries[i];
      assert entries[..i + 1] == entries[..i] + [e];
      estimated, actual, credit := CountEntry(entries[..i], e, estimated, actual, credit);
      byStage, byProvider, byModel := GroupEntry(entries[..i], e, byStage, byProvider, byModel);
    }
    assert entries[..|entries|] == entries;
    s := Figures(entries, estimated, actual, credit);
    s := s.(byStage := byStage, byProvider := byProvider, byModel := byModel);
  }

  ghost predicate Counted(entries: seq<Entry>, estimated: real, actual: real, credit: real) {
    && estimated == Amount(SumBy(entries, OfKind(EstimateEntry)))
    && actual == Amount(SumBy(entries, OfKind(ActualEntry)))
    && credit == Amount(SumBy(entries, OfKind(CreditEntry)))
  }

  ghost predicate Grouped(entries: seq<Entry>, byStage: map<string, Item>, byProvider: map<string, Item>, byModel: map<string, Item>) {
    && byStage == Breakdown(entries, ByStage)
    && byProvider == Breakdown(entries, ByProvider)
    && byModel == Breakdown(entries, ByModel)
  }

  method CountEntry(ghost front: seq<Entry>, e: Entry, estimated: real, actual: real, credit: real)
    returns (estimated': real, actual': real, credit': real)
    requires Counted(front, estimated, actual, credit)
    ensures Counted(front + [e], estimated', actual', credit')
  {
    estimated', actual', credit' := estimated, actual, credit;
    TotalsSnoc(front, e);
    match e.kind
    case EstimateEntry => estimated' := estimated + Amount(e.total);
    case ActualEntry => actual' := actual + Amount(e.total);
    case CreditEntry => credit' := credit + Amount(e.total);
  }

  method GroupEntry(ghost front: seq<Entry>, e: Entry, byStage: map<string, Item>, byProvider: map<string, Item>, byModel: map<string, Item>)
    returns (byStage': map<string, Item>, byProvider': map<string, Item>, byModel': map<string, Item>)
    requires Grouped(front, byStage, byProvider, byModel)
    ensures Grouped(front + [e], byStage', byProvider', byModel')
  {
    BreakdownSnoc(front, e, ByStage);
    BreakdownSnoc(front, e, ByProvider);
    BreakdownSnoc(front, e, ByModel);
    byStage' := AddEntry(byStage, KeyOf(ByStage, e), e);
    byProvider' := AddEntry(byProvider, KeyOf(ByProvider, e), e);
    byModel' := AddEntry(byModel, KeyOf(ByModel, e), e);
  }

  /** The five top-level figures; every one of them is exact. */
  method Figures(ghost entries: seq<Entry>, estimated: real, actual: real, credit: real) returns (s: Summary)
    requires Counted(entries, estimated, actual, credit)
    ensures var w := Summarized(entries);
            s == w.(byStage := map[], byProvider := map[], byModel := map[])
  {
    var larger := if actual < estimated then estimated else actual;
    s := Summary(Round(estimated), Round(actual), Round(credit), Round(larger - credit), Round(actual - estimated),
                 map[], map[], map[]);
    ghost var x, y, z := SumBy(entries, OfKind(EstimateEntry)), SumBy(entries, OfKind(ActualEntry)), SumBy(entries, OfKind(CreditEntry));
    RoundExact(x);
    RoundExact(y);
    RoundExact(z);
    SumExact(Max(y, x), z);
    SumExact(y, x);
  }

  class CostLedger {
    var entries: seq<Entry>

    constructor ()
      ensures entries == []
    {
      entries := [];
    }

    /** The unfiltered project total: credits count against it. */
    method ProjectCostForBudget() returns (cost: Micros)
      ensures cost == NetCost(entries)
      ensures cost == Summarized(entries).estimated + Summarized(entries).actual - Summarized(entries).credit
    {
      NetByKind(entries);
      var total := 0.0;
      for i := 0 to |entries|
        invariant total == Amount(NetCost(entries[..i]))
      {
        SumBySnoc(entries[..i], entries[i], Signed);
        assert entries[..i + 1] == entries[..i] + [entries[i]];
        total := total + Amount(Signed(entries[i]));
      }
      assert entries[..|entries|] == entries;
      RoundExact(NetCost(entries));
      cost := Round(total);
    }

    method CheckProjectBudget(estimated: real, limit: Option<Micros>) returns (check: Check)
      ensures check == CheckBudget(entries, estimated, limit)
      ensures check.current == NetCost(entries) && check.estimated == Round(estimated) && check.limit == limit
      ensures limit.Some? ==> (check.allowed <==> check.projected <= limit.value)
      ensures Near(check.projected, Amount(check.current) + estimated)
    {
      RoundIsNearest(Amount(NetCost(entries)) + estimated, 0);
      RoundExact(NetCost(entries));
      var current := ProjectCostForBudget();
      check := BudgetAllows(Amount(current), estimated, limit);
    }

    /** One serial use of the budget. */
    method CheckAndRecord(charge: Charge, limit: Option<Micros>) returns (admitted: bool)
      modifies this
      ensures admitted == CheckBudget(old(entries), charge.estimate, limit).allowed
      ensures entries == if admitted then old(entries) + [charge.entry] else old(entries)
      ensures (limit.Some? ==> limit.value >= 0) && Round(charge.estimate) >= 0 ==>
        var s := Summarized(old(entries));
        (admitted <==> limit.None? || s.estimated + s.actual - s.credit + Round(charge.estimate) <= limit.value)
      ensures entries == Spend(old(entries), charge, limit)
      ensures limit.Some? && limit.value >= 0 && Honest(charge) && NetCost(old(entries)) <= limit.value ==>
        NetCost(entries) <= limit.value
    {
      var check := CheckProjectBudget(charge.estimate, limit);
      if (limit.Some? ==> limit.value >= 0) && Round(charge.estimate) >= 0 { AdmittedByKind(entries, charge.estimate, limit); }
      if limit.Some? && limit.value >= 0 && Honest(charge) && NetCost(entries) <= limit.value {
        SpendStaysWithinLimit(entries, charge, limit.value);
      }
      if check.allowed {
        entries := entries + [charge.entry];
      }
      admitted := check.allowed;
    }
  }
}
