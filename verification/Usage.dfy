/**
 The billing ledger of a session: running totals and the same totals per model, added up with
 saturating machine integers as calls are recorded.
 */
module Usage {
  import opened Prelude

  const U32_MAX: nat := 0xFFFF_FFFF
  const U64_MAX: nat := 0xFFFF_FFFF_FFFF_FFFF
  const I64_MAX: int := 0x7FFF_FFFF_FFFF_FFFF
  const I64_MIN: int := -0x8000_0000_0000_0000

  type U32 = x: nat | x <= U32_MAX
  type U64 = x: nat | x <= U64_MAX
  type I64 = x: int | I64_MIN <= x <= I64_MAX

  datatype TokenUsage = TokenUsage(
    promptTokens: U32, completionTokens: U32, cachedPromptTokens: U32, reasoningTokens: U32)

  datatype Totals = Totals(
    inputTokens: U64, outputTokens: U64, cachedReadTokens: U64, reasoningTokens: U64,
    modelCalls: U64, apiDurationMs: U64, costMissingCalls: U64,
    costUsdTicks: Option<I64>)

  const ZERO := Totals(0, 0, 0, 0, 0, 0, 0, None)

  function AddU64(a: U64, b: U64): U64 {
    if a + b <= U64_MAX then a + b else U64_MAX
  }

  function AddI64(a: I64, b: I64): I64 {
    if a + b > I64_MAX then I64_MAX else if a + b < I64_MIN then I64_MIN else a + b
  }

  function OrZero(a: Option<I64>): I64 {
    if a.Some? then a.value else 0
  }

  function MergeCostTicks(a: Option<I64>, b: Option<I64>): Option<I64> {
    if a.None? && b.None? then None else Some(AddI64(OrZero(a), OrZero(b)))
  }

  function FoldTotals(a: Totals, b: Totals): Totals {
    Totals(
      AddU64(a.inputTokens, b.inputTokens),
      AddU64(a.outputTokens, b.outputTokens),
      AddU64(a.cachedReadTokens, b.cachedReadTokens),
      AddU64(a.reasoningTokens, b.reasoningTokens),
      AddU64(a.modelCalls, b.modelCalls),
      AddU64(a.apiDurationMs, b.apiDurationMs),
      AddU64(a.costMissingCalls, b.costMissingCalls),
      MergeCostTicks(a.costUsdTicks, b.costUsdTicks))
  }

  // An unreported cost arrives as zero, and a negative one is never valid.
  function ReportedCostTicks(raw: Option<I64>): Option<I64> {
    if raw.Some? && raw.value > 0 then raw else None
  }

  function FromCall(usage: TokenUsage, apiDurationMs: Option<U64>, costUsdTicks: Option<I64>): Totals {
    var cost := ReportedCostTicks(costUsdTicks);
    Totals(usage.promptTokens, usage.completionTokens, usage.cachedPromptTokens, usage.reasoningTokens,
           1, if apiDurationMs.Some? then apiDurationMs.value else 0, if cost.None? then 1 else 0, cost)
  }

  function TotalTokens(t: Totals): U64 {
    AddU64(t.inputTokens, t.outputTokens)
  }

  predicate CostIsPartial(t: Totals) {
    t.costUsdTicks.Some? && t.costMissingCalls > 0
  }

  // ------------------------------------------------------------ specification --

  datatype Record = Record(model: string, totals: Totals)

  function Sum(records: seq<Record>): Totals {
    if records == [] then ZERO else FoldTotals(Sum(records[..|records| - 1]), records[|records| - 1].totals)
  }

  function SumOf(records: seq<Record>, model: string): Totals {
    if records == [] then ZERO
    else
      var before, r := SumOf(records[..|records| - 1], model), records[|records| - 1];
      if r.model == model then FoldTotals(before, r.totals) else before
  }

  function Models(records: seq<Record>): seq<string> {
    if records == [] then []
    else
      var before, r := Models(records[..|records| - 1]), records[|records| - 1];
      if r.model in before then before else before + [r.model]
  }

  // Exactly the models recorded so far have an entry, each with the sum of its records.
  ghost predicate PerModel(byModel: map<string, Totals>, records: seq<Record>) {
    && (forall m :: m in byModel <==> m in Models(records))
    && (forall m :: m in byModel ==> byModel[m] == SumOf(records, m))
  }

  ghost predicate Adds(totals: Totals, models: seq<string>, byModel: map<string, Totals>, records: seq<Record>) {
    totals == Sum(records) && models == Models(records) && PerModel(byModel, records)
  }

  // ----------------------------------------------------------------- ledger --

  class UsageLedger {
    var totals: Totals
    var models: seq<string>             // the keys of `byModel` in the order they were added
    var byModel: map<string, Totals>
    var mainLoopModelCalls: U64
    var incomplete: bool
    ghost var records: seq<Record>      // everything folded in so far
    ghost var mainLoopCalls: nat        // and how many of these were main loop calls

    constructor ()
      ensures Valid() && records == [] && mainLoopCalls == 0 && !incomplete
    {
      totals, models, byModel, mainLoopModelCalls, incomplete := ZERO, [], map[], 0, false;
      records, mainLoopCalls := [], 0;
    }

    ghost predicate Valid()
      reads this
    {
      && Adds(totals, models, byModel, records)
      && mainLoopModelCalls == Min(mainLoopCalls, U64_MAX)
      && mainLoopModelCalls <= totals.modelCalls
    }

    method FoldEntry(model: string, other: Totals)
      requires Valid()
      modifies `totals, `models, `byModel, `records
      ensures Valid() && records == old(records) + [Record(model, other)]
      ensures totals.modelCalls == AddU64(old(totals.modelCalls), other.modelCalls)
    {
      ModelCallsGrow(totals, other);
      AddsStep(totals, models, byModel, records, Record(model, other));
      hide FoldTotals, Adds, AddU64;
      totals := FoldTotals(totals, other);
      var entry := ZERO;
      if model in byModel {
        entry := byModel[model];
      } else {
        models := models + [model];
      }
      byModel := byModel[model := FoldTotals(entry, other)];
      records := records + [Record(model, other)];
    }

    method RecordMainLoopCall(model: string, usage: TokenUsage, apiDurationMs: Option<U64>, costUsdTicks: Option<I64>)
      requires Valid()
      modifies this
      ensures Valid() && records == old(records) + [Record(model, FromCall(usage, apiDurationMs, costUsdTicks))]
      ensures mainLoopCalls == old(mainLoopCalls) + 1 && incomplete == old(incomplete)
    {
      hide Adds;
      FoldEntry(model, FromCall(usage, apiDurationMs, costUsdTicks));
      mainLoopModelCalls := AddU64(mainLoopModelCalls, 1);
      mainLoopCalls := mainLoopCalls + 1;
    }

    method RecordSubagent(entries: seq<Record>, nestedIncomplete: bool)
      requires Valid()
      modifies this
      ensures Valid() && records == old(records) + entries
      ensures mainLoopCalls == old(mainLoopCalls) && incomplete == (old(incomplete) || nestedIncomplete)
    {
      hide Adds;
      for i := 0 to |entries|
        invariant Valid() && records == old(records) + entries[..i]
        invariant mainLoopCalls == old(mainLoopCalls) && incomplete == old(incomplete)
      {
        assert entries[..i + 1] == entries[..i] + [entries[i]];
        FoldEntry(entries[i].model, entries[i].totals);
      }
      assert entries[..|entries|] == entries;
      if nestedIncomplete {
        incomplete := true;
      }
    }

    method MarkIncomplete()
      requires Valid()
      modifies `incomplete
      ensures Valid() && incomplete
    {
      incomplete := true;
    }
  }

  lemma ModelCallsGrow(a: Totals, b: Totals)
    ensures FoldTotals(a, b).modelCalls == AddU64(a.modelCalls, b.modelCalls) >= a.modelCalls
  {
  }

  lemma AddsStep(totals: Totals, models: seq<string>, byModel: map<string, Totals>, records: seq<Record>, r: Record)
    requires Adds(totals, models, byModel, records)
    ensures var known := r.model in byModel;
            Adds(FoldTotals(totals, r.totals), if known then models else models + [r.model],
                 byModel[r.model := FoldTotals(if known then byModel[r.model] else ZERO, r.totals)], records + [r])
  {
    RecordSnoc(records, r);
    PerModelStep(byModel, records, r);
    assert r.model in byModel <==> r.model in Models(records);
    hide Sum, Models, FoldTotals, PerModel;
  }

  lemma RecordSnoc(records: seq<Record>, r: Record)
    ensures Sum(records + [r]) == FoldTotals(Sum(records), r.totals)
    ensures Models(records + [r]) == if r.model in Models(records) then Models(records) else Models(records) + [r.model]
  {
    assert (records + [r])[..|records|] == records;
  }

  lemma SumOfSnoc(records: seq<Record>, r: Record, m: string)
    ensures SumOf(records + [r], m)
            == if r.model == m then FoldTotals(SumOf(records, m), r.totals) else SumOf(records, m)
  {
    assert (records + [r])[..|records|] == records;
  }

  lemma PerModelStep(byModel: map<string, Totals>, records: seq<Record>, r: Record)
    requires PerModel(byModel, records)
    ensures var before := if r.model in byModel then byModel[r.model] else ZERO;
            PerModel(byModel[r.model := FoldTotals(before, r.totals)], records + [r])
  {
    RecordSnoc(records, r);
    NewModelIsZero(records, r.model);
    hide Sum, SumOf, Models, FoldTotals;
    forall m ensures SumOf(records + [r], m)
                     == if r.model == m then FoldTotals(SumOf(records, m), r.totals) else SumOf(records, m)
    {
      SumOfSnoc(records, r, m);
    }
  }

  lemma {:induction false} NewModelIsZero(records: seq<Record>, model: string)
    ensures model !in Models(records) ==> SumOf(records, model) == ZERO
  {
    if records != [] {
      NewModelIsZero(records[..|records| - 1], model);
    }
  }

  // --------------------------------------------------------- the total per field --

  datatype Counter =
    InputTokens | OutputTokens | CachedReadTokens | ReasoningTokens | ModelCalls | ApiDurationMs | CostMissingCalls

  function Count(t: Totals, c: Counter): U64 {
    match c
    case InputTokens => t.inputTokens
    case OutputTokens => t.outputTokens
    case CachedReadTokens => t.cachedReadTokens
    case ReasoningTokens => t.reasoningTokens
    case ModelCalls => t.modelCalls
    case ApiDurationMs => t.apiDurationMs
    case CostMissingCalls => t.costMissingCalls
  }

  function ExactCount(records: seq<Record>, c: Counter): nat {
    if records == [] then 0
    else ExactCount(records[..|records| - 1], c) + Count(records[|records| - 1].totals, c)
  }

  // A cost of zero or more, or none.
  predicate Chargeable(t: Totals) {
    OrZero(t.costUsdTicks) >= 0
  }

  predicate AllChargeable(records: seq<Record>) {
    forall k :: 0 <= k < |records| ==> Chargeable(records[k].totals)
  }

  function ExactCost(records: seq<Record>): int {
    if records == [] then 0
    else ExactCost(records[..|records| - 1]) + OrZero(records[|records| - 1].totals.costUsdTicks)
  }

  predicate SomeReported(records: seq<Record>) {
    exists k :: 0 <= k < |records| && records[k].totals.costUsdTicks.Some?
  }

  // Every counter is the exact sum, capped.
  lemma {:induction false} CounterIsCappedSum(records: seq<Record>, c: Counter)
    ensures Count(Sum(records), c) == Min(ExactCount(records, c), 18_446_744_073_709_551_615)
  {
    if records != [] {
      CounterIsCappedSum(records[..|records| - 1], c);
    }
  }

  // There is a cost exactly when some call reported one, whatever its sign.
  lemma {:induction false} CostIsReported(records: seq<Record>)
    ensures Sum(records).costUsdTicks.Some? <==> SomeReported(records)
  {
    if records != [] {
      var front, last := records[..|records| - 1], records[|records| - 1];
      CostIsReported(front);
      ReportedSnoc(front, last);
      assert front + [last] == records;
      hide SomeReported;
    }
  }

  // And with costs of zero or more it is their sum, capped.
  lemma {:induction false} CostIsCappedSum(records: seq<Record>)
    requires AllChargeable(records)
    ensures Sum(records).costUsdTicks.Some? <==> SomeReported(records)
    ensures ExactCost(records) >= 0
    ensures OrZero(Sum(records).costUsdTicks) == Min(ExactCost(records), 9_223_372_036_854_775_807)
  {
    CostIsReported(records);
    if records != [] {
      CostIsCappedSum(records[..|records| - 1]);
      assert Chargeable(records[|records| - 1].totals);
      hide SomeReported, AllChargeable;
    }
  }

  lemma ReportedSnoc(front: seq<Record>, last: Record)
    ensures SomeReported(front + [last]) <==> SomeReported(front) || last.totals.costUsdTicks.Some?
  {
    if SomeReported(front) {
      var k :| 0 <= k < |front| && front[k].totals.costUsdTicks.Some?;
      assert (front + [last])[k].totals.costUsdTicks.Some?;
    }
    assert (front + [last])[|front|] == last;
  }

  // ------------------------------------------------ order, and the sum over the models --

  lemma FoldCommutes(a: Totals, b: Totals)
    ensures FoldTotals(a, b) == FoldTotals(b, a)
  {
  }

  lemma MergeAssociates(a: Option<I64>, b: Option<I64>, c: Option<I64>)
    requires OrZero(a) >= 0 && OrZero(b) >= 0 && OrZero(c) >= 0
    ensures MergeCostTicks(MergeCostTicks(a, b), c) == MergeCostTicks(a, MergeCostTicks(b, c))
  {
  }

  lemma AddAssociates(a: U64, b: U64, c: U64)
    ensures AddU64(AddU64(a, b), c) == AddU64(a, AddU64(b, c))
  {
  }

  lemma FoldAssociates(a: Totals, b: Totals, c: Totals)
    requires Chargeable(a) && Chargeable(b) && Chargeable(c)
    ensures FoldTotals(FoldTotals(a, b), c) == FoldTotals(a, FoldTotals(b, c))
  {
    MergeAssociates(a.costUsdTicks, b.costUsdTicks, c.costUsdTicks);
    AddAssociates(a.inputTokens, b.inputTokens, c.inputTokens);
    AddAssociates(a.outputTokens, b.outputTokens, c.outputTokens);
    AddAssociates(a.cachedReadTokens, b.cachedReadTokens, c.cachedReadTokens);
    AddAssociates(a.reasoningTokens, b.reasoningTokens, c.reasoningTokens);
    AddAssociates(a.modelCalls, b.modelCalls, c.modelCalls);
    AddAssociates(a.apiDurationMs, b.apiDurationMs, c.apiDurationMs);
    AddAssociates(a.costMissingCalls, b.costMissingCalls, c.costMissingCalls);
    hide AddU64, MergeCostTicks;
  }

  lemma FoldChargeable(a: Totals, b: Totals)
    requires Chargeable(a) && Chargeable(b)
    ensures Chargeable(FoldTotals(a, b))
  {
  }

  lemma {:induction false} SumsChargeable(records: seq<Record>, model: string)
    requires AllChargeable(records)
    ensures Chargeable(Sum(records)) && Chargeable(SumOf(records, model))
  {
    if records != [] {
      var front, last := records[..|records| - 1], records[|records| - 1];
      SumsChargeable(front, model);
      assert Chargeable(last.totals);
      FoldChargeable(Sum(front), last.totals);
      FoldChargeable(SumOf(front, model), last.totals);
      hide Chargeable, FoldTotals, AllChargeable;
    }
  }

  lemma SwapLast(a: Totals, b: Totals, c: Totals)
    requires Chargeable(a) && Chargeable(b) && Chargeable(c)
    ensures FoldTotals(FoldTotals(a, b), c) == FoldTotals(FoldTotals(a, c), b)
  {
    FoldAssociates(a, b, c);
    FoldAssociates(a, c, b);
    FoldCommutes(b, c);
    hide FoldTotals, Chargeable;
  }

  // A record may as well come last.
  lemma {:induction false} SumWithout(records: seq<Record>, k: nat)
    requires k < |records| && AllChargeable(records)
    ensures var rest := records[..k] + records[k + 1..];
            AllChargeable(rest) && Sum(records) == FoldTotals(Sum(rest), records[k].totals)
    decreases |records|
  {
    var rest := records[..k] + records[k + 1..];
    var front, last := records[..|records| - 1], records[|records| - 1];
    assert AllChargeable(rest) && AllChargeable(front) && Chargeable(last.totals) && Chargeable(records[k].totals);
    if k == |records| - 1 {
      assert rest == front;
    } else {
      SumWithout(front, k);
      var rest' := front[..k] + front[k + 1..];
      assert rest == rest' + [last];
      assert rest[..|rest| - 1] == rest';
      SumsChargeable(rest', "");
      hide AllChargeable, Chargeable, FoldTotals;
      SwapLast(Sum(rest'), records[k].totals, last.totals);
    }
  }

  function OfModel(records: seq<Record>, model: string): seq<Record> {
    if records == [] then []
    else OfModel(records[..|records| - 1], model)
         + (if records[|records| - 1].model == model then [records[|records| - 1]] else [])
  }

  lemma {:induction false} SumOfModel(records: seq<Record>, model: string)
    ensures SumOf(records, model) == Sum(OfModel(records, model))
  {
    if records != [] {
      var front, last := records[..|records| - 1], records[|records| - 1];
      SumOfModel(front, model);
      hide FoldTotals;
      var mine := OfModel(front, model);
      assert (mine + [last])[..|mine|] == mine && mine + [] == mine;
    }
  }

  lemma {:induction false} OfModelChargeable(records: seq<Record>, model: string)
    requires AllChargeable(records)
    ensures AllChargeable(OfModel(records, model))
  {
    if records != [] {
      OfModelChargeable(records[..|records| - 1], model);
    }
  }

  lemma {:induction false} OfModelCount(records: seq<Record>, model: string, r: Record)
    ensures multiset(OfModel(records, model))[r] == if r.model == model then multiset(records)[r] else 0
  {
    if records != [] {
      OfModelCount(records[..|records| - 1], model, r);
      assert records == records[..|records| - 1] + [records[|records| - 1]];
    }
  }

  lemma WithoutOne(a: seq<Record>, b: seq<Record>, k: nat)
    requires multiset(a) == multiset(b) && a != [] && k < |b| && b[k] == a[|a| - 1]
    ensures multiset(a[..|a| - 1]) == multiset(b[..k] + b[k + 1..])
  {
    assert a == a[..|a| - 1] + [a[|a| - 1]];
    assert b == b[..k] + [b[k]] + b[k + 1..];
    CancelOne(a[..|a| - 1], b[..k], b[k + 1..], b[k]);
  }

  lemma CancelOne(front: seq<Record>, p: seq<Record>, q: seq<Record>, x: Record)
    requires multiset(front + [x]) == multiset(p + [x] + q)
    ensures multiset(front) == multiset(p + q)
  {
    assert multiset(front) + multiset{x} == multiset(p) + multiset{x} + multiset(q);
    forall r ensures multiset(front)[r] == multiset(p)[r] + multiset(q)[r] {
      assert (multiset(front) + multiset{x})[r] == (multiset(p) + multiset{x} + multiset(q))[r];
    }
    assert multiset(front) == multiset(p) + multiset(q);
  }

  lemma PlaceOfLast(a: seq<Record>, b: seq<Record>) returns (k: nat)
    requires multiset(a) == multiset(b) && a != []
    ensures k < |b| && b[k] == a[|a| - 1]
  {
    assert a[|a| - 1] in multiset(a);
    k :| 0 <= k < |b| && b[k] == a[|a| - 1];
  }

  // The order in which calls are recorded does not matter.
  lemma {:induction false} SumIgnoresOrder(a: seq<Record>, b: seq<Record>)
    requires multiset(a) == multiset(b) && AllChargeable(a) && AllChargeable(b)
    ensures Sum(a) == Sum(b)
    decreases |a|
  {
    if a == [] {
      assert |multiset(b)| == 0;
    } else {
      var k := PlaceOfLast(a, b);
      WithoutOne(a, b, k);
      SumWithout(b, k);
      assert AllChargeable(a[..|a| - 1]);
      hide FoldTotals, AllChargeable;
      SumIgnoresOrder(a[..|a| - 1], b[..k] + b[k + 1..]);
    }
  }

  lemma SameMembers(a: seq<Record>, b: seq<Record>)
    requires multiset(a) == multiset(b) && AllChargeable(a)
    ensures AllChargeable(b)
  {
    forall k | 0 <= k < |b| ensures Chargeable(b[k].totals) {
      assert b[k] in multiset(b);
      var j :| 0 <= j < |a| && a[j] == b[k];
    }
  }

  lemma {:induction false} ExactWithout(records: seq<Record>, k: nat, c: Counter)
    requires k < |records|
    ensures ExactCount(records, c) == ExactCount(records[..k] + records[k + 1..], c) + Count(records[k].totals, c)
  {
    hide Count;
    var rest := records[..k] + records[k + 1..];
    var front, last := records[..|records| - 1], records[|records| - 1];
    if k == |records| - 1 {
      assert rest == front;
    } else {
      ExactWithout(front, k, c);
      assert rest == front[..k] + front[k + 1..] + [last];
      assert rest[..|rest| - 1] == front[..k] + front[k + 1..];
    }
  }

  lemma {:induction false} ExactIgnoresOrder(a: seq<Record>, b: seq<Record>, c: Counter)
    requires multiset(a) == multiset(b)
    ensures ExactCount(a, c) == ExactCount(b, c)
  {
    hide Count;
    if a == [] {
      assert |multiset(b)| == 0;
    } else {
      var k := PlaceOfLast(a, b);
      WithoutOne(a, b, k);
      ExactWithout(b, k, c);
      ExactIgnoresOrder(a[..|a| - 1], b[..k] + b[k + 1..], c);
    }
  }

  lemma OfModelIgnoresOrder(a: seq<Record>, b: seq<Record>, model: string)
    requires multiset(a) == multiset(b)
    ensures multiset(OfModel(a, model)) == multiset(OfModel(b, model))
  {
    hide *;
    forall r ensures multiset(OfModel(a, model))[r] == multiset(OfModel(b, model))[r] {
      OfModelCount(a, model, r);
      OfModelCount(b, model, r);
    }
  }

  // The counters of a ledger never depend on the order, and with costs of zero or more nothing does.
  lemma LedgerIgnoresOrder(a: seq<Record>, b: seq<Record>, model: string, c: Counter)
    requires multiset(a) == multiset(b)
    ensures Count(Sum(a), c) == Count(Sum(b), c) && Count(SumOf(a, model), c) == Count(SumOf(b, model), c)
    ensures model in Models(a) <==> model in Models(b)
    ensures AllChargeable(a) ==> Sum(a) == Sum(b) && SumOf(a, model) == SumOf(b, model)
  {
    hide *;
    OfModelIgnoresOrder(a, b, model);
    SumOfModel(a, model);
    SumOfModel(b, model);
    CountersIgnoreOrder(a, b, c);
    CountersIgnoreOrder(OfModel(a, model), OfModel(b, model), c);
    ModelRecorded(a, model);
    ModelRecorded(b, model);
    if AllChargeable(a) {
      SameMembers(a, b);
      SumIgnoresOrder(a, b);
      OfModelChargeable(a, model);
      OfModelChargeable(b, model);
      SumIgnoresOrder(OfModel(a, model), OfModel(b, model));
    }
  }

  lemma CountersIgnoreOrder(a: seq<Record>, b: seq<Record>, c: Counter)
    requires multiset(a) == multiset(b)
    ensures Count(Sum(a), c) == Count(Sum(b), c)
  {
    hide *;
    ExactIgnoresOrder(a, b, c);
    CounterIsCappedSum(a, c);
    CounterIsCappedSum(b, c);
  }

  lemma {:induction false} ModelRecorded(records: seq<Record>, model: string)
    ensures model in Models(records) <==> exists r :: r in multiset(records) && r.model == model
  {
    if records != [] {
      var front, last := records[..|records| - 1], records[|records| - 1];
      ModelRecorded(front, model);
      assert records == front + [last];
      assert last in multiset(records);
    }
  }

  // With negative costs, which `ReportedCostTicks` filters out, it would matter.
  lemma NegativeCostsDependOnOrder()
    ensures MergeCostTicks(MergeCostTicks(Some(I64_MAX), Some(1)), Some(-1))
            != MergeCostTicks(MergeCostTicks(Some(I64_MAX), Some(-1)), Some(1))
  {
  }

  // The totals of the models, added up in turn.
  function SumOver(models: seq<string>, records: seq<Record>): Totals {
    if models == [] then ZERO
    else FoldTotals(SumOver(models[..|models| - 1], records), SumOf(records, models[|models| - 1]))
  }

  predicate Distinct(models: seq<string>) {
    models == [] || (models[|models| - 1] !in models[..|models| - 1] && Distinct(models[..|models| - 1]))
  }

  lemma {:induction false} SumOverChargeable(models: seq<string>, records: seq<Record>)
    requires AllChargeable(records)
    ensures Chargeable(SumOver(models, records))
  {
    if models != [] {
      var front, last := models[..|models| - 1], models[|models| - 1];
      SumOverChargeable(front, records);
      SumsChargeable(records, last);
      FoldChargeable(SumOver(front, records), SumOf(records, last));
      hide Chargeable, FoldTotals, AllChargeable;
    }
  }

  lemma {:induction false} SumOverStep(models: seq<string>, records: seq<Record>, r: Record)
    requires Distinct(models) && AllChargeable(records) && Chargeable(r.totals)
    ensures SumOver(models, records + [r])
            == if r.model in models then FoldTotals(SumOver(models, records), r.totals) else SumOver(models, records)
  {
    if models != [] {
      var front, last := models[..|models| - 1], models[|models| - 1];
      assert models == front + [last];
      SumOverStep(front, records, r);
      SumOfSnoc(records, r, last);
      SumOverChargeable(front, records);
      SumsChargeable(records, last);
      hide FoldTotals, Chargeable, AllChargeable, Sum, SumOf, Models;
      if r.model == last {
        FoldAssociates(SumOver(front, records), SumOf(records, last), r.totals);
      } else if r.model in front {
        SwapLast(SumOver(front, records), r.totals, SumOf(records, last));
      }
    }
  }

  lemma {:induction false} ModelsDistinct(records: seq<Record>)
    ensures Distinct(Models(records))
  {
    if records != [] {
      ModelsDistinct(records[..|records| - 1]);
      var before := Models(records[..|records| - 1]);
      assert (before + [records[|records| - 1].model])[..|before|] == before;
    }
  }

  lemma ZeroIsNeutral(t: Totals)
    ensures FoldTotals(ZERO, t) == t
  {
  }

  // The session's totals are the sum of the per-model totals.
  lemma {:induction false} TotalsAreSumOverModels(records: seq<Record>)
    requires AllChargeable(records)
    ensures Sum(records) == SumOver(Models(records), records)
  {
    if records != [] {
      var front, last := records[..|records| - 1], records[|records| - 1];
      assert records == front + [last] && Chargeable(last.totals);
      assert AllChargeable(front);
      TotalsAreSumOverModels(front);
      ModelsDistinct(front);
      var models := Models(front);
      SumOverStep(models, front, last);
      RecordSnoc(front, last);
      NewModelIsZero(front, last.model);
      ZeroIsNeutral(last.totals);
      hide FoldTotals, Chargeable, AllChargeable, Sum, SumOf, Models, Distinct;
      if last.model !in models {
        assert (models + [last.model])[..|models|] == models;
      }
    }
  }

  // ----------------------------------------------------------- what a ledger shows --

  function ExactOver(models: seq<string>, records: seq<Record>, c: Counter): nat {
    if models == [] then 0
    else ExactOver(models[..|models| - 1], records, c) + Count(SumOf(records, models[|models| - 1]), c)
  }

  lemma SumOfOthers(models: seq<string>, records: seq<Record>, r: Record, c: Counter)
    requires r.model !in models
    ensures ExactOver(models, records + [r], c) == ExactOver(models, records, c)
  {
    if models != [] {
      var last := models[|models| - 1];
      SumOfOthers(models[..|models| - 1], records, r, c);
      SumOfSnoc(records, r, last);
      assert last in models;
      hide SumOf, FoldTotals, Count;
    }
  }

  lemma CountOfFold(a: Totals, b: Totals, c: Counter)
    ensures Count(FoldTotals(a, b), c) == Min(Count(a, c) + Count(b, c), U64_MAX)
  {
  }

  lemma {:induction false} ExactOverStep(models: seq<string>, records: seq<Record>, r: Record, c: Counter)
    requires Distinct(models)
    ensures Min(ExactOver(models, records + [r], c), U64_MAX)
            == Min(ExactOver(models, records, c) + (if r.model in models then Count(r.totals, c) else 0), U64_MAX)
  {
    if models != [] {
      var front, last := models[..|models| - 1], models[|models| - 1];
      FrontAndLast(models);
      ExactOverStep(front, records, r, c);
      SumOfSnoc(records, r, last);
      CountOfFold(SumOf(records, last), r.totals, c);
      if r.model !in front {
        SumOfOthers(front, records, r, c);
      }
      hide SumOf, FoldTotals, Count;
    }
  }

  lemma ExactOverSnoc(models: seq<string>, model: string, records: seq<Record>, c: Counter)
    ensures ExactOver(models + [model], records, c) == ExactOver(models, records, c) + Count(SumOf(records, model), c)
  {
    assert (models + [model])[..|models|] == models;
    hide SumOf, Count;
  }

  lemma NewModelCount(records: seq<Record>, r: Record, c: Counter)
    ensures r.model !in Models(records) ==> Count(SumOf(records + [r], r.model), c) == Count(r.totals, c)
  {
    NewModelIsZero(records, r.model);
    SumOfSnoc(records, r, r.model);
    ZeroIsNeutral(r.totals);
    hide SumOf, Models, FoldTotals;
  }

  // Every counter of the totals is the capped sum of that counter over the models, whatever the costs.
  lemma {:induction false} CounterOverModels(records: seq<Record>, c: Counter)
    ensures Count(Sum(records), c) == Min(ExactOver(Models(records), records, c), U64_MAX)
  {
    if records != [] {
      var front, last := records[..|records| - 1], records[|records| - 1];
      var models := Models(front);
      ExactOverSnoc(models, last.model, front + [last], c);
      hide Sum, SumOf, FoldTotals, Models, Distinct, ExactOver, Count;
      FrontAndLast(records);
      CounterOverModels(front, c);
      RecordSnoc(front, last);
      CountOfFold(Sum(front), last.totals, c);
      ModelsDistinct(front);
      ExactOverStep(models, front, last, c);
      NewModelCount(front, last, c);
    }
  }

  function CostOver(models: seq<string>, records: seq<Record>): int {
    if models == [] then 0
    else CostOver(models[..|models| - 1], records) + OrZero(SumOf(records, models[|models| - 1]).costUsdTicks)
  }

  predicate SomeModelReported(models: seq<string>, records: seq<Record>) {
    models != []
    && (SumOf(records, models[|models| - 1]).costUsdTicks.Some? || SomeModelReported(models[..|models| - 1], records))
  }

  // And with costs of zero or more, so is the cost: present when some model has one.
  lemma {:induction false} CostOverModels(models: seq<string>, records: seq<Record>)
    requires AllChargeable(records)
    ensures CostOver(models, records) >= 0
    ensures OrZero(SumOver(models, records).costUsdTicks) == Min(CostOver(models, records), I64_MAX)
    ensures SumOver(models, records).costUsdTicks.Some? <==> SomeModelReported(models, records)
  {
    if models != [] {
      CostOverModels(models[..|models| - 1], records);
      SumsChargeable(records, models[|models| - 1]);
      hide SumOf, AllChargeable, AddU64;
    }
  }

  // Every counter of a ledger is the capped sum of that counter over its models.
  lemma LedgerAddsUp(ledger: UsageLedger, c: Counter)
    requires ledger.Valid()
    ensures Count(ledger.totals, c) == Min(ExactOver(ledger.models, ledger.records, c), U64_MAX)
    ensures forall m :: m in ledger.models ==> m in ledger.byModel && ledger.byModel[m] == SumOf(ledger.records, m)
    ensures ledger.mainLoopModelCalls <= ledger.totals.modelCalls
  {
    CounterOverModels(ledger.records, c);
    hide Sum, SumOf, Models, Count;
  }

  lemma LedgerCostAddsUp(ledger: UsageLedger)
    requires ledger.Valid() && AllChargeable(ledger.records)
    ensures CostOver(ledger.models, ledger.records) >= 0
    ensures OrZero(ledger.totals.costUsdTicks) == Min(CostOver(ledger.models, ledger.records), I64_MAX)
    ensures ledger.totals.costUsdTicks.Some? <==> SomeModelReported(ledger.models, ledger.records)
  {
    TotalsAreSumOverModels(ledger.records);
    CostOverModels(ledger.models, ledger.records);
    hide Sum, SumOver, SumOf, Models, AllChargeable, CostOver, SomeModelReported;
  }

  // A cost is partial exactly when some call reported one and some call did not.
  lemma PartialCost(records: seq<Record>)
    ensures CostIsPartial(Sum(records)) <==> SomeReported(records) && ExactCount(records, CostMissingCalls) > 0
  {
    CostIsReported(records);
    CounterIsCappedSum(records, CostMissingCalls);
    hide Sum, ExactCount, SomeReported;
  }

  // A recorded call counts once with all its tokens, and has a cost or counts as missing one,
  // never both.
  lemma CallIsChargeable(usage: TokenUsage, apiDurationMs: Option<U64>, costUsdTicks: Option<I64>)
    ensures var t := FromCall(usage, apiDurationMs, costUsdTicks);
            && Chargeable(t) && t.modelCalls == 1 && (t.costUsdTicks.Some? <==> t.costMissingCalls == 0)
            && (costUsdTicks.Some? && costUsdTicks.value > 0 ==> t.costUsdTicks == costUsdTicks)
            && (costUsdTicks.None? || costUsdTicks.value <= 0 ==> t.costUsdTicks == None && t.costMissingCalls == 1)
            && t.apiDurationMs == (if apiDurationMs.Some? then apiDurationMs.value else 0)
            && t.outputTokens == usage.completionTokens
            && TotalTokens(t) == usage.promptTokens + usage.completionTokens && t.inputTokens == usage.promptTokens
            && t.cachedReadTokens == usage.cachedPromptTokens && t.reasoningTokens == usage.reasoningTokens
  {
  }
}
