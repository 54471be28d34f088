/** The four profit-and-loss views of api/src/agentx_api/state.py: `system_overview`,
    `instance_rows`, `instance_economy` and `economy_units`, over the same billing lines. */
module Economy {
  import opened Sequences
  import opened Sorting
  import opened Wrappers

  /** A `billing_line` document; a missing or non-numeric amount reads as 0. */
  datatype Line = Line(inst: Option<string>, amount: Option<real>, currency: Option<string>, run: string, ts: string)
  datatype Instance = Instance(id: Option<string>, customer: Option<string>)
  datatype ResumeRow = ResumeRow(inst: string, trust: int)

  function Amount(l: Line): real { if l.amount.Some? then l.amount.value else 0.0 }
  function TextOr(t: Option<string>): string { if t.Some? then t.value else "" }

  /** A running total over lines. */
  function Total(lines: seq<Line>): real {
    if lines == [] then 0.0 else Amount(lines[0]) + Total(lines[1..])
  }

  lemma {:induction false} TotalConcat(a: seq<Line>, b: seq<Line>)
    ensures Total(a + b) == Total(a) + Total(b)
  {
    if a == [] { assert a + b == b; } else { assert (a + b)[1..] == a[1..] + b; TotalConcat(a[1..], b); }
  }

  function ForInstance(id: string): Line -> bool { (l: Line) => l.inst == Some(id) }
  function LinesOf(lines: seq<Line>, id: string): seq<Line> { Filter(ForInstance(id), lines) }

  const INR := "INR"

  /** The last non-empty currency seen wins; the comment in the source says the first. */
  function CurrencyAfter(currency: string, lines: seq<Line>): string {
    if lines == [] then currency else
      var last := lines[|lines| - 1];
      if last.currency.Some? && last.currency.value != "" then last.currency.value
      else CurrencyAfter(currency, lines[..|lines| - 1])
  }

  // ---- Overview and rows ---------------------------------------------------------------------

  function OverviewTotal(lines: seq<Line>): real { Total(lines) }

  function RowTotals(instances: seq<Instance>, lines: seq<Line>): seq<real> {
    seq(|instances|, k requires 0 <= k < |instances| => Total(LinesOf(lines, TextOr(instances[k].id))))
  }

  // ---- One instance --------------------------------------------------------------------------

  datatype Settlement = Settlement(run: string, amount: real, ts: string)
  datatype InstanceEconomy =
    | MissingEconomy
    | InstanceEconomy(billingTotal: real, currency: string, settledCount: nat, trust: int, settlements: seq<Settlement>)

  predicate NewestFirst(a: Settlement, b: Settlement) { StringLe(b.ts, a.ts) }

  function Ledger(lines: seq<Line>): seq<Settlement> {
    seq(|lines|, k requires 0 <= k < |lines| => Settlement(lines[k].run, Amount(lines[k]), lines[k].ts))
  }

  function TrustOf(resumes: seq<ResumeRow>, id: string): int {
    if resumes == [] then 0
    else if resumes[|resumes| - 1].inst == id then resumes[|resumes| - 1].trust
    else TrustOf(resumes[..|resumes| - 1], id)
  }

  function EconomyOf(lines: seq<Line>, resumes: seq<ResumeRow>, id: string): InstanceEconomy {
    var own := LinesOf(lines, id);
    if own == [] then MissingEconomy
    else InstanceEconomy(Total(own), CurrencyAfter(INR, own), |own|, TrustOf(resumes, id),
                         Sort(NewestFirst, Ledger(own)))
  }

  method InstanceEconomyOf(lines: seq<Line>, resumes: seq<ResumeRow>, id: string) returns (e: InstanceEconomy)
    ensures e == EconomyOf(lines, resumes, id)
  {
    var own := LinesOf(lines, id);
    if own == [] { return MissingEconomy; }
    var total, currency, settlements := 0.0, INR, [];
    for k := 0 to |own|
      invariant total == Total(own[..k]) && currency == CurrencyAfter(INR, own[..k]) && settlements == Ledger(own)[..k]
    {
      assert own[..k + 1] == own[..k] + [own[k]];
      TotalConcat(own[..k], [own[k]]);
      assert own[..k + 1][..k] == own[..k];
      total := total + Amount(own[k]);
      if own[k].currency.Some? && own[k].currency.value != "" { currency := own[k].currency.value; }
      settlements := settlements + [Settlement(own[k].run, Amount(own[k]), own[k].ts)];
    }
    assert own[..|own|] == own && Ledger(own)[..|own|] == Ledger(own);
    e := InstanceEconomy(total, currency, |own|, TrustOf(resumes, id), Sort(NewestFirst, settlements));
  }

  function LedgerTotal(s: seq<Settlement>): real {
    if s == [] then 0.0 else s[0].amount + LedgerTotal(s[1..])
  }

  lemma {:induction false} LedgerInsert(x: Settlement, s: seq<Settlement>)
    ensures LedgerTotal(Insert(NewestFirst, x, s)) == x.amount + LedgerTotal(s)
  {
    assert ([x] + s)[1..] == s;
    if s == [] || NewestFirst(x, s[0]) {
    } else {
      LedgerInsert(x, s[1..]);
      assert ([s[0]] + Insert(NewestFirst, x, s[1..]))[1..] == Insert(NewestFirst, x, s[1..]);
    }
  }

  lemma {:induction false} LedgerSort(s: seq<Settlement>)
    ensures LedgerTotal(Sort(NewestFirst, s)) == LedgerTotal(s)
  {
    if s == [] {
    } else {
      LedgerSort(s[1..]);
      LedgerInsert(s[0], Sort(NewestFirst, s[1..]));
    }
  }

  lemma {:induction false} LedgerOfLines(lines: seq<Line>)
    ensures LedgerTotal(Ledger(lines)) == Total(lines)
  {
    if lines == [] {
    } else {
      assert Ledger(lines)[1..] == Ledger(lines[1..]);
      LedgerOfLines(lines[1..]);
    }
  }

  /** What the transaction list is made of: the run, amount and time of each line. */
  lemma LedgerEntries(lines: seq<Line>)
    ensures |Ledger(lines)| == |lines|
    ensures forall k :: 0 <= k < |lines| ==>
              Ledger(lines)[k] ==
              Settlement(lines[k].run, if lines[k].amount.Some? then lines[k].amount.value else 0.0, lines[k].ts)
  {
  }

  function AtTime(ts: string): Settlement -> bool { (s: Settlement) => s.ts == ts }

  /** The transaction list is a permutation of the instance's lines, the latest time first, those of one
      time in their given order, and adds up to the total above it. */
  lemma LedgerAddsUp(lines: seq<Line>, resumes: seq<ResumeRow>, id: string)
    requires LinesOf(lines, id) != []
    ensures var e := EconomyOf(lines, resumes, id);
            && LedgerTotal(e.settlements) == e.billingTotal && |e.settlements| == e.settledCount
            && (forall a, b :: 0 <= a < b < |e.settlements| ==> StringLe(e.settlements[b].ts, e.settlements[a].ts))
            && (forall ts :: Filter(AtTime(ts), e.settlements) == Filter(AtTime(ts), Ledger(LinesOf(lines, id))))
            && multiset(e.settlements) == multiset(Ledger(LinesOf(lines, id)))
  {
    var s := Ledger(LinesOf(lines, id));
    LedgerOfLines(LinesOf(lines, id));
    LedgerSort(s);
    StringLeIsTotalPreorder();
    SortSorts(NewestFirst, s);
    assert |multiset(Sort(NewestFirst, s))| == |multiset(s)|;
    var sorted := Sort(NewestFirst, s);
    forall ts ensures Filter(AtTime(ts), sorted) == Filter(AtTime(ts), s) {
      EqualsKeepOrder(NewestFirst, AtTime(ts), s);
    }
    forall a, b | 0 <= a < b < |sorted| ensures StringLe(sorted[b].ts, sorted[a].ts) {
      assert NewestFirst(sorted[a], sorted[b]);
    }
  }

  // ---- Business units ------------------------------------------------------------------------

  datatype BusinessUnit = BusinessUnit(
    customer: string, ids: seq<string>, billingTotal: real, settledCount: nat, trust: int, currency: string)

  datatype Rollup = Rollup(units: seq<BusinessUnit>, billingTotal: real, settledCount: nat, currency: string)

  function InUnit(c: string): Instance -> bool { (i: Instance) => TextOr(i.customer) == c }

  /** Customers in order of first appearance; an instance without one belongs to no unit. */
  function Customers(instances: seq<Instance>): seq<string> {
    if instances == [] then [] else
      var front, c := Customers(instances[..|instances| - 1]), TextOr(instances[|instances| - 1].customer);
      if c != "" && c !in front then front + [c] else front
  }

  function IdsOf(instances: seq<Instance>): seq<string> {
    if instances == [] then [] else
      (if instances[0].id.Some? then [instances[0].id.value] else []) + IdsOf(instances[1..])
  }

  function Members(instances: seq<Instance>, c: string): seq<string> { IdsOf(Filter(InUnit(c), instances)) }

  /** What the pre-grouped dictionary holds for an instance: nothing under the empty key. */
  function GroupedLines(lines: seq<Line>, id: string): seq<Line> {
    if id == "" then [] else LinesOf(lines, id)
  }

  function GroupedTrust(resumes: seq<ResumeRow>, id: string): int {
    if id == "" then 0 else TrustOf(resumes, id)
  }

  function UnitLines(lines: seq<Line>, ids: seq<string>): seq<Line> {
    if ids == [] then [] else UnitLines(lines, ids[..|ids| - 1]) + GroupedLines(lines, ids[|ids| - 1])
  }

  function UnitTrust(resumes: seq<ResumeRow>, ids: seq<string>): int {
    if ids == [] then 0 else UnitTrust(resumes, ids[..|ids| - 1]) + GroupedTrust(resumes, ids[|ids| - 1])
  }

  /** The rollup's specification, unit by unit; the currency carries over from unit to unit. */
  function RollUp(customers: seq<string>, instances: seq<Instance>, lines: seq<Line>, resumes: seq<ResumeRow>): Rollup {
    if customers == [] then Rollup([], 0.0, 0, INR) else
      var front, c := RollUp(customers[..|customers| - 1], instances, lines, resumes), customers[|customers| - 1];
      var ids := Members(instances, c);
      var own := UnitLines(lines, ids);
      var currency := CurrencyAfter(front.currency, own);
      Rollup(front.units + [BusinessUnit(c, ids, Total(own), |own|, UnitTrust(resumes, ids), currency)],
             front.billingTotal + Total(own), front.settledCount + |own|, currency)
  }

  ghost predicate BillingGrouped(m: map<string, seq<Line>>, lines: seq<Line>) {
    forall id :: (if id in m then m[id] else []) == GroupedLines(lines, id)
  }

  function AddLine(m: map<string, seq<Line>>, l: Line): map<string, seq<Line>> {
    var key := TextOr(l.inst);
    if key == "" then m else m[key := (if key in m then m[key] else []) + [l]]
  }

  lemma LineAdds(lines: seq<Line>, l: Line, id: string)
    ensures GroupedLines(lines + [l], id) ==
            if id != "" && l.inst == Some(id) then GroupedLines(lines, id) + [l] else GroupedLines(lines, id)
  {
    FilterSnoc(ForInstance(id), lines, l);
  }

  lemma GroupedSnoc(m: map<string, seq<Line>>, lines: seq<Line>, l: Line)
    requires BillingGrouped(m, lines)
    ensures BillingGrouped(AddLine(m, l), lines + [l])
  {
    var m' := AddLine(m, l);
    forall id ensures (if id in m' then m'[id] else []) == GroupedLines(lines + [l], id) {
      LineAdds(lines, l, id);
      assert (if id in m then m[id] else []) == GroupedLines(lines, id);
    }
  }

  method GroupBilling(lines: seq<Line>) returns (m: map<string, seq<Line>>)
    ensures BillingGrouped(m, lines)
  {
    m := map[];
    for k := 0 to |lines|
      invariant BillingGrouped(m, lines[..k])
    {
      var key := TextOr(lines[k].inst);
      assert lines[..k + 1] == lines[..k] + [lines[k]];
      GroupedSnoc(m, lines[..k], lines[k]);
      if key != "" { m := m[key := (if key in m then m[key] else []) + [lines[k]]]; }
    }
    assert lines[..|lines|] == lines;
  }

  method GroupTrust(resumes: seq<ResumeRow>) returns (m: map<string, int>)
    ensures forall id :: (if id in m then m[id] else 0) == GroupedTrust(resumes, id)
  {
    m := map[];
    for k := 0 to |resumes|
      invariant forall id :: (if id in m then m[id] else 0) == GroupedTrust(resumes[..k], id)
    {
      assert resumes[..k + 1][..k] == resumes[..k];
      if resumes[k].inst != "" { m := m[resumes[k].inst := resumes[k].trust]; }
    }
    assert resumes[..|resumes|] == resumes;
  }

  ghost predicate Bucketed(m: map<string, seq<Instance>>, order: seq<string>, instances: seq<Instance>) {
    && order == Customers(instances)
    && (forall c :: c in m <==> c in order)
    && (forall c :: c in m ==> c != "" && m[c] == Filter(InUnit(c), instances))
    && (forall c :: c != "" && c !in m ==> Filter(InUnit(c), instances) == [])
  }

  method BucketInstances(instances: seq<Instance>) returns (m: map<string, seq<Instance>>, order: seq<string>)
    ensures Bucketed(m, order, instances)
  {
    m, order := map[], [];
    for k := 0 to |instances|
      invariant Bucketed(m, order, instances[..k])
    {
      var c := TextOr(instances[k].customer);
      assert instances[..k + 1] == instances[..k] + [instances[k]];
      assert instances[..k + 1][..k] == instances[..k];
      forall d ensures Filter(InUnit(d), instances[..k + 1]) ==
                if d == c then Filter(InUnit(d), instances[..k]) + [instances[k]] else Filter(InUnit(d), instances[..k])
      {
        FilterSnoc(InUnit(d), instances[..k], instances[k]);
      }
      if c == "" { continue; }
      if c !in m { order := order + [c]; }
      m := m[c := (if c in m then m[c] else []) + [instances[k]]];
    }
    assert instances[..|instances|] == instances;
  }

  lemma {:induction false} CurrencyConcat(currency: string, a: seq<Line>, b: seq<Line>)
    ensures CurrencyAfter(currency, a + b) == CurrencyAfter(CurrencyAfter(currency, a), b)
  {
    if b == [] {
      assert a + b == a;
    } else {
      assert (a + b)[..|a + b| - 1] == a + b[..|b| - 1];
      CurrencyConcat(currency, a, b[..|b| - 1]);
    }
  }

  /** The innermost loop: one member's lines. */
  method SumLines(own: seq<Line>, total0: real, currency0: string) returns (total: real, count: nat, currency: string)
    ensures total == total0 + Total(own) && count == |own| && currency == CurrencyAfter(currency0, own)
  {
    total, count, currency := total0, 0, currency0;
    for n := 0 to |own|
      invariant total == total0 + Total(own[..n]) && count == n && currency == CurrencyAfter(currency0, own[..n])
    {
      assert own[..n + 1] == own[..n] + [own[n]] && own[..n + 1][..n] == own[..n];
      TotalConcat(own[..n], [own[n]]);
      total := total + Amount(own[n]);
      count := count + 1;
      if own[n].currency.Some? && own[n].currency.value != "" { currency := own[n].currency.value; }
    }
    assert own[..|own|] == own;
  }

  /** One unit's loop over its members and their grouped lines. */
  method SumUnit(ids: seq<string>, billing: map<string, seq<Line>>, trusts: map<string, int>, start: string,
                 ghost lines: seq<Line>, ghost resumes: seq<ResumeRow>)
    returns (total: real, count: nat, trust: int, currency: string)
    requires BillingGrouped(billing, lines)
    requires forall id :: (if id in trusts then trusts[id] else 0) == GroupedTrust(resumes, id)
    ensures total == Total(UnitLines(lines, ids)) && count == |UnitLines(lines, ids)|
    ensures trust == UnitTrust(resumes, ids) && currency == CurrencyAfter(start, UnitLines(lines, ids))
  {
    total, count, trust, currency := 0.0, 0, 0, start;
    for k := 0 to |ids|
      invariant total == Total(UnitLines(lines, ids[..k])) && count == |UnitLines(lines, ids[..k])|
      invariant trust == UnitTrust(resumes, ids[..k]) && currency == CurrencyAfter(start, UnitLines(lines, ids[..k]))
    {
      ghost var before := UnitLines(lines, ids[..k]);
      assert ids[..k + 1][..k] == ids[..k];
      var own := if ids[k] in billing then billing[ids[k]] else [];
      assert own == GroupedLines(lines, ids[k]);
      TotalConcat(before, own);
      CurrencyConcat(start, before, own);
      var n;
      total, n, currency := SumLines(own, total, currency);
      count := count + n;
      trust := trust + if ids[k] in trusts then trusts[ids[k]] else 0;
    }
    assert ids[..|ids|] == ids;
  }

  method RollUnits(order: seq<string>, buckets: map<string, seq<Instance>>, billing: map<string, seq<Line>>,
                   trusts: map<string, int>, ghost instances: seq<Instance>, ghost lines: seq<Line>,
                   ghost resumes: seq<ResumeRow>)
    returns (r: Rollup)
    requires forall c :: c in order ==> c in buckets && IdsOf(buckets[c]) == Members(instances, c)
    requires BillingGrouped(billing, lines)
    requires forall id :: (if id in trusts then trusts[id] else 0) == GroupedTrust(resumes, id)
    ensures r == RollUp(order, instances, lines, resumes)
  {
    var units, grand, grandCount, currency := [], 0.0, 0, INR;
    for k := 0 to |order|
      invariant Rollup(units, grand, grandCount, currency) == RollUp(order[..k], instances, lines, resumes)
    {
      assert order[..k + 1][..k] == order[..k];
      var ids := IdsOf(buckets[order[k]]);
      var total, count, trust;
      total, count, trust, currency := SumUnit(ids, billing, trusts, currency, lines, resumes);
      units := units + [BusinessUnit(order[k], ids, total, count, trust, currency)];
      grand, grandCount := grand + total, grandCount + count;
    }
    assert order[..|order|] == order;
    r := Rollup(units, grand, grandCount, currency);
  }

  method EconomyUnits(instances: seq<Instance>, lines: seq<Line>, resumes: seq<ResumeRow>) returns (r: Rollup)
    ensures r == RollUp(Customers(instances), instances, lines, resumes)
  {
    var billing := GroupBilling(lines);
    var trusts := GroupTrust(resumes);
    var buckets, order := BucketInstances(instances);
    r := RollUnits(order, buckets, billing, trusts, instances, lines, resumes);
  }

  // ---- The members of all units --------------------------------------------------------------

  function AllMembers(instances: seq<Instance>, customers: seq<string>): seq<string> {
    if customers == [] then []
    else AllMembers(instances, customers[..|customers| - 1]) + Members(instances, customers[|customers| - 1])
  }

  lemma UnitLinesSnoc(lines: seq<Line>, ids: seq<string>, id: string)
    ensures UnitLines(lines, ids + [id]) == UnitLines(lines, ids) + GroupedLines(lines, id)
  {
    assert (ids + [id])[..|ids + [id]| - 1] == ids;
  }

  lemma {:induction false} UnitLinesConcat(lines: seq<Line>, a: seq<string>, b: seq<string>)
    ensures UnitLines(lines, a + b) == UnitLines(lines, a) + UnitLines(lines, b)
  {
    if b == [] {
      assert a + b == a;
    } else {
      var front, last := b[..|b| - 1], b[|b| - 1];
      assert b == front + [last] && a + b == (a + front) + [last];
      UnitLinesConcat(lines, a, front);
      UnitLinesSnoc(lines, a + front, last);
      UnitLinesSnoc(lines, front, last);
    }
  }

  lemma OneMember(lines: seq<Line>, id: string)
    requires id != ""
    ensures UnitLines(lines, [id]) == LinesOf(lines, id)
  {
    assert [id][..0] == [];
  }

  // ---- Currencies ----------------------------------------------------------------------------

  /** The non-empty currencies of the lines, in order. */
  function Named(lines: seq<Line>): seq<string> {
    if lines == [] then [] else
      var l := lines[|lines| - 1];
      Named(lines[..|lines| - 1]) + if TextOr(l.currency) != "" then [l.currency.value] else []
  }

  /** The last named currency is kept, and without one the currency carried in. */
  lemma {:induction false} CurrencyIsLast(currency: string, lines: seq<Line>)
    ensures CurrencyAfter(currency, lines) == if Named(lines) == [] then currency else Named(lines)[|Named(lines)| - 1]
  {
    if lines == [] {
    } else {
      CurrencyIsLast(currency, lines[..|lines| - 1]);
    }
  }

  /** The first named currency, or without one the default: what the source's comment promises. */
  function FirstCurrency(lines: seq<Line>): string { if Named(lines) == [] then INR else Named(lines)[0] }

  /** That is shown if and only if the first and the last line naming a currency name the same. */
  lemma FirstCurrencyShownIff(lines: seq<Line>)
    ensures CurrencyAfter(INR, lines) == FirstCurrency(lines) <==>
            Named(lines) == [] || Named(lines)[0] == Named(lines)[|Named(lines)| - 1]
  {
    CurrencyIsLast(INR, lines);
  }

  function CurrencyLine(currency: string): Line { Line(Some("a"), Some(1.0), Some(currency), "r", "t") }

  /** Of dollars and then euros, the euros are shown. */
  lemma SecondCurrencyShown()
    ensures var lines := [CurrencyLine("USD"), CurrencyLine("EUR")];
            FirstCurrency(lines) == "USD" && EconomyOf(lines, [], "a").InstanceEconomy?
            && EconomyOf(lines, [], "a").currency == "EUR"
  {
    var c, d := CurrencyLine("USD"), CurrencyLine("EUR");
    FilterPair(ForInstance("a"), c, d);
    assert [c, d][..1] == [c] && [c][..0] == [];
    assert Named([c]) == ["USD"] && Named([c, d]) == Named([c]) + ["EUR"];
  }

  /** The last currency the unit's lines name, else the last the earlier ones name, else the default. */
  function LastNamed(earlier: seq<Line>, own: seq<Line>): string {
    if Named(own) != [] then Named(own)[|Named(own)| - 1]
    else if Named(earlier) != [] then Named(earlier)[|Named(earlier)| - 1]
    else "INR"
  }

  lemma UnitAt(customers: seq<string>, instances: seq<Instance>, lines: seq<Line>, resumes: seq<ResumeRow>)
    requires customers != []
    ensures var front, c := customers[..|customers| - 1], customers[|customers| - 1];
            var r, before := RollUp(customers, instances, lines, resumes), RollUp(front, instances, lines, resumes);
            var ids := Members(instances, c);
            var own := UnitLines(lines, ids);
            && |before.units| + 1 == |r.units| && before.units == r.units[..|before.units|]
            && r.units[|before.units|] == BusinessUnit(c, ids, Total(own), |own|, UnitTrust(resumes, ids),
                                                       CurrencyAfter(before.currency, own))
            && r.billingTotal == before.billingTotal + Total(own) && r.settledCount == before.settledCount + |own|
  {
  }

  lemma {:induction false} CarriedCurrency(customers: seq<string>, instances: seq<Instance>, lines: seq<Line>,
                                           resumes: seq<ResumeRow>)
    ensures var r := RollUp(customers, instances, lines, resumes);
            && |r.units| == |customers|
            && r.currency == CurrencyAfter(INR, UnitLines(lines, AllMembers(instances, customers)))
  {
    if customers == [] {
    } else {
      var front, c := customers[..|customers| - 1], customers[|customers| - 1];
      CarriedCurrency(front, instances, lines, resumes);
      UnitLinesConcat(lines, AllMembers(instances, front), Members(instances, c));
      CurrencyConcat(INR, UnitLines(lines, AllMembers(instances, front)), UnitLines(lines, Members(instances, c)));
    }
  }

  lemma {:induction false} UnitsPrefix(customers: seq<string>, instances: seq<Instance>, lines: seq<Line>,
                                       resumes: seq<ResumeRow>, k: nat)
    requires k <= |customers|
    ensures |RollUp(customers, instances, lines, resumes).units| == |customers|
    ensures RollUp(customers, instances, lines, resumes).units[..k] ==
            RollUp(customers[..k], instances, lines, resumes).units
  {
    CarriedCurrency(customers, instances, lines, resumes);
    if k == |customers| {
      assert customers[..k] == customers;
    } else {
      var front := customers[..|customers| - 1];
      UnitAt(customers, instances, lines, resumes);
      UnitsPrefix(front, instances, lines, resumes, k);
      assert front[..k] == customers[..k];
    }
  }

  /** The k-th unit depends on its own members and the currency carried to it. */
  lemma UnitsAt(customers: seq<string>, instances: seq<Instance>, lines: seq<Line>, resumes: seq<ResumeRow>, k: nat)
    requires k < |customers|
    ensures var units, ids := RollUp(customers, instances, lines, resumes).units, Members(instances, customers[k]);
            var own := UnitLines(lines, ids);
            var carried := CurrencyAfter(INR, UnitLines(lines, AllMembers(instances, customers[..k])));
            && |units| == |customers|
            && units[k] == BusinessUnit(customers[k], ids, Total(own), |own|, UnitTrust(resumes, ids),
                                        CurrencyAfter(carried, own))
  {
    var upTo := customers[..k + 1];
    assert upTo[..k] == customers[..k] && upTo[k] == customers[k];
    UnitsPrefix(customers, instances, lines, resumes, k + 1);
    UnitsPrefix(customers, instances, lines, resumes, k);
    UnitAt(upTo, instances, lines, resumes);
    CarriedCurrency(customers[..k], instances, lines, resumes);
  }

  /** A unit shows the currency it would show alone if and only if one of its own lines names one, or
      the currency carried over from the units before it is the default anyway. */
  lemma UnitCurrencyIsOwnIff(customers: seq<string>, k: nat, instances: seq<Instance>, lines: seq<Line>,
                             resumes: seq<ResumeRow>)
    requires k < |customers|
    ensures var r := RollUp(customers, instances, lines, resumes);
            var own := UnitLines(lines, Members(instances, customers[k]));
            var carried := CurrencyAfter(INR, UnitLines(lines, AllMembers(instances, customers[..k])));
            && |r.units| == |customers|
            && (r.units[k].currency == CurrencyAfter(INR, own) <==> Named(own) != [] || carried == INR)
  {
    var own := UnitLines(lines, Members(instances, customers[k]));
    UnitsAt(customers, instances, lines, resumes, k);
    CurrencyIsLast(INR, own);
    CurrencyIsLast(CurrencyAfter(INR, UnitLines(lines, AllMembers(instances, customers[..k]))), own);
  }

  function TwoInstances(): seq<Instance> { [Instance(Some("a"), Some("x")), Instance(Some("b"), Some("y"))] }

  lemma TwoUnits()
    ensures Members(TwoInstances(), "x") == ["a"] && Members(TwoInstances(), "y") == ["b"]
  {
    FilterPair(InUnit("x"), TwoInstances()[0], TwoInstances()[1]);
    FilterPair(InUnit("y"), TwoInstances()[0], TwoInstances()[1]);
  }

  lemma OneLine(l: Line, id: string)
    requires id != ""
    ensures UnitLines([l], [id]) == if l.inst == Some(id) then [l] else []
  {
    FilterAtMostOne(ForInstance(id), [l]);
    OneMember([l], id);
  }

  lemma DollarLines()
    ensures UnitLines([CurrencyLine("USD")], ["a"]) == [CurrencyLine("USD")]
    ensures UnitLines([CurrencyLine("USD")], ["b"]) == []
    ensures CurrencyAfter(INR, [CurrencyLine("USD")]) == "USD"
  {
    OneLine(CurrencyLine("USD"), "a");
    OneLine(CurrencyLine("USD"), "b");
  }

  lemma FirstRollup()
    ensures var r := RollUp(["x"], TwoInstances(), [CurrencyLine("USD")], []); |r.units| == 1 && r.currency == "USD"
  {
    TwoUnits();
    DollarLines();
    assert ["x"][..0] == [];
  }

  /** A unit without billing that shows its predecessor's currency. */
  lemma ForeignCurrency()
    ensures var r := RollUp(["x", "y"], TwoInstances(), [CurrencyLine("USD")], []);
            |r.units| == 2 && r.units[1].settledCount == 0 && r.units[1].currency == "USD"
  {
    TwoUnits();
    DollarLines();
    CarriedCurrency(["x", "y"], TwoInstances(), [CurrencyLine("USD")], []);
    FirstRollup();
    assert ["x", "y"][..1] == ["x"];
  }

  // ---- What the rows of the views show -------------------------------------------------------

  function Repeated(amount: real, times: nat): real { if times == 0 then 0.0 else Repeated(amount, times - 1) + amount }

  lemma RepeatedOnce(amount: real)
    ensures Repeated(amount, 1) == amount && Repeated(amount, 0) == 0.0
    ensures forall m: nat :: Repeated(amount, m + 1) == Repeated(amount, m) + amount
  {
    assert Repeated(amount, 0) == 0.0;
  }

  /** The reference for every total: each line's amount, or 0, as often as the view counts the line. */
  function Weighted(lines: seq<Line>, times: Line -> nat): real {
    if lines == [] then 0.0
    else Repeated(if lines[0].amount.Some? then lines[0].amount.value else 0.0, times(lines[0]))
         + Weighted(lines[1..], times)
  }

  function Counted(lines: seq<Line>, times: Line -> nat): nat {
    if lines == [] then 0 else times(lines[0]) + Counted(lines[1..], times)
  }

  function Always(): Line -> nat { (l: Line) => 1 }
  function OfId(id: string): Line -> nat { (l: Line) => if l.inst == Some(id) then 1 else 0 }

  /** As often as the line's instance is among the ids; a line without an instance never. */
  function OfIds(ids: seq<string>): Line -> nat {
    (l: Line) => if l.inst.Some? && l.inst.value != "" then multiset(ids)[l.inst.value] else 0
  }

  lemma {:induction false} AllLines(lines: seq<Line>)
    ensures Total(lines) == Weighted(lines, Always()) && |lines| == Counted(lines, Always())
  {
    if lines == [] {
    } else {
      AllLines(lines[1..]);
      RepeatedOnce(Amount(lines[0]));
    }
  }

  lemma {:induction false} LinesOfOne(lines: seq<Line>, id: string)
    ensures Total(LinesOf(lines, id)) == Weighted(lines, OfId(id)) && |LinesOf(lines, id)| == Counted(lines, OfId(id))
  {
    if lines == [] {
    } else {
      LinesOfOne(lines[1..], id);
      RepeatedOnce(Amount(lines[0]));
      var rest := LinesOf(lines[1..], id);
      assert ([lines[0]] + rest)[1..] == rest;
    }
  }

  lemma OfIdsSnoc(ids: seq<string>, id: string, l: Line)
    ensures OfIds(ids + [id])(l) == OfIds(ids)(l) + if id != "" then OfId(id)(l) else 0
  {
    assert multiset(ids + [id]) == multiset(ids) + multiset{id};
  }

  lemma {:induction false} OneMoreId(lines: seq<Line>, ids: seq<string>, id: string)
    ensures Weighted(lines, OfIds(ids + [id])) ==
            Weighted(lines, OfIds(ids)) + if id != "" then Weighted(lines, OfId(id)) else 0.0
    ensures Counted(lines, OfIds(ids + [id])) ==
            Counted(lines, OfIds(ids)) + if id != "" then Counted(lines, OfId(id)) else 0
  {
    if lines == [] {
    } else {
      OneMoreId(lines[1..], ids, id);
      OfIdsSnoc(ids, id, lines[0]);
      RepeatedOnce(Amount(lines[0]));
    }
  }

  lemma {:induction false} NoIds(lines: seq<Line>)
    ensures Weighted(lines, OfIds([])) == 0.0 && Counted(lines, OfIds([])) == 0
  {
    if lines == [] {
    } else {
      NoIds(lines[1..]);
    }
  }

  lemma {:induction false} LinesOfMany(lines: seq<Line>, ids: seq<string>)
    ensures Total(UnitLines(lines, ids)) == Weighted(lines, OfIds(ids))
    ensures |UnitLines(lines, ids)| == Counted(lines, OfIds(ids))
  {
    if ids == [] {
      NoIds(lines);
    } else {
      var front, id := ids[..|ids| - 1], ids[|ids| - 1];
      assert ids == front + [id];
      LinesOfMany(lines, front);
      TotalConcat(UnitLines(lines, front), GroupedLines(lines, id));
      OneMoreId(lines, front, id);
      LinesOfOne(lines, id);
    }
  }

  function RowFor(id: string): ResumeRow -> bool { (r: ResumeRow) => r.inst == id }

  /** The trust of an instance: that of its last résumé row, 0 without one. */
  lemma {:induction false} TrustMeaning(resumes: seq<ResumeRow>, id: string)
    ensures forall n :: LastAt(RowFor(id), resumes, n) ==> TrustOf(resumes, id) == resumes[n].trust
    ensures (forall r :: r in resumes ==> r.inst != id) ==> TrustOf(resumes, id) == 0
  {
    if resumes == [] {
    } else {
      var front, last := resumes[..|resumes| - 1], resumes[|resumes| - 1];
      assert resumes == front + [last];
      TrustMeaning(front, id);
      LastAtSnoc(RowFor(id), front, last);
      assert last in resumes;
    }
  }

  /** The reference for a unit's trust: that of each member with an id. */
  function TrustSum(resumes: seq<ResumeRow>, ids: seq<string>): int {
    if ids == [] then 0 else (if ids[0] == "" then 0 else TrustOf(resumes, ids[0])) + TrustSum(resumes, ids[1..])
  }

  lemma {:induction false} TrustSumSnoc(resumes: seq<ResumeRow>, ids: seq<string>, id: string)
    ensures TrustSum(resumes, ids + [id]) == TrustSum(resumes, ids) + if id == "" then 0 else TrustOf(resumes, id)
  {
    if ids == [] {
      assert [id][1..] == [];
    } else {
      assert (ids + [id])[1..] == ids[1..] + [id];
      TrustSumSnoc(resumes, ids[1..], id);
    }
  }

  lemma {:induction false} TrustOfMany(resumes: seq<ResumeRow>, ids: seq<string>)
    ensures UnitTrust(resumes, ids) == TrustSum(resumes, ids)
  {
    if ids == [] {
    } else {
      var front, id := ids[..|ids| - 1], ids[|ids| - 1];
      assert ids == front + [id];
      TrustOfMany(resumes, front);
      TrustSumSnoc(resumes, front, id);
    }
  }

  /** An instance of the customer that has an id. */
  function IdentifiedIn(c: string): Instance -> bool { (i: Instance) => i.customer == Some(c) && i.id.Some? }

  /** A unit's ids are those of its identified instances, in order. */
  lemma {:induction false} MembersInOrder(instances: seq<Instance>, c: string)
    requires c != ""
    ensures var own, ids := Filter(IdentifiedIn(c), instances), Members(instances, c);
            |ids| == |own| && forall n :: 0 <= n < |ids| ==> own[n].id == Some(ids[n])
  {
    if instances == [] {
    } else {
      MembersInOrder(instances[1..], c);
      var first, rest := instances[0], Filter(InUnit(c), instances[1..]);
      assert ([first] + rest)[1..] == rest;
    }
  }

  lemma {:induction false} CustomersMeaning(instances: seq<Instance>)
    ensures Distinct(Customers(instances))
    ensures forall c :: c in Customers(instances) <==> c != "" && exists i :: i in instances && TextOr(i.customer) == c
  {
    if instances == [] {
    } else {
      var front, last := instances[..|instances| - 1], instances[|instances| - 1];
      assert instances == front + [last];
      CustomersMeaning(front);
      assert last in instances;
    }
  }

  /** An instance of customer `c` stands before every one of customer `d`. */
  ghost predicate MetBefore(instances: seq<Instance>, c: string, d: string) {
    exists p :: 0 <= p < |instances| && TextOr(instances[p].customer) == c
                && forall q :: 0 <= q <= p ==> TextOr(instances[q].customer) != d
  }

  lemma MetBeforeGrows(front: seq<Instance>, last: Instance, c: string, d: string)
    requires MetBefore(front, c, d)
    ensures MetBefore(front + [last], c, d)
  {
    var p :| 0 <= p < |front| && TextOr(front[p].customer) == c
             && forall q :: 0 <= q <= p ==> TextOr(front[q].customer) != d;
    var s := front + [last];
    assert TextOr(s[p].customer) == c && forall q :: 0 <= q <= p ==> s[q] == front[q];
  }

  lemma NewlyMet(front: seq<Instance>, c: string, d: string)
    requires (exists i :: i in front && TextOr(i.customer) == c) && forall i :: i in front ==> TextOr(i.customer) != d
    ensures MetBefore(front, c, d)
  {
    var i :| i in front && TextOr(i.customer) == c;
    var p :| 0 <= p < |front| && front[p] == i;
    assert forall q :: 0 <= q <= p ==> front[q] in front;
  }

  /** Customers stand in order of first appearance. */
  lemma {:induction false} CustomersInOrder(instances: seq<Instance>, a: nat, b: nat)
    requires a < b < |Customers(instances)|
    ensures MetBefore(instances, Customers(instances)[a], Customers(instances)[b])
  {
    var front, last := instances[..|instances| - 1], instances[|instances| - 1];
    var cs := Customers(front);
    assert instances == front + [last];
    if b < |cs| {
      CustomersInOrder(front, a, b);
    } else {
      CustomersMeaning(front);
      assert cs[a] in cs;
      NewlyMet(front, cs[a], Customers(instances)[b]);
    }
    MetBeforeGrows(front, last, Customers(instances)[a], Customers(instances)[b]);
  }

  /** A unit's row: the k-th customer, the ids of its instances in order, as billing, count and trust the
      lines and résumé rows of exactly these, and the last currency named up to it. */
  lemma UnitRow(instances: seq<Instance>, lines: seq<Line>, resumes: seq<ResumeRow>, k: nat)
    requires k < |Customers(instances)|
    ensures var r, c := RollUp(Customers(instances), instances, lines, resumes), Customers(instances)[k];
            var own := Filter(IdentifiedIn(c), instances);
            && |r.units| == |Customers(instances)|
            && var u := r.units[k];
               && u.customer == c
               && |u.ids| == |own| && (forall n :: 0 <= n < |own| ==> own[n].id == Some(u.ids[n]))
               && u.billingTotal == Weighted(lines, OfIds(u.ids)) && u.settledCount == Counted(lines, OfIds(u.ids))
               && u.trust == TrustSum(resumes, u.ids)
               && u.currency == LastNamed(UnitLines(lines, AllMembers(instances, Customers(instances)[..k])),
                                          UnitLines(lines, u.ids))
  {
    var c := Customers(instances)[k];
    var earlier := UnitLines(lines, AllMembers(instances, Customers(instances)[..k]));
    CurrencyIsLast(INR, earlier);
    CurrencyIsLast(CurrencyAfter(INR, earlier), UnitLines(lines, Members(instances, c)));
    CustomersMeaning(instances);
    assert c in Customers(instances);
    UnitsAt(Customers(instances), instances, lines, resumes, k);
    MembersInOrder(instances, c);
    LinesOfMany(lines, Members(instances, c));
    TrustOfMany(resumes, Members(instances, c));
  }

  function BilledUnits(units: seq<BusinessUnit>): real {
    if units == [] then 0.0 else BilledUnits(units[..|units| - 1]) + units[|units| - 1].billingTotal
  }
  function SettledUnits(units: seq<BusinessUnit>): nat {
    if units == [] then 0 else SettledUnits(units[..|units| - 1]) + units[|units| - 1].settledCount
  }

  /** The grand totals are the units' totals added up. */
  lemma {:induction false} GrandTotalIsUnitTotal(customers: seq<string>, instances: seq<Instance>, lines: seq<Line>,
                                                 resumes: seq<ResumeRow>)
    ensures var r := RollUp(customers, instances, lines, resumes);
            r.billingTotal == BilledUnits(r.units) && r.settledCount == SettledUnits(r.units)
  {
    if customers == [] {
    } else {
      var front := customers[..|customers| - 1];
      GrandTotalIsUnitTotal(front, instances, lines, resumes);
      UnitAt(customers, instances, lines, resumes);
    }
  }

  /** The envelope of an instance: missing exactly without a line of its own; else its total, count and
      trust, and the last currency its lines name, `INR` if they name none. */
  lemma EnvelopeMeaning(lines: seq<Line>, resumes: seq<ResumeRow>, id: string)
    ensures var e := EconomyOf(lines, resumes, id);
            && (e.MissingEconomy? <==> forall l :: l in lines ==> l.inst != Some(id))
            && (e.InstanceEconomy? ==>
                  && e.billingTotal == Weighted(lines, OfId(id)) && e.settledCount == Counted(lines, OfId(id))
                  && e.trust == TrustOf(resumes, id)
                  && var named := Named(LinesOf(lines, id));
                     e.currency == if named == [] then "INR" else named[|named| - 1])
  {
    var own := LinesOf(lines, id);
    LinesOfOne(lines, id);
    CurrencyIsLast(INR, own);
    FilterAllOrNone(ForInstance(id), lines);
    if own != [] {
      assert own[0] in own;
      FilterMember(ForInstance(id), lines, own[0]);
    }
    if l :| l in lines && l.inst == Some(id) { FilterMember(ForInstance(id), lines, l); }
  }

  /** The rows and the overview. */
  lemma RowsMeaning(instances: seq<Instance>, lines: seq<Line>, k: nat)
    requires k < |instances|
    ensures |RowTotals(instances, lines)| == |instances|
    ensures RowTotals(instances, lines)[k] ==
            Weighted(lines, OfId(if instances[k].id.Some? then instances[k].id.value else ""))
    ensures OverviewTotal(lines) == Weighted(lines, Always())
  {
    LinesOfOne(lines, TextOr(instances[k].id));
    AllLines(lines);
  }

  // ---- Agreement -----------------------------------------------------------------------------

  /** A missing envelope counts as nothing. */
  function BilledBy(e: InstanceEconomy): real { if e.MissingEconomy? then 0.0 else e.billingTotal }
  function SettledBy(e: InstanceEconomy): nat { if e.MissingEconomy? then 0 else e.settledCount }
  function TrustedBy(e: InstanceEconomy): int { if e.MissingEconomy? then 0 else e.trust }

  function SumBilled(lines: seq<Line>, resumes: seq<ResumeRow>, ids: seq<string>): real {
    if ids == [] then 0.0
    else SumBilled(lines, resumes, ids[..|ids| - 1]) + BilledBy(EconomyOf(lines, resumes, ids[|ids| - 1]))
  }
  function SumSettled(lines: seq<Line>, resumes: seq<ResumeRow>, ids: seq<string>): nat {
    if ids == [] then 0
    else SumSettled(lines, resumes, ids[..|ids| - 1]) + SettledBy(EconomyOf(lines, resumes, ids[|ids| - 1]))
  }
  function SumTrusted(lines: seq<Line>, resumes: seq<ResumeRow>, ids: seq<string>): int {
    if ids == [] then 0
    else SumTrusted(lines, resumes, ids[..|ids| - 1]) + TrustedBy(EconomyOf(lines, resumes, ids[|ids| - 1]))
  }

  function Unbilled(lines: seq<Line>): string -> bool { (id: string) => LinesOf(lines, id) == [] }

  function Blank(): string -> bool { (id: string) => id == "" }

  /** A unit's figures are its members' envelopes added up, with two exceptions: the dictionaries hold
      nothing under the empty id, whose envelope may; and the trust also counts members that were never
      billed, whose envelope is missing. */
  lemma {:induction false} UnitPlusBlank(lines: seq<Line>, resumes: seq<ResumeRow>, ids: seq<string>)
    ensures Total(UnitLines(lines, ids)) + SumBilled(lines, resumes, Filter(Blank(), ids)) ==
            SumBilled(lines, resumes, ids)
    ensures |UnitLines(lines, ids)| + SumSettled(lines, resumes, Filter(Blank(), ids)) ==
            SumSettled(lines, resumes, ids)
    ensures UnitTrust(resumes, ids) + SumTrusted(lines, resumes, Filter(Blank(), ids)) ==
            SumTrusted(lines, resumes, ids) + UnitTrust(resumes, Filter(Unbilled(lines), ids))
  {
    if ids == [] {
    } else {
      var front, id := ids[..|ids| - 1], ids[|ids| - 1];
      assert ids == front + [id];
      UnitPlusBlank(lines, resumes, front);
      TotalConcat(UnitLines(lines, front), GroupedLines(lines, id));
      FilterSnoc(Unbilled(lines), front, id);
      FilterSnoc(Blank(), front, id);
      var u, b := Filter(Unbilled(lines), front), Filter(Blank(), front);
      assert (u + [id])[..|u + [id]| - 1] == u && (b + [id])[..|b + [id]| - 1] == b;
    }
  }

  /** Billing and count agree with the envelopes exactly when members with an empty id have none of
      either; the trust figures, exactly when what those have is what never-billed members have. */
  lemma UnitEqualsEnvelopes(lines: seq<Line>, resumes: seq<ResumeRow>, ids: seq<string>)
    ensures var blank := Filter(Blank(), ids);
            && (Total(UnitLines(lines, ids)) == SumBilled(lines, resumes, ids) <==>
                  SumBilled(lines, resumes, blank) == 0.0)
            && (|UnitLines(lines, ids)| == SumSettled(lines, resumes, ids) <==>
                  SumSettled(lines, resumes, blank) == 0)
            && (UnitTrust(resumes, ids) == SumTrusted(lines, resumes, ids) <==>
                  UnitTrust(resumes, Filter(Unbilled(lines), ids)) == SumTrusted(lines, resumes, blank))
    ensures "" !in ids ==> Filter(Blank(), ids) == []
  {
    UnitPlusBlank(lines, resumes, ids);
    FilterAllOrNone(Blank(), ids);
  }

  /** The same of the row a unit shows. */
  lemma UnitRowEqualsEnvelopes(instances: seq<Instance>, lines: seq<Line>, resumes: seq<ResumeRow>, k: nat)
    requires k < |Customers(instances)|
    ensures var units := RollUp(Customers(instances), instances, lines, resumes).units;
            && k < |units|
            && var u := units[k];
               var blank := Filter(Blank(), u.ids);
               && (u.billingTotal == SumBilled(lines, resumes, u.ids) <==> SumBilled(lines, resumes, blank) == 0.0)
               && (u.settledCount == SumSettled(lines, resumes, u.ids) <==> SumSettled(lines, resumes, blank) == 0)
               && (u.trust == SumTrusted(lines, resumes, u.ids) <==>
                     TrustSum(resumes, Filter(Unbilled(lines), u.ids)) == SumTrusted(lines, resumes, blank))
  {
    var ids := Members(instances, Customers(instances)[k]);
    UnitsAt(Customers(instances), instances, lines, resumes, k);
    UnitEqualsEnvelopes(lines, resumes, ids);
    TrustOfMany(resumes, Filter(Unbilled(lines), ids));
  }

  /** The trust figures can really differ: a run settled without billing. */
  lemma UnbilledTrustCounts()
    ensures UnitTrust([ResumeRow("i", 1)], ["i"]) == 1 && SumTrusted([], [ResumeRow("i", 1)], ["i"]) == 0
  {
    assert ["i"][..0] == [];
  }

  /** A line under the empty id: in that id's envelope, in no unit. */
  lemma BlankIdUncounted()
    ensures var l := Line(Some(""), Some(1.0), None, "r", "t");
            UnitLines([l], [""]) == [] && SumBilled([l], [], [""]) == 1.0 && SumSettled([l], [], [""]) == 1
  {
    var l := Line(Some(""), Some(1.0), None, "r", "t");
    FilterAtMostOne(ForInstance(""), [l]);
    assert [""][..0] == [] && [l][1..] == [] && Total([l]) == 1.0;
    assert BilledBy(EconomyOf([l], [], "")) == 1.0;
  }

  lemma {:induction false} GrandTotalIsMemberTotal(customers: seq<string>, instances: seq<Instance>, lines: seq<Line>,
                                                   resumes: seq<ResumeRow>)
    ensures var r := RollUp(customers, instances, lines, resumes);
            var own := UnitLines(lines, AllMembers(instances, customers));
            r.billingTotal == Total(own) && r.settledCount == |own|
  {
    if customers == [] {
    } else {
      var front, c := customers[..|customers| - 1], customers[|customers| - 1];
      GrandTotalIsMemberTotal(front, instances, lines, resumes);
      UnitLinesConcat(lines, AllMembers(instances, front), Members(instances, c));
      TotalConcat(UnitLines(lines, AllMembers(instances, front)), UnitLines(lines, Members(instances, c)));
    }
  }

  /** A line of none of the members; a line with an empty instance id is nobody's. */
  function Outside(ids: seq<string>): Line -> bool { (l: Line) => !(TextOr(l.inst) != "" && l.inst.value in ids) }

  lemma {:induction false} OutsideSplits(lines: seq<Line>, ids: seq<string>, id: string)
    requires id !in ids && id != ""
    ensures var rest, rest' := Filter(Outside(ids), lines), Filter(Outside(ids + [id]), lines);
            Total(rest) == Total(rest') + Total(LinesOf(lines, id)) && |rest| == |rest'| + |LinesOf(lines, id)|
  {
    if lines == [] {
    } else {
      OutsideSplits(lines[1..], ids, id);
      var l := lines[0];
      assert ([l] + Filter(Outside(ids), lines[1..]))[1..] == Filter(Outside(ids), lines[1..]);
      assert ([l] + Filter(Outside(ids + [id]), lines[1..]))[1..] == Filter(Outside(ids + [id]), lines[1..]);
      assert ([l] + LinesOf(lines[1..], id))[1..] == LinesOf(lines[1..], id);
      assert l.inst.Some? ==> (l.inst.value in ids + [id] <==> l.inst.value in ids || l.inst.value == id);
    }
  }

  /** Grouping by member loses nothing: all lines are a member's or nobody's. */
  lemma {:induction false} MembersAndRest(lines: seq<Line>, ids: seq<string>)
    requires Distinct(ids)
    ensures Total(UnitLines(lines, ids)) + Total(Filter(Outside(ids), lines)) == Total(lines)
    ensures |UnitLines(lines, ids)| + |Filter(Outside(ids), lines)| == |lines|
  {
    if ids == [] {
      FilterAllOrNone(Outside(ids), lines);
    } else {
      var front, id := ids[..|ids| - 1], ids[|ids| - 1];
      assert ids == front + [id];
      MembersAndRest(lines, front);
      TotalConcat(UnitLines(lines, front), GroupedLines(lines, id));
      if id == "" {
        FilterAgree(Outside(front), Outside(ids), lines);
      } else {
        OutsideSplits(lines, front, id);
      }
    }
  }

  /** Units partition the instances that have an id and a customer. */
  lemma {:induction false} IdsMember(instances: seq<Instance>, id: string)
    ensures id in IdsOf(instances) <==> exists i :: i in instances && i.id == Some(id)
  {
    if instances == [] {
    } else {
      IdsMember(instances[1..], id);
      assert instances == [instances[0]] + instances[1..];
    }
  }

  lemma MembersMember(instances: seq<Instance>, c: string, id: string)
    ensures id in Members(instances, c) <==> exists i :: i in instances && i.id == Some(id) && TextOr(i.customer) == c
  {
    IdsMember(Filter(InUnit(c), instances), id);
    forall i ensures i in Filter(InUnit(c), instances) <==> i in instances && TextOr(i.customer) == c {
      FilterMember(InUnit(c), instances, i);
    }
  }

  ghost predicate DistinctIds(instances: seq<Instance>) {
    forall a, b :: 0 <= a < b < |instances| && instances[a].id.Some? ==> instances[a].id != instances[b].id
  }

  lemma {:induction false} IdsDistinct(instances: seq<Instance>)
    requires DistinctIds(instances)
    ensures Distinct(IdsOf(instances))
  {
    if instances == [] {
    } else {
      assert DistinctIds(instances[1..]);
      IdsDistinct(instances[1..]);
      if instances[0].id.Some? {
        IdsMember(instances[1..], instances[0].id.value);
        forall i | i in instances[1..] ensures i.id != instances[0].id {
          var k :| 0 <= k < |instances[1..]| && instances[1..][k] == i;
          assert instances[k + 1] == i;
        }
      }
    }
  }

  lemma {:induction false} FilterDistinctIds(instances: seq<Instance>, c: string)
    requires DistinctIds(instances)
    ensures DistinctIds(Filter(InUnit(c), instances))
  {
    if instances == [] {
    } else {
      assert DistinctIds(instances[1..]);
      FilterDistinctIds(instances[1..], c);
      var rest := Filter(InUnit(c), instances[1..]);
      forall k | 0 <= k < |rest| && instances[0].id.Some? ensures rest[k].id != instances[0].id {
        FilterMember(InUnit(c), instances[1..], rest[k]);
        var m :| 0 <= m < |instances[1..]| && instances[1..][m] == rest[k];
        assert instances[m + 1] == rest[k];
      }
    }
  }

  lemma SameId(instances: seq<Instance>, a: Instance, b: Instance)
    requires DistinctIds(instances) && a in instances && b in instances && a.id.Some? && a.id == b.id
    ensures a == b
  {
  }

  lemma {:induction false} UnitsPartition(instances: seq<Instance>, customers: seq<string>)
    requires DistinctIds(instances) && Distinct(customers)
    ensures Distinct(AllMembers(instances, customers))
    ensures forall id :: id in AllMembers(instances, customers) <==>
              exists i :: i in instances && i.id == Some(id) && TextOr(i.customer) in customers
  {
    if customers == [] {
    } else {
      var front, c := customers[..|customers| - 1], customers[|customers| - 1];
      assert customers == front + [c];
      UnitsPartition(instances, front);
      var a, b := AllMembers(instances, front), Members(instances, c);
      FilterDistinctIds(instances, c);
      IdsDistinct(Filter(InUnit(c), instances));
      forall id ensures id in b <==> exists i :: i in instances && i.id == Some(id) && TextOr(i.customer) == c {
        MembersMember(instances, c, id);
      }
      forall x, y | 0 <= x < |a| && 0 <= y < |b| ensures a[x] != b[y] {
        assert a[x] in a && b[y] in b;
        var i :| i in instances && i.id == Some(a[x]) && TextOr(i.customer) in front;
        var i' :| i' in instances && i'.id == Some(b[y]) && TextOr(i'.customer) == c;
        if a[x] == b[y] { SameId(instances, i, i'); }
      }
    }
  }

  /** Conservation of money: the overview's total is the units' grand total plus exactly the lines
      of no unit, so the two agree if and only if those lines add up to nothing. */
  lemma OverviewEqualsUnitsPlusRest(instances: seq<Instance>, lines: seq<Line>, resumes: seq<ResumeRow>)
    requires DistinctIds(instances)
    ensures var r := RollUp(Customers(instances), instances, lines, resumes);
            var members := AllMembers(instances, Customers(instances));
            && Distinct(members)
            && (forall id :: id in members <==>
                  exists i :: i in instances && i.id == Some(id) && TextOr(i.customer) != "")
            && OverviewTotal(lines) == r.billingTotal + Total(Filter(Outside(members), lines))
            && |lines| == r.settledCount + |Filter(Outside(members), lines)|
            && (OverviewTotal(lines) == r.billingTotal <==> Total(Filter(Outside(members), lines)) == 0.0)
  {
    var customers := Customers(instances);
    CustomersMeaning(instances);
    UnitsPartition(instances, customers);
    GrandTotalIsMemberTotal(customers, instances, lines, resumes);
    MembersAndRest(lines, AllMembers(instances, customers));
  }

  lemma RowsCons(instances: seq<Instance>, lines: seq<Line>)
    requires instances != [] && instances[0].id.Some?
    ensures SumReal(RowTotals(instances, lines)) ==
            Total(LinesOf(lines, instances[0].id.value)) + SumReal(RowTotals(instances[1..], lines))
    ensures IdsOf(instances) == [instances[0].id.value] + IdsOf(instances[1..])
  {
    assert RowTotals(instances, lines)[1..] == RowTotals(instances[1..], lines);
  }

  lemma OneMore(lines: seq<Line>, id: string, rest: seq<string>)
    requires id != ""
    ensures Total(UnitLines(lines, [id] + rest)) == Total(LinesOf(lines, id)) + Total(UnitLines(lines, rest))
  {
    UnitLinesConcat(lines, [id], rest);
    OneMember(lines, id);
    TotalConcat(LinesOf(lines, id), UnitLines(lines, rest));
  }

  lemma {:induction false} RowsAreUnits(instances: seq<Instance>, lines: seq<Line>)
    requires forall i :: i in instances ==> i.id.Some? && i.id != Some("")
    ensures SumReal(RowTotals(instances, lines)) == Total(UnitLines(lines, IdsOf(instances)))
  {
    if instances == [] {
    } else {
      var first, rest := instances[0], instances[1..];
      assert first in instances && forall i :: i in rest ==> i in instances;
      RowsAreUnits(rest, lines);
      RowsCons(instances, lines);
      OneMore(lines, first.id.value, IdsOf(rest));
    }
  }

  /** The rows' totals are the overview's less the lines of unregistered instances. */
  lemma RowsEqualOverviewLessRest(instances: seq<Instance>, lines: seq<Line>)
    requires DistinctIds(instances) && (forall i :: i in instances ==> i.id.Some? && i.id != Some(""))
    ensures SumReal(RowTotals(instances, lines)) + Total(Filter(Outside(IdsOf(instances)), lines))
            == OverviewTotal(lines)
  {
    IdsDistinct(instances);
    if "" in IdsOf(instances) { IdsMember(instances, ""); }
    MembersAndRest(lines, IdsOf(instances));
    RowsAreUnits(instances, lines);
  }

  /** When every instance has an id and a customer and every line a registered instance, the
      overview, the rows, the units and the instance envelopes show one and the same sum. */
  lemma FourViewsAgree(instances: seq<Instance>, lines: seq<Line>, resumes: seq<ResumeRow>)
    requires DistinctIds(instances)
    requires forall i :: i in instances ==> i.id.Some? && i.id != Some("") && TextOr(i.customer) != ""
    requires forall l :: l in lines ==> exists i :: i in instances && l.inst == i.id
    ensures var r := RollUp(Customers(instances), instances, lines, resumes);
            OverviewTotal(lines) == r.billingTotal == SumReal(RowTotals(instances, lines))
              == SumBilled(lines, resumes, IdsOf(instances))
  {
    var ids, members := IdsOf(instances), AllMembers(instances, Customers(instances));
    OverviewEqualsUnitsPlusRest(instances, lines, resumes);
    RowsEqualOverviewLessRest(instances, lines);
    RowsAreUnits(instances, lines);
    if "" in ids { IdsMember(instances, ""); }
    UnitEqualsEnvelopes(lines, resumes, ids);
    forall l | l in lines ensures !Outside(ids)(l) && !Outside(members)(l) {
      var i :| i in instances && l.inst == i.id;
      IdsMember(instances, i.id.value);
    }
    FilterAllOrNone(Outside(ids), lines);
    FilterAllOrNone(Outside(members), lines);
  }
}
