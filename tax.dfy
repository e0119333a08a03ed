/** The tax calculator (`TaxService` in app/services/tax_service.py). Money is `real`;
    `round(x, 2)` is the parameter `round`, applied only where the source applies it,
    so every property below is about the exact sums before rounding. */
module TaxService {

  import opened SnapshotService

  // ---------------------------------------------------------------- one line

  function LineSubtotal(item: ItemSnapshot): real
  {
    item.rate * item.quantity
  }

  function LineTax(item: ItemSnapshot): real
  {
    LineSubtotal(item) * (item.taxRate / 100.0)
  }

  /** The tax a line contributes to an invoice: lines with a rate that is not positive
      contribute nothing. */
  function ChargedTax(item: ItemSnapshot): real
  {
    if item.taxRate > 0.0 then LineTax(item) else 0.0
  }

  datatype ItemTax = ItemTax(subtotal: real, taxAmount: real, total: real)

  /** `calculate_item_tax`: each figure rounded on its own, after an exact computation
      in which the total is the subtotal plus the tax. */
  function CalculateItemTax(rate: real, quantity: real, taxRate: real, round: real -> real): (r: ItemTax)
    ensures var line := ItemSnapshot("", "", "", "", rate, taxRate, quantity);
            && r.subtotal == round(LineSubtotal(line))
            && r.taxAmount == round(LineTax(line))
            && r.total == round(LineSubtotal(line) + LineTax(line))
  {
    var subtotal := rate * quantity;
    var taxAmount := subtotal * (taxRate / 100.0);
    var line := ItemSnapshot("", "", "", "", rate, taxRate, quantity);
    assert LineSubtotal(line) == subtotal && LineTax(line) == taxAmount;
    ItemTax(round(subtotal), round(taxAmount), round(subtotal + taxAmount))
  }

  datatype GstSplit = GstSplit(cgstRate: real, cgstAmount: real, sgstRate: real, sgstAmount: real)

  /** `split_gst`: central and state GST get the same rate and the same amount. */
  function SplitGst(taxRate: real, taxAmount: real, round: real -> real): (r: GstSplit)
    ensures r.cgstRate == r.sgstRate && r.cgstAmount == r.sgstAmount
    ensures r.cgstRate == round(taxRate / 2.0) && r.cgstAmount == round(taxAmount / 2.0)
  {
    var halfRate := taxRate / 2.0;
    var halfAmount := taxAmount / 2.0;
    GstSplit(round(halfRate), round(halfAmount), round(halfRate), round(halfAmount))
  }

  /** Without rounding, the two halves add back up to the rate and the amount. */
  lemma SplitGstRecombines(taxRate: real, taxAmount: real, round: real -> real)
    requires round(taxRate / 2.0) == taxRate / 2.0 && round(taxAmount / 2.0) == taxAmount / 2.0
    ensures var r := SplitGst(taxRate, taxAmount, round);
            r.cgstRate + r.sgstRate == taxRate && r.cgstAmount + r.sgstAmount == taxAmount
  {
  }

  // ---------------------------------------------------------------- a list of lines

  /** The exact subtotal: the sum of rate x quantity over the lines. */
  function RawSubtotal(items: seq<ItemSnapshot>): real
  {
    if items == [] then 0.0
    else RawSubtotal(items[..|items| - 1]) + LineSubtotal(items[|items| - 1])
  }

  /** The exact tax charged on the invoice: the sum of the lines' charged tax. */
  function RawTotalTax(items: seq<ItemSnapshot>): real
  {
    if items == [] then 0.0
    else RawTotalTax(items[..|items| - 1]) + ChargedTax(items[|items| - 1])
  }

  /** The exact tax at one rate: the sum of the line tax over the lines with that rate. */
  function RateTax(items: seq<ItemSnapshot>, rate: real): real
  {
    if items == [] then 0.0
    else
      var last := items[|items| - 1];
      RateTax(items[..|items| - 1], rate) + (if last.taxRate == rate then LineTax(last) else 0.0)
  }

  /** The distinct positive rates among the lines. */
  function PositiveRates(items: seq<ItemSnapshot>): set<real>
  {
    set i | 0 <= i < |items| && items[i].taxRate > 0.0 :: items[i].taxRate
  }

  /** The exact breakup as the loop of `calculate_invoice_totals` builds it: one line at a
      time, creating the entry for a positive rate at 0 and adding the line's tax. */
  function RawBreakup(items: seq<ItemSnapshot>): map<real, real>
  {
    if items == [] then map[]
    else
      var b := RawBreakup(items[..|items| - 1]);
      var last := items[|items| - 1];
      if last.taxRate > 0.0 then
        b[last.taxRate := (if last.taxRate in b then b[last.taxRate] else 0.0) + LineTax(last)]
      else b
  }

  lemma PositiveRatesOfPrefix(items: seq<ItemSnapshot>)
    requires items != []
    ensures var last := items[|items| - 1];
            PositiveRates(items) == PositiveRates(items[..|items| - 1]) + (if last.taxRate > 0.0 then {last.taxRate} else {})
  {
    var pre := items[..|items| - 1];
    forall r | r in PositiveRates(pre)
      ensures r in PositiveRates(items)
    {
      var i :| 0 <= i < |pre| && pre[i].taxRate > 0.0 && pre[i].taxRate == r;
      assert items[i] == pre[i];
    }
    forall r | r in PositiveRates(items)
      ensures r in PositiveRates(pre) || (items[|items| - 1].taxRate > 0.0 && r == items[|items| - 1].taxRate)
    {
      var i :| 0 <= i < |items| && items[i].taxRate > 0.0 && items[i].taxRate == r;
      if i < |pre| {
        assert pre[i] == items[i];
      }
    }
  }

  /** A positive rate that no line carries has no tax. */
  lemma {:induction false} RateTaxAbsent(items: seq<ItemSnapshot>, rate: real)
    requires rate > 0.0 && rate !in PositiveRates(items)
    ensures RateTax(items, rate) == 0.0
  {
    if items != [] {
      PositiveRatesOfPrefix(items);
      RateTaxAbsent(items[..|items| - 1], rate);
    }
  }

  /** The breakup has exactly one key per distinct positive rate, and each entry is the
      tax of the lines at that rate; so 0 (or a negative rate) is never a key. */
  lemma {:induction false} BreakupIsPerRateTax(items: seq<ItemSnapshot>)
    ensures RawBreakup(items).Keys == PositiveRates(items)
    ensures forall k :: k in RawBreakup(items) ==> RawBreakup(items)[k] == RateTax(items, k)
  {
    if items != [] {
      var pre := items[..|items| - 1];
      var last := items[|items| - 1];
      BreakupIsPerRateTax(pre);
      PositiveRatesOfPrefix(items);
      if last.taxRate > 0.0 && last.taxRate !in RawBreakup(pre) {
        RateTaxAbsent(pre, last.taxRate);
      }
    }
  }

  // ---------------------------------------------------------------- sums over a map

  /** A set of rates is empty or has a member. */
  lemma EmptyOrMember(s: set<real>)
    ensures s == {} || exists x :: x in s
  {
    if !(exists x :: x in s) {
      assert s == {};
    }
  }

  ghost function PickKey(keys: set<real>): (r: real)
    requires keys != {}
    ensures r in keys
  {
    EmptyOrMember(keys);
    var k :| k in keys; k
  }

  /** The sum of the values `m` holds at `keys`. */
  ghost function SumAt(m: map<real, real>, keys: set<real>): real
    requires keys <= m.Keys
    decreases keys
  {
    if keys == {} then 0.0
    else
      var k := PickKey(keys);
      m[k] + SumAt(m, keys - {k})
  }

  /** `sum(m.values())`. */
  ghost function SumValues(m: map<real, real>): real
  {
    SumAt(m, m.Keys)
  }

  /** The sum does not depend on which key is taken out first. */
  lemma {:induction false} SumAtRemove(m: map<real, real>, keys: set<real>, j: real)
    requires keys <= m.Keys && j in keys
    ensures SumAt(m, keys) == m[j] + SumAt(m, keys - {j})
    decreases keys
  {
    var k := PickKey(keys);
    if k != j {
      SumAtRemove(m, keys - {k}, j);
      SumAtRemove(m, keys - {j}, k);
      assert (keys - {k}) - {j} == (keys - {j}) - {k};
    }
  }

  /** Two maps that agree on `keys` have the same sum there. */
  lemma {:induction false} SumAtAgree(m1: map<real, real>, m2: map<real, real>, keys: set<real>)
    requires keys <= m1.Keys && keys <= m2.Keys
    requires forall k :: k in keys ==> m1[k] == m2[k]
    ensures SumAt(m1, keys) == SumAt(m2, keys)
    decreases keys
  {
    if keys != {} {
      var k := PickKey(keys);
      SumAtAgree(m1, m2, keys - {k});
    }
  }

  lemma SumValuesUpdate(m: map<real, real>, k: real, v: real)
    ensures SumValues(m[k := v]) == SumValues(m) - (if k in m then m[k] else 0.0) + v
  {
    var m' := m[k := v];
    SumAtRemove(m', m'.Keys, k);
    SumAtAgree(m', m, m.Keys - {k});
    assert m'.Keys - {k} == m.Keys - {k};
    if k in m {
      SumAtRemove(m, m.Keys, k);
    } else {
      assert m.Keys - {k} == m.Keys;
    }
  }

  /** The breakup's values add up to the invoice's tax. */
  lemma {:induction false} BreakupSumsToTotalTax(items: seq<ItemSnapshot>)
    ensures SumValues(RawBreakup(items)) == RawTotalTax(items)
  {
    if items != [] {
      var pre := items[..|items| - 1];
      var last := items[|items| - 1];
      BreakupSumsToTotalTax(pre);
      if last.taxRate > 0.0 {
        var b := RawBreakup(pre);
        SumValuesUpdate(b, last.taxRate, (if last.taxRate in b then b[last.taxRate] else 0.0) + LineTax(last));
      }
    }
  }

  // ---------------------------------------------------------------- calculate_invoice_totals

  datatype InvoiceTotals = InvoiceTotals(
    subtotal: real,
    taxBreakup: map<real, real>,
    totalTax: real,
    total: real)

  /** What `calculate_invoice_totals` promises about its result: every figure is the
      exact sum, rounded once; the breakup has one entry per distinct positive rate,
      holding the rounded tax of the lines at that rate. */
  ghost predicate TotalsOf(t: InvoiceTotals, items: seq<ItemSnapshot>, round: real -> real)
  {
    && t.subtotal == round(RawSubtotal(items))
    && t.taxBreakup.Keys == PositiveRates(items)
    && (forall k :: k in t.taxBreakup ==> t.taxBreakup[k] == round(RateTax(items, k)))
    && t.totalTax == round(RawTotalTax(items))
    && t.total == round(RawSubtotal(items) + RawTotalTax(items))
  }

  /** `sum(m.values())`. */
  method SumOfValues(m: map<real, real>) returns (total: real)
    ensures total == SumValues(m)
  {
    total := 0.0;
    var rest := m.Keys;
    while rest != {}
      invariant rest <= m.Keys
      invariant total + SumAt(m, rest) == SumValues(m)
      decreases rest
    {
      EmptyOrMember(rest);
      var k :| k in rest;
      SumAtRemove(m, rest, k);
      total := total + m[k];
      rest := rest - {k};
    }
  }

  /** The totals `TotalsOf` describes, written out. */
  function ExpectedTotals(items: seq<ItemSnapshot>, round: real -> real): (t: InvoiceTotals)
    ensures TotalsOf(t, items, round)
  {
    InvoiceTotals(round(RawSubtotal(items)),
                  map k | k in PositiveRates(items) :: round(RateTax(items, k)),
                  round(RawTotalTax(items)),
                  round(RawSubtotal(items) + RawTotalTax(items)))
  }

  /** `TotalsOf` leaves no freedom: the totals of a list of lines are determined. */
  lemma TotalsOfUnique(t: InvoiceTotals, items: seq<ItemSnapshot>, round: real -> real)
    requires TotalsOf(t, items, round)
    ensures t == ExpectedTotals(items, round)
  {
    assert t.taxBreakup == ExpectedTotals(items, round).taxBreakup;
  }

  /** One more line extends the running subtotal and breakup the way the loop does. */
  lemma PrefixStep(items: seq<ItemSnapshot>, i: nat)
    requires i < |items|
    ensures RawSubtotal(items[..i + 1]) == RawSubtotal(items[..i]) + LineSubtotal(items[i])
    ensures var b := RawBreakup(items[..i]);
            var rate := items[i].taxRate;
            RawBreakup(items[..i + 1])
              == if rate > 0.0 then b[rate := (if rate in b then b[rate] else 0.0) + LineTax(items[i])] else b
  {
    assert items[..i + 1][..i] == items[..i];
    assert items[..i + 1][i] == items[i];
  }

  /** The line figures as the loop writes them. */
  lemma LineFigures(item: ItemSnapshot)
    ensures item.rate * item.quantity == LineSubtotal(item)
    ensures item.rate * item.quantity * (item.taxRate / 100.0) == LineTax(item)
  {
  }

  /** The rounded figures of the exact sums meet `TotalsOf`. */
  lemma RoundedTotals(items: seq<ItemSnapshot>, round: real -> real, breakup: map<real, real>, totalTax: real)
    requires breakup == RawBreakup(items) && totalTax == SumValues(breakup)
    ensures TotalsOf(InvoiceTotals(round(RawSubtotal(items)), map k | k in breakup :: round(breakup[k]),
                                   round(totalTax), round(RawSubtotal(items) + totalTax)), items, round)
  {
    BreakupSumsToTotalTax(items);
    BreakupIsPerRateTax(items);
  }

  /** The loop of `calculate_invoice_totals`: the exact subtotal and the exact breakup,
      one line at a time. */
  method AccumulateLines(items: seq<ItemSnapshot>) returns (subtotal: real, breakup: map<real, real>)
    ensures subtotal == RawSubtotal(items) && breakup == RawBreakup(items)
  {
    subtotal := 0.0;
    breakup := map[];
    var i := 0;
    while i < |items|
      invariant 0 <= i <= |items|
      invariant subtotal == RawSubtotal(items[..i])
      invariant breakup == RawBreakup(items[..i])
    {
      PrefixStep(items, i);
      var item := items[i];
      var itemSubtotal := item.rate * item.quantity;
      LineFigures(item);
      subtotal := subtotal + itemSubtotal;
      var taxRate := item.taxRate;
      if taxRate > 0.0 {
        var taxAmount := itemSubtotal * (taxRate / 100.0);
        assert taxAmount == LineTax(item);
        if taxRate !in breakup {
          breakup := breakup[taxRate := 0.0];
        }
        breakup := breakup[taxRate := breakup[taxRate] + taxAmount];
      }
      i := i + 1;
    }
    assert items[..|items|] == items;
  }

  /** `calculate_invoice_totals`: the loop, `sum(tax_breakup.values())`, then rounding. */
  method CalculateInvoiceTotals(items: seq<ItemSnapshot>, round: real -> real) returns (r: InvoiceTotals)
    ensures TotalsOf(r, items, round)
  {
    var subtotal, breakup := AccumulateLines(items);
    var totalTax := SumOfValues(breakup);
    var total := subtotal + totalTax;
    RoundedTotals(items, round, breakup, totalTax);
    r := InvoiceTotals(round(subtotal), map k | k in breakup :: round(breakup[k]), round(totalTax), round(total));
  }

  /** An invoice of one line agrees with `calculate_item_tax` on that line whenever the
      line's rate is not negative (a negative rate is taxed by the item calculator and
      ignored by the invoice calculator). */
  lemma SingleLineAgreesWithItemTax(item: ItemSnapshot, round: real -> real)
    requires item.taxRate >= 0.0
    ensures var t := CalculateItemTax(item.rate, item.quantity, item.taxRate, round);
            && t.subtotal == round(RawSubtotal([item]))
            && t.total == round(RawSubtotal([item]) + RawTotalTax([item]))
            && (item.taxRate > 0.0 ==> t.taxAmount == round(RateTax([item], item.taxRate)))
  {
    assert [item][..0] == [];
    var line := ItemSnapshot("", "", "", "", item.rate, item.taxRate, item.quantity);
    assert LineSubtotal(line) == LineSubtotal(item) && LineTax(line) == LineTax(item);
    if item.taxRate == 0.0 {
      assert LineTax(item) == 0.0;
    }
  }

  /** No lines: nothing to sum and nothing in the breakup. */
  lemma EmptyInvoiceTotals(round: real -> real)
    ensures RawSubtotal([]) == 0.0 && RawTotalTax([]) == 0.0 && RawBreakup([]) == map[]
    ensures PositiveRates([]) == {}
  {
  }

  /** Two lines at 100 x 2 taxed 18% and 50 x 1 untaxed: subtotal 250, breakup {18: 36},
      total 286, before rounding. */
  lemma ExampleInvoice()
    ensures var items := [ItemSnapshot("a", "", "", "", 100.0, 18.0, 2.0),
                          ItemSnapshot("b", "", "", "", 50.0, 0.0, 1.0)];
            && RawSubtotal(items) == 250.0
            && RawBreakup(items) == map[18.0 := 36.0]
            && RawSubtotal(items) + RawTotalTax(items) == 286.0
  {
    var items := [ItemSnapshot("a", "", "", "", 100.0, 18.0, 2.0),
                  ItemSnapshot("b", "", "", "", 50.0, 0.0, 1.0)];
    assert items[..1] == [items[0]];
    assert items[..1][..0] == [];
  }
}
