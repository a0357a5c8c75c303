/** The expense-apportionment ("rateio") engine of src/lib/rateio.ts.

    A total expense, in integer cents, is split across the condominium's
    units under one of three policies: an equal split ("igualitario"), a
    split proportional to each unit's ideal fraction ("fracao_ideal"), or
    the validation of caller-supplied amounts per unit ("valor_fixo").
    The three policies and the dispatcher are total: failures are reported
    in the result's error list with `valido == false`, never by raising. */
module Rateio {
  import opened Common

  // ---------------------------------------------------------------------
  // Data model
  // ---------------------------------------------------------------------

  /** A billable unit (`Unidade`), reduced to the fields the engine reads. */
  datatype Unit = Unit(id: string, bloco: Option<string>, numero: string, fracaoIdeal: Option<real>)

  /** One line of an apportionment (`RateioItem`); `valor` is in cents. */
  datatype RateioItem = RateioItem(
    unidadeId: string,
    unidadeNumero: string,
    unidadeBloco: Option<string>,
    valor: int,
    fracaoIdeal: Option<real>)

  /** One caller-supplied manual amount: an entry of `valores_manuais`,
      in the map's iteration order. */
  datatype Entry = Entry(unitId: string, valor: int)

  /** The kinds of validation failure the engine reports, with the data
      each message of the system quotes. */
  datatype RateioError =
    | NonPositiveTotal
    | NoUnits
      /** the `{bloco}{numero}` labels of every unit without a positive fraction */
    | MissingFractions(labels: seq<string>)
      /** the fraction sum and its distance from 1.0 */
    | FractionSumMismatch(sum: real, distance: real)
    | NoManualValues
      /** the unit's label (or its raw id) and the offending amount */
    | NonPositiveValue(unitLabel: string, valor: int)
    | UnknownUnit(unitId: string)
      /** computed sum, expected total and the absolute difference */
    | ManualSumMismatch(computed: int, expected: int, difference: nat)
    | ManualValuesRequired
    | InvalidModel(modelo: string)

  /** The outcome of every policy (`RateioResult`). */
  datatype RateioResult = RateioResult(
    items: seq<RateioItem>,
    totalCalculado: int,
    diferenca: int,
    valido: bool,
    erros: seq<RateioError>)

  /** What the dispatcher reads of a `RateioInput`. */
  datatype RateioInput = RateioInput(valorTotal: int, modelo: string, valoresManuais: Option<seq<Entry>>)

  const Igualitario: string := "igualitario"
  const FracaoIdeal: string := "fracao_ideal"
  const ValorFixo: string := "valor_fixo"

  /** Fractions must sum to 1 within one millionth. */
  const Tolerance: real := 0.000001

  // ---------------------------------------------------------------------
  // Shared helpers
  // ---------------------------------------------------------------------

  function Amounts(items: seq<RateioItem>): (a: seq<int>)
    ensures |a| == |items|
    ensures forall i :: 0 <= i < |items| ==> a[i] == items[i].valor
  {
    seq(|items|, i requires 0 <= i < |items| => items[i].valor)
  }

  /** The failing result every early return of the engine produces. */
  function Rejected(total: int, erros: seq<RateioError>): RateioResult
  {
    RateioResult([], 0, total, false, erros)
  }

  /** Item `it` copies the identifying fields of unit `u`. */
  predicate CopiesUnit(it: RateioItem, u: Unit)
  {
    it.unidadeId == u.id && it.unidadeNumero == u.numero && it.unidadeBloco == u.bloco
  }

  function ItemFor(u: Unit, valor: int, fracao: Option<real>): (it: RateioItem)
    ensures CopiesUnit(it, u) && it.valor == valor && it.fracaoIdeal == fracao
  {
    RateioItem(u.id, u.numero, u.bloco, valor, fracao)
  }

  /** `bloco || ''`: an absent block reads as the empty string. */
  function BlocoOrEmpty(b: Option<string>): string
  {
    match b
    case None => ""
    case Some(s) => s
  }

  /** `${bloco || ''}${numero}`: how a unit is named in messages. */
  function UnitLabel(u: Unit): string
  {
    BlocoOrEmpty(u.bloco) + u.numero
  }

  /** The two input checks shared by the equal and fraction policies. */
  function InputErrors(total: int, units: seq<Unit>): (es: seq<RateioError>)
    ensures NonPositiveTotal in es <==> total <= 0
    ensures NoUnits in es <==> |units| == 0
    ensures forall e :: e in es ==> e == NonPositiveTotal || e == NoUnits
    ensures es == [] <==> total > 0 && |units| > 0
    ensures |es| <= 2
  {
    (if total <= 0 then [NonPositiveTotal] else []) + (if |units| == 0 then [NoUnits] else [])
  }

  /** The common tail of the equal and fraction policies: total the items,
      and accept when the sum meets the total to within one cent. */
  function Settle(total: int, items: seq<RateioItem>): (r: RateioResult)
    ensures r.items == items && r.erros == []
    ensures r.totalCalculado == Sum(Amounts(items))
    ensures r.diferenca == total - r.totalCalculado
    ensures r.valido <==> r.totalCalculado == total
  {
    var totalFinal := Sum(Amounts(items));
    RateioResult(items, totalFinal, total - totalFinal, Abs(total - totalFinal) < 1, [])
  }

  /** The policy's sum invariant: the items add up to the total, the
      reported total is that sum and nothing is left over. */
  predicate Conserves(r: RateioResult, total: int)
  {
    Sum(Amounts(r.items)) == total && r.totalCalculado == total && r.diferenca == 0
  }

  // ---------------------------------------------------------------------
  // Equal split ("igualitario")
  // ---------------------------------------------------------------------

  /** Every unit gets `share`, except the last which gets `share + residual`. */
  function EqualItems(units: seq<Unit>, share: int, residual: int): (items: seq<RateioItem>)
    requires |units| > 0
    ensures |items| == |units|
    ensures forall i :: 0 <= i < |units| ==> CopiesUnit(items[i], units[i]) && items[i].fracaoIdeal == None
    ensures forall i :: 0 <= i < |units| - 1 ==> items[i].valor == share
    ensures items[|units| - 1].valor == share + residual
  {
    seq(|units|, i requires 0 <= i < |units| =>
      ItemFor(units[i], if i == |units| - 1 then share + residual else share, None))
  }

  lemma {:induction false} EqualItemsSum(units: seq<Unit>, share: int, residual: int)
    requires |units| > 0
    ensures Sum(Amounts(EqualItems(units, share, residual))) == share * |units| + residual
  {
    var n := |units|;
    var a := Amounts(EqualItems(units, share, residual));
    assert a[..n - 1] == seq(n - 1, _ => share);
    SumConstant(n - 1, share);
    assert share * (n - 1) + share == share * n;
  }

  /** `calcularRateioIgualitario`: the per-unit share is the total divided
      by the number of units, rounded down to the cent; the last unit in
      input order absorbs the residual. */
  function EqualSplit(total: int, units: seq<Unit>): (r: RateioResult)
    ensures r.valido <==> r.erros == []
    ensures r.valido <==> total > 0 && |units| > 0
    ensures !r.valido ==> r == Rejected(total, InputErrors(total, units))
    ensures r.valido ==> Conserves(r, total)
    ensures r.valido ==> |r.items| == |units|
    ensures r.valido ==> forall i :: 0 <= i < |units| ==>
      CopiesUnit(r.items[i], units[i]) && r.items[i].fracaoIdeal == None
    ensures r.valido ==>
      var share := r.items[0].valor;
      // the share is the largest whole-cent amount every unit can be given
      && share * |units| <= total < (share + 1) * |units|
      && (forall i :: 0 <= i < |units| - 1 ==> r.items[i].valor == share)
      && share <= r.items[|units| - 1].valor < share + |units|
  {
    var errs := InputErrors(total, units);
    if errs != [] then Rejected(total, errs)
    else
      var n := |units|;
      var share := total / n;
      var residual := total - share * n;
      EqualItemsSum(units, share, residual);
      Settle(total, EqualItems(units, share, residual))
  }

  // ---------------------------------------------------------------------
  // Ideal-fraction split ("fracao_ideal")
  // ---------------------------------------------------------------------

  /** `u.fracao_ideal || 0`. */
  function FractionOf(u: Unit): real
  {
    match u.fracaoIdeal
    case None => 0.0
    case Some(f) => f
  }

  /** `!u.fracao_ideal || u.fracao_ideal <= 0`: the unit has no usable fraction. */
  predicate LacksFraction(u: Unit)
  {
    u.fracaoIdeal.None? || u.fracaoIdeal.value <= 0.0
  }

  /** Every unit has a positive fraction. */
  predicate AllHaveFractions(units: seq<Unit>)
  {
    forall i :: 0 <= i < |units| ==> !LacksFraction(units[i])
  }

  /** Sum of the units' fractions, absent ones counting as 0. */
  function FractionSum(units: seq<Unit>): real
  {
    if |units| == 0 then 0.0 else FractionSum(units[..|units| - 1]) + FractionOf(units[|units| - 1])
  }

  /** Labels of the units without a positive fraction, in input order. */
  function MissingFractionLabels(units: seq<Unit>): (labels: seq<string>)
    ensures |labels| == Count(units, LacksFraction)
    ensures labels == [] <==> AllHaveFractions(units)
  {
    if |units| == 0 then []
    else
      var rest := MissingFractionLabels(units[1..]);
      assert forall i :: 1 <= i < |units| ==> units[i] == units[1..][i - 1];
      (if LacksFraction(units[0]) then [UnitLabel(units[0])] else []) + rest
  }

  /** The labels of a concatenation are the labels of each part, in order.
      With MissingFractionLabelsOne this fixes the list unit by unit: input
      order, and one label for each unit that lacks a fraction. */
  lemma {:induction false} MissingFractionLabelsAppend(a: seq<Unit>, b: seq<Unit>)
    ensures MissingFractionLabels(a + b) == MissingFractionLabels(a) + MissingFractionLabels(b)
  {
    if |a| == 0 {
      assert a + b == b;
    } else {
      var head := if LacksFraction(a[0]) then [UnitLabel(a[0])] else [];
      assert (a + b)[0] == a[0] && (a + b)[1..] == a[1..] + b;
      MissingFractionLabelsAppend(a[1..], b);
      calc {
        MissingFractionLabels(a + b);
        head + MissingFractionLabels(a[1..] + b);
        head + (MissingFractionLabels(a[1..]) + MissingFractionLabels(b));
        (head + MissingFractionLabels(a[1..])) + MissingFractionLabels(b);
        MissingFractionLabels(a) + MissingFractionLabels(b);
      }
    }
  }

  /** A single unit contributes its label exactly when it lacks a fraction. */
  lemma MissingFractionLabelsOne(u: Unit)
    ensures MissingFractionLabels([u]) == (if LacksFraction(u) then [UnitLabel(u)] else [])
  {
    assert [u][1..] == [];
  }

  /** Every unit without a positive fraction is named among the labels. */
  lemma {:induction false} MissingFractionLabelsCover(units: seq<Unit>, i: nat)
    requires i < |units| && LacksFraction(units[i])
    ensures UnitLabel(units[i]) in MissingFractionLabels(units)
  {
    if i > 0 {
      assert units[i] == units[1..][i - 1];
      MissingFractionLabelsCover(units[1..], i - 1);
    }
  }

  /** Every label reported is the label of a unit without a positive fraction. */
  lemma {:induction false} MissingFractionLabelsSound(units: seq<Unit>, k: nat)
    requires k < |MissingFractionLabels(units)|
    ensures exists i :: 0 <= i < |units| && LacksFraction(units[i]) && UnitLabel(units[i]) == MissingFractionLabels(units)[k]
  {
    var head := if LacksFraction(units[0]) then [UnitLabel(units[0])] else [];
    var rest := MissingFractionLabels(units[1..]);
    assert MissingFractionLabels(units) == head + rest;
    if k < |head| {
      assert MissingFractionLabels(units)[k] == UnitLabel(units[0]);
    } else {
      assert MissingFractionLabels(units)[k] == rest[k - |head|];
      MissingFractionLabelsSound(units[1..], k - |head|);
      var i :| 0 <= i < |units[1..]| && LacksFraction(units[1..][i]) && UnitLabel(units[1..][i]) == rest[k - |head|];
      assert units[i + 1] == units[1..][i];
    }
  }

  /** The aggregated error naming every unit without a positive fraction. */
  function MissingFractionsCheck(units: seq<Unit>): (es: seq<RateioError>)
    ensures es == [] <==> AllHaveFractions(units)
    ensures es != [] ==> es == [MissingFractions(MissingFractionLabels(units))]
  {
    var missing := MissingFractionLabels(units);
    if missing != [] then [MissingFractions(missing)] else []
  }

  /** The error for fractions that do not sum to 1 within the tolerance. */
  function FractionSumCheck(units: seq<Unit>): (es: seq<RateioError>)
    ensures es == [] <==> RealAbs(FractionSum(units) - 1.0) <= Tolerance
    ensures es != [] ==> es == [FractionSumMismatch(FractionSum(units), RealAbs(FractionSum(units) - 1.0))]
  {
    var sum := FractionSum(units);
    if RealAbs(sum - 1.0) > Tolerance then [FractionSumMismatch(sum, RealAbs(sum - 1.0))] else []
  }

  /** Every check of the fraction policy, each adding its own error. */
  function FractionErrors(total: int, units: seq<Unit>): (es: seq<RateioError>)
    ensures es == InputErrors(total, units) + MissingFractionsCheck(units) + FractionSumCheck(units)
    ensures es == [] <==>
      && total > 0 && |units| > 0
      && AllHaveFractions(units)
      && RealAbs(FractionSum(units) - 1.0) <= Tolerance
  {
    InputErrors(total, units) + MissingFractionsCheck(units) + FractionSumCheck(units)
  }

  /** `Math.floor(valorTotal * fracao * 100) / 100`, on cents: the unit's
      fraction of the total, rounded down to the cent. */
  function FlooredShare(total: int, u: Unit): int
  {
    Scaled(total, FractionOf(u)).Floor
  }

  /** Every unit with its floored share, echoing its fraction. */
  function FlooredItems(total: int, units: seq<Unit>): (items: seq<RateioItem>)
    ensures |items| == |units|
    ensures forall i :: 0 <= i < |units| ==>
      items[i] == ItemFor(units[i], FlooredShare(total, units[i]), units[i].fracaoIdeal)
  {
    seq(|units|, i requires 0 <= i < |units| =>
      ItemFor(units[i], FlooredShare(total, units[i]), units[i].fracaoIdeal))
  }

  /** What the floored shares leave over; the last unit absorbs it. */
  function FractionResidual(total: int, units: seq<Unit>): int
  {
    total - Sum(Amounts(FlooredItems(total, units)))
  }

  /** Add `d` to the last item, leaving the others untouched. */
  function AbsorbIntoLast(items: seq<RateioItem>, d: int): (out: seq<RateioItem>)
    requires |items| > 0
    ensures |out| == |items|
    ensures forall i :: 0 <= i < |items| - 1 ==> out[i] == items[i]
    ensures out[|items| - 1] == items[|items| - 1].(valor := items[|items| - 1].valor + d)
    ensures Sum(Amounts(out)) == Sum(Amounts(items)) + d
  {
    var k := |items| - 1;
    var out := items[k := items[k].(valor := items[k].valor + d)];
    assert Amounts(out) == Amounts(items)[k := items[k].valor + d];
    SumUpdateLast(Amounts(items), items[k].valor + d);
    out
  }

  /** The items of an accepted fraction split: the floored shares, with
      the residual added to the last item when it is not zero. */
  function FractionItems(total: int, units: seq<Unit>): (items: seq<RateioItem>)
    ensures |items| == |units|
    ensures forall i :: 0 <= i < |units| ==>
      CopiesUnit(items[i], units[i]) && items[i].fracaoIdeal == units[i].fracaoIdeal
    ensures forall i :: 0 <= i < |units| - 1 ==> items[i].valor == FlooredShare(total, units[i])
    ensures |units| > 0 ==>
      items[|units| - 1].valor == FlooredShare(total, units[|units| - 1]) + FractionResidual(total, units)
    ensures |units| > 0 ==> Sum(Amounts(items)) == total
  {
    var floored := FlooredItems(total, units);
    var diff := total - Sum(Amounts(floored));
    if |floored| > 0 && diff != 0 then AbsorbIntoLast(floored, diff) else floored
  }

  /** `calcularRateioFracaoIdeal`: after checking the fractions, each unit
      gets its fraction of the total rounded down to the cent, and the last
      unit absorbs whatever the rounding left over. */
  function IdealFractionSplit(total: int, units: seq<Unit>): (r: RateioResult)
    ensures r.erros == FractionErrors(total, units)
    ensures r.valido <==> r.erros == []
    ensures !r.valido ==> r == Rejected(total, r.erros)
    ensures r.valido ==> r.items == FractionItems(total, units)
    ensures r.valido ==> Conserves(r, total)
  {
    var errs := FractionErrors(total, units);
    if errs != [] then Rejected(total, errs)
    else Settle(total, FractionItems(total, units))
  }

  // ---------------------------------------------------------------------
  // Manual amounts ("valor_fixo")
  // ---------------------------------------------------------------------

  /** The supplied amounts, in entry order. */
  function Values(vs: seq<Entry>): seq<int>
  {
    seq(|vs|, i requires 0 <= i < |vs| => vs[i].valor)
  }

  function UnitIds(units: seq<Unit>): set<string>
  {
    set i | 0 <= i < |units| :: units[i].id
  }

  /** `unidades.find(u => u.id === id)`: the first unit with that id. */
  function FindUnit(units: seq<Unit>, id: string): (found: Option<Unit>)
    ensures found.None? <==> id !in UnitIds(units)
    ensures found.Some? ==>
      exists j :: 0 <= j < |units| && units[j] == found.value && units[j].id == id &&
        forall k :: 0 <= k < j ==> units[k].id != id
  {
    if |units| == 0 then None
    else if units[0].id == id then Some(units[0])
    else
      var rest := FindUnit(units[1..], id);
      assert forall i :: 1 <= i < |units| ==> units[i] == units[1..][i - 1];
      assert UnitIds(units) == {units[0].id} + UnitIds(units[1..]);
      rest
  }

  /** `${unidade?.bloco || ''}${unidade?.numero || unidadeId}`. */
  function EntryLabel(found: Option<Unit>, id: string): (name: string)
    ensures found.None? ==> name == id
    ensures found.Some? && found.value.numero != "" ==> name == UnitLabel(found.value)
    ensures found.Some? && found.value.numero == "" ==> name == BlocoOrEmpty(found.value.bloco) + id
  {
    match found
    case None => id
    case Some(u) => BlocoOrEmpty(u.bloco) + (if u.numero != "" then u.numero else id)
  }

  predicate IsNonPositiveEntry(e: Entry)
  {
    e.valor <= 0
  }

  predicate IsNonPositiveValueError(e: RateioError)
  {
    e.NonPositiveValue?
  }

  predicate IsUnknownUnitError(e: RateioError)
  {
    e.UnknownUnit?
  }

  /** Every supplied amount is positive. */
  predicate AllPositive(vs: seq<Entry>)
  {
    forall i :: 0 <= i < |vs| ==> vs[i].valor > 0
  }

  /** Every supplied id names one of the units. */
  predicate AllKnown(vs: seq<Entry>, units: seq<Unit>)
  {
    forall i :: 0 <= i < |vs| ==> vs[i].unitId in UnitIds(units)
  }

  /** The error for an entry with a non-positive amount, naming the unit
      by its label, or by the raw id when the unit is unknown. */
  function NonPositiveError(e: Entry, units: seq<Unit>): RateioError
  {
    NonPositiveValue(EntryLabel(FindUnit(units, e.unitId), e.unitId), e.valor)
  }

  /** One error per entry whose amount is not positive, in entry order. */
  function NonPositiveErrors(vs: seq<Entry>, units: seq<Unit>): (es: seq<RateioError>)
    ensures forall k :: 0 <= k < |es| ==> es[k].NonPositiveValue?
    ensures es == [] <==> AllPositive(vs)
  {
    if |vs| == 0 then []
    else
      var rest := NonPositiveErrors(vs[1..], units);
      assert forall i :: 1 <= i < |vs| ==> vs[i] == vs[1..][i - 1];
      var e := vs[0];
      (if e.valor <= 0 then [NonPositiveError(e, units)] else [])
      + rest
  }

  /** The errors of a concatenation of entries are the errors of each
      part, in order; with NonPositiveErrorsOne this fixes the list entry by
      entry. */
  lemma {:induction false} NonPositiveErrorsAppend(a: seq<Entry>, b: seq<Entry>, units: seq<Unit>)
    ensures NonPositiveErrors(a + b, units) == NonPositiveErrors(a, units) + NonPositiveErrors(b, units)
  {
    if |a| == 0 {
      assert a + b == b;
    } else {
      assert (a + b)[1..] == a[1..] + b;
      NonPositiveErrorsAppend(a[1..], b, units);
    }
  }

  /** A single entry contributes its error exactly when its amount is not positive. */
  lemma NonPositiveErrorsOne(e: Entry, units: seq<Unit>)
    ensures NonPositiveErrors([e], units) == (if e.valor <= 0 then [NonPositiveError(e, units)] else [])
  {
    assert [e][1..] == [];
  }

  /** Exactly one error per non-positive amount. */
  lemma {:induction false} NonPositiveErrorsCount(vs: seq<Entry>, units: seq<Unit>)
    ensures |NonPositiveErrors(vs, units)| == Count(vs, IsNonPositiveEntry)
  {
    if |vs| > 0 {
      NonPositiveErrorsCount(vs[1..], units);
    }
  }

  /** Every non-positive amount is reported, naming its unit. */
  lemma {:induction false} NonPositiveReported(vs: seq<Entry>, units: seq<Unit>, i: nat)
    requires i < |vs| && vs[i].valor <= 0
    ensures NonPositiveError(vs[i], units) in NonPositiveErrors(vs, units)
  {
    if i > 0 {
      assert vs[i] == vs[1..][i - 1];
      NonPositiveReported(vs[1..], units, i - 1);
    }
  }

  /** Every error reported is the error of some non-positive amount. */
  lemma {:induction false} NonPositiveErrorsSound(vs: seq<Entry>, units: seq<Unit>, k: nat)
    requires k < |NonPositiveErrors(vs, units)|
    ensures exists i :: 0 <= i < |vs| && vs[i].valor <= 0 && NonPositiveErrors(vs, units)[k] == NonPositiveError(vs[i], units)
  {
    var head := if vs[0].valor <= 0 then [NonPositiveError(vs[0], units)] else [];
    var rest := NonPositiveErrors(vs[1..], units);
    assert NonPositiveErrors(vs, units) == head + rest;
    if k < |head| {
      assert NonPositiveErrors(vs, units)[k] == NonPositiveError(vs[0], units);
    } else {
      assert NonPositiveErrors(vs, units)[k] == rest[k - |head|];
      NonPositiveErrorsSound(vs[1..], units, k - |head|);
      var i :| 0 <= i < |vs[1..]| && vs[1..][i].valor <= 0 && rest[k - |head|] == NonPositiveError(vs[1..][i], units);
      assert vs[i + 1] == vs[1..][i];
    }
  }

  /** The entry names a unit that is not in `units`. */
  function IsUnknownEntry(units: seq<Unit>): Entry -> bool
  {
    (e: Entry) => e.unitId !in UnitIds(units)
  }

  /** One error per entry whose id names no unit, in entry order. */
  function UnknownErrors(vs: seq<Entry>, units: seq<Unit>): (es: seq<RateioError>)
    ensures forall k :: 0 <= k < |es| ==> es[k].UnknownUnit? && es[k].unitId !in UnitIds(units)
    ensures es == [] <==> AllKnown(vs, units)
  {
    if |vs| == 0 then []
    else
      var rest := UnknownErrors(vs[1..], units);
      assert forall i :: 1 <= i < |vs| ==> vs[i] == vs[1..][i - 1];
      var id := vs[0].unitId;
      (if id !in UnitIds(units) then [UnknownUnit(id)] else []) + rest
  }

  /** The errors of a concatenation of entries are the errors of each
      part, in order; with UnknownErrorsOne this fixes the list entry by
      entry. */
  lemma {:induction false} UnknownErrorsAppend(a: seq<Entry>, b: seq<Entry>, units: seq<Unit>)
    ensures UnknownErrors(a + b, units) == UnknownErrors(a, units) + UnknownErrors(b, units)
  {
    if |a| == 0 {
      assert a + b == b;
    } else {
      assert (a + b)[1..] == a[1..] + b;
      UnknownErrorsAppend(a[1..], b, units);
    }
  }

  /** A single entry contributes its error exactly when its id names no unit. */
  lemma UnknownErrorsOne(e: Entry, units: seq<Unit>)
    ensures UnknownErrors([e], units) == (if e.unitId !in UnitIds(units) then [UnknownUnit(e.unitId)] else [])
  {
    assert [e][1..] == [];
  }

  /** Exactly one error per id that names no unit. */
  lemma {:induction false} UnknownErrorsCount(vs: seq<Entry>, units: seq<Unit>)
    ensures |UnknownErrors(vs, units)| == Count(vs, IsUnknownEntry(units))
  {
    if |vs| > 0 {
      UnknownErrorsCount(vs[1..], units);
    }
  }

  /** Every id that names no unit is reported. */
  lemma {:induction false} UnknownReported(vs: seq<Entry>, units: seq<Unit>, i: nat)
    requires i < |vs| && vs[i].unitId !in UnitIds(units)
    ensures UnknownUnit(vs[i].unitId) in UnknownErrors(vs, units)
  {
    if i > 0 {
      assert vs[i] == vs[1..][i - 1];
      UnknownReported(vs[1..], units, i - 1);
    }
  }

  /** Every unknown-unit error names the id of some entry. */
  lemma {:induction false} UnknownErrorsSound(vs: seq<Entry>, units: seq<Unit>, k: nat)
    requires k < |UnknownErrors(vs, units)|
    ensures exists i :: 0 <= i < |vs| && UnknownErrors(vs, units)[k] == UnknownUnit(vs[i].unitId)
  {
    var head := if vs[0].unitId !in UnitIds(units) then [UnknownUnit(vs[0].unitId)] else [];
    var rest := UnknownErrors(vs[1..], units);
    assert UnknownErrors(vs, units) == head + rest;
    if k < |head| {
      assert UnknownErrors(vs, units)[k] == UnknownUnit(vs[0].unitId);
    } else {
      assert UnknownErrors(vs, units)[k] == rest[k - |head|];
      UnknownErrorsSound(vs[1..], units, k - |head|);
      var i :| 0 <= i < |vs[1..]| && rest[k - |head|] == UnknownUnit(vs[1..][i].unitId);
      assert vs[i + 1] == vs[1..][i];
    }
  }

  /** The item for one entry: number and block looked up among the units,
      the number falling back to "N/A" when the unit is unknown or unnumbered. */
  function ManualItem(e: Entry, found: Option<Unit>): RateioItem
  {
    match found
    case None => RateioItem(e.unitId, "N/A", None, e.valor, None)
    case Some(u) => RateioItem(e.unitId, if u.numero != "" then u.numero else "N/A", u.bloco, e.valor, None)
  }

  /** A manual item echoes the entry's id and amount, carries no fraction,
      takes the unit's block, and shows the unit's number, or "N/A" when the
      unit is unknown or has an empty number. */
  lemma ManualItemFields(e: Entry, found: Option<Unit>)
    ensures var it := ManualItem(e, found);
      && it.unidadeId == e.unitId && it.valor == e.valor && it.fracaoIdeal.None?
      && (found.None? || found.value.numero == "" ==> it.unidadeNumero == "N/A")
      && (found.Some? && found.value.numero != "" ==> it.unidadeNumero == found.value.numero)
      && it.unidadeBloco == (if found.Some? then found.value.bloco else None)
  {
  }

  function ManualItems(vs: seq<Entry>, units: seq<Unit>): (items: seq<RateioItem>)
    ensures |items| == |vs|
    ensures forall i :: 0 <= i < |vs| ==> items[i] == ManualItem(vs[i], FindUnit(units, vs[i].unitId))
    ensures Amounts(items) == Values(vs)
  {
    seq(|vs|, i requires 0 <= i < |vs| => ManualItem(vs[i], FindUnit(units, vs[i].unitId)))
  }

  /** The sum check of the manual policy: more than one cent apart is an error. */
  function SumMismatchErrors(total: int, computed: int): (es: seq<RateioError>)
    ensures es == [] <==> Abs(total - computed) <= 1
    ensures es != [] ==> es == [ManualSumMismatch(computed, total, Abs(total - computed))]
  {
    if Abs(total - computed) > 1 then [ManualSumMismatch(computed, total, Abs(total - computed))] else []
  }

  /** Every check of the manual policy once amounts are given, each adding
      its own errors: the total, the non-positive amounts, the unknown ids,
      and the sum. */
  function ManualErrors(total: int, vs: seq<Entry>, units: seq<Unit>): (es: seq<RateioError>)
    ensures es == (if total <= 0 then [NonPositiveTotal] else [])
                  + NonPositiveErrors(vs, units) + UnknownErrors(vs, units)
                  + SumMismatchErrors(total, Sum(Values(vs)))
    ensures es == [] <==>
      && total > 0
      && AllPositive(vs)
      && AllKnown(vs, units)
      && Abs(total - Sum(Values(vs))) <= 1
  {
    var a := if total <= 0 then [NonPositiveTotal] else [];
    var b := NonPositiveErrors(vs, units);
    var c := UnknownErrors(vs, units);
    var d := SumMismatchErrors(total, Sum(Values(vs)));
    assert |a + b + c + d| == |a| + |b| + |c| + |d|;
    a + b + c + d
  }

  /** `validarRateioManual`: nothing is computed; the supplied amounts are
      checked (positive, naming known units, adding up to the total within
      one cent) and echoed back as items. */
  function ValidateManual(total: int, vs: seq<Entry>, units: seq<Unit>): (r: RateioResult)
    ensures r.valido <==> r.erros == []
    ensures |vs| == 0 ==> r == Rejected(total, (if total <= 0 then [NonPositiveTotal] else []) + [NoManualValues])
    ensures |vs| > 0 ==> r.erros == ManualErrors(total, vs, units)
    ensures |vs| > 0 ==> r.totalCalculado == Sum(Values(vs)) && r.diferenca == total - r.totalCalculado
    ensures |vs| > 0 ==> r.items == ManualItems(vs, units) && Sum(Amounts(r.items)) == r.totalCalculado
  {
    var totalErrs := if total <= 0 then [NonPositiveTotal] else [];
    if |vs| == 0 then Rejected(total, totalErrs + [NoManualValues])
    else
      var computed := Sum(Values(vs));
      var errs := ManualErrors(total, vs, units);
      RateioResult(ManualItems(vs, units), computed, total - computed, errs == [], errs)
  }

  // ---------------------------------------------------------------------
  // Dispatcher
  // ---------------------------------------------------------------------

  /** `calcularRateio`: select the policy by model name. A fixed-amount
      request without manual amounts, and an unknown model, are reported
      as failing results. */
  function CalculateRateio(input: RateioInput, units: seq<Unit>): (r: RateioResult)
    ensures input.modelo == Igualitario ==> r == EqualSplit(input.valorTotal, units)
    ensures input.modelo == FracaoIdeal ==> r == IdealFractionSplit(input.valorTotal, units)
    ensures input.modelo == ValorFixo && input.valoresManuais.None? ==>
      r == Rejected(input.valorTotal, [ManualValuesRequired])
    ensures input.modelo == ValorFixo && input.valoresManuais.Some? ==>
      r == ValidateManual(input.valorTotal, input.valoresManuais.value, units)
    ensures input.modelo != Igualitario && input.modelo != FracaoIdeal && input.modelo != ValorFixo ==>
      r == Rejected(input.valorTotal, [InvalidModel(input.modelo)])
    ensures r.valido <==> r.erros == []
  {
    if input.modelo == Igualitario then EqualSplit(input.valorTotal, units)
    else if input.modelo == FracaoIdeal then IdealFractionSplit(input.valorTotal, units)
    else if input.modelo == ValorFixo then
      match input.valoresManuais
      case None => Rejected(input.valorTotal, [ManualValuesRequired])
      case Some(vs) => ValidateManual(input.valorTotal, vs, units)
    else Rejected(input.valorTotal, [InvalidModel(input.modelo)])
  }
}
