/** Properties of the apportionment engine that relate several calls or
    characterise a policy independently of how it computes. */
module RateioProperties {
  import opened Common
  import opened Rateio

  // ---------------------------------------------------------------------
  // Equal split
  // ---------------------------------------------------------------------

  function Units3(): (us: seq<Unit>)
    ensures |us| == 3
  {
    [ Unit("u1", Some("A"), "101", None),
      Unit("u2", Some("A"), "102", None),
      Unit("u3", None, "201", None) ]
  }

  /** R$ 100,00 over three units: 33,33 + 33,33 + 33,34. */
  lemma EqualSplitHundredOverThree()
    ensures EqualSplit(10000, Units3()).valido
    ensures Amounts(EqualSplit(10000, Units3()).items) == [3333, 3333, 3334]
  {
    var r := EqualSplit(10000, Units3());
    assert r.items[0].valor * 3 <= 10000 < (r.items[0].valor + 1) * 3;
  }

  /** A unit may be charged nothing: 2 cents over three units leaves the
      first two at zero and the last with both cents. */
  lemma EqualSplitMayChargeZero()
    ensures EqualSplit(2, Units3()).valido
    ensures Amounts(EqualSplit(2, Units3()).items) == [0, 0, 2]
  {
    var r := EqualSplit(2, Units3());
    assert r.items[0].valor * 3 <= 2 < (r.items[0].valor + 1) * 3;
  }

  /** Both input errors are reported together, the total first. */
  lemma EqualSplitReportsBothInputErrors(total: int)
    requires total <= 0
    ensures EqualSplit(total, []) == RateioResult([], 0, total, false, [NonPositiveTotal, NoUnits])
  {
  }

  // ---------------------------------------------------------------------
  // Ideal-fraction split
  // ---------------------------------------------------------------------

  /** The floored shares never exceed the exact proportional amounts, and
      fall short of them by less than one cent per unit. */
  lemma {:induction false} FlooredSharesBounds(total: int, units: seq<Unit>)
    ensures var s := Sum(Amounts(FlooredItems(total, units))) as real;
      s <= Scaled(total, FractionSum(units)) <= s + |units| as real
    ensures var s := Sum(Amounts(FlooredItems(total, units))) as real;
      |units| > 0 ==> Scaled(total, FractionSum(units)) < s + |units| as real
  {
    if |units| > 0 {
      var n := |units|;
      var prefix := units[..n - 1];
      var last := units[n - 1];
      var all := Amounts(FlooredItems(total, units));
      assert all[..n - 1] == Amounts(FlooredItems(total, prefix));
      FlooredSharesBounds(total, prefix);
      var sp := Sum(Amounts(FlooredItems(total, prefix)));
      var fl := FlooredShare(total, last);
      assert Sum(all) == sp + fl;
      var x := Scaled(total, FractionOf(last));
      assert fl as real <= x < fl as real + 1.0;
      assert FractionSum(units) == FractionSum(prefix) + FractionOf(last);
      ScaledAdd(total, FractionSum(prefix), FractionOf(last));
      assert Scaled(total, FractionSum(units)) == Scaled(total, FractionSum(prefix)) + x;
    } else {
      // scaling the empty sum gives zero
      ScaledAdd(total, 0.0, 0.0);
    }
  }

  lemma AcceptedHasUnits(total: int, units: seq<Unit>)
    requires FractionErrors(total, units) == []
    ensures total > 0 && |units| > 0
  {
  }

  lemma AcceptedSumWithinTolerance(total: int, units: seq<Unit>)
    requires FractionErrors(total, units) == []
    ensures -Tolerance <= FractionSum(units) - 1.0 <= Tolerance
  {
  }

  /** For fractions the policy accepts, the residual the last unit absorbs
      is bounded by the tolerance: at least `-total * 1e-6` and below
      `total * 1e-6 + n` cents; when the fractions sum to exactly 1 it lies
      in `[0, n)`. */
  lemma FractionResidualBounds(total: int, units: seq<Unit>)
    requires FractionErrors(total, units) == []
    ensures -Scaled(total, Tolerance) <= FractionResidual(total, units) as real
    ensures FractionResidual(total, units) as real < Scaled(total, Tolerance) + |units| as real
    ensures FractionSum(units) == 1.0 ==> 0 <= FractionResidual(total, units) < |units|
  {
    AcceptedHasUnits(total, units);
    AcceptedSumWithinTolerance(total, units);
    FlooredSharesBounds(total, units);
    var sum := FractionSum(units);
    ScaledAdd(total, sum - 1.0, 1.0);
    ScaledOne(total);
    ScaledWithin(total, sum - 1.0, Tolerance);
    if sum == 1.0 {
      ScaledAdd(total, 0.0, 1.0);
    }
  }

  /** Below R$ 10.000,00 (a million cents) the tolerance is worth less than
      a cent, so the last unit absorbs between 0 and `n` cents. */
  lemma FractionResidualSmallTotal(total: int, units: seq<Unit>)
    requires FractionErrors(total, units) == [] && total < 1000000
    ensures 0 <= FractionResidual(total, units) <= |units|
  {
    FractionResidualBounds(total, units);
    ScaledIsProduct(total, Tolerance);
  }

  /** Items of an accepted fraction split: one per unit, copying the unit
      and echoing its fraction; every unit but the last keeps its floored
      share, and the last gets its floored share plus the residual. */
  lemma FractionSplitItems(total: int, units: seq<Unit>)
    requires FractionErrors(total, units) == []
    ensures var r := IdealFractionSplit(total, units);
      && |r.items| == |units| > 0
      && (forall i :: 0 <= i < |units| ==>
            CopiesUnit(r.items[i], units[i]) && r.items[i].fracaoIdeal == units[i].fracaoIdeal)
      && (forall i :: 0 <= i < |units| - 1 ==> r.items[i].valor == FlooredShare(total, units[i]))
      && r.items[|units| - 1].valor == FlooredShare(total, units[|units| - 1]) + FractionResidual(total, units)
  {
    AcceptedHasUnits(total, units);
  }

  /** The fraction policy's errors: each failed check contributes its own
      error, independently of the others. The two input checks: */
  lemma FractionInputErrorKinds(total: int, units: seq<Unit>)
    ensures NonPositiveTotal in FractionErrors(total, units) <==> total <= 0
    ensures NoUnits in FractionErrors(total, units) <==> |units| == 0
  {
    var a := InputErrors(total, units);
    var b := MissingFractionsCheck(units);
    var c := FractionSumCheck(units);
    assert forall e :: e in b ==> e.MissingFractions?;
    assert forall e :: e in c ==> e.FractionSumMismatch?;
    InThree(NonPositiveTotal, a, b, c);
    InThree(NoUnits, a, b, c);
  }

  /** ... the check that every unit has a positive fraction ... */
  lemma FractionMissingErrorKind(total: int, units: seq<Unit>)
    ensures MissingFractions(MissingFractionLabels(units)) in FractionErrors(total, units) <==>
      exists i :: 0 <= i < |units| && LacksFraction(units[i])
  {
    var a := InputErrors(total, units);
    var b := MissingFractionsCheck(units);
    var c := FractionSumCheck(units);
    var m := MissingFractions(MissingFractionLabels(units));
    assert b == [] || b == [m];
    assert forall e :: e in c ==> e.FractionSumMismatch?;
    InThree(m, a, b, c);
  }

  /** ... and the check that the fractions sum to 1. */
  lemma FractionSumErrorKind(total: int, units: seq<Unit>)
    ensures FractionSumMismatch(FractionSum(units), RealAbs(FractionSum(units) - 1.0)) in FractionErrors(total, units)
      <==> RealAbs(FractionSum(units) - 1.0) > Tolerance
  {
    var a := InputErrors(total, units);
    var b := MissingFractionsCheck(units);
    var c := FractionSumCheck(units);
    var f := FractionSumMismatch(FractionSum(units), RealAbs(FractionSum(units) - 1.0));
    assert forall e :: e in b ==> e.MissingFractions?;
    InThree(f, a, b, c);
    SumMismatchReported(units);
  }

  lemma SumMismatchReported(units: seq<Unit>)
    ensures FractionSumMismatch(FractionSum(units), RealAbs(FractionSum(units) - 1.0)) in FractionSumCheck(units)
      <==> RealAbs(FractionSum(units) - 1.0) > Tolerance
  {
  }

  lemma InThree<T>(x: T, a: seq<T>, b: seq<T>, c: seq<T>)
    ensures x in a + b + c <==> x in a || x in b || x in c
  {
  }

  /** An empty unit list fails the fraction-sum check as well: the sum of
      no fractions is 0. */
  lemma FractionSplitOfNoUnits(total: int)
    requires total > 0
    ensures IdealFractionSplit(total, []) == Rejected(total, [NoUnits, FractionSumMismatch(0.0, 1.0)])
  {
  }

  /** Fractions 0,5 and 0,4 sum to 0,9 and are rejected without items. */
  lemma FractionSplitRejectsNinetyPercent()
    ensures IdealFractionSplit(100000, [Unit("a", None, "1", Some(0.5)), Unit("b", None, "2", Some(0.4))])
      == Rejected(100000, [FractionSumMismatch(0.9, 0.1)])
  {
    var us := [Unit("a", None, "1", Some(0.5)), Unit("b", None, "2", Some(0.4))];
    assert us[..1] == [us[0]];
    assert FractionSum(us) == 0.9;
  }

  /** Three units holding a third each. */
  function Thirds(): (us: seq<Unit>)
    ensures |us| == 3
  {
    [ Unit("a", None, "1", Some(1.0 / 3.0)),
      Unit("b", None, "2", Some(1.0 / 3.0)),
      Unit("c", None, "3", Some(1.0 / 3.0)) ]
  }

  lemma ThirdsAccepted()
    ensures FractionErrors(10000, Thirds()) == []
  {
    var us := Thirds();
    assert us[..1][..0] == [] && us[..2][..1] == us[..1] && us[..3] == us;
    assert FractionSum(us[..1]) == 1.0 / 3.0;
    assert FractionSum(us[..2]) == 2.0 / 3.0;
    assert FractionSum(us) == 1.0;
  }

  lemma ThirdsFloored()
    ensures forall i :: 0 <= i < 3 ==> FlooredShare(10000, Thirds()[i]) == 3333
    ensures FractionResidual(10000, Thirds()) == 1
  {
    ScaledIsProduct(10000, 1.0 / 3.0);
    var floored := Amounts(FlooredItems(10000, Thirds()));
    assert floored == [3333, 3333, 3333];
    assert floored[..1][..0] == [] && floored[..2][..1] == floored[..1];
    assert Sum(floored[..1]) == 3333;
    assert Sum(floored[..2]) == 6666;
    assert Sum(floored) == 9999;
  }

  /** Three thirds of R$ 100,00: each share floors to 33,33 and the last
      unit absorbs the remaining cent. */
  lemma FractionSplitThirds()
    ensures IdealFractionSplit(10000, Thirds()).valido
    ensures Amounts(IdealFractionSplit(10000, Thirds()).items) == [3333, 3333, 3334]
  {
    ThirdsAccepted();
    ThirdsFloored();
    FractionSplitItems(10000, Thirds());
  }

  // ---------------------------------------------------------------------
  // Manual amounts
  // ---------------------------------------------------------------------

  /** A manual apportionment is accepted exactly when the total is
      positive, at least one amount is given, every amount is positive,
      every id names a unit, and the amounts meet the total within a cent. */
  lemma ManualValidIff(total: int, vs: seq<Entry>, units: seq<Unit>)
    ensures ValidateManual(total, vs, units).valido <==>
      && total > 0 && |vs| > 0
      && AllPositive(vs)
      && AllKnown(vs, units)
      && Abs(total - Sum(Values(vs))) <= 1
  {
    ManualValidWhenNoErrors(total, vs, units);
    NoManualErrorsIff(total, vs, units);
  }

  lemma ManualValidWhenNoErrors(total: int, vs: seq<Entry>, units: seq<Unit>)
    ensures ValidateManual(total, vs, units).valido <==> |vs| > 0 && ManualErrors(total, vs, units) == []
  {
  }

  lemma NoManualErrorsIff(total: int, vs: seq<Entry>, units: seq<Unit>)
    ensures ManualErrors(total, vs, units) == [] <==>
      total > 0 && AllPositive(vs) && AllKnown(vs, units) && Abs(total - Sum(Values(vs))) <= 1
  {
  }

  /** Exactly one error per non-positive amount ... */
  lemma ManualOneErrorPerNonPositive(total: int, vs: seq<Entry>, units: seq<Unit>)
    ensures Count(ValidateManual(total, vs, units).erros, IsNonPositiveValueError) == Count(vs, IsNonPositiveEntry)
  {
    var p := IsNonPositiveValueError;
    var es := ValidateManual(total, vs, units).erros;
    var a := if total <= 0 then [NonPositiveTotal] else [];
    if |vs| == 0 {
      assert es == a + [NoManualValues];
      CountAppend(a, [NoManualValues], p);
    } else {
      var b := NonPositiveErrors(vs, units);
      var c := UnknownErrors(vs, units);
      var d := SumMismatchErrors(total, Sum(Values(vs)));
      assert es == a + b + c + d;
      CountAppend4(a, b, c, d, p);
      assert Count(a, p) == 0 && Count(d, p) == 0;
      NonPositiveErrorsCount(vs, units);
      assert Count(b, p) == |b|;
      assert Count(c, p) == 0;
    }
  }

  /** ... and exactly one per unknown unit id. */
  lemma ManualOneErrorPerUnknownId(total: int, vs: seq<Entry>, units: seq<Unit>)
    ensures Count(ValidateManual(total, vs, units).erros, IsUnknownUnitError) == Count(vs, IsUnknownEntry(units))
  {
    var p := IsUnknownUnitError;
    var es := ValidateManual(total, vs, units).erros;
    var a := if total <= 0 then [NonPositiveTotal] else [];
    if |vs| == 0 {
      assert es == a + [NoManualValues];
      CountAppend(a, [NoManualValues], p);
    } else {
      var b := NonPositiveErrors(vs, units);
      var c := UnknownErrors(vs, units);
      var d := SumMismatchErrors(total, Sum(Values(vs)));
      assert es == a + b + c + d;
      CountAppend4(a, b, c, d, p);
      assert Count(a, p) == 0 && Count(d, p) == 0;
      UnknownErrorsCount(vs, units);
      assert Count(b, p) == 0;
      assert Count(c, p) == |c|;
    }
  }

  /** An unknown unit id invalidates the result and is reported, whatever
      the amounts add up to. */
  lemma ManualUnknownUnitInvalidates(total: int, vs: seq<Entry>, units: seq<Unit>, i: nat)
    requires i < |vs| && vs[i].unitId !in UnitIds(units)
    ensures !ValidateManual(total, vs, units).valido
    ensures UnknownUnit(vs[i].unitId) in ValidateManual(total, vs, units).erros
  {
    ManualValidIff(total, vs, units);
    UnknownReported(vs, units, i);
    var r := ValidateManual(total, vs, units);
    var a := if total <= 0 then [NonPositiveTotal] else [];
    assert r.erros == a + NonPositiveErrors(vs, units) + UnknownErrors(vs, units)
                      + SumMismatchErrors(total, Sum(Values(vs)));
  }

  function TwoUnits(): seq<Unit>
  {
    [Unit("u1", Some("A"), "101", None), Unit("u2", Some("A"), "102", None)]
  }

  lemma TwoUnitsLookup()
    ensures UnitIds(TwoUnits()) == {"u1", "u2"}
    ensures FindUnit(TwoUnits(), "u1") == Some(TwoUnits()[0])
    ensures FindUnit(TwoUnits(), "u2") == Some(TwoUnits()[1])
    ensures FindUnit(TwoUnits(), "zz") == None
  {
    var us := TwoUnits();
    assert us[0].id == "u1" && us[1].id == "u2";
    assert us[1..][0] == us[1];
  }

  function TwoShares(): seq<Entry>
  {
    [Entry("u1", 24000), Entry("u2", 24000)]
  }

  lemma TwoSharesChecks()
    ensures Sum(Values(TwoShares())) == 48000
    ensures NonPositiveErrors(TwoShares(), TwoUnits()) == []
    ensures UnknownErrors(TwoShares(), TwoUnits()) == []
    ensures ManualItems(TwoShares(), TwoUnits()) ==
      [RateioItem("u1", "101", Some("A"), 24000, None), RateioItem("u2", "102", Some("A"), 24000, None)]
  {
    var vs := TwoShares();
    TwoUnitsLookup();
    var amounts := Values(vs);
    assert amounts == [24000, 24000];
    assert amounts[..1] == [24000] && amounts[..1][..0] == [];
    assert Sum(amounts[..1]) == 24000;
  }

  /** R$ 480,00 assigned against a R$ 500,00 expense: one error citing the
      R$ 20,00 shortfall. */
  lemma ManualShortfall()
    ensures ValidateManual(50000, TwoShares(), TwoUnits())
      == RateioResult(
           [RateioItem("u1", "101", Some("A"), 24000, None), RateioItem("u2", "102", Some("A"), 24000, None)],
           48000, 2000, false, [ManualSumMismatch(48000, 50000, 2000)])
  {
    TwoSharesChecks();
    assert ManualErrors(50000, TwoShares(), TwoUnits()) == [ManualSumMismatch(48000, 50000, 2000)];
  }

  function HalfAndUnknown(): seq<Entry>
  {
    [Entry("u1", 25000), Entry("zz", 25000)]
  }

  lemma HalfAndUnknownChecks()
    ensures Sum(Values(HalfAndUnknown())) == 50000
    ensures NonPositiveErrors(HalfAndUnknown(), TwoUnits()) == []
    ensures UnknownErrors(HalfAndUnknown(), TwoUnits()) == [UnknownUnit("zz")]
  {
    var vs := HalfAndUnknown();
    TwoUnitsLookup();
    var amounts := Values(vs);
    assert amounts == [25000, 25000];
    assert amounts[..1] == [25000] && amounts[..1][..0] == [];
    assert Sum(amounts[..1]) == 25000;
    assert vs[1..] == [Entry("zz", 25000)] && vs[1..][1..] == [];
  }

  /** An id that names no unit yields one "not found" error and an item
      numbered "N/A", although the amounts match the total. */
  lemma ManualUnknownUnitExample()
    ensures var r := ValidateManual(50000, HalfAndUnknown(), TwoUnits());
      && r.erros == [UnknownUnit("zz")]
      && !r.valido
      && r.items[1] == RateioItem("zz", "N/A", None, 25000, None)
  {
    HalfAndUnknownChecks();
    TwoUnitsLookup();
  }

  // ---------------------------------------------------------------------
  // Dispatcher
  // ---------------------------------------------------------------------

  /** An accepted manual apportionment meets the total within one cent. */
  lemma ManualAcceptedNearTotal(total: int, vs: seq<Entry>, units: seq<Unit>)
    requires ValidateManual(total, vs, units).valido
    ensures Abs(Sum(Amounts(ValidateManual(total, vs, units).items)) - total) <= 1
  {
    ManualValidIff(total, vs, units);
  }

  /** Sum invariant of every accepted apportionment: the items add up to
      the total within one cent, and exactly for the computed policies. */
  lemma RateioSumInvariant(input: RateioInput, units: seq<Unit>)
    requires CalculateRateio(input, units).valido
    ensures Abs(Sum(Amounts(CalculateRateio(input, units).items)) - input.valorTotal) <= 1
    ensures input.modelo != ValorFixo ==> Conserves(CalculateRateio(input, units), input.valorTotal)
  {
    if input.modelo == Igualitario || input.modelo == FracaoIdeal {
      ComputedDispatchConserves(input, units);
    } else {
      AcceptedDispatchIsKnown(input, units);
      ManualDispatchNearTotal(input, units);
    }
  }

  /** An accepted equal or fraction apportionment conserves the total. */
  lemma ComputedDispatchConserves(input: RateioInput, units: seq<Unit>)
    requires CalculateRateio(input, units).valido
    requires input.modelo == Igualitario || input.modelo == FracaoIdeal
    ensures Conserves(CalculateRateio(input, units), input.valorTotal)
  {
  }

  /** Only the three known models with their inputs can be accepted: an
      accepted fixed-amount request carries its amounts. */
  lemma AcceptedDispatchIsKnown(input: RateioInput, units: seq<Unit>)
    requires CalculateRateio(input, units).valido
    ensures input.modelo == Igualitario || input.modelo == FracaoIdeal
      || (input.modelo == ValorFixo && input.valoresManuais.Some?)
  {
  }

  /** An accepted fixed-amount request meets the total within one cent. */
  lemma ManualDispatchNearTotal(input: RateioInput, units: seq<Unit>)
    requires CalculateRateio(input, units).valido
    requires input.modelo == ValorFixo && input.valoresManuais.Some?
    ensures Abs(Sum(Amounts(CalculateRateio(input, units).items)) - input.valorTotal) <= 1
  {
    ManualAcceptedNearTotal(input.valorTotal, input.valoresManuais.value, units);
  }

  /** A fixed-amount request only needs the manual amounts to be present:
      an empty set of amounts reaches the manual policy, which rejects it. */
  lemma DispatcherPassesEmptyManualValues(total: int, units: seq<Unit>)
    requires total > 0
    ensures CalculateRateio(RateioInput(total, ValorFixo, Some([])), units) == Rejected(total, [NoManualValues])
    ensures CalculateRateio(RateioInput(total, ValorFixo, None), units) == Rejected(total, [ManualValuesRequired])
  {
  }

  /** An unrecognised model is reported by name, never raised. */
  lemma DispatcherRejectsUnknownModel(total: int, units: seq<Unit>)
    ensures CalculateRateio(RateioInput(total, "unknown", None), units)
      == RateioResult([], 0, total, false, [InvalidModel("unknown")])
  {
  }
}
