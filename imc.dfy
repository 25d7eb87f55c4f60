/** The calculator's two helper functions: the body-mass index of a weight
    and a height, and its classification into one of seven labels. */
module ImcHelpers {
  import opened JsBuiltins

  /** The exact index: weight in kg over the square of the height in metres. */
  function ExactImc(weight: real, heightCm: real): (r: real)
    requires heightCm != 0.0
    ensures r * ((heightCm / 100.0) * (heightCm / 100.0)) == weight
  {
    var heightM := heightCm / 100.0;
    weight / (heightM * heightM)
  }

  /** `calculateIMC(weight, heightCm)`: no result when either input is falsy
      (NaN, missing or zero), otherwise the index rounded by `toFixed(2)`. */
  function CalculateImc(weight: Number, heightCm: Number): (r: Number)
    ensures r.None? <==>
            weight == None || weight == Some(0.0) || heightCm == None || heightCm == Some(0.0)
    ensures r.Some? ==> IsCents(r.value)
    ensures r.Some? ==> -0.005 <= r.value - ExactImc(weight.value, heightCm.value) <= 0.005
  {
    if Falsy(weight) || Falsy(heightCm) || heightCm == Some(0.0) then None
    else Some(Round2(ExactImc(weight.value, heightCm.value)))
  }

  /** The seven labels `getIMCClassification` can return. */
  datatype Label =
    | EnterData
    | Underweight
    | NormalWeight
    | Overweight
    | ObesityI
    | ObesityII
    | ObesityIII

  /** The text shown for each label. */
  function LabelText(l: Label): (r: string)
    ensures r == "Insira os dados" <==> l == EnterData
  {
    match l
    case EnterData => "Insira os dados"
    case Underweight => "Abaixo do peso"
    case NormalWeight => "Peso normal"
    case Overweight => "Sobrepeso"
    case ObesityI => "Obesidade Grau I"
    case ObesityII => "Obesidade Grau II (Severa)"
    case ObesityIII => "Obesidade Grau III (M\U{F3}rbida)"
  }

  /** Different labels are shown with different texts. */
  lemma LabelTextInjective(a: Label, b: Label)
    requires LabelText(a) == LabelText(b)
    ensures a == b
  {
    assert |LabelText(a)| == |LabelText(b)|;
  }

  /** `getIMCClassification(imc)`: a top-to-bottom chain of comparisons.
      Here `None` stands for the `null` that `calculateIMC` returns for falsy
      inputs; it gives "Insira os dados". (A NaN index, which the chain would
      send to "Obesidade Grau III (Mórbida)", is not represented.) */
  function Classify(imc: Number): (r: Label)
    ensures r == EnterData <==> imc.None?
  {
    if imc.None? then EnterData
    else if imc.value < 18.5 then Underweight
    else if imc.value >= 18.5 && imc.value < 24.9 then NormalWeight
    else if imc.value >= 24.9 && imc.value < 29.9 then Overweight
    else if imc.value >= 29.9 && imc.value < 34.9 then ObesityI
    else if imc.value >= 34.9 && imc.value < 39.9 then ObesityII
    else ObesityIII
  }

  // ---------------------------------------------------------------------
  // An independent description of the classification: the class of a value
  // is the number of cut-off points at or below it.

  /** The cut-off points of the classification, in increasing order. */
  const Thresholds: seq<real> := [18.5, 24.9, 29.9, 34.9, 39.9]

  /** The weight classes from lightest to heaviest. */
  const Classes: seq<Label> := [Underweight, NormalWeight, Overweight, ObesityI, ObesityII, ObesityIII]

  /** Position of a label in `Classes`; -1 for "enter data". */
  function Severity(l: Label): (r: int) {
    match l
    case EnterData => -1
    case Underweight => 0
    case NormalWeight => 1
    case Overweight => 2
    case ObesityI => 3
    case ObesityII => 4
    case ObesityIII => 5
  }

  predicate StrictlyIncreasing(ts: seq<real>) {
    forall i, j :: 0 <= i < j < |ts| ==> ts[i] < ts[j]
  }

  /** How many of the points ts are at or below x. */
  function CountAtMost(ts: seq<real>, x: real): (n: nat)
    ensures n <= |ts|
  {
    if ts == [] then 0
    else (if ts[0] <= x then 1 else 0) + CountAtMost(ts[1..], x)
  }

  /** For increasing points, the first `CountAtMost(ts, x)` are at or below x
      and all the others are above it. */
  lemma {:induction false} CountAtMostSplits(ts: seq<real>, x: real)
    requires StrictlyIncreasing(ts)
    ensures forall i :: 0 <= i < CountAtMost(ts, x) ==> ts[i] <= x
    ensures forall i :: CountAtMost(ts, x) <= i < |ts| ==> x < ts[i]
  {
    if ts != [] {
      var tail := ts[1..];
      assert StrictlyIncreasing(tail) by {
        forall i, j | 0 <= i < j < |tail| ensures tail[i] < tail[j] {
          assert tail[i] == ts[i + 1] && tail[j] == ts[j + 1];
        }
      }
      CountAtMostSplits(tail, x);
      if ts[0] > x {
        assert forall i :: 0 <= i < |tail| ==> x < tail[i] by {
          forall i | 0 <= i < |tail| ensures x < tail[i] {
            assert tail[i] == ts[i + 1];
          }
        }
        assert CountAtMost(tail, x) == 0;
      }
      assert forall i :: 1 <= i < |ts| ==> ts[i] == tail[i - 1];
    }
  }

  /** A larger value is at or above at least as many points. */
  lemma {:induction false} CountAtMostMonotone(ts: seq<real>, x: real, y: real)
    requires x <= y
    ensures CountAtMost(ts, x) <= CountAtMost(ts, y)
  {
    if ts != [] {
      CountAtMostMonotone(ts[1..], x, y);
    }
  }

  /** The classifier agrees with the description by counting cut-off points. */
  lemma ClassifyByThresholds(x: real)
    ensures Classify(Some(x)) == Classes[CountAtMost(Thresholds, x)]
  {
    var t1: seq<real> := [24.9, 29.9, 34.9, 39.9];
    var t2: seq<real> := [29.9, 34.9, 39.9];
    var t3: seq<real> := [34.9, 39.9];
    var t4: seq<real> := [39.9];
    assert Thresholds[1..] == t1 && t1[1..] == t2 && t2[1..] == t3 && t3[1..] == t4 && t4[1..] == [];
    var c4 := if 39.9 <= x then 1 else 0;
    assert CountAtMost(t4, x) == c4;
    var c3 := (if 34.9 <= x then 1 else 0) + c4;
    assert CountAtMost(t3, x) == c3;
    var c2 := (if 29.9 <= x then 1 else 0) + c3;
    assert CountAtMost(t2, x) == c2;
    var c1 := (if 24.9 <= x then 1 else 0) + c2;
    assert CountAtMost(t1, x) == c1;
    assert CountAtMost(Thresholds, x) == (if 18.5 <= x then 1 else 0) + c1;
  }

  lemma SeverityOfClasses(k: nat)
    requires k < |Classes|
    ensures Severity(Classes[k]) == k
  {
  }

  /** The buckets are contiguous and half-open: a value falls in class k
      exactly when it is at or above the k-th cut-off (if any) and below the
      next one (if any). */
  lemma ClassifyHalfOpen(x: real, k: nat)
    requires k < |Classes|
    ensures Classify(Some(x)) == Classes[k] <==>
            (k == 0 || Thresholds[k - 1] <= x) && (k == |Thresholds| || x < Thresholds[k])
  {
    ClassifyByThresholds(x);
    CountAtMostSplits(Thresholds, x);
    var n := CountAtMost(Thresholds, x);
    SeverityOfClasses(n);
    SeverityOfClasses(k);
  }

  /** The class never gets lighter as the index grows. */
  lemma ClassifyMonotone(x: real, y: real)
    requires x <= y
    ensures 0 <= Severity(Classify(Some(x))) <= Severity(Classify(Some(y)))
  {
    ClassifyByThresholds(x);
    ClassifyByThresholds(y);
    CountAtMostMonotone(Thresholds, x, y);
    SeverityOfClasses(CountAtMost(Thresholds, x));
    SeverityOfClasses(CountAtMost(Thresholds, y));
  }

  /** Every label is the classification of some input. */
  lemma EveryLabelReachable(l: Label)
    ensures exists imc :: Classify(imc) == l
  {
    match l
    case EnterData => assert Classify(None) == l;
    case Underweight => assert Classify(Some(0.0)) == l;
    case NormalWeight => assert Classify(Some(18.5)) == l;
    case Overweight => assert Classify(Some(24.9)) == l;
    case ObesityI => assert Classify(Some(29.9)) == l;
    case ObesityII => assert Classify(Some(34.9)) == l;
    case ObesityIII => assert Classify(Some(39.9)) == l;
  }

  // ---------------------------------------------------------------------
  // The two helpers together.

  /** At a fixed positive height the exact index grows with the weight. */
  lemma ExactImcMonotone(w1: real, w2: real, heightCm: real)
    requires w1 <= w2 && heightCm > 0.0
    ensures ExactImc(w1, heightCm) <= ExactImc(w2, heightCm)
  {
    var hm := heightCm / 100.0;
    assert hm * hm > 0.0 * hm;
    var q1, q2 := w1 / (hm * hm), w2 / (hm * hm);
    assert q1 * (hm * hm) == w1 && q2 * (hm * hm) == w2;
    assert (q2 - q1) * (hm * hm) == w2 - w1;
  }

  /** A positive weight and height always give a number and so one of the
      six weight classes, never "enter data". */
  lemma PositiveInputsAreClassified(weight: real, heightCm: real)
    requires weight > 0.0 && heightCm > 0.0
    ensures CalculateImc(Some(weight), Some(heightCm)).Some?
    ensures CalculateImc(Some(weight), Some(heightCm)).value >= 0.0
    ensures Classify(CalculateImc(Some(weight), Some(heightCm))) != EnterData
  {
    var hm := heightCm / 100.0;
    assert hm * hm > 0.0 * hm;
    var q := weight / (hm * hm);
    assert q * (hm * hm) == weight;
    assert q > 0.0;
  }

  /** At a fixed height, a heavier person is never put in a lighter class. */
  lemma HeavierNeverLighterClass(w1: real, w2: real, heightCm: real)
    requires 0.0 < w1 <= w2 && heightCm > 0.0
    ensures Severity(Classify(CalculateImc(Some(w1), Some(heightCm)))) <=
            Severity(Classify(CalculateImc(Some(w2), Some(heightCm))))
  {
    ExactImcMonotone(w1, w2, heightCm);
    Round2Monotone(ExactImc(w1, heightCm), ExactImc(w2, heightCm));
    ClassifyMonotone(Round2(ExactImc(w1, heightCm)), Round2(ExactImc(w2, heightCm)));
  }

  /** 70 kg at 175 cm: the index is 22.86, a normal weight. */
  lemma TypicalScenario()
    ensures CalculateImc(Some(70.0), Some(175.0)) == Some(22.86)
    ensures Classify(CalculateImc(Some(70.0), Some(175.0))) == NormalWeight
    ensures LabelText(Classify(CalculateImc(Some(70.0), Some(175.0)))) == "Peso normal"
  {
    var r := ExactImc(70.0, 175.0) * 100.0 + 0.5;
    assert ExactImc(70.0, 175.0) == 70.0 / 3.0625;
    assert 2286.0 <= r < 2287.0;
    assert r.Floor == 2286;
  }

  /** The class is that of the rounded index: 24.896 kg at 100 cm is an exact
      index below 24.9, yet it rounds to 24.90 and is classed as overweight. */
  lemma ClassifiedAfterRounding()
    ensures ExactImc(24.896, 100.0) < 24.9
    ensures Classify(CalculateImc(Some(24.896), Some(100.0))) == Overweight
  {
    var r := ExactImc(24.896, 100.0) * 100.0 + 0.5;
    assert ExactImc(24.896, 100.0) == 24.896;
    assert r == 2490.1;
    assert r.Floor == 2490;
  }
}
