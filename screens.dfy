/** The screens' logic: the colour of the result badge, the home screen's
    input check and hand-over to the results screen, and the navigation
    state that decides which screen is shown. */
module Screens {
  import opened JsBuiltins
  import opened ImcHelpers
  import Theme

  datatype Screen = Home | Results | Settings

  /** `navParams`: the empty object `{}`, or the record the home screen
      passes to the results screen. */
  datatype Params =
    | NoParams
    | ResultParams(imc: Number, classification: Label, weight: real, height: real,
                   name: string, age: string)

  // ---------------------------------------------------------------------
  // Result screen: the badge colour.

  datatype StatusColor = MintStatus | YellowStatus | AlertStatus

  /** The style class of each badge colour. */
  function StatusClass(c: StatusColor): (r: string)
    ensures r == Theme.MintHighlight <==> c == MintStatus
  {
    match c
    case MintStatus => "bg-[#ACF2DE] text-[#0D0D0D]"
    case YellowStatus => "bg-yellow-100 text-yellow-800"
    case AlertStatus => "bg-[#F2BBBB] text-[#0D0D0D]"
  }

  /** The mint badge uses the theme's highlight, whatever the mode. */
  lemma MintIsHighlight(isDarkMode: bool)
    ensures StatusClass(MintStatus) == Theme.PaletteFor(isDarkMode).highlight
  {
  }

  /** `getStatusColor(label)`: mint for a label containing "Normal", yellow
      for one containing "Abaixo", the alert pink otherwise. The matching is
      case-sensitive. */
  function GetStatusColor(labelText: string): (c: StatusColor)
    ensures c == MintStatus <==> exists i :: OccursAt(labelText, "Normal", i)
    ensures c == YellowStatus <==>
            !(exists i :: OccursAt(labelText, "Normal", i)) && exists i :: OccursAt(labelText, "Abaixo", i)
  {
    IncludesIff(labelText, "Normal");
    IncludesIff(labelText, "Abaixo");
    if Includes(labelText, "Normal") then MintStatus
    else if Includes(labelText, "Abaixo") then YellowStatus
    else AlertStatus
  }

  /** No classifier label has a capital N, and only "Abaixo do peso" has a
      capital A. */
  lemma CapitalsInLabels(l: Label)
    ensures 'N' !in LabelText(l)
    ensures 'A' in LabelText(l) <==> l == Underweight
  {
    match l
    case EnterData =>
    case Underweight => assert LabelText(l)[0] == 'A';
    case NormalWeight =>
    case Overweight =>
    case ObesityI =>
    case ObesityII =>
    case ObesityIII =>
  }

  /** No classifier label contains "Normal" ("Peso normal" has a lower-case
      n), so among the classifier's labels only "Abaixo do peso" gets a
      colour other than the alert pink. */
  lemma ClassifierLabelColors(l: Label)
    ensures GetStatusColor(LabelText(l)) == if l == Underweight then YellowStatus else AlertStatus
  {
    var s := LabelText(l);
    CapitalsInLabels(l);
    IncludesFirstChar(s, "Normal");
    assert !Includes(s, "Normal");
    IncludesFirstChar(s, "Abaixo");
    if l == Underweight {
      assert StartsWith(s, "Abaixo");
      assert Includes(s, "Abaixo");
    } else {
      assert !Includes(s, "Abaixo");
    }
  }

  // ---------------------------------------------------------------------
  // Home screen: the input check.

  /** What pressing "Calcular Agora" leads to: one of the two alerts, or the
      parsed weight and height that go on to the results screen. */
  datatype Outcome =
    | MissingName
    | InvalidValues
    | Accepted(weight: real, height: real)

  /** The checks of `handleCalculateIMC`, in order: the name must not be
      blank, then the parsed weight and height must be numbers above zero. */
  function ValidateInput(name: string, weight: Number, height: Number): (r: Outcome)
    ensures r == MissingName <==> AllWhiteSpace(name)
    ensures r == InvalidValues <==>
            !AllWhiteSpace(name) &&
            (weight.None? || height.None? || weight.value <= 0.0 || height.value <= 0.0)
    ensures r.Accepted? ==>
            weight == Some(r.weight) && height == Some(r.height) && r.weight > 0.0 && r.height > 0.0
  {
    TrimEmptyIff(name);
    if Trim(name) == [] then MissingName
    else if weight.None? || height.None? || weight.value <= 0.0 || height.value <= 0.0 then InvalidValues
    else Accepted(weight.value, height.value)
  }

  /** The record handed to the results screen: the rounded index, its label,
      the parsed weight and height, and the name and age as typed. For
      accepted (positive) inputs the index is a number and the label one of
      the six weight classes. */
  function ResultParamsFor(name: string, age: string, weight: real, height: real): (p: Params)
    ensures p.ResultParams? && p.weight == weight && p.height == height
    ensures p.name == name && p.age == age
    ensures p.imc == CalculateImc(Some(weight), Some(height))
    ensures p.classification == Classify(p.imc)
    ensures weight > 0.0 && height > 0.0 ==>
            p.imc.Some? && IsCents(p.imc.value) && p.classification != EnterData
  {
    var imc := CalculateImc(Some(weight), Some(height));
    assert weight > 0.0 && height > 0.0 ==> imc.Some? && Classify(imc) != EnterData by {
      if weight > 0.0 && height > 0.0 {
        PositiveInputsAreClassified(weight, height);
      }
    }
    ResultParams(imc, Classify(imc), weight, height, name, age)
  }

  /** Whatever a user enters, an accepted calculation never shows
      "Insira os dados" and never shows the mint badge; the badge is yellow
      exactly for underweight. */
  lemma AcceptedResultShown(name: string, age: string, weight: Number, height: Number)
    requires ValidateInput(name, weight, height).Accepted?
    ensures var o := ValidateInput(name, weight, height);
            var p := ResultParamsFor(name, age, o.weight, o.height);
            p.classification != EnterData &&
            GetStatusColor(LabelText(p.classification)) != MintStatus &&
            (GetStatusColor(LabelText(p.classification)) == YellowStatus <==> p.classification == Underweight)
  {
    var o := ValidateInput(name, weight, height);
    var p := ResultParamsFor(name, age, o.weight, o.height);
    ClassifierLabelColors(p.classification);
  }

  // ---------------------------------------------------------------------
  // Navigation state.

  /** `MainContent`'s state: the screen shown and the parameters it got. */
  class MainContent {
    var currentScreen: Screen
    var navParams: Params

    /** The state the application starts in. */
    predicate IsInitial()
      reads this
    {
      currentScreen == Home && navParams == NoParams
    }

    constructor ()
      ensures IsInitial()
    {
      currentScreen := Home;
      navParams := NoParams;
    }

    /** `navigate(screenName, params = {})`: shows the screen with the given
        parameters, whatever was shown before. */
    method Navigate(screenName: Screen, params: Params := NoParams)
      modifies this
      ensures currentScreen == screenName && navParams == params
    {
      navParams := params;
      currentScreen := screenName;
    }
  }

  /** Going to the settings and back to the home screen, from any state, is
      the initial state again: no parameters are left behind. */
  method SettingsAndBack(m: MainContent)
    modifies m
    ensures m.IsInitial()
  {
    m.Navigate(Settings);
    m.Navigate(Home);
  }

  /** The home screen's state: its calculation counter, and the navigation
      state whose `navigate` it was given. */
  class HomeScreen {
    const main: MainContent
    var imcCalculationsCount: nat

    constructor (main: MainContent)
      ensures this.main == main && imcCalculationsCount == 0
    {
      this.main := main;
      imcCalculationsCount := 0;
    }

    /** `handleCalculateIMC`, given the form's name and age and the results
        of `parseFloat` on its weight and height. On a rejection nothing
        changes and the home screen stays; otherwise the counter goes up by
        one and the results screen is shown with the computed record. The
        button that runs it exists only on the home screen. */
    method HandleCalculateImc(name: string, age: string, weight: Number, height: Number)
      returns (outcome: Outcome)
      requires main.currentScreen == Home
      modifies this, main
      ensures outcome == ValidateInput(name, weight, height)
      ensures !outcome.Accepted? ==>
                imcCalculationsCount == old(imcCalculationsCount) &&
                main.currentScreen == Home && main.navParams == old(main.navParams)
      ensures outcome.Accepted? ==>
                imcCalculationsCount == old(imcCalculationsCount) + 1 &&
                main.currentScreen == Results &&
                main.navParams == ResultParamsFor(name, age, outcome.weight, outcome.height)
      ensures outcome.Accepted? ==>
                main.navParams.imc.Some? && main.navParams.classification != EnterData
    {
      outcome := ValidateInput(name, weight, height);
      if !outcome.Accepted? {
        return;
      }
      var params := ResultParamsFor(name, age, outcome.weight, outcome.height);
      imcCalculationsCount := imcCalculationsCount + 1;
      main.Navigate(Results, params);
    }
  }
}
