# meu-imc: a verified model of the BMI calculator's logic

"IMC Saúde" is a three-screen form application. On the home screen a user
types a name, an age, a weight (kg) and a height (cm). "Calcular Agora" checks
the input and computes the body-mass index (IMC) rounded to two decimals. It
then labels the index with one of seven Portuguese labels and shows the
results screen. A settings screen switches between a light and a dark palette.

This project models the logic behind those screens in Dafny and proves what
it promises. There are four modules:

- `JsBuiltins` (js.dfy) models the JavaScript built-ins the code relies on.
  It covers numbers that may be NaN or missing (`Option<real>`), truthiness,
  `toFixed(2)` (round half away from zero to hundredths), `trim` (ECMAScript
  white space and line terminators) and the case-sensitive `includes`.
- `ImcHelpers` (imc.dfy) holds `calculateIMC` and `getIMCClassification`. It
  also gives an independent description of the classification: the class of
  a value is the number of cut-off points (18.5, 24.9, 29.9, 34.9, 39.9) at or
  below it. The proofs show that the buckets are contiguous and half-open, and
  that the class never gets lighter as the index grows. The cut-offs are the
  code's own, not the usual 25/30/35/40.
- `Theme` (theme.dfy) holds the two palettes, the `isDarkMode` flag of the
  theme provider and `toggleTheme`.
- `Screens` (screens.dfy) holds the result badge colour (`getStatusColor`),
  the home screen's input check (`handleCalculateIMC`) and the navigation
  state of `MainContent` (`currentScreen`, `navParams`, `navigate`).

The model follows the code as written, including these details:

- `calculateIMC` treats NaN and a missing value like zero, since all three
  are falsy.
- `calculateIMC` accepts a negative weight or height, because a negative
  number is truthy. The result is then a (possibly negative) index. Only the
  home screen's check rules such inputs out.
- The labels are the code's Portuguese strings.
- `getStatusColor` looks for "Normal" with a capital N, but the classifier's
  label is "Peso normal". So the mint badge is never shown for a classifier
  label (`ClassifierLabelColors`, `AcceptedResultShown`).
- The results record keeps the name as typed (untrimmed) and the age as the
  raw string.

## Model

| member | source | states |
|---|---|---|
| JsBuiltins.Round2 | src/App.jsx:61 | `toFixed(2)` read back as a number is a whole number of hundredths within 0.005 of the value, and not negative for a non-negative value |
| JsBuiltins.Round2TieUp | src/App.jsx:61 | every non-negative tie rounds up: n + 0.5 hundredths gives n + 1 hundredths (0.125 gives 0.13) |
| JsBuiltins.Round2TieNegative | src/App.jsx:61 | the sign is taken off before rounding, so every negative tie rounds away from zero: -(n + 0.5) hundredths gives -(n + 1) hundredths |
| JsBuiltins.Round2Monotone | src/App.jsx:61 | rounding to hundredths never reverses the order of two values |
| JsBuiltins.Round2OfCents | src/App.jsx:61 | a value that already has two decimals is unchanged by rounding |
| JsBuiltins.Round2Idempotent | src/App.jsx:61 | rounding twice gives the same as rounding once |
| JsBuiltins.TrimStart | src/App.jsx:85 | the result is a suffix of the input, does not start with white space, and only white space was removed |
| JsBuiltins.TrimEnd | src/App.jsx:85 | the result is a prefix of the input, does not end with white space, and only white space was removed |
| JsBuiltins.Trim | src/App.jsx:85 | `trim()` is the contiguous middle of the input left after removing only white space before and after it, and it neither starts nor ends with white space |
| JsBuiltins.TrimEmptyIff | src/App.jsx:85 | `name.trim()` is empty exactly when every character of the name is white space |
| JsBuiltins.Includes | src/App.jsx:206-207 | `includes`: a searched text longer than the label is never found, and the empty text is always found |
| JsBuiltins.IncludesIff | src/App.jsx:206-207 | `includes` holds exactly when the searched text occurs at some position |
| JsBuiltins.IncludesFirstChar | src/App.jsx:206-207 | a non-empty text can only be included if its first character occurs |
| ImcHelpers.ExactImc | src/App.jsx:60-61 | the unrounded index times the square of the height in metres gives back the weight |
| ImcHelpers.CalculateImc | src/App.jsx:58-62 | no result exactly when the weight or the height is NaN, missing or 0 (the falsy numbers; a negative number is truthy and gets an index); otherwise a two-decimal value within 0.005 of weight / (height/100)^2 |
| ImcHelpers.LabelText | src/App.jsx:65-71 | the seven label strings; "Insira os dados" is the text of the missing-data label and of no other |
| ImcHelpers.LabelTextInjective | src/App.jsx:65-71 | the seven labels have seven different texts |
| ImcHelpers.Classify | src/App.jsx:64-72 | total over every input; "Insira os dados" exactly for the missing index |
| ImcHelpers.CountAtMostSplits | src/App.jsx:66-71 | for increasing cut-offs, those counted are all at or below the value and the rest are above it |
| ImcHelpers.CountAtMostMonotone | src/App.jsx:66-71 | a larger value is at or above at least as many cut-offs |
| ImcHelpers.ClassifyByThresholds | src/App.jsx:66-71 | the comparison chain picks the class given by how many of 18.5, 24.9, 29.9, 34.9, 39.9 are at or below the index |
| ImcHelpers.ClassifyHalfOpen | src/App.jsx:66-71 | class k is chosen exactly when the index is at or above cut-off k (if any) and below the next cut-off (if any): below 18.5, [18.5, 24.9), [24.9, 29.9), [29.9, 34.9), [34.9, 39.9), 39.9 and above |
| ImcHelpers.ClassifyMonotone | src/App.jsx:66-71 | a larger index never gets a lighter class, and a number always gets one of the six weight classes |
| ImcHelpers.EveryLabelReachable | src/App.jsx:64-72 | each of the seven labels is returned for some input |
| ImcHelpers.ExactImcMonotone | src/App.jsx:60-61 | at a fixed positive height the exact index grows with the weight |
| ImcHelpers.PositiveInputsAreClassified | src/App.jsx:97-98 | a positive weight and height give a non-negative index and never "Insira os dados" |
| ImcHelpers.HeavierNeverLighterClass | src/App.jsx:58-71 | at a fixed height a heavier weight never gets a lighter class, rounding included |
| ImcHelpers.TypicalScenario | src/App.jsx:58-71 | 70 kg at 175 cm gives 22.86, "Peso normal" |
| ImcHelpers.ClassifiedAfterRounding | src/App.jsx:61-68 | classification applies to the rounded index: an exact 24.896 rounds to 24.90 and is "Sobrepeso" |
| Theme.PaletteFor | src/App.jsx:25-47 | the palette depends only on the dark-mode flag; the highlight is the same mint in both modes |
| Theme.PaletteDeterminesMode | src/App.jsx:25-47 | the two modes have different palettes |
| Theme.ThemeProvider.constructor | src/App.jsx:8 | dark mode starts off |
| Theme.ThemeProvider.Colors | src/App.jsx:25 | `colors` is the dark palette exactly when dark mode is on, and its highlight is mint either way |
| Theme.ThemeProvider.ToggleTheme | src/App.jsx:10 | `toggleTheme` negates the flag |
| Theme.ToggleTwice | src/App.jsx:10 | toggling twice restores the flag and the palette |
| Screens.StatusClass | src/App.jsx:206-208 | the three badge classes; only the mint badge uses the theme's highlight class |
| Screens.MintIsHighlight | src/App.jsx:206 | the mint badge style is the theme's highlight in either mode |
| Screens.GetStatusColor | src/App.jsx:205-209 | mint exactly when "Normal" occurs (case-sensitive); yellow exactly when "Normal" does not occur and "Abaixo" does; alert pink otherwise |
| Screens.CapitalsInLabels | src/App.jsx:65-71 | no label has a capital N; only "Abaixo do peso" has a capital A |
| Screens.ClassifierLabelColors | src/App.jsx:205-209 | among classifier labels only "Abaixo do peso" is yellow, all others are alert pink, none is mint |
| Screens.ValidateInput | src/App.jsx:85-95 | rejects a name that is all white space first; then rejects a weight or height that is NaN or not above zero; otherwise accepts both parsed values, which are then positive |
| Screens.ResultParamsFor | src/App.jsx:97-101 | the record carries `calculateIMC` of the parsed weight and height (so within 0.005 of the exact index), those parsed values, the name and age as given, and the class of its index; for positive inputs the index is a two-decimal number and the class is not "Insira os dados" |
| Screens.AcceptedResultShown | src/App.jsx:92-101 | for any accepted input the results screen shows a weight class, never the mint badge, and the yellow badge exactly for underweight |
| Screens.MainContent.constructor | src/App.jsx:299-300 | the application starts on the home screen with `{}` as parameters |
| Screens.MainContent.Navigate | src/App.jsx:302-305 | `navigate` sets the screen and the parameters unconditionally, the parameters defaulting to `{}` |
| Screens.SettingsAndBack | src/App.jsx:191 | `navigate('settings')` then `navigate('home')` gives the initial state from any state |
| Screens.HomeScreen.constructor | src/App.jsx:82 | the calculation counter starts at 0 |
| Screens.HomeScreen.HandleCalculateImc | src/App.jsx:84-102 | on a rejection the counter, screen and parameters are unchanged; on acceptance the counter grows by exactly one and the results screen gets the computed record, whose index is a number and whose label is not "Insira os dados" |

## Left out

- Screen rendering (JSX), icons, animations and the Tailwind class strings are left out. The palettes and badge styles are kept only as data.
- `parseFloat` is left out. The weight and height reach `HandleCalculateImc` already parsed, with NaN as `None`.
- The two `alert` messages are left out. They appear only as the `MissingName` and `InvalidValues` outcomes, with the state unchanged.
- IEEE-754 arithmetic is left out. Numbers are exact reals. So `toFixed` ties are decided on the exact value, not on the nearest double. Infinity and NaN results are not represented, nor is `toFixed`'s exponent form at 1e21 and above.
- Classify: `None` stands for `null` here. A NaN index would fall to "Obesidade Grau III (Mórbida)" in the source. This is not modelled, because `calculateIMC` only returns NaN for infinite inputs.
- `calculateIMC` returns a string in the source, which the classifier's comparisons turn back into a number. The model keeps the number, and the `imc || "--"` display is not modelled.
- React context, `useState` scheduling and component lifecycle are left out. In the source the home screen's counter is local state, reset to 0 each time the home screen mounts again. The model has one `HomeScreen` object whose counter persists. A remount corresponds to constructing a new `HomeScreen`, but no method ties that to navigation.
- Screens.HomeScreen.HandleCalculateImc: requires the home screen to be shown, because only that screen has the button that runs it.
- The results screen given `{}` is not modelled. No caller navigates to `results` without the record; in the source, `label.includes` would then throw.
- JavaScript strings are UTF-16 code units, while Dafny characters are Unicode scalar values. All the white space `trim` removes lies in the basic plane, so trimming is unaffected.
