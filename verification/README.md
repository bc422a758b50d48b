# Vehicle-needs questionnaire: a Dafny model

The application asks a prospective electric-vehicle buyer five questions, one
at a time, and on the last step validates the answers against a declarative
schema and hands them to a submit handler. This project models that
questionnaire:

- **the schema** (`FormSchema`): two optional booleans with default `false`
  (`hasChargersNearby`, `needsLargeTrunk`) and three required numbers with
  inclusive bounds (`dailyKilometers` 1–1000, `seatingCapacity` 1–8,
  `priceLimit` 10000–200000), and the validation of one value against one
  field: type check first, then the minimum, then the maximum;
- **the question list** (`Questions`): one question per schema key, in schema
  order, each with its prompt and its input control (checkbox or number
  input), tied to the field's value type by a capability table;
- **whole-schema validation and the payload** (`Submission`): the answer set is
  the form's values object, a map from field name to value where a missing key
  is an unset field; validation checks every field without stopping at the
  first failure and reports an issue for each failing field; on success the
  payload is the answers with unset booleans filled as `false`;
- **the step machine** (`Wizard`): "Next" advances one step *without
  validating*; on the last step it stays put and submits; "Back" goes one step
  back when above the first step and otherwise does nothing; editing writes the
  current question's field. Runs of user actions (`Run`) collect every emitted
  payload;
- **concrete runs** (`Scenarios`): the worked example
  (true, 40, 4, false, 35000), untouched checkboxes, and a daily distance of 0
  that still advances.

Numbers are Dafny `int`s: the text-to-number conversion of the number inputs
is taken as already done.

Three facts about the page shape the model:

- "Next" does not validate the current field; answers are checked only when
  "Submit" is pressed on the last step (`Scenarios.ZeroKilometersAdvances`:
  a distance of 0 moves on to the third question).
- There is no terminal state: "Submit" can be pressed again, and each press
  validates and emits again (`Wizard.ResubmitRepeats`).
- Answers are written only through the control of the question on screen, so
  only known field names are written, and always with the kind of value that
  control reports (`Wizard.Edit`, `Wizard.NoTypeMismatchFromFreshForm`).

## Model

| member | source | states |
|---|---|---|
| FormSchema.Validate | src/app/form/page.tsx:12-18 | a value passes exactly when it has the field's type and, for a number, lies within the inclusive bounds; an unset boolean passes as its default; an unset number fails as Required, a value of the wrong type as TypeMismatch, a number below the minimum as TooSmall and above the maximum as TooBig |
| FormSchema.NumericBoundsInclusive | src/app/form/page.tsx:14-17 | every numeric field accepts exactly the numbers between its bounds, including min and max, and rejects min-1 (TooSmall) and max+1 (TooBig) |
| FormSchema.DeclaredBounds | src/app/form/page.tsx:12-18 | fields 1, 2 and 4 are the numeric ones, with bounds 1–1000, 1–8 and 10000–200000 |
| FormSchema.BooleansOptional | src/app/form/page.tsx:13-16 | the two boolean fields accept any boolean, read an unset value as false, and reject a number |
| FormSchema.NumbersRequired | src/app/form/page.tsx:14-17 | a numeric field left unset is rejected as Required and a boolean there as TypeMismatch |
| FormSchema.NamesUnique | src/app/form/page.tsx:12-18 | no two schema keys are equal |
| Questions.QuestionAt | src/app/form/page.tsx:26-83 | the question at a step edits the schema field at that step, with the control that produces that field's value type |
| Questions.QuestionsMatchSchema | src/app/form/page.tsx:26-83 | one question per field in schema order; question names are unique and are exactly the schema keys; checkboxes are used exactly for the boolean fields |
| Submission.ValidateFields | src/app/form/page.tsx:12-18 | fields are validated in order without stopping: success exactly when every field passes, with each field's validated value; otherwise a non-empty list holding the issue of every failing field and only of failing fields |
| Submission.ValidateAll | src/app/form/page.tsx:85-98 | submission succeeds exactly when every field passes; the payload then satisfies the schema and reports the answers, unset booleans as false; otherwise the surfaced issues are those of the failing fields: every failing field has one, and each one belongs to a failing field |
| Submission.SubmitRoundTrip | src/app/form/page.tsx:85-98 | submitting the answers of any payload that satisfies the schema yields that same payload |
| Submission.ReportsDetermines | src/app/form/page.tsx:85-89 | the payload is determined by the answer set alone |
| Submission.ConformsMeans | src/app/form/page.tsx:12-18 | a payload satisfies the schema exactly when 1 <= dailyKilometers <= 1000, 1 <= seatingCapacity <= 8 and 10000 <= priceLimit <= 200000 |
| Submission.MissingNumberBlocks | src/app/form/page.tsx:14-17 | an unset numeric field makes submission fail with a Required issue for that field |
| Submission.UnsetBooleansDefault | src/app/form/page.tsx:13-16 | a boolean left unset is false in a successful payload |
| Submission.WellTypedNoMismatch | src/app/form/page.tsx:12-18 | answers whose values have their fields' types fail validation only as missing or out of range |
| Wizard.Next | src/app/form/page.tsx:94-100 | below the last step, advance by exactly one and emit nothing, whatever the answers; on the last step keep the state, emit a payload exactly when every field passes (one that satisfies the schema and reports the answers), otherwise surface issues for exactly the failing fields |
| Wizard.Back | src/app/form/page.tsx:102-106 | above the first step go back one, otherwise unchanged; the answers are never touched |
| Wizard.Edit | src/app/form/page.tsx:113-121 | the control on screen writes only its own question's field, with the kind of value that control reports (checkbox: boolean, number input: number); every other field and the step are kept |
| Wizard.ButtonsMatchBehaviour | src/app/form/page.tsx:128-136 | "Submit" is shown exactly on the last step, which is exactly when Next leaves the state unchanged; "Back" is shown exactly when Back changes the state |
| Wizard.BackUndoesNext | src/app/form/page.tsx:94-106 | from any step below the last, Back after Next returns to the original state and nothing is emitted |
| Wizard.NextUndoesBack | src/app/form/page.tsx:94-106 | from any step above the first, Next after Back returns to the original state without submitting |
| Wizard.ResubmitRepeats | src/app/form/page.tsx:94-100 | on the last step, pressing Submit again gives the same outcome again, payload included |
| Wizard.Apply | src/app/form/page.tsx:94-106 | a single action keeps the step within the question list and the answers of the right types, and only Next on the last step emits |
| Wizard.Run | src/app/form/page.tsx:21-106 | over any sequence of actions the step stays within the question list, at most one payload is emitted per action, and every emitted payload satisfies the schema |
| Wizard.RunAppend | src/app/form/page.tsx:94-106 | running two action sequences one after the other equals running their concatenation |
| Wizard.RunKeepsTypes | src/app/form/page.tsx:26-83 | over any sequence of actions, every answered field keeps a value of its own type |
| Wizard.NoTypeMismatchFromFreshForm | src/app/form/page.tsx:26-98 | from a fresh form, whatever the actions, pressing Submit never surfaces a type mismatch, only missing or out-of-range answers |
| Scenarios.ScriptRun | src/app/form/page.tsx:94-100 | answering every remaining question and pressing Next after each ends on the last step with those answers filled in, and emits one payload, on the final press, exactly when the filled answers pass validation |
| Scenarios.SubmitAnswered | src/app/form/page.tsx:85-98 | submitting in-range answers to all five questions emits exactly those five values |
| Scenarios.AnswerAllEmitsOnce | src/app/form/page.tsx:85-100 | answering all five questions with in-range values and pressing Next five times ends on the last step with exactly one emitted payload equal to the values entered |
| Scenarios.ReferenceSubmission | src/app/form/page.tsx:85-100 | answering (true, 40, 4, false, 35000) emits exactly that payload |
| Scenarios.ZeroKilometersAdvances | src/app/form/page.tsx:94-98 | entering a daily distance of 0 and pressing Next moves on to the third question without emitting; submitting those answers fails with TooSmall on dailyKilometers |
| Scenarios.UntouchedCheckboxesSubmitFalse | src/app/form/page.tsx:13-16 | with both checkboxes untouched and the numbers in range, submission emits both booleans as false |

## Left out

- Rendering, layout and styling of the page, and the form-library wiring between controls and values: presentation only. The prompts are kept as data, but nothing is stated about them.
- The text-to-number conversion of the number inputs: it can produce fractions and NaN; the model takes numbers as already-parsed integers.
- The submit handler's side effects (logging and the toast that shows the values): the model stops at emitting the payload.
- The validation library's and form library's internals: asynchronous submission, re-validation while typing after a failed submit, and how errors are displayed next to the field. The model returns the issues from "Next" instead of storing them.
- Submission.ValidateAll: follows the declared default `false` for unset booleans. The schema wraps that default in `.optional()`, and depending on the release of the validation library an unset boolean may instead be left out of the values; that library is not part of this model.
- Out-of-range steps for editing: the page indexes the question list with the step, which `Wizard.Run` proves always lies within it, so `Wizard.Edit` requires an in-range step rather than modelling an index error.
- Values a control cannot report (a number from a checkbox, a boolean from a number input): the page cannot receive them, so `Wizard.Edit` requires the control's kind of value and `Wizard.Apply` treats such an input as changing nothing.
- Concurrent or repeated delivery of clicks: the code has no guard, so neither has the model.
- The landing page: static markup with no logic.
