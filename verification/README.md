# A verified model of the UI kit's component logic

This project models the logic inside a small Angular UI kit, in Dafny. It covers these components and services:

- **Slider** (`VSlider`). The slider turns pointer positions into values, keeps its value or range inside its bounds, and runs a drag session.
- **Z-layer service** (`ZLayerService`). It hands out stacking indices to overlays and their backdrops.
- **Text field** (`VInput`):
  - its numeric recogniser (`parseNumericInput`) and arrow-key step;
  - its value and interaction state;
  - the form validators (`rangeValidator`, `weightValidator`, the error-message table);
  - the auto-submit state machine (`VInputAutoSubmitManager`).
- **Dropdown** (`VDropdown`). It filters items by case-insensitive substring, validates typed text against the item labels, and handles selection, clearing and closing.
- **Progress bar** (`VProgress`). The bar's scale widens to include the value. It also has end and middle labels, a percentage with a 3 % floor, and label positions clamped to [10, 90].
- **Accordions**:
  - the group service that keeps one open item per group (`AccordionGroupService`);
  - the older id-based service (`AccordionService`);
  - the accordion (`VAccordion`) and its panels (`VExpand`).

Each source file is one Dafny module:

| module | file |
|---|---|
| `Slider` | `slider.dfy` |
| `ZLayer` | `zlayer.dfy` |
| `AutoSubmit` | `auto_submit.dfy` |
| `Validators` | `validators.dfy` |
| `Input` | `input.dfy` |
| `Dropdown` | `dropdown.dfy` |
| `Progress` | `progress.dfy` |
| `AccordionGroup` | `accordion_group.dfy` |
| `Accordion` | `accordion_service.dfy` |
| `Expand` | `expand.dfy` (holds both `VAccordion` and `VExpand`, which refer to each other) |

`Common` (`common.dfy`) holds the shared string helpers:

- JavaScript whitespace trimming;
- ASCII lower-casing;
- substring search;
- decimal rendering of naturals.

How the source's constructs appear in the model:

- **Components and services whose state changes** are classes. Their signals are fields, and their methods state the new state in terms of pure functions. The properties are proved as lemmas about those functions.
- **Pure computed signals** are functions.
- **Numbers** are `real`.
- **`String(number)` and `parseFloat`** are the parameters `fmt` and `parse`.
- **Timers** are pending flags, with a method for each callback.
- **Emitted events** are logs or counters on the component.

## Model

| member | source | states |
|---|---|---|
| Common.NatToString | services/accordion-group.service.ts:33 | Decimal rendering of an index: non-empty, all digits, leading zero only for 0 |
| Common.NatToStringRoundTrip | services/accordion-group.service.ts:33 | Reading the digits of a rendered index gives the index back |
| Common.NatToStringInjective | services/accordion-group.service.ts:33 | Distinct indices render differently |
| Common.TrimStart | components/v-input/v-input.ts:298 | The result is a suffix, starts with non-whitespace, and only whitespace was dropped |
| Common.TrimEnd | components/v-input/v-input.ts:298 | The result is a prefix, ends with non-whitespace, and only whitespace was dropped |
| Common.TrimEmptyIffBlank | components/v-input/v-input.ts:298-299 | Trimmed text is empty exactly when the text is all whitespace |
| Common.TrimTrimmed | components/v-input/v-input.ts:298 | Trimming text without surrounding whitespace changes nothing |
| Common.ToLower | components/v-dropdown/v-dropdown.ts:191-193 | Same length; each character lower-cased, others kept |
| Common.Includes | components/v-dropdown/v-dropdown.ts:193 | True exactly when the pattern occurs at some position |
| Common.IncludesChar | components/v-input/v-input.ts:301 | Searching for a one-character string is membership of that character |
| Common.FirstIndex | components/v-input/v-input.ts:302 | The first occurrence: the character is there and not before |
| Common.ReplaceFirst | components/v-input/v-input.ts:302 | Only the first occurrence is replaced; text without it is unchanged |
| Slider.ResolvedMin | components/v-slider/v-slider.ts:66 | The smaller of the configured bounds |
| Slider.ResolvedMax | components/v-slider/v-slider.ts:67 | The larger of the configured bounds |
| Slider.Clamp | components/v-slider/v-slider.ts:360-362 | Result within the bounds; inside values kept; outside values go to the nearer bound |
| Slider.ClampIdempotent | components/v-slider/v-slider.ts:360-362 | Clamping twice is clamping once |
| Slider.Ratio | components/v-slider/v-slider.ts:254-283 | Zero travel gives 0; a pointer within the travel gives a ratio in [0, 1] |
| Slider.Lerp | components/v-slider/v-slider.ts:254-283 | Ratio 0 gives min; a ratio in [0, 1] stays within [min, max] |
| Slider.PointerRatioInUnit | components/v-slider/v-slider.ts:254-283 | The pointer's ratio along the usable track is always in [0, 1] |
| Slider.PositionToValueInBounds | components/v-slider/v-slider.ts:254-283 | Any pointer position maps into [min, max]; a zero-width track maps to min |
| Slider.PositionToValueForRangeEdgeInBounds | components/v-slider/v-slider.ts:285-301 | The range-edge mapping also lands in [min, max]; zero width gives min |
| Slider.SingleModeIsLinear | components/v-slider/v-slider.ts:254-283 | With no thumb inset, the value is min plus the pointer's share of the span |
| Slider.TrackClickExample | components/v-slider/v-slider.ts:254-283 | A click a quarter along a 0..100 track gives 25 |
| Slider.PositionToValueMonotone | components/v-slider/v-slider.ts:254-283 | Moving the pointer right never lowers the value |
| Slider.PointerRatioMonotone | components/v-slider/v-slider.ts:254-283 | Moving the pointer right never lowers the travel ratio, in single and in range mode |
| Slider.SingleRatioMonotone | components/v-slider/v-slider.ts:254-283 | In single mode the ratio of the clamped thumb centre never falls as the pointer moves right |
| Slider.RangeRatioMonotone | components/v-slider/v-slider.ts:254-283 | In range mode the ratio of the clamped thumb edge never falls as the pointer moves right |
| Slider.EdgeRatioMonotone | components/v-slider/v-slider.ts:254-283 | The edge ratio grows with the thumb centre, for either thumb |
| Slider.LerpMonotone | components/v-slider/v-slider.ts:254-283 | Interpolation grows with the ratio |
| Slider.DisplayRange | components/v-slider/v-slider.ts:103-113 | Ordered; inside the bounds; the same two clamped endpoints, swapped if needed |
| Slider.DisplayRangeKeepsSettled | components/v-slider/v-slider.ts:103-113 | An ordered range inside the bounds is shown as it is |
| Slider.DisplayRangeIdempotent | components/v-slider/v-slider.ts:103-113 | Normalising a displayed range again changes nothing |
| Slider.ClosestThumb | components/v-slider/v-slider.ts:246-252 | The chosen thumb is no farther than the other; ties go to the start |
| Slider.WithEndpoint | components/v-slider/v-slider.ts:237-244 | Moves one end, capped at the other, which is kept; the range stays ordered |
| Slider.WithEndpointStaysWithin | components/v-slider/v-slider.ts:237-244 | Moving an end to a value inside the bounds keeps the range inside them |
| Slider.VSlider.constructor | components/v-slider/v-slider.ts:55-56 | Initial value 0, range 0..100, end thumb active, no drag |
| Slider.VSlider.Normalize | components/v-slider/v-slider.ts:143-167 | Clamps the value (single) or normalises the range; settled state is left alone |
| Slider.VSlider.ApplyRangeValue | components/v-slider/v-slider.ts:237-244 | The range becomes the range with that end moved |
| Slider.VSlider.ApplyValue | components/v-slider/v-slider.ts:224-235 | Clamps the value, then sets it (single) or moves the thumb's end (range); keeps the settled invariant |
| Slider.VSlider.StartDrag | components/v-slider/v-slider.ts:215-222 | Opens a drag session for this pointer and thumb, applying the initial or pointer value |
| Slider.VSlider.OnTrackPointerDown | components/v-slider/v-slider.ts:169-182 | Non-primary buttons change nothing; otherwise the closest thumb jumps to the pointer and a drag begins |
| Slider.VSlider.OnThumbPointerDown | components/v-slider/v-slider.ts:184-190 | Non-primary buttons change nothing; otherwise the grabbed thumb takes the pointer value and a drag begins |
| Slider.VSlider.OnPointerMove | components/v-slider/v-slider.ts:192-199 | Only the dragging pointer moves the active thumb, to the clamped pointer value |
| Slider.VSlider.OnPointerUp | components/v-slider/v-slider.ts:201-213 | Only the dragging pointer ends the session; other pointers change nothing |
| ZLayer.TypeOffset | z-layer.service.ts:144-157 | Only backdrops sit below their parent; offsets are -10, 0, 10, 20 |
| ZLayer.TypeOffsetOrder | z-layer.service.ts:144-157 | Backdrop < modal < dropdown < tooltip |
| ZLayer.LayerIdInjective | z-layer.service.ts:165-167 | Different counters give different layer ids |
| ZLayer.ZLayerService.constructor | z-layer.service.ts:72-75 | Starts at index 100 with counter 0 and no layers |
| ZLayer.ZLayerService.GenerateId | z-layer.service.ts:165-167 | A fresh `layer_n` id: never issued before and not registered |
| ZLayer.ZLayerService.GetNextZIndex | z-layer.service.ts:126-135 | Child: parent index plus the type offset. Root: the counter advances by one |
| ZLayer.ZLayerService.RegisterLayer | z-layer.service.ts:87-94 | Adds exactly one entry under a fresh id with the computed index and returns its controller |
| ZLayer.ZLayerService.FileLayer | z-layer.service.ts:91 | Filing the new entry under the id just handed out adds that one entry and keeps the registry consistent with the id counter |
| ZLayer.ZLayerService.UnregisterLayer | z-layer.service.ts:103-105 | Removes exactly that entry |
| ZLayer.ZLayerService.BackdropZIndex | z-layer.service.ts:113-116 | Registered layer: its index minus 10; otherwise the fallback |
| ZLayer.RootZIndicesIncrease | z-layer.service.ts:126-135 | Root indices start at 101 and strictly increase, never past the counter |
| ZLayer.LayerController.constructor | z-layer.service.ts:30-36 | Holds the id, index and service it was given |
| ZLayer.LayerController.GetBackdropZIndex | z-layer.service.ts:44-46 | For a registered layer, its own index minus 10; once unregistered, the fallback 90 |
| ZLayer.LayerController.Destroy | z-layer.service.ts:52-54 | Unregisters exactly its own layer |
| AutoSubmit.AutoSubmitManager.constructor | components/v-input/v-input-auto-submit.ts:33-47 | Idle, nothing submitted, no timer pending |
| AutoSubmit.AutoSubmitManager.Destroy | components/v-input/v-input-auto-submit.ts:49-53 | No timer remains pending |
| AutoSubmit.AutoSubmitManager.WriteValue | components/v-input/v-input-auto-submit.ts:55-58 | When enabled, the written value becomes the last submitted one |
| AutoSubmit.AutoSubmitManager.SetState | components/v-input/v-input-auto-submit.ts:114-124 | Records the state; a success or error schedules the reset to idle |
| AutoSubmit.AutoSubmitManager.HandleChange | components/v-input/v-input-auto-submit.ts:60-88 | Ignored when disabled or submitting. A valid new value restarts the countdown from idle. Otherwise timers are cleared and a non-idle state returns to idle |
| AutoSubmit.AutoSubmitManager.FireCountdownStart | components/v-input/v-input-auto-submit.ts:72-75 | Enters countdown and schedules the submit delay |
| AutoSubmit.AutoSubmitManager.FireDelay | components/v-input/v-input-auto-submit.ts:76-80 | Submits the current value and reports Submitting if still enabled and valid; otherwise stays in Countdown and reports nothing |
| AutoSubmit.AutoSubmitManager.TriggerSubmit | components/v-input/v-input-auto-submit.ts:90-99 | Submits exactly when enabled, valid and not already submitting, clearing all timers and reporting Submitting; otherwise changes nothing |
| AutoSubmit.AutoSubmitManager.HandleResult | components/v-input/v-input-auto-submit.ts:101-112 | Success records the value as last submitted; error keeps it; both schedule the reset |
| AutoSubmit.AutoSubmitManager.FireReset | components/v-input/v-input-auto-submit.ts:120-122 | Returns to idle with no timer pending |
| Validators.ValidationErrorMessage | components/v-input/validators.ts:3-20 | Range, weight and required keys get their own messages; any other key gets the fallback (keys inherited by every object aside, see "Left out") |
| Validators.MessagesDistinct | components/v-input/validators.ts:3-15 | The messages differ from each other and from the fallback |
| Validators.RangeValidator | components/v-input/validators.ts:22-41 | Empty input passes. A readable number fails exactly when outside [min, max], reporting min, max and the value |
| Validators.RangeValidatorInclusive | components/v-input/validators.ts:30-39 | Both bounds pass; the failure message names both bounds |
| Validators.RangeValidatorChecksZero | components/v-input/validators.ts:25 | The number 0 is validated, not skipped as empty |
| Validators.LeadingDigits | components/v-input/validators.ts:49 | The longest all-digit prefix |
| Validators.WeightPatternTestCorrect | components/v-input/validators.ts:49 | The pattern test accepts exactly 2-3 digits with an optional one-digit fraction after `.` or `,` |
| Validators.WeightValidator | components/v-input/validators.ts:43-62 | Empty input passes; otherwise fails exactly when the text is not a weight, reporting pattern and text |
| Validators.WeightValidatorRejectsZero | components/v-input/validators.ts:45-47 | The number 0 is checked and rejected |
| Validators.WeightValidatorAcceptsExamples | components/v-input/validators.ts:49 | 72, 72.5 and 105,3 pass |
| Validators.WeightValidatorRejectsExamples | components/v-input/validators.ts:49 | 7, 1000 and 72.55 fail |
| Input.SplitDigits | components/v-input/v-input.ts:304 | Splits text into its leading digits and a rest not starting with a digit |
| Input.LexRender | components/v-input/v-input.ts:304 | Every well-formed literal's text is recognised as that literal |
| Input.LexSound | components/v-input/v-input.ts:304 | Whatever is recognised is a well-formed literal spelling exactly the text |
| Input.LexRejectsComma | components/v-input/v-input.ts:304 | Text with a comma is never recognised |
| Input.UsesComma | components/v-input/v-input.ts:301 | True exactly when there is a comma and no point |
| Input.Normalize | components/v-input/v-input.ts:302 | Only the first comma becomes a point, and only in comma mode |
| Input.ParseAcceptsExactlyLiterals | components/v-input/v-input.ts:297-312 | Non-blank text is read exactly when it normalises to a literal; the value and comma flag are that literal's |
| Input.ParseBlankIsZero | components/v-input/v-input.ts:298-299 | Whitespace reads as 0 without comma |
| Input.ParseRejectsTwoCommas | components/v-input/v-input.ts:301-306 | Two commas are refused: only the first is converted |
| Input.ParseRejectsCommaWithPoint | components/v-input/v-input.ts:301-306 | A comma beside a point is refused |
| Input.ParseLiteral | components/v-input/v-input.ts:297-312 | A literal's text reads as its value, without comma |
| Input.ParseCommaLiteral | components/v-input/v-input.ts:297-312 | A decimal written with a comma reads as the same value, with the comma flag |
| Input.TrailingDotIgnored | components/v-input/v-input.ts:304-308 | A final `.` is accepted and does not change the value |
| Input.ExampleValues | components/v-input/v-input.ts:308 | 1.5, -.5 and 12. have the values 1.5, -0.5 and 12 |
| Input.ParseCommaExample | components/v-input/v-input.ts:297-312 | the literal 1.5 written with a comma ("1,5") reads as 1.5 with the comma flag |
| Input.CommaRenderExample | components/v-input/v-input.ts:297-312 | the literal 1.5, written with a comma, is "1,5" |
| Input.ParseSignExample | components/v-input/v-input.ts:297-312 | "-.5" reads as -0.5 |
| Input.ParseTrailingDotExample | components/v-input/v-input.ts:297-312 | "12." reads as 12 |
| Input.ParseRefusedExamples | components/v-input/v-input.ts:304-306 | "." and "1e5" are refused |
| Input.SteppedText | components/v-input/v-input.ts:274-276 | The stepped number's text, with its point turned back into a comma in comma mode |
| Input.SteppedTextComma | components/v-input/v-input.ts:276 | In comma mode the text is the number's text with its first point replaced |
| Input.SteppedTextExample | components/v-input/v-input.ts:274-276 | 1,5 stepped up gives 2,5 |
| Input.ArrowStepGate | components/v-input/v-input.ts:258-281 | The step is refused exactly for a textarea, a locked or non-numeric field, or unreadable text; otherwise it writes the value plus or minus one |
| Input.IsControlValid | components/v-input/v-input.ts:283-289 | Valid when there is no control; a disabled control is invalid |
| Input.ControlErrorMessage | components/v-input/v-input.ts:170-180 | No control or no errors: empty; otherwise the first error's message |
| Input.VInput.constructor | components/v-input/v-input.ts:121-138 | Empty values, no interaction, idle manager |
| Input.VInput.ErrorMessage | components/v-input/v-input.ts:144-152 | Empty before interaction; then the configured message, else the control's |
| Input.VInput.WriteValue | components/v-input/v-input.ts:186-190 | Stores the written text (null as empty), resets interaction, informs the manager |
| Input.VInput.ApplyKeyboardValue | components/v-input/v-input.ts:314-323 | Marks interaction and shows the new text; with a form control it reports the change |
| Input.VInput.OnInputChange | components/v-input/v-input.ts:202-216 | As above, plus the input event. An enabled manager restarts its countdown for a valid new value; nothing is submitted |
| Input.VInput.ApplyArrowStep | components/v-input/v-input.ts:258-281 | Applied exactly when the step is defined, writing its text, counting one input event and reporting it only under a control (the other store untouched); otherwise nothing changes |
| Input.VInput.OnKeydown | components/v-input/v-input.ts:233-248 | Textareas ignore keys; an applicable arrow step writes the stepped text as ApplyArrowStep does; Enter outside composition submits when configured and allowed (timers cleared, Submitting reported, last submitted value kept), leaves the manager untouched when refused, and is reported, touching nothing else; any other key, or an arrow step that is refused, changes nothing |
| Input.VInput.OnCompositionStart | components/v-input/v-input.ts:250-252 | Marks composition |
| Input.VInput.OnCompositionEnd | components/v-input/v-input.ts:254-256 | Clears composition |
| Input.VInput.OnAutoSubmitResult | components/v-input/v-input.ts:291-295 | A null result is ignored; success or error clears the countdown timers, schedules the reset, reports the outcome and submits nothing, a success recording the shown value |
| Input.VInput.Destroy | components/v-input/v-input.ts:166-168 | No auto-submit timer remains |
| Dropdown.FilterMatching | components/v-dropdown/v-dropdown.ts:187-195 | Keeps exactly the items whose label contains the text (ignoring case), each as often as in the input, in order |
| Dropdown.FilteredItems | components/v-dropdown/v-dropdown.ts:187-195 | Blank text shows all items; otherwise the matching ones, each as often as in the input, in order |
| Dropdown.ToLowerIdempotent | components/v-dropdown/v-dropdown.ts:191-193 | Lower-casing twice is lower-casing once |
| Dropdown.FilterIgnoresCase | components/v-dropdown/v-dropdown.ts:191-193 | Filtering by the lower-cased text gives the same items |
| Dropdown.FilterIdempotent | components/v-dropdown/v-dropdown.ts:187-195 | Filtering the filtered list again changes nothing |
| Dropdown.ExactLabelIsShown | components/v-dropdown/v-dropdown.ts:187-195 | Text equal to an item's label, ignoring case, keeps that item listed |
| Dropdown.HasExactMatch | components/v-dropdown/v-dropdown.ts:197-210 | True exactly when some label equals the text, ignoring case |
| Dropdown.ValidationError | components/v-dropdown/v-dropdown.ts:197-210 | The message exactly when required, non-blank and matching no label; otherwise empty |
| Dropdown.ItemLabelIsValid | components/v-dropdown/v-dropdown.ts:197-210 | An item's own label never gets the validation message |
| Dropdown.ComputedErrorMessage | components/v-dropdown/v-dropdown.ts:107-112 | Open: the configured message. Closed: the validation error, else the configured message |
| Dropdown.ListStyles | components/v-dropdown/v-dropdown.ts:114-125 | A measured width sets only `width` in px; otherwise only a given `min-width` |
| Dropdown.VDropdown.constructor | components/v-dropdown/v-dropdown.ts:69-78 | Empty value and search, closed, no errors |
| Dropdown.VDropdown.ShownError | components/v-dropdown/v-dropdown.ts:107-112 | The computed error message for the current state |
| Dropdown.VDropdown.UpdateFilteredItems | components/v-dropdown/v-dropdown.ts:187-195 | The list becomes the filter of the items by the value |
| Dropdown.VDropdown.ValidateInput | components/v-dropdown/v-dropdown.ts:197-210 | The error becomes the validation result for the value |
| Dropdown.VDropdown.WriteValue | components/v-dropdown/v-dropdown.ts:127-132 | Stores the value (null as empty), then refilters and revalidates |
| Dropdown.VDropdown.OnFocus | components/v-dropdown/v-dropdown.ts:144-148 | Opens with the list filtered by the value |
| Dropdown.VDropdown.SelectItem | components/v-dropdown/v-dropdown.ts:156-170 | Shows the item's label, reports its value, clears the error and closes |
| Dropdown.VDropdown.ClearInput | components/v-dropdown/v-dropdown.ts:172-179 | Empties the value, reports null, clears the error and lists every item |
| Dropdown.VDropdown.CloseDropdown | components/v-dropdown/v-dropdown.ts:181-185 | Closes, marks touched and revalidates |
| Dropdown.SelectThenClose | components/v-dropdown/v-dropdown.ts:156-185 | Selecting an item then closing leaves no validation error |
| Progress.Resolve | components/v-progress/v-progress.ts:16-26 | Missing properties take the defaults: value 0, min 0, max 100, no suffix |
| Progress.ScaleMin | components/v-progress/v-progress.ts:56-59 | The smaller of min and value |
| Progress.ScaleMax | components/v-progress/v-progress.ts:61-64 | The larger of max and value |
| Progress.ScaleHoldsValue | components/v-progress/v-progress.ts:56-66 | With min <= max, the scale covers the interval and the value; the range is non-negative |
| Progress.Percentage | components/v-progress/v-progress.ts:123-128 | 0 on an empty scale; within [0, 100] for a point on the scale |
| Progress.PercentageEndsAndOrder | components/v-progress/v-progress.ts:123-128 | Scale ends are 0 % and 100 %; the percentage grows with the position |
| Progress.ValuePercentageInRange | components/v-progress/v-progress.ts:105-108 | With min <= max, the value's percentage lies in [0, 100] |
| Progress.ShownPercentage | components/v-progress/v-progress.ts:105-108 | A percentage strictly between 0 and 3 is raised to 3; others kept |
| Progress.PercentageText | components/v-progress/v-progress.ts:105-108 | "3%" for a tiny positive bar, else the percentage followed by % |
| Progress.ShownPercentageFloor | components/v-progress/v-progress.ts:105-108 | A visible bar is at least 3 % wide; the floor never shrinks a value and keeps order |
| Progress.PercentageTextIsShown | components/v-progress/v-progress.ts:105-108 | The text is the shown percentage written out |
| Progress.ClampPosition | components/v-progress/v-progress.ts:130-134 | The position stays in [10, 90]; inside values kept, others go to the nearer end |
| Progress.PositionText | components/v-progress/v-progress.ts:110-117 | A position text is some value in [10, 90] followed by % |
| Progress.ClampPositionMonotone | components/v-progress/v-progress.ts:130-134 | Clamping keeps order and is idempotent |
| Progress.LeftLabel | components/v-progress/v-progress.ts:68-71 | The value when below min, else min |
| Progress.RightLabel | components/v-progress/v-progress.ts:77-80 | The value when above max, else max |
| Progress.EndLabelsAreScale | components/v-progress/v-progress.ts:56-84 | The end labels are the scale ends; each is primary exactly when the value has not passed that bound |
| Progress.MiddleLabel | components/v-progress/v-progress.ts:86-91 | None exactly when the value is within [min, max]; otherwise the bound it passed |
| Progress.MiddlePosition | components/v-progress/v-progress.ts:114-117 | A position exactly when there is a middle label: the clamped position, in [10, 90] %, of the bound the value passed |
| Progress.MiddleLabelReplacesEnd | components/v-progress/v-progress.ts:68-91 | A middle label appears exactly when an end label is not primary, carrying that end's bound |
| Progress.ShowCurrentValueIffInside | components/v-progress/v-progress.ts:100-103 | The value is shown exactly when strictly between min and max |
| Progress.FormatValue | components/v-progress/v-progress.ts:119-121 | The number's text followed by the suffix |
| AccordionGroup.TrailingDigitsOfKey | services/accordion-group.service.ts:33 | The digits after the last dash of a key are the index digits |
| AccordionGroup.ItemKeyInjective | services/accordion-group.service.ts:33 | Different items never share a key, even across accordions |
| AccordionGroup.AtMostOneOpen | services/accordion-group.service.ts:44-52 | A group has at most one open item |
| AccordionGroup.WithGroup | services/accordion-group.service.ts:13-19 | Adds an unknown group with nothing open; known groups unchanged |
| AccordionGroup.WithoutGroup | services/accordion-group.service.ts:21-25 | Removes exactly that group |
| AccordionGroup.Toggled | services/accordion-group.service.ts:27-42 | Unknown group: no change. Otherwise the item flips, and only it may be open; other groups unchanged |
| AccordionGroup.ToggledOnlyItemOpen | services/accordion-group.service.ts:27-42 | After a toggle the only possible open item is the toggled one, and it was closed before |
| AccordionGroup.ToggleTwice | services/accordion-group.service.ts:27-42 | Toggling twice restores an open item; another open item ends closed |
| AccordionGroup.ClosedGroup | services/accordion-group.service.ts:54-62 | The group ends with nothing open; others unchanged |
| AccordionGroup.AccordionGroupService.constructor | services/accordion-group.service.ts:11 | No groups |
| AccordionGroup.AccordionGroupService.RegisterGroup | services/accordion-group.service.ts:13-19 | The map becomes the one with the group added |
| AccordionGroup.AccordionGroupService.UnregisterGroup | services/accordion-group.service.ts:21-25 | The map becomes the one without the group |
| AccordionGroup.AccordionGroupService.Toggle | services/accordion-group.service.ts:27-42 | The map becomes the toggled map |
| AccordionGroup.AccordionGroupService.IsOpen | services/accordion-group.service.ts:44-52 | True exactly when the group's open key is this item's |
| AccordionGroup.AccordionGroupService.CloseAll | services/accordion-group.service.ts:54-62 | The map becomes the one with that group closed |
| Accordion.ToggledId | v-expand/accordion.service.ts:10-20 | The id flips; no other id is open there; other groups unchanged |
| Accordion.ToggleTwiceId | v-expand/accordion.service.ts:10-20 | Toggling twice restores a group that held this id or nothing |
| Accordion.ClosedId | v-expand/accordion.service.ts:30-36 | Closes the id if open (the group then holds null), keeps every other group, never opens anything |
| Accordion.ClosedGroupIds | v-expand/accordion.service.ts:38-42 | The group holds null; others unchanged |
| Accordion.AccordionService.constructor | v-expand/accordion.service.ts:7 | No entries |
| Accordion.AccordionService.Toggle | v-expand/accordion.service.ts:10-20 | The map becomes the toggled map |
| Accordion.AccordionService.IsOpen | v-expand/accordion.service.ts:22-24 | True exactly when the group holds this id |
| Accordion.AccordionService.Open | v-expand/accordion.service.ts:26-28 | Same as toggle: opening the open id closes it |
| Accordion.AccordionService.Close | v-expand/accordion.service.ts:30-36 | The map becomes the one with the id closed |
| Accordion.AccordionService.CloseGroup | v-expand/accordion.service.ts:38-42 | The map becomes the one with the group set to null |
| Accordion.AccordionService.CloseAll | v-expand/accordion.service.ts:44-46 | Empties the map, so nothing is open |
| Expand.MiddleIffInterior | components/v-expand/v-accordion.ts:76-97 | An item is first iff index 0 and last iff the final index, so it is a middle item exactly when interior |
| Expand.ToggledIndices | components/v-expand/v-accordion.ts:108-125 | The index flips; multiple mode keeps the others; single mode leaves at most that index open |
| Expand.ToggledIndicesProperties | components/v-expand/v-accordion.ts:108-125 | Single mode keeps at most one open; in multiple mode toggling twice restores |
| Expand.GroupStatesOf | components/v-expand/v-accordion.ts:64-66 | Each item's open state in the group |
| Expand.GroupNotificationsExact | components/v-expand/v-accordion.ts:58-74 | Notifies exactly the items whose state differs from the record, with their new state, in index order |
| Expand.RecordedExact | components/v-expand/v-accordion.ts:58-74 | The record then holds every item's current state and keeps other entries |
| Expand.EffectStep | components/v-expand/v-accordion.ts:65-73 | One loop step extends the record and the notifications by that item |
| Expand.NoChanges | components/v-expand/v-accordion.ts:58-74 | When every state matches the record, nothing is notified |
| Expand.SecondPassQuiet | components/v-expand/v-accordion.ts:58-74 | Running the effect again without a change notifies nothing |
| Expand.VAccordion.constructor | components/v-expand/v-accordion.ts:22-32 | Nothing open, empty record, no notifications |
| Expand.VAccordion.OnInit | components/v-expand/v-accordion.ts:34-39 | Registers a non-empty group id; otherwise no change |
| Expand.VAccordion.OnDestroy | components/v-expand/v-accordion.ts:41-46 | Unregisters a non-empty group id; otherwise no change |
| Expand.VAccordion.UpdatePositions | components/v-expand/v-accordion.ts:76-97 | Every item gets its index with first/last flags; expansion flags untouched |
| Expand.VAccordion.ItemsChanged | components/v-expand/v-accordion.ts:48-56 | Items get their positions, as above |
| Expand.VAccordion.Toggle | components/v-expand/v-accordion.ts:99-129 | Toggles through the group or the local set, flips the item when possible, and notifies it of its new state |
| Expand.VAccordion.GroupStateChangeEffect | components/v-expand/v-accordion.ts:58-74 | With a group, the record and notifications become those of the current group states |
| Expand.VExpand.constructor | components/v-expand/v-expand.ts:46-77 | Not registered, collapsed |
| Expand.VExpand.RegisterInAccordion | components/v-expand/v-expand.ts:117-119 | Stores the position |
| Expand.VExpand.Sync | components/v-expand/v-expand.ts:86-89 | The local flag follows the input; standalone panels show it |
| Expand.VExpand.SetExpanded | components/v-expand/v-expand.ts:91-102 | Registered: when the state differs, the accordion ends exactly as its own toggle leaves it (`VAccordion.ToggledFrom`: group map or local set toggled, record, notification), and the panel ends in the requested state; otherwise nothing changes. Standalone: sets the flag |
| Expand.VExpand.Toggle | components/v-expand/v-expand.ts:108-115 | Registered: the accordion ends exactly as its own toggle leaves it (`VAccordion.ToggledFrom`) and the panel flips. Standalone: flips the flag |
| Expand.OpenItemsExclusive | components/v-expand/v-accordion.ts:86-91 | At most one item reads as open: always with a group, and without one unless `multiple` |

Definitions that only compute carry no contract of their own; these
members state their properties:

- `Slider.PositionToValue` and `Slider.PointerRatio` (components/v-slider/v-slider.ts:254-283): `PointerRatioInUnit`, `PositionToValueInBounds`, `SingleModeIsLinear`, `PointerRatioMonotone`, `PositionToValueMonotone`.
- `Slider.PositionToValueForRangeEdge` (components/v-slider/v-slider.ts:285-301): `PositionToValueForRangeEdgeInBounds`.
- `Input.ParseNumericInput` (components/v-input/v-input.ts:297-312): `ParseAcceptsExactlyLiterals`, `ParseBlankIsZero`, `ParseLiteral`, `ParseCommaLiteral` and the examples.
- `Slider.UnitToPx` (components/v-slider/v-slider.ts:356-358): used inside `PointerRatio` and `PositionToValueForRangeEdge`; `PointerRatioInUnit` and `PositionToValueInBounds` hold for every thumb size it yields.
- `Progress.ScaleRange` (components/v-progress/v-progress.ts:66): `ScaleHoldsValue`, and the contract of `Progress.Percentage` (zero range gives 0).
- `Input.IsNumericLike` (components/v-input/v-input.ts:263-265): `ArrowStepGate`, which names it among the refusals.
- `Input.VInput.DisplayValue` (components/v-input/v-input.ts:140-142): the contracts of `Input.VInput.ApplyKeyboardValue`, `OnInputChange`, `ApplyArrowStep`, `OnKeydown` and `OnAutoSubmitResult`.
- `Input.VInput.AutoSubmitEnabled` (components/v-input/v-input.ts:129-130): the contracts of `Input.VInput.WriteValue`, `OnInputChange` and `OnKeydown`.
- `Input.ArrowStep` (components/v-input/v-input.ts:258-281): `ArrowStepGate`, and `Input.VInput.ApplyArrowStep` whose contract is stated in its terms.
- `Progress.LeftLabelIsPrimary` and `Progress.RightLabelIsPrimary` (components/v-progress/v-progress.ts:75, 84): `EndLabelsAreScale`, `MiddleLabelReplacesEnd`.
- `Progress.ShouldShowCurrentValue` (components/v-progress/v-progress.ts:100-103): `ShowCurrentValueIffInside`.
- `Expand.GroupNotifications` and `Expand.Recorded` (components/v-expand/v-accordion.ts:58-74): `GroupNotificationsExact`, `RecordedExact`, `SecondPassQuiet`, and `Expand.VAccordion.GroupStateChangeEffect`.
- `Expand.VAccordion.IsItemOpen` (components/v-expand/v-accordion.ts:86-91): `OpenItemsExclusive` and `Expand.VAccordion.Toggle`.
- `Expand.VExpand.IsAccordionMiddle` (components/v-expand/v-expand.ts:50-53): `MiddleIffInterior`, for the positions `UpdatePositions` hands out.
- `Expand.VExpand.IsPanelExpanded` (components/v-expand/v-expand.ts:55-61): the contracts of `Expand.VExpand.Sync`, `SetExpanded` and `Toggle`.
- `AccordionGroup.ItemKey` (services/accordion-group.service.ts:33): `ItemKeyInjective`, `TrailingDigitsOfKey`.
- `ZLayer.LayerId` (z-layer.service.ts:165-167): `LayerIdInjective`, and `GenerateId`.
- `Validators.SkipsValidation`, `Validators.ParseFloat` and `Validators.ToJsString` (components/v-input/validators.ts:25-28, 46-48): the contracts of `RangeValidator`, `RangeValidatorChecksZero`, `WeightValidator` and `WeightValidatorRejectsZero`.

## Left out

- Floating point: numbers are exact reals. Rounding, `NaN`, infinities and `Number.isFinite` in `parseNumericInput` are not modelled. A literal long enough (more than about 309 integer digits) to make `Number(...)` infinite is refused by the source (components/v-input/v-input.ts:309) but accepted, with its exact value, by `Input.ParseNumericInput`.
- `String(number)` and `parseFloat` are the parameters `fmt` and `parse`. Their exact text and parsing are not modelled.
- `toLowerCase` lower-cases ASCII letters only. Unicode case mapping is not modelled.
- Timers (`setTimeout`) are pending flags, and each callback is a method that requires its flag. Delays and the ordering of time are not modelled.
- DOM work is not modelled:
  - `getBoundingClientRect` (the track's left and width are parameters);
  - pointer capture, `preventDefault`;
  - focusing and blurring elements;
  - dropdown width measurement (`setDropdownWidth`).
- Angular signals, effects and `computed` are fields and functions; the effects are methods the caller runs. Change detection and scheduling are not modelled.
- Dropdown:
  - the 150 ms blur timer (`onBlur`);
  - registering with the z-layer service;
  - the internal form's `valueChanges` subscription.

  The model calls the same update and validation methods directly.
- `VExpand`'s `onOpened` event and `onExpandedChangeEmitEffect$$` are not modelled. Notifications sent to panels are a log on the accordion (`notified`).
- CSS strings are not modelled:
  - slider, input and expand border radius, padding and timing strings;
  - progress height, radius, colour and gap.
- `crypto.randomUUID()` for the accordion id is a constructor parameter.
- `contentChildren` is fixed at construction. Items appearing later are not modelled.
- Component inputs are fixed at construction: `VAccordion`'s `multiple` and `groupId`, `VDropdown`'s `items` and `isRequired`, and `VInput`'s settings. The source reads these signals again at every use. Switching `multiple` off at runtime while several items are open leaves them all reading as open until the next toggle. `Expand.OpenItemsExclusive` and `VAccordion.Valid` do not cover that case.
- `VInput.onFocus`/`onBlur` only set a focus flag and emit events; `onTouched` is not modelled.
- `writeValue` takes text that has already been converted with `String(value)`.
- Spreading a configuration over the defaults with an explicit `undefined` property is not modelled: an absent property takes the default.
- Slider: a second pointer-down during a drag is not ignored. The code has no such guard, so the model starts a new session and follows the code.
- Slider: the code has no value list, shift modifier or anchor delta, so none is modelled.
- ZLayer.TypeOffset: the offsets follow the code (backdrop -10, modal 0, dropdown 10, tooltip 20, other 0). The doc comment at z-layer.service.ts:64-65 speaks of +100/+200 steps; the model follows the code.
- Input.VInput.ApplyArrowStep: the source's early returns (textarea, locked, not numeric-like, unreadable) are one equivalent condition in `Input.ArrowStep`.
- Input.ParseNumericInput: has no contract of its own. Its properties are the lemmas in the table above.
- Validators.ValidationErrorMessage: the source looks the key up in a plain object literal, so a key inherited by every object ("toString", "constructor", "valueOf", "hasOwnProperty", ...) finds that inherited function instead of the fallback (giving "[object Undefined]", the payload itself, or a TypeError). The model treats every key other than the three table keys as missing and answers the fallback.
- Input.VInput.OnInputChange: the manager's exact state after the change is stated by `AutoSubmit.AutoSubmitManager.HandleChange`. Here only the countdown start, the cleared timers and the absence of a submission are repeated.
