# print-configs: a verified model of the driver-group tools

print-configs is an administration app for printer-driver groups. Each
group record (`DriverGroup`) has:

- a name, optional notes and an `enabled` flag;
- a list of driver names;
- a map of named metadata rules (`MetadataRule`), which say how to read
  one value from a print job.

This project models the logic of four pieces of the app and proves
properties of them:

- **the lookup endpoint** (`POST /api/drivers/lookup`). For every queried
  driver name, in order, it returns the first enabled group that lists the
  name, or "not found". A `drivers` body field that is not an array gives
  a 400 error.
- **the rule wizard**. A six-step dialog:
  - Next and Back move through the steps, and a guard decides whether Next
    is allowed;
  - completing the wizard assembles a rule from toggles and inputs;
  - there are edits for the value mapping and for the list of values of
    the `in` operator.
- **the group editor**. It makes copy-on-write edits:
  - to the group's fields and its drivers list;
  - to its rules map;
  - inside one rule, to the mapping, the condition and the scalar fields.

  Saving sends a change reason, which falls back to a default text.
- **the group list page**. It covers:
  - the case-insensitive search filter;
  - replacing the saved group by `_id`;
  - the total-driver badge;
  - the three-name preview with its "+n" overflow tag.

Modules:

- `Types`: the records of `app/types.ts`. Optional fields are `Option`s;
  a `Record<string, T>` is a `map`.
- `JsBuiltins`: the JavaScript built-ins the code relies on, as functions
  on sequences, each with the property that characterises it:
  - `toLowerCase`, `includes` and `trim`;
  - `filter`, both with a callback and by index;
  - spreading an object with a key set or deleted.
- `Lookup`: the endpoint. It is an imperative method whose loop pushes one
  result per name. Each result is proved to satisfy a specification of the
  lookup that does not mention `findOne`.
- `RuleWizard`: the wizard state, one field per `useState`, grouped by the
  step whose inputs set them.
  - `HandleComplete` is a method. It assigns rule fields one at a time, as
    the source does, and is proved equal to the declarative `RuleOf`.
  - The image of `RuleOf` over all states is exactly the producible rules:
    well-shaped rules whose description, when present, is non-empty.
  - `Apply` and `Run` model what a user can do in the dialog: the footer
    buttons with their `disabled` guards, and each step's inputs, which are
    rendered only on that step. Over already-parsed input values, the rules
    that runs reaching the last step build are exactly the completable ones. A completable rule is producible,
    its name is not blank, its offset is not negative and its mapping has no
    empty key.
- `EditDialog`: the group editor and its `RuleEditor`.
- `Page`: the list page.

A stored driver entry is either a plain string or an object `{name}`,
because the page handles both. The lookup query `{drivers: name}`
compares array elements with a string, so it matches plain entries only.

Two facts about the code shape the model:

- **Empty `in` list.** The wizard emits the list the user built, which may
  be empty, so `WellShaped` does not require a non-empty list.
- **`canGoNext` on the basic step.** The code tests `offset >= 0 && type`.
  `type` is always one of three non-empty strings, so the guard reduces to
  `hasHardcoded || offset >= 0`.

## Model

| member | source | states |
|---|---|---|
| Lookup.FirstMatch | app/api/drivers/lookup/route.ts:42-45 | `findOne` over the collection in order. A returned position holds an enabled group listing the name, and no earlier group matches. None is returned exactly when no group matches. |
| Lookup.ResolveCorrect | app/api/drivers/lookup/route.ts:41-52 | One result record echoes the name. `found` holds iff some enabled group lists the name. `config` is then the first such group, and null otherwise. |
| Lookup.Post | app/api/drivers/lookup/route.ts:23-61 | An unreadable body gives 500 with the error message. A non-array `drivers` gives 400 with "drivers must be an array of strings" and no lookup. Otherwise there is exactly one result per name, in input order, each meeting the specification above over one snapshot of the collection. |
| Lookup.FindOne | app/api/drivers/lookup/route.ts:42-45 | `findOne({drivers: name, enabled: true})`: the group at the first matching position, or none. Characterised by FirstMatch and ResolveCorrect. |
| Lookup.Resolve | app/api/drivers/lookup/route.ts:47-51 | The pushed record `{driver, found: !!group, config: group}`. ResolveCorrect proves it meets the findOne-free specification. |
| Lookup.FirstMatchUnique | app/api/drivers/lookup/route.ts:42-45 | The first matching group is unique. |
| Lookup.ResolvesIsFunctional | app/api/drivers/lookup/route.ts:41-52 | Over one snapshot of the collection, the specification fixes the result for a name, so duplicate names get equal results. |
| Lookup.ConfigIsEnabledAndListsName | app/api/drivers/lookup/route.ts:42-45 | A returned group is in the collection, is enabled and lists the queried name verbatim. Disabled groups and case variants never match. |
| Lookup.UniqueOwnerIsReturned | app/api/drivers/lookup/route.ts:42-50 | When exactly one enabled group lists the name, that group is found. |
| Lookup.EarlierGroupWins | app/api/drivers/lookup/route.ts:42-45 | Appending documents to the collection never changes a name that is already found. |
| RuleWizard.StepIndex | app/components/RuleWizard.tsx:46-47 | `steps.indexOf(step)` is a valid index that holds the step. |
| RuleWizard.StepIndexInjective | app/components/RuleWizard.tsx:46-47 | Distinct steps have distinct indices. |
| RuleWizard.HandleNext | app/components/RuleWizard.tsx:49-54 | The index rises by one below the last step and is unchanged on it. No other wizard state changes. |
| RuleWizard.HandleBack | app/components/RuleWizard.tsx:56-61 | The index falls by one above the first step and is unchanged on it. No other wizard state changes. |
| RuleWizard.BackUndoesNext | app/components/RuleWizard.tsx:49-61 | Back after Next restores the wizard when not on the last step. |
| RuleWizard.NextUndoesBack | app/components/RuleWizard.tsx:49-61 | Next after Back restores the wizard when not on the first step. |
| RuleWizard.NextTimes | app/components/RuleWizard.tsx:49-54 | k calls of handleNext in a row. Characterised by NextTimesIndex. |
| RuleWizard.NextTimesIndex | app/components/RuleWizard.tsx:49-54 | k calls of handleNext advance min(k, remaining) steps. The index stays within 0..5 and nothing else changes. |
| RuleWizard.CanGoNext | app/components/RuleWizard.tsx:122-131 | On the name step, Next is allowed iff the name has a non-whitespace character, i.e. its trim is non-empty. On the basic step it is allowed iff the rule is hardcoded or the offset is at least 0. Every other step allows it. |
| RuleWizard.ConditionOf | app/components/RuleWizard.tsx:79-82 | The condition handleComplete builds: `values` for `in`, `value` otherwise. RuleOfFields states both cases. |
| RuleWizard.RuleOf | app/components/RuleWizard.tsx:63-100 | The rule handleComplete builds, as one expression. RuleOfFields states it field by field, RuleOfProducible and WizardBuildsEveryProducibleRule give its image. |
| RuleWizard.HandleComplete | app/components/RuleWizard.tsx:63-103 | Assigning the fields one at a time yields the wizard's name and exactly `RuleOf` of the state. The rule is well shaped. |
| RuleWizard.RuleOfFields | app/components/RuleWizard.tsx:63-100 | `hardcoded` is present iff its toggle is on, and `offset`+`type` are present otherwise. The conditional pair follows `hasConditional`. The condition follows `hasCondition`, with `values` for `in` and `value` otherwise. `mapping`, `default` and `result` follow their toggles. `description` is present iff it is non-empty. |
| RuleWizard.RuleOfProducible | app/components/RuleWizard.tsx:63-100 | Every completed rule has exactly one shape and a condition shaped by its operator. |
| RuleWizard.WizardBuildsEveryProducibleRule | app/components/RuleWizard.tsx:63-100 | Every producible rule is `RuleOf` of some state. With RuleOfProducible, `RuleOf`'s image over all states is exactly the producible rules. |
| RuleWizard.AddMappingEntry | app/components/RuleWizard.tsx:105-110 | A non-empty prompt answer sets that key to ''. An empty or cancelled prompt changes nothing. Other keys are untouched. |
| RuleWizard.DeleteUndoesAdd | app/components/RuleWizard.tsx:105-120 | Adding a new key and deleting it restores the mapping. |
| RuleWizard.AddConditionValue | app/components/RuleWizard.tsx:306 | The `in` list grows by one, the old list is a prefix, and the new last value is 0. |
| RuleWizard.UpdateConditionValue | app/components/RuleWizard.tsx:318-321 | The length is kept, idx holds the new value, and every other index is unchanged. |
| RuleWizard.RemoveUndoesAdd | app/components/RuleWizard.tsx:306-326 | Deleting the value just added restores the list. |
| RuleWizard.ApplyMapping | app/components/RuleWizard.tsx:351-395 | No mapping-step input introduces the empty key. |
| RuleWizard.ApplyBasic | app/components/RuleWizard.tsx:170-224 | The basic-step inputs: the toggle, the hardcoded value while it is on, offset and type while it is off. Used by BasicPhase and ApplyKeepsGuards. |
| RuleWizard.ApplyConditional | app/components/RuleWizard.tsx:226-266 | The conditional-step inputs: the toggle, and offset and value while it is on. Used by ConditionalPhase. |
| RuleWizard.ApplyCondition | app/components/RuleWizard.tsx:268-349 | The condition-step inputs: the toggle, the operator while it is on, then the `in` list (+, edit and delete per rendered index) or the scalar value. Used by ConditionPhase and ValueEditsBuild. |
| RuleWizard.ApplyAdditional | app/components/RuleWizard.tsx:401-458 | The last-step inputs: the default and result toggles with their inputs while on, and the description. Used by DefaultAndResultPhase and AdditionalPhase. |
| RuleWizard.Apply | app/components/RuleWizard.tsx:155-494 | One user action: Next only below the last step and while `canGoNext` holds, Back only above the first, and each input only on its own step. Characterised by ApplyKeepsGuards, CompletedRunsAreCompletable and EveryCompletableRuleIsBuilt. |
| RuleWizard.Run | app/components/RuleWizard.tsx:155-494 | A sequence of actions applied in order. Characterised by RunAppend and RunOne. |
| RuleWizard.RunAppend | app/components/RuleWizard.tsx:155-494 | Running two action sequences one after the other is running their concatenation. |
| RuleWizard.RunOne | app/components/RuleWizard.tsx:155-494 | A run of one action is that action. |
| RuleWizard.ApplyKeepsGuards | app/components/RuleWizard.tsx:122-131 | No action breaks the guards of the steps already passed: past the name step the trimmed name is non-empty, past the basic step the rule is hardcoded or its offset is at least 0. The name and basic inputs are shown only on their steps (155-224), and Next is disabled while `canGoNext` fails (479-486). |
| RuleWizard.NextKeepsGuards | app/components/RuleWizard.tsx:479-486 | Next, pressed while `canGoNext` holds, keeps the guards of the steps passed, including the one just left. |
| RuleWizard.BackKeepsGuards | app/components/RuleWizard.tsx:466-469 | Back returns only to steps whose guards already held, so it keeps the guards. |
| RuleWizard.RunKeepsGuards | app/components/RuleWizard.tsx:122-131 | Every run keeps the guards of the steps already passed. |
| RuleWizard.ApplyKeepsNoEmptyKey | app/components/RuleWizard.tsx:105-110 | No single action puts the empty key into the mapping: only mapping-step inputs touch it. |
| RuleWizard.RunKeepsNoEmptyKey | app/components/RuleWizard.tsx:105-110 | No run puts the empty key into the mapping, because the prompt refuses an empty answer. |
| RuleWizard.CompletedRunsAreCompletable | app/components/RuleWizard.tsx:488-494 | The Complete button appears on the last step only. Whatever a run from the opening state did, the rule it completes is producible, its name is not blank, its offset is not negative and its mapping has no empty key. |
| RuleWizard.MappingEditsBuild | app/components/RuleWizard.tsx:369-388 | With the mapping shown and empty, the add button followed by typing each value builds any map without the empty key. |
| RuleWizard.ValueEditsBuild | app/components/RuleWizard.tsx:306-321 | With the `in` list shown and empty, pressing + and typing each value builds any list. |
| RuleWizard.BasicPhase | app/components/RuleWizard.tsx:170-224 | From the initial basic inputs, the basic-step inputs reproduce the hardcoded value, or the offset and type, of any well-shaped rule. |
| RuleWizard.ConditionalPhase | app/components/RuleWizard.tsx:226-266 | From the initial conditional inputs, the step's inputs reproduce the conditional pair of any well-shaped rule. |
| RuleWizard.ConditionPhase | app/components/RuleWizard.tsx:268-349 | From the initial condition inputs, the step's inputs reproduce the condition of any well-shaped rule. |
| RuleWizard.MappingPhase | app/components/RuleWizard.tsx:351-399 | From the initial mapping inputs, the step's inputs reproduce any mapping without the empty key. |
| RuleWizard.DefaultAndResultPhase | app/components/RuleWizard.tsx:401-446 | From the initial last-step inputs, the toggles and inputs set any default and any result. |
| RuleWizard.AdditionalPhase | app/components/RuleWizard.tsx:401-458 | From the initial last-step inputs, the step's inputs reproduce the default, result and description of any rule. |
| RuleWizard.StepThrough | app/components/RuleWizard.tsx:479-486 | When a step's inputs lead to a state where Next is enabled, pressing Next afterwards moves to the next step. |
| RuleWizard.BasicStepThrough | app/components/RuleWizard.tsx:170-224 | From any run that reaches the basic step with its initial inputs, the basic inputs of a well-shaped rule with a non-negative offset, then Next, reach the conditional step with those inputs. |
| RuleWizard.ConditionalStepThrough | app/components/RuleWizard.tsx:226-266 | The same for the conditional-offset step, reaching the condition step. |
| RuleWizard.ConditionStepThrough | app/components/RuleWizard.tsx:268-349 | The same for the condition step, reaching the mapping step. |
| RuleWizard.MappingStepThrough | app/components/RuleWizard.tsx:351-399 | The same for the mapping step with a mapping free of the empty key, reaching the last step. |
| RuleWizard.NameStepReach | app/components/RuleWizard.tsx:155-166 | Typing a name that is not blank and pressing Next reaches the basic step. |
| RuleWizard.FirstTwoStepsReach | app/components/RuleWizard.tsx:155-224 | The name and basic steps of the completing run reach the conditional step with the rule's basic inputs. |
| RuleWizard.FirstStepsReach | app/components/RuleWizard.tsx:155-266 | The first three steps of the completing run reach the condition step with the rule's inputs so far. |
| RuleWizard.EveryCompletableRuleIsBuilt | app/components/RuleWizard.tsx:155-494 | For every completable rule and name there is a run from the opening state that ends on the last step with that name and builds that rule. With CompletedRunsAreCompletable, runs that reach the last step build exactly the completable rules, over already-parsed input values. |
| EditDialog.UpdateField | app/components/EditDialog.tsx:43-45 | The named field holds the value, and `_id` and every other field are unchanged. |
| EditDialog.UpdateFieldLastWins | app/components/EditDialog.tsx:43-45 | Two updates of the same field leave the second value. |
| EditDialog.UpdateFieldsCommute | app/components/EditDialog.tsx:43-45 | Updates of different fields commute. |
| EditDialog.DriversOf | app/components/EditDialog.tsx:48 | `formData.drivers \|\| []`. |
| EditDialog.UpdateDriver | app/components/EditDialog.tsx:47-51 | The length is kept, index i holds the new name, other indices are unchanged, and only `drivers` changes. |
| EditDialog.UpdateDriverRestores | app/components/EditDialog.tsx:47-51 | Typing the previous name back restores the group. |
| EditDialog.AddDriver | app/components/EditDialog.tsx:53-55 | The list grows by one, the old list is a prefix, and the new entry is ''. |
| EditDialog.RemoveDriver | app/components/EditDialog.tsx:57-60 | An in-range index removes exactly that entry (length − 1, order kept). Any other index keeps the list. |
| EditDialog.RemoveUndoesAdd | app/components/EditDialog.tsx:53-60 | Removing the driver just added gives back the old list. |
| EditDialog.RulesOf | app/components/EditDialog.tsx:62-70 | The group's rules map, with a missing map read as `{}`. |
| EditDialog.UpdateRule | app/components/EditDialog.tsx:62-70 | The rule name maps to the rule. Every other rule and every other group field is kept. |
| EditDialog.DeleteRule | app/components/EditDialog.tsx:82-88 | Once confirmed, only that rule is removed. Unconfirmed, nothing changes. |
| EditDialog.DeleteUndoesUpdateRule | app/components/EditDialog.tsx:62-88 | Adding a new rule and deleting it restores the rules. |
| EditDialog.WizardCompleteStoresProducibleRule | app/components/EditDialog.tsx:76-80 | The wizard's rule is stored under its name, is well shaped, and the other rules are kept. |
| EditDialog.HandleSave | app/components/EditDialog.tsx:21-31 | The PUT targets the edited group's `_id` and carries the form document. The change reason is never empty: it is the user's text, or 'עדכון' when that text is empty. |
| EditDialog.ChangeReasonSent | app/components/EditDialog.tsx:29 | `changeReason \|\| 'עדכון'`. HandleSave states that the reason sent is the user's text, or the default when that is empty. |
| EditDialog.MappingOf | app/components/EditDialog.tsx:343-346 | The rule's mapping, with a missing one read as `{}`. |
| EditDialog.EditorUpdateMapping | app/components/EditDialog.tsx:343-346 | Only that mapping key changes, and no other rule field. |
| EditDialog.EditorAddMappingEntry | app/components/EditDialog.tsx:348-353 | Only a non-empty key is inserted, with value ''. Otherwise the rule is unchanged. |
| EditDialog.EditorDeleteMappingEntry | app/components/EditDialog.tsx:355-359 | Only that key is removed, and no other rule field changes. |
| EditDialog.EditorDeleteUndoesAdd | app/components/EditDialog.tsx:348-359 | Adding a new key and deleting it restores the mapping. |
| EditDialog.UpdateCondition | app/components/EditDialog.tsx:361-366 | Exactly one of operator, value and values is replaced. The other two and the rest of the rule are kept. |
| EditDialog.ValuesOf | app/components/EditDialog.tsx:466 | `condition.values \|\| []`. |
| EditDialog.EditorAddValue | app/components/EditDialog.tsx:464-468 | 0 is appended to the `in` values (a missing list counts as empty). Nothing else changes. |
| EditDialog.EditorUpdateValue | app/components/EditDialog.tsx:480-484 | Only value idx changes, and the operator and scalar value are kept. |
| EditDialog.EditorRemoveValue | app/components/EditDialog.tsx:489-492 | An in-range idx removes exactly that value, with the order kept. Otherwise the list is kept. |
| EditDialog.OperatorSwitchKeepsStaleValue | app/components/EditDialog.tsx:447-467 | The editor does not keep the wizard's shape. Switching any well-shaped condition with a scalar operator to `in` keeps its scalar `value`, and the result is not well shaped. Pressing + then gives the list [0] next to the stale value. |
| EditDialog.UpdateRuleField | app/components/EditDialog.tsx:339-341 | The named rule field holds the value and the other nine fields are kept. |
| EditDialog.UpdatePresentFieldKeepsShape | app/components/EditDialog.tsx:371-436 | Editing a field the rule already shows keeps a well-shaped rule well shaped. |
| Page.DisplayNames | app/page.tsx:42 | Each entry's display name is the string itself, or the object's `name`, position for position. |
| Page.DisplayName | app/page.tsx:42 | A driver entry's display name: the string itself or the object's `name`. Characterised by DisplayNames. |
| Page.Matches | app/page.tsx:38-45 | The search callback. MatchesIff characterises it by substring occurrence. |
| Page.MatchesIff | app/page.tsx:38-45 | A group matches iff the lower-cased search text occurs as a substring in one of three texts: the lower-cased group name, a lower-cased driver name, or the lower-cased notes. |
| Page.FilterGroups | app/page.tsx:38-45 | The filtered list is no longer than the list. A group is in it iff it is in the list and matches. |
| Page.FilteredIsOrderedSelection | app/page.tsx:38 | The filtered list is an order-preserving subsequence. Entry i is the group at the i-th kept position, the positions increase, and every matching position is kept. |
| Page.EmptySearchKeepsAll | app/page.tsx:38-45 | An empty search keeps every group, in order. |
| Page.ReplaceById | app/page.tsx:32-36 | The length is kept. Every group with the saved `_id` becomes the saved group, and every other group is unchanged. |
| Page.ReplaceByIdIdempotent | app/page.tsx:32-36 | Saving the same group twice is saving it once. |
| Page.ReplaceAbsentId | app/page.tsx:32-36 | Saving a group whose `_id` is absent changes nothing. |
| Page.EditThenSave | app/page.tsx:32-36 | With unique ids, saving an edited group changes exactly its own position. |
| Page.DriverCount | app/page.tsx:55 | `g.drivers?.length \|\| 0`. |
| Page.TotalDrivers | app/page.tsx:55 | Left fold of `drivers?.length \|\| 0` over the groups. Characterised by TotalDriversAppend and TotalDriversCons. |
| Page.TotalDriversAppend | app/page.tsx:55 | The driver total of a concatenation is the sum of the totals. |
| Page.TotalDriversCons | app/page.tsx:55 | The total is the first group's count plus the total of the rest. A missing list counts as 0. |
| Page.ReplaceUniqueTotal | app/page.tsx:55 | Replacing the unique group with an `_id` changes the total by the difference of the two counts. |
| Page.AddDriverThenSave | app/page.tsx:55 | Adding a driver in the dialog and saving raises the total by one. |
| Page.PreviewOf | app/page.tsx:95-102 | The card shows the first min(3, n) display names. A "+k" tag appears iff n > 3, with k = n − 3. No list shows nothing. |
| JsBuiltins.LowerChar | app/page.tsx:39 | ASCII capitals map to their small letters, and every other character is kept. |
| JsBuiltins.ToLower | app/page.tsx:39-43 | The length is kept and each character is lower-cased. |
| JsBuiltins.Includes | app/page.tsx:41-43 | `String.prototype.includes`. IncludesIff characterises it by occurrence at some position. |
| JsBuiltins.IncludesIff | app/page.tsx:41-43 | `includes` holds iff the needle occurs at some position of the text. |
| JsBuiltins.IncludesEmpty | app/page.tsx:41 | The empty search text is included in every text. |
| JsBuiltins.IsWhitespace | app/components/RuleWizard.tsx:125 | The characters `trim()` removes: the ECMAScript WhiteSpace and LineTerminator code points. |
| JsBuiltins.TrimStart | app/components/RuleWizard.tsx:125 | The result is a suffix. Every dropped character is whitespace, and a non-empty result starts with a non-whitespace character. |
| JsBuiltins.TrimEnd | app/components/RuleWizard.tsx:125 | The result is a prefix. Every dropped character is whitespace, and a non-empty result ends with a non-whitespace character. |
| JsBuiltins.Trim | app/components/RuleWizard.tsx:125 | `trim()`: trimEnd of trimStart. TrimStart, TrimEnd and TrimEmptyIff characterise it. |
| JsBuiltins.TrimEmptyIff | app/components/RuleWizard.tsx:125 | `trim()` is empty iff every character is whitespace. |
| JsBuiltins.AllWhitespaceTrimsAway | app/components/RuleWizard.tsx:125 | A string of whitespace only trims to the empty string. |
| JsBuiltins.FilterOutIndex | app/components/EditDialog.tsx:57-60 | `filter((_, i) => i !== idx)` removes position idx only, keeping order. An out-of-range idx keeps everything. |
| JsBuiltins.FilterOutIndexIsCut | app/components/RuleWizard.tsx:326 | Removing position idx is cutting the sequence around it. |
| JsBuiltins.FilterOutAppended | app/components/EditDialog.tsx:53-60 | Appending an element and filtering out its position restores the sequence. |
| JsBuiltins.SpreadWith | app/components/RuleWizard.tsx:112-114 | `{...m, [k]: v}` maps k to v and agrees with m on every other key. |
| JsBuiltins.SpreadWithout | app/components/RuleWizard.tsx:116-120 | Copying and deleting k removes k and agrees with m on every other key. |
| JsBuiltins.WithoutUndoesWith | app/components/RuleWizard.tsx:105-120 | Deleting a key just added restores the object. |
| JsBuiltins.WithTwiceLastWins | app/components/RuleWizard.tsx:112-114 | Setting a key twice keeps only the second value. |
| JsBuiltins.Filter | app/page.tsx:38-45 | `Array.prototype.filter` keeps only accepted elements of the input and every accepted element. |
| JsBuiltins.KeptPositions | app/page.tsx:38 | The accepted positions are in range, hold accepted elements and strictly increase. |
| JsBuiltins.FilterAtKeptPositions | app/page.tsx:38 | Entry i of the filtered result is the element at the i-th accepted position. |
| JsBuiltins.KeptPositionsComplete | app/page.tsx:38 | Every accepted position is among the kept positions. |
| JsBuiltins.FilterIsOrderedSelection | app/page.tsx:38 | `filter` is an order-preserving selection of exactly the accepted positions. |
| JsBuiltins.FilterKeepsAll | app/page.tsx:38-45 | A callback accepting everything keeps the whole array. |

## Left out

- **React plumbing.** JSX, CSS, `useState`/`useEffect` and the plain setters bound to inputs are not modelled. The plain setters replace one field with the input's value. Each handler is a function from the old state to the new state.
- **UI-only state.** The expanded/collapsed state of rule panels (`toggleRule`, `expandedRules`), the selected card on the list page, the active tab and the `saving` flag are not modelled. They affect display, double submission (`saving` disables the Save button while the request is in flight) and which rule editor is open (`expandedRules`); none of them changes the data sent.
- **Browser dialogs.** `prompt` and `confirm` are not modelled as dialogs: their answers are parameters (`Option<string>` for a prompt that can be cancelled; `bool` for a confirmation). `alert` is not modelled.
- **Client-side HTTP.** The client's `fetch` calls, the response status check in the editor's `handleSave` and the initial list load are not modelled. `EditDialog.HandleSave` states only the request it sends.
- **Database.** The MongoDB connection and query engine are not modelled. `findOne` is first-match over the collection in its natural order. Any failure inside the handler (an unparsable body, a database error) is the `Unreadable` request, which gives the 500 response.
- **Lookup.Post: one snapshot.** The handler awaits one `findOne` per name, so a write to the collection between two queries can change later results. The model resolves every name against one fixed collection, so that duplicate names get equal results holds only over one snapshot.
- **Lookup.Post: array elements are not checked.** The handler only checks `Array.isArray`, so a non-string element would be sent to the query as is. The model takes the names as strings.
- **Numeric coercion.** `parseInt`, `Number`, `isNaN`, `|| 0` and floating-point numbers are not modelled. Values are taken as already-parsed integers or strings: the wizard's number inputs, and its default and mapping value inputs, which keep a number when the text parses as one. Not modelled for the same reason: the editor's `parseInt` without `|| 0`, which can store NaN. As a consequence, `RuleWizard.Completable` admits a default or mapping value that is a string of digits, such as `Str("7")`, which no real run stores, because the input turns numeric text into a number (app/components/RuleWizard.tsx:384, 420).
- **JsBuiltins.ToLower: ASCII only.** `JsBuiltins.LowerChar`, which `ToLower` applies to each character, implements ASCII case mapping and not the full Unicode `toLowerCase`, whose special cases (final sigma, expanding characters) are not part of this model.
- **Key order.** JavaScript object key order is not modelled (maps have no order), so no more than membership and values is stated about `mapping` and `metadataRules`.
- **History.** The history tab and `HistoryItem` are not modelled, because their type is not defined in `app/types.ts`.
- **Other routes and pages.** The list and by-id API routes, authentication, middleware, layouts and the legacy page are outside this model.
