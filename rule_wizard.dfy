/** The six-step wizard that creates a metadata rule
    (app/components/RuleWizard.tsx). The component's `useState` hooks are
    the fields of one `Wizard` record, grouped by the step whose inputs set
    them; each handler maps the old record to the new one, and
    `handleComplete` assembles a rule field by field. */
module RuleWizard {
  import opened Types
  import opened JsBuiltins

  datatype Step = NameStep | BasicStep | ConditionalStep | ConditionStep | MappingStep | AdditionalStep

  /** The steps in the order the wizard walks them. */
  const Steps: seq<Step> := [NameStep, BasicStep, ConditionalStep, ConditionStep, MappingStep, AdditionalStep]

  /** `steps.indexOf(step)`: every step occurs in `Steps`, at this position. */
  function StepIndex(s: Step): (i: nat)
    ensures i < |Steps| && Steps[i] == s
  {
    match s
    case NameStep => 0
    case BasicStep => 1
    case ConditionalStep => 2
    case ConditionStep => 3
    case MappingStep => 4
    case AdditionalStep => 5
  }

  /** The inputs of the basic step. */
  datatype BasicForm = BasicForm(hasHardcoded: bool, hardcodedValue: bool, offset: int, valueType: ValueType)

  /** The inputs of the conditional-offset step. */
  datatype ConditionalForm = ConditionalForm(hasConditional: bool, conditionalOffset: int, conditionalValue: int)

  /** The inputs of the condition step. */
  datatype ConditionForm = ConditionForm(hasCondition: bool, conditionOperator: Operator,
                                         conditionValue: int, conditionValues: seq<int>)

  /** The inputs of the mapping step. */
  datatype MappingForm = MappingForm(hasMapping: bool, mapping: map<string, Scalar>)

  /** The inputs of the last step. */
  datatype AdditionalForm = AdditionalForm(hasDefault: bool, defaultValue: Scalar, hasResult: bool,
                                           resultValue: bool, description: string)

  /** The wizard's state: the current step, the rule name and the inputs of
      the five later steps. */
  datatype Wizard = Wizard(
    step: Step,
    ruleName: string,
    basic: BasicForm,
    conditional: ConditionalForm,
    conditionForm: ConditionForm,
    mappingForm: MappingForm,
    additional: AdditionalForm)

  /** The initial values of the `useState` hooks. */
  const InitialBasic := BasicForm(false, false, 0, Byte)
  const InitialConditional := ConditionalForm(false, 0, 0)
  const InitialCondition := ConditionForm(false, Equals, 0, [])
  const InitialMapping := MappingForm(false, map[])
  const InitialAdditional := AdditionalForm(false, Str(""), false, false, "")

  /** The state the wizard opens in. */
  const Initial := Wizard(NameStep, "", InitialBasic, InitialConditional, InitialCondition,
                          InitialMapping, InitialAdditional)

  // ---------------------------------------------------------------------
  // Step navigation

  /** handleNext: one step forward, except on the last step. */
  function HandleNext(w: Wizard): (r: Wizard)
    ensures StepIndex(w.step) < |Steps| - 1 ==> StepIndex(r.step) == StepIndex(w.step) + 1
    ensures StepIndex(w.step) == |Steps| - 1 ==> r.step == w.step
    ensures r == w.(step := r.step)
  {
    var nextIndex := StepIndex(w.step) + 1;
    if nextIndex < |Steps| then w.(step := Steps[nextIndex]) else w
  }

  /** handleBack: one step back, except on the first step. */
  function HandleBack(w: Wizard): (r: Wizard)
    ensures StepIndex(w.step) > 0 ==> StepIndex(r.step) == StepIndex(w.step) - 1
    ensures StepIndex(w.step) == 0 ==> r.step == w.step
    ensures r == w.(step := r.step)
  {
    var prevIndex := StepIndex(w.step) - 1;
    if prevIndex >= 0 then w.(step := Steps[prevIndex]) else w
  }

  /** Two states with the same step index are on the same step. */
  lemma StepIndexInjective(a: Step, b: Step)
    requires StepIndex(a) == StepIndex(b)
    ensures a == b
  {
  }

  /** Back undoes Next away from the last step, Next undoes Back away from
      the first. */
  lemma BackUndoesNext(w: Wizard)
    requires StepIndex(w.step) < |Steps| - 1
    ensures HandleBack(HandleNext(w)) == w
  {
    StepIndexInjective(HandleBack(HandleNext(w)).step, w.step);
  }

  lemma NextUndoesBack(w: Wizard)
    requires StepIndex(w.step) > 0
    ensures HandleNext(HandleBack(w)) == w
  {
    StepIndexInjective(HandleNext(HandleBack(w)).step, w.step);
  }

  /** `k` calls of handleNext. */
  function NextTimes(w: Wizard, k: nat): Wizard {
    if k == 0 then w else HandleNext(NextTimes(w, k - 1))
  }

  /** However often handleNext runs, the index moves by that many steps and
      stops at the last one; nothing but the step changes. */
  lemma {:induction false} NextTimesIndex(w: Wizard, k: nat)
    ensures StepIndex(NextTimes(w, k).step) == if StepIndex(w.step) + k < |Steps| then StepIndex(w.step) + k else |Steps| - 1
    ensures NextTimes(w, k) == w.(step := NextTimes(w, k).step)
  {
    if k > 0 {
      NextTimesIndex(w, k - 1);
    }
  }

  /** canGoNext: on the name step the trimmed name must be non-empty, on the
      basic step the rule must be hardcoded or have a non-negative offset
      (the chosen type is always a non-empty string); other steps pass. */
  function CanGoNext(w: Wizard): (b: bool)
    ensures w.step == NameStep ==>
              (b <==> exists i :: 0 <= i < |w.ruleName| && !IsWhitespace(w.ruleName[i]))
    ensures w.step == BasicStep ==> (b <==> w.basic.hasHardcoded || w.basic.offset >= 0)
    ensures w.step != NameStep && w.step != BasicStep ==> b
  {
    match w.step
    case NameStep => TrimEmptyIff(w.ruleName); Trim(w.ruleName) != ""
    case BasicStep => w.basic.hasHardcoded || w.basic.offset >= 0
    case _ => true
  }

  // ---------------------------------------------------------------------
  // Building the rule

  /** A condition carries `values` for `in` and a scalar `value` otherwise,
      never both. */
  predicate ConditionShaped(c: Condition) {
    && (c.operator == In <==> c.values.Some?)
    && (c.value.Some? <==> c.values.None?)
  }

  /** The shape rules of a metadata rule: exactly one of `hardcoded` and
      `offset`+`type`; the conditional offset and value together or not at
      all; a condition shaped by its operator. */
  predicate WellShaped(r: MetadataRule) {
    && (r.hardcoded.Some? <==> r.offset.None?)
    && (r.offset.Some? <==> r.valueType.Some?)
    && (r.conditionalOffset.Some? <==> r.conditionalValue.Some?)
    && (r.condition.Some? ==> ConditionShaped(r.condition.value))
  }

  /** The rules `RuleOf` yields: well shaped, with a description only when
      it is non-empty. */
  predicate Producible(r: MetadataRule) {
    WellShaped(r) && (r.description.Some? ==> r.description.value != "")
  }

  /** The condition `{operator, ...(operator === 'in' ? {values} : {value})}`. */
  function ConditionOf(f: ConditionForm): Condition {
    if f.conditionOperator == In then Condition(In, None, Some(f.conditionValues))
    else Condition(f.conditionOperator, Some(f.conditionValue), None)
  }

  /** The rule handleComplete hands to `onComplete`, as one expression. */
  function RuleOf(w: Wizard): MetadataRule {
    var b, cd, cn, m, a := w.basic, w.conditional, w.conditionForm, w.mappingForm, w.additional;
    MetadataRule(
      if b.hasHardcoded then Some(b.hardcodedValue) else None,
      if b.hasHardcoded then None else Some(b.offset),
      if b.hasHardcoded then None else Some(b.valueType),
      if cd.hasConditional then Some(cd.conditionalOffset) else None,
      if cd.hasConditional then Some(cd.conditionalValue) else None,
      if cn.hasCondition then Some(ConditionOf(cn)) else None,
      if m.hasMapping then Some(m.mapping) else None,
      if a.hasDefault then Some(a.defaultValue) else None,
      if a.hasResult then Some(a.resultValue) else None,
      if a.description != "" then Some(a.description) else None)
  }

  /** handleComplete: start from `{}` and assign the fields the toggles ask
      for, one at a time. Returns the name and the rule passed to `onComplete`. */
  method HandleComplete(w: Wizard) returns (ruleName: string, rule: MetadataRule)
    ensures ruleName == w.ruleName
    ensures rule == RuleOf(w)
    ensures WellShaped(rule)
  {
    rule := EmptyRule;
    if w.basic.hasHardcoded {
      rule := rule.(hardcoded := Some(w.basic.hardcodedValue));
    } else {
      rule := rule.(offset := Some(w.basic.offset));
      rule := rule.(valueType := Some(w.basic.valueType));
    }
    if w.conditional.hasConditional {
      rule := rule.(conditionalOffset := Some(w.conditional.conditionalOffset));
      rule := rule.(conditionalValue := Some(w.conditional.conditionalValue));
    }
    var cn := w.conditionForm;
    if cn.hasCondition {
      if cn.conditionOperator == In {
        rule := rule.(condition := Some(Condition(cn.conditionOperator, None, Some(cn.conditionValues))));
      } else {
        rule := rule.(condition := Some(Condition(cn.conditionOperator, Some(cn.conditionValue), None)));
      }
    }
    if w.mappingForm.hasMapping {
      rule := rule.(mapping := Some(w.mappingForm.mapping));
    }
    if w.additional.hasDefault {
      rule := rule.(default := Some(w.additional.defaultValue));
    }
    if w.additional.hasResult {
      rule := rule.(result := Some(w.additional.resultValue));
    }
    if w.additional.description != "" {
      rule := rule.(description := Some(w.additional.description));
    }
    ruleName := w.ruleName;
  }

  /** Field by field, what the completed rule holds: each optional part is
      present exactly when its toggle is on, and then carries the form's value. */
  lemma RuleOfFields(w: Wizard)
    ensures RuleOf(w).hardcoded.Some? <==> w.basic.hasHardcoded
    ensures w.basic.hasHardcoded ==>
              RuleOf(w).hardcoded == Some(w.basic.hardcodedValue) && RuleOf(w).offset == None && RuleOf(w).valueType == None
    ensures !w.basic.hasHardcoded ==> RuleOf(w).offset == Some(w.basic.offset) && RuleOf(w).valueType == Some(w.basic.valueType)
    ensures RuleOf(w).conditionalOffset.Some? <==> w.conditional.hasConditional
    ensures RuleOf(w).conditionalValue.Some? <==> w.conditional.hasConditional
    ensures RuleOf(w).condition.Some? <==> w.conditionForm.hasCondition
    ensures w.conditionForm.hasCondition && w.conditionForm.conditionOperator == In ==>
              RuleOf(w).condition == Some(Condition(In, None, Some(w.conditionForm.conditionValues)))
    ensures w.conditionForm.hasCondition && w.conditionForm.conditionOperator != In ==>
              RuleOf(w).condition == Some(Condition(w.conditionForm.conditionOperator, Some(w.conditionForm.conditionValue), None))
    ensures RuleOf(w).mapping == (if w.mappingForm.hasMapping then Some(w.mappingForm.mapping) else None)
    ensures RuleOf(w).default == (if w.additional.hasDefault then Some(w.additional.defaultValue) else None)
    ensures RuleOf(w).result == (if w.additional.hasResult then Some(w.additional.resultValue) else None)
    ensures RuleOf(w).description.Some? <==> w.additional.description != ""
  {
  }

  /** Every completed rule is producible. */
  lemma RuleOfProducible(w: Wizard)
    ensures Producible(RuleOf(w))
  {
  }

  /** Inputs of each step that reproduce the matching part of `r`; inputs
      the rule does not use keep their initial values. */
  function BasicFormFor(r: MetadataRule): BasicForm {
    BasicForm(r.hardcoded.Some?, r.hardcoded.GetOr(false), r.offset.GetOr(0), r.valueType.GetOr(Byte))
  }

  function ConditionalFormFor(r: MetadataRule): ConditionalForm {
    ConditionalForm(r.conditionalOffset.Some?, r.conditionalOffset.GetOr(0), r.conditionalValue.GetOr(0))
  }

  function ConditionFormFor(r: MetadataRule): ConditionForm {
    var c := r.condition.GetOr(Condition(Equals, None, None));
    ConditionForm(r.condition.Some?, c.operator, c.value.GetOr(0), c.values.GetOr([]))
  }

  function MappingFormFor(r: MetadataRule): MappingForm {
    MappingForm(r.mapping.Some?, r.mapping.GetOr(map[]))
  }

  function AdditionalFormFor(r: MetadataRule): AdditionalForm {
    AdditionalForm(r.default.Some?, r.default.GetOr(Str("")), r.result.Some?, r.result.GetOr(false),
                   r.description.GetOr(""))
  }

  /** A wizard state on the last step whose inputs reproduce `r`. */
  function WizardFor(name: string, r: MetadataRule): Wizard {
    Wizard(AdditionalStep, name, BasicFormFor(r), ConditionalFormFor(r), ConditionFormFor(r),
           MappingFormFor(r), AdditionalFormFor(r))
  }

  /** Every producible rule is `RuleOf` some state: with RuleOfProducible,
      the image of `RuleOf` over all states is exactly the producible rules.
      Which states a user can actually reach is the subject of
      CompletedRunsAreCompletable and EveryCompletableRuleIsBuilt below. */
  lemma {:induction false} WizardBuildsEveryProducibleRule(name: string, r: MetadataRule)
    requires Producible(r)
    ensures RuleOf(WizardFor(name, r)) == r
  {
    var w := WizardFor(name, r);
    if r.condition.Some? {
      var c := r.condition.value;
      if c.operator == In {
        assert c.values.Some? && c.value.None?;
      } else {
        assert c.value.Some? && c.values.None?;
      }
      assert RuleOf(w).condition == r.condition;
    }
  }

  // ---------------------------------------------------------------------
  // Mapping edits

  /** addMappingEntry with the prompt's answer (None when cancelled): a
      non-empty key is set to '' (an existing entry is reset); otherwise
      nothing changes. updateMapping and deleteMappingEntry are SpreadWith
      and SpreadWithout on the mapping. */
  function AddMappingEntry(mapping: map<string, Scalar>, key: Option<string>): (r: map<string, Scalar>)
    ensures key.Some? && key.value != "" ==>
              key.value in r && r[key.value] == Str("") && AgreeExcept(mapping, r, key.value)
    ensures !(key.Some? && key.value != "") ==> r == mapping
  {
    if key.Some? && key.value != "" then SpreadWith(mapping, key.value, Str("")) else mapping
  }

  /** Adding a new key and deleting it again leaves the mapping as it was. */
  lemma DeleteUndoesAdd(mapping: map<string, Scalar>, key: string)
    requires key != "" && key !in mapping
    ensures SpreadWithout(AddMappingEntry(mapping, Some(key)), key) == mapping
  {
    WithoutUndoesWith(mapping, key, Str(""));
  }

  // ---------------------------------------------------------------------
  // The list of values for the `in` operator

  /** The + button: append 0. */
  function AddConditionValue(values: seq<int>): (r: seq<int>)
    ensures |r| == |values| + 1 && r[..|values|] == values && r[|values|] == 0
  {
    values + [0]
  }

  /** Editing the input at `idx` (an index of the rendered list): only that
      position changes. The delete button is FilterOutIndex. */
  function UpdateConditionValue(values: seq<int>, idx: nat, value: int): (r: seq<int>)
    requires idx < |values|
    ensures |r| == |values| && r[idx] == value
    ensures forall j :: 0 <= j < |values| && j != idx ==> r[j] == values[j]
  {
    values[idx := value]
  }

  /** Removing the value just added gives back the list. */
  lemma RemoveUndoesAdd(values: seq<int>)
    ensures FilterOutIndex(AddConditionValue(values), |values|) == values
  {
    FilterOutAppended(values, 0);
  }

  // ---------------------------------------------------------------------
  // Runs of the dialog

  /** What the user can do in the dialog: press a footer button, or use an
      input of one step. */
  datatype Action =
    | PressNext
    | PressBack
    | NameInput(name: string)
    | BasicInput(basicEdit: BasicEdit)
    | ConditionalInput(conditionalEdit: ConditionalEdit)
    | ConditionInput(conditionEdit: ConditionEdit)
    | MappingInput(mappingEdit: MappingEdit)
    | AdditionalInput(additionalEdit: AdditionalEdit)

  datatype BasicEdit = ToggleHardcoded(hardcodedOn: bool) | ChooseHardcodedValue(hardcodedValue: bool)
                     | TypeOffset(offset: int) | ChooseType(valueType: ValueType)

  datatype ConditionalEdit = ToggleConditional(conditionalOn: bool)
                           | TypeConditionalOffset(conditionalOffset: int) | TypeConditionalValue(conditionalValue: int)

  datatype ConditionEdit = ToggleCondition(conditionOn: bool) | ChooseOperator(operator: Operator)
                         | AddValue | TypeValueAt(valueIndex: nat, value: int) | RemoveValueAt(removeIndex: nat)
                         | TypeConditionValue(conditionValue: int)

  datatype MappingEdit = ToggleMapping(mappingOn: bool) | AddMapping(key: Option<string>)
                       | TypeMappingValue(mappingKey: string, mappingValue: Scalar) | DeleteMapping(deleteKey: string)

  datatype AdditionalEdit = ToggleDefault(defaultOn: bool) | TypeDefault(defaultValue: Scalar)
                          | ToggleResult(resultOn: bool) | ChooseResult(resultValue: bool)
                          | TypeDescription(description: string)

  /** The basic step: the hardcoded value is shown only while the toggle is
      on, offset and type only while it is off. */
  function ApplyBasic(f: BasicForm, e: BasicEdit): BasicForm {
    match e
    case ToggleHardcoded(x) => f.(hasHardcoded := x)
    case ChooseHardcodedValue(x) => if f.hasHardcoded then f.(hardcodedValue := x) else f
    case TypeOffset(x) => if !f.hasHardcoded then f.(offset := x) else f
    case ChooseType(x) => if !f.hasHardcoded then f.(valueType := x) else f
  }

  /** The conditional step: offset and value are shown only while the toggle is on. */
  function ApplyConditional(f: ConditionalForm, e: ConditionalEdit): ConditionalForm {
    match e
    case ToggleConditional(x) => f.(hasConditional := x)
    case TypeConditionalOffset(x) => if f.hasConditional then f.(conditionalOffset := x) else f
    case TypeConditionalValue(x) => if f.hasConditional then f.(conditionalValue := x) else f
  }

  /** The condition step: the operator while the toggle is on; then the list
      of values for `in` (one input and delete button per rendered index) or
      the scalar value for the other operators. */
  function ApplyCondition(f: ConditionForm, e: ConditionEdit): ConditionForm {
    var listShown := f.hasCondition && f.conditionOperator == In;
    var vs := f.conditionValues;
    match e
    case ToggleCondition(x) => f.(hasCondition := x)
    case ChooseOperator(x) => if f.hasCondition then f.(conditionOperator := x) else f
    case AddValue => if listShown then f.(conditionValues := AddConditionValue(vs)) else f
    case TypeValueAt(idx, x) =>
      if listShown && idx < |vs| then f.(conditionValues := UpdateConditionValue(vs, idx, x)) else f
    case RemoveValueAt(idx) =>
      if listShown && idx < |vs| then f.(conditionValues := FilterOutIndex(vs, idx)) else f
    case TypeConditionValue(x) => if f.hasCondition && f.conditionOperator != In then f.(conditionValue := x) else f
  }

  /** The mapping step: the add button while the toggle is on, and one row
      per existing key. No edit introduces the empty key. */
  function ApplyMapping(f: MappingForm, e: MappingEdit): (r: MappingForm)
    ensures "" !in f.mapping ==> "" !in r.mapping
  {
    var m := f.mapping;
    match e
    case ToggleMapping(x) => f.(hasMapping := x)
    case AddMapping(key) => if f.hasMapping then f.(mapping := AddMappingEntry(m, key)) else f
    case TypeMappingValue(key, x) => if f.hasMapping && key in m then f.(mapping := SpreadWith(m, key, x)) else f
    case DeleteMapping(key) => if f.hasMapping && key in m then f.(mapping := SpreadWithout(m, key)) else f
  }

  /** The additional step: the default and result inputs while their toggles
      are on, and the description. */
  function ApplyAdditional(f: AdditionalForm, e: AdditionalEdit): AdditionalForm {
    match e
    case ToggleDefault(x) => f.(hasDefault := x)
    case TypeDefault(x) => if f.hasDefault then f.(defaultValue := x) else f
    case ToggleResult(x) => f.(hasResult := x)
    case ChooseResult(x) => if f.hasResult then f.(resultValue := x) else f
    case TypeDescription(x) => f.(description := x)
  }

  /** The state after one action. Back is disabled on the first step and
      Next on the last one and whenever canGoNext fails; each step's inputs
      are rendered on that step only. */
  function Apply(w: Wizard, a: Action): Wizard {
    match a
    case PressNext => if StepIndex(w.step) < |Steps| - 1 && CanGoNext(w) then HandleNext(w) else w
    case PressBack => if StepIndex(w.step) > 0 then HandleBack(w) else w
    case NameInput(x) => if w.step == NameStep then w.(ruleName := x) else w
    case BasicInput(e) => if w.step == BasicStep then w.(basic := ApplyBasic(w.basic, e)) else w
    case ConditionalInput(e) =>
      if w.step == ConditionalStep then w.(conditional := ApplyConditional(w.conditional, e)) else w
    case ConditionInput(e) =>
      if w.step == ConditionStep then w.(conditionForm := ApplyCondition(w.conditionForm, e)) else w
    case MappingInput(e) => if w.step == MappingStep then w.(mappingForm := ApplyMapping(w.mappingForm, e)) else w
    case AdditionalInput(e) =>
      if w.step == AdditionalStep then w.(additional := ApplyAdditional(w.additional, e)) else w
  }

  /** The state after a sequence of actions. */
  function Run(w: Wizard, actions: seq<Action>): Wizard
    decreases |actions|
  {
    if actions == [] then w else Run(Apply(w, actions[0]), actions[1..])
  }

  /** Running two sequences one after the other is running their concatenation. */
  lemma {:induction false} RunAppend(w: Wizard, a: seq<Action>, b: seq<Action>)
    ensures Run(w, a + b) == Run(Run(w, a), b)
    decreases |a|
  {
    if a == [] {
      assert a + b == b;
    } else {
      assert (a + b)[0] == a[0];
      assert (a + b)[1..] == a[1..] + b;
      RunAppend(Apply(w, a[0]), a[1..], b);
    }
  }

  lemma RunOne(w: Wizard, a: Action)
    ensures Run(w, [a]) == Apply(w, a)
  {
    assert [a][1..] == [];
  }

  /** The guards of the steps already passed still hold: past the name step
      the trimmed name is non-empty, past the basic step the rule is
      hardcoded or its offset is non-negative. */
  predicate PassedGuards(w: Wizard) {
    && (StepIndex(w.step) >= 1 ==> Trim(w.ruleName) != "")
    && (StepIndex(w.step) >= 2 ==> w.basic.hasHardcoded || w.basic.offset >= 0)
  }

  /** Next leaves a step only when its guard holds. */
  lemma NextKeepsGuards(w: Wizard)
    requires PassedGuards(w) && StepIndex(w.step) < |Steps| - 1 && CanGoNext(w)
    ensures PassedGuards(HandleNext(w))
  {
    var r := HandleNext(w);
    assert r.ruleName == w.ruleName && r.basic == w.basic;
    assert StepIndex(r.step) == StepIndex(w.step) + 1;
    if w.step == NameStep {
      assert Trim(w.ruleName) != "";
    } else if w.step == BasicStep {
      assert w.basic.hasHardcoded || w.basic.offset >= 0;
    }
  }

  /** Back only returns to steps whose guards held on the way forward. */
  lemma BackKeepsGuards(w: Wizard)
    requires PassedGuards(w) && StepIndex(w.step) > 0
    ensures PassedGuards(HandleBack(w))
  {
    var r := HandleBack(w);
    assert r.ruleName == w.ruleName && r.basic == w.basic;
    assert StepIndex(r.step) == StepIndex(w.step) - 1;
  }

  /** No action breaks the guards: the name and the basic inputs can only be
      edited on their own steps, and Next leaves a step only when its guard
      holds. */
  lemma ApplyKeepsGuards(w: Wizard, a: Action)
    requires PassedGuards(w)
    ensures PassedGuards(Apply(w, a))
  {
    match a
    case PressNext =>
      if StepIndex(w.step) < |Steps| - 1 && CanGoNext(w) {
        NextKeepsGuards(w);
      }
    case PressBack =>
      if StepIndex(w.step) > 0 {
        BackKeepsGuards(w);
      }
    case NameInput(x) =>
      if w.step == NameStep {
        assert StepIndex(Apply(w, a).step) == 0;
      }
    case BasicInput(e) =>
      if w.step == BasicStep {
        assert Apply(w, a) == w.(basic := ApplyBasic(w.basic, e));
      }
    case ConditionalInput(e) =>
      if w.step == ConditionalStep {
        assert Apply(w, a) == w.(conditional := ApplyConditional(w.conditional, e));
      }
    case ConditionInput(e) =>
      if w.step == ConditionStep {
        assert Apply(w, a) == w.(conditionForm := ApplyCondition(w.conditionForm, e));
      }
    case MappingInput(e) =>
      if w.step == MappingStep {
        assert Apply(w, a) == w.(mappingForm := ApplyMapping(w.mappingForm, e));
      }
    case AdditionalInput(e) =>
      if w.step == AdditionalStep {
        assert Apply(w, a) == w.(additional := ApplyAdditional(w.additional, e));
      }
  }

  lemma {:induction false} RunKeepsGuards(w: Wizard, actions: seq<Action>)
    requires PassedGuards(w)
    ensures PassedGuards(Run(w, actions))
    decreases |actions|
  {
    if actions != [] {
      ApplyKeepsGuards(w, actions[0]);
      RunKeepsGuards(Apply(w, actions[0]), actions[1..]);
    }
  }

  /** No action puts the empty key into the mapping: only the mapping step
      edits it, and the prompt refuses an empty key. */
  lemma ApplyKeepsNoEmptyKey(w: Wizard, a: Action)
    requires "" !in w.mappingForm.mapping
    ensures "" !in Apply(w, a).mappingForm.mapping
  {
    match a
    case PressNext =>
    case PressBack =>
    case NameInput(_) =>
    case BasicInput(_) =>
    case ConditionalInput(_) =>
    case ConditionInput(_) =>
    case MappingInput(e) =>
      if w.step == MappingStep {
        assert Apply(w, a).mappingForm == ApplyMapping(w.mappingForm, e);
      }
    case AdditionalInput(_) =>
  }

  /** The mapping never gets an empty key: the prompt refuses one. */
  lemma {:induction false} RunKeepsNoEmptyKey(w: Wizard, actions: seq<Action>)
    requires "" !in w.mappingForm.mapping
    ensures "" !in Run(w, actions).mappingForm.mapping
    decreases |actions|
  {
    if actions != [] {
      ApplyKeepsNoEmptyKey(w, actions[0]);
      RunKeepsNoEmptyKey(Apply(w, actions[0]), actions[1..]);
    }
  }

  /** The rules a run of the dialog can complete under a given name:
      producible, under a name that is not blank, with a non-negative offset,
      and with a mapping that has no empty key. */
  predicate Completable(name: string, r: MetadataRule) {
    && Producible(r)
    && Trim(name) != ""
    && (r.offset.Some? ==> r.offset.value >= 0)
    && (r.mapping.Some? ==> "" !in r.mapping.value)
  }

  /** The Complete button is shown on the last step only; whatever the user
      did before, the rule it builds is completable under the wizard's name. */
  lemma CompletedRunsAreCompletable(actions: seq<Action>)
    requires Run(Initial, actions).step == AdditionalStep
    ensures Completable(Run(Initial, actions).ruleName, RuleOf(Run(Initial, actions)))
  {
    RunKeepsGuards(Initial, actions);
    RunKeepsNoEmptyKey(Initial, actions);
    RuleOfProducible(Run(Initial, actions));
  }

  // Building a completable rule through the dialog, one step at a time.

  /** Some key of a non-empty map. */
  ghost function PickKey(m: map<string, Scalar>): (k: string)
    requires m != map[]
    ensures k in m
  {
    var k :| k in m; k
  }

  /** Add every entry of `m` with the prompt, then type its value. */
  ghost function MappingEdits(m: map<string, Scalar>): seq<Action>
    decreases m.Keys
  {
    if m == map[] then []
    else
      var k := PickKey(m);
      assert (m - {k}).Keys < m.Keys;
      MappingEdits(m - {k}) + [MappingInput(AddMapping(Some(k)))] + [MappingInput(TypeMappingValue(k, m[k]))]
  }

  lemma {:induction false} MappingEditsBuild(w: Wizard, m: map<string, Scalar>)
    requires w.step == MappingStep && w.mappingForm == MappingForm(true, map[]) && "" !in m
    ensures Run(w, MappingEdits(m)) == w.(mappingForm := MappingForm(true, m))
    decreases m.Keys
  {
    if m != map[] {
      var k := PickKey(m);
      assert (m - {k}).Keys < m.Keys;
      var add, assign := MappingInput(AddMapping(Some(k))), MappingInput(TypeMappingValue(k, m[k]));
      MappingEditsBuild(w, m - {k});
      RunAppend(w, MappingEdits(m - {k}) + [add], [assign]);
      RunAppend(w, MappingEdits(m - {k}), [add]);
      var w' := w.(mappingForm := MappingForm(true, m - {k}));
      RunOne(w', add);
      RunOne(Apply(w', add), assign);
      assert (m - {k})[k := Str("")][k := m[k]] == m;
    }
  }

  /** Press + once per value, then type the value into the new input. */
  function ValueEdits(vs: seq<int>): seq<Action>
    decreases |vs|
  {
    if vs == [] then []
    else ValueEdits(vs[..|vs| - 1]) + [ConditionInput(AddValue)] + [ConditionInput(TypeValueAt(|vs| - 1, vs[|vs| - 1]))]
  }

  lemma {:induction false} ValueEditsBuild(w: Wizard, vs: seq<int>)
    requires w.step == ConditionStep && w.conditionForm.hasCondition && w.conditionForm.conditionOperator == In
    requires w.conditionForm.conditionValues == []
    ensures Run(w, ValueEdits(vs)) == w.(conditionForm := w.conditionForm.(conditionValues := vs))
    decreases |vs|
  {
    if vs != [] {
      var p := vs[..|vs| - 1];
      var add, assign := ConditionInput(AddValue), ConditionInput(TypeValueAt(|vs| - 1, vs[|vs| - 1]));
      ValueEditsBuild(w, p);
      RunAppend(w, ValueEdits(p) + [add], [assign]);
      RunAppend(w, ValueEdits(p), [add]);
      var w' := w.(conditionForm := w.conditionForm.(conditionValues := p));
      RunOne(w', add);
      RunOne(Apply(w', add), assign);
      assert (p + [0])[|vs| - 1 := vs[|vs| - 1]] == vs;
    }
  }

  /** The inputs of the basic step for `r`. */
  function BasicEdits(r: MetadataRule): seq<Action> {
    if r.hardcoded.Some? then [BasicInput(ToggleHardcoded(true))] + [BasicInput(ChooseHardcodedValue(r.hardcoded.value))]
    else [BasicInput(TypeOffset(r.offset.GetOr(0)))] + [BasicInput(ChooseType(r.valueType.GetOr(Byte)))]
  }

  /** The inputs of the conditional-offset step for `r`. */
  function ConditionalEdits(r: MetadataRule): seq<Action> {
    if r.conditionalOffset.Some? then
      [ConditionalInput(ToggleConditional(true))] + [ConditionalInput(TypeConditionalOffset(r.conditionalOffset.value))]
      + [ConditionalInput(TypeConditionalValue(r.conditionalValue.GetOr(0)))]
    else []
  }

  /** The inputs of the condition step for `r`. */
  function ConditionEdits(r: MetadataRule): seq<Action> {
    match r.condition
    case None => []
    case Some(c) =>
      [ConditionInput(ToggleCondition(true))] + [ConditionInput(ChooseOperator(c.operator))]
      + (if c.operator == In then ValueEdits(c.values.GetOr([]))
         else [ConditionInput(TypeConditionValue(c.value.GetOr(0)))])
  }

  /** The inputs of the mapping step for `r`. */
  ghost function MappingStepEdits(r: MetadataRule): seq<Action> {
    match r.mapping
    case None => []
    case Some(m) => [MappingInput(ToggleMapping(true))] + MappingEdits(m)
  }

  /** The inputs of the last step for `r`. */
  function AdditionalEdits(r: MetadataRule): seq<Action> {
    (if r.default.Some? then [AdditionalInput(ToggleDefault(true))] + [AdditionalInput(TypeDefault(r.default.value))] else [])
    + (if r.result.Some? then [AdditionalInput(ToggleResult(true))] + [AdditionalInput(ChooseResult(r.result.value))] else [])
    + (if r.description.Some? then [AdditionalInput(TypeDescription(r.description.value))] else [])
  }

  /** Type the name, then walk the five later steps with their inputs. */
  ghost function CompletingRun(name: string, r: MetadataRule): seq<Action> {
    [NameInput(name)] + [PressNext] + BasicEdits(r) + [PressNext] + ConditionalEdits(r)
    + [PressNext] + ConditionEdits(r) + [PressNext] + MappingStepEdits(r) + [PressNext] + AdditionalEdits(r)
  }

  lemma BasicPhase(w: Wizard, r: MetadataRule)
    requires w.step == BasicStep && w.basic == InitialBasic && WellShaped(r)
    ensures Run(w, BasicEdits(r)) == w.(basic := BasicFormFor(r))
  {
    var es := BasicEdits(r);
    RunAppend(w, [es[0]], [es[1]]);
    assert es == [es[0]] + [es[1]];
    RunOne(w, es[0]);
    RunOne(Apply(w, es[0]), es[1]);
  }

  lemma ConditionalPhase(w: Wizard, r: MetadataRule)
    requires w.step == ConditionalStep && w.conditional == InitialConditional && WellShaped(r)
    ensures Run(w, ConditionalEdits(r)) == w.(conditional := ConditionalFormFor(r))
  {
    if r.conditionalOffset.Some? {
      var es := ConditionalEdits(r);
      assert es == [es[0]] + [es[1]] + [es[2]];
      RunAppend(w, [es[0]] + [es[1]], [es[2]]);
      RunAppend(w, [es[0]], [es[1]]);
      RunOne(w, es[0]);
      RunOne(Apply(w, es[0]), es[1]);
      RunOne(Apply(Apply(w, es[0]), es[1]), es[2]);
    }
  }

  lemma ConditionPhase(w: Wizard, r: MetadataRule)
    requires w.step == ConditionStep && w.conditionForm == InitialCondition && WellShaped(r)
    ensures Run(w, ConditionEdits(r)) == w.(conditionForm := ConditionFormFor(r))
  {
    if r.condition.Some? {
      var c := r.condition.value;
      var a1, a2 := ConditionInput(ToggleCondition(true)), ConditionInput(ChooseOperator(c.operator));
      var rest := if c.operator == In then ValueEdits(c.values.GetOr([]))
                  else [ConditionInput(TypeConditionValue(c.value.GetOr(0)))];
      RunAppend(w, [a1] + [a2], rest);
      RunAppend(w, [a1], [a2]);
      RunOne(w, a1);
      RunOne(Apply(w, a1), a2);
      var w2 := Apply(Apply(w, a1), a2);
      if c.operator == In {
        ValueEditsBuild(w2, c.values.GetOr([]));
      } else {
        RunOne(w2, rest[0]);
      }
    }
  }

  lemma MappingPhase(w: Wizard, r: MetadataRule)
    requires w.step == MappingStep && w.mappingForm == InitialMapping
    requires r.mapping.Some? ==> "" !in r.mapping.value
    ensures Run(w, MappingStepEdits(r)) == w.(mappingForm := MappingFormFor(r))
  {
    if r.mapping.Some? {
      RunAppend(w, [MappingInput(ToggleMapping(true))], MappingEdits(r.mapping.value));
      RunOne(w, MappingInput(ToggleMapping(true)));
      MappingEditsBuild(Apply(w, MappingInput(ToggleMapping(true))), r.mapping.value);
    }
  }

  lemma DefaultAndResultPhase(w: Wizard, d: Option<Scalar>, res: Option<bool>)
    requires w.step == AdditionalStep && w.additional == InitialAdditional
    ensures var ds := if d.Some? then [AdditionalInput(ToggleDefault(true))] + [AdditionalInput(TypeDefault(d.value))] else [];
            var rs := if res.Some? then [AdditionalInput(ToggleResult(true))] + [AdditionalInput(ChooseResult(res.value))] else [];
            Run(w, ds + rs) == w.(additional := InitialAdditional.(hasDefault := d.Some?, defaultValue := d.GetOr(Str("")),
                                                                   hasResult := res.Some?, resultValue := res.GetOr(false)))
  {
    var ds := if d.Some? then [AdditionalInput(ToggleDefault(true))] + [AdditionalInput(TypeDefault(d.value))] else [];
    var rs := if res.Some? then [AdditionalInput(ToggleResult(true))] + [AdditionalInput(ChooseResult(res.value))] else [];
    RunAppend(w, ds, rs);
    var w1 := w.(additional := InitialAdditional.(hasDefault := d.Some?, defaultValue := d.GetOr(Str(""))));
    if d.Some? {
      RunAppend(w, [ds[0]], [ds[1]]);
      RunOne(w, ds[0]);
      RunOne(Apply(w, ds[0]), ds[1]);
    }
    assert Run(w, ds) == w1;
    if res.Some? {
      RunAppend(w1, [rs[0]], [rs[1]]);
      RunOne(w1, rs[0]);
      RunOne(Apply(w1, rs[0]), rs[1]);
    }
  }

  lemma AdditionalPhase(w: Wizard, r: MetadataRule)
    requires w.step == AdditionalStep && w.additional == InitialAdditional
    ensures Run(w, AdditionalEdits(r)) == w.(additional := AdditionalFormFor(r))
  {
    var ds := if r.default.Some? then [AdditionalInput(ToggleDefault(true))] + [AdditionalInput(TypeDefault(r.default.value))] else [];
    var rs := if r.result.Some? then [AdditionalInput(ToggleResult(true))] + [AdditionalInput(ChooseResult(r.result.value))] else [];
    var fs := if r.description.Some? then [AdditionalInput(TypeDescription(r.description.value))] else [];
    assert AdditionalEdits(r) == ds + rs + fs;
    RunAppend(w, ds + rs, fs);
    DefaultAndResultPhase(w, r.default, r.result);
    if r.description.Some? {
      RunOne(Run(w, ds + rs), fs[0]);
    }
  }

  /** One step of a run: after the prefix `p` the state is `w`, the step's
      inputs `es` lead to `w'`, and Next is enabled there. */
  lemma StepThrough(w0: Wizard, p: seq<Action>, es: seq<Action>, w: Wizard, w': Wizard)
    requires Run(w0, p) == w && Run(w, es) == w'
    requires StepIndex(w'.step) < |Steps| - 1 && CanGoNext(w')
    ensures Run(w0, p + es + [PressNext]) == HandleNext(w')
  {
    RunAppend(w0, p + es, [PressNext]);
    RunAppend(w0, p, es);
    RunOne(w', PressNext);
  }

  /** Typing a name that is not blank and pressing Next reaches the basic step. */
  lemma NameStepReach(name: string)
    requires Trim(name) != ""
    ensures Run(Initial, [NameInput(name)] + [PressNext]) == Initial.(ruleName := name, step := BasicStep)
  {
    var w0 := Initial.(ruleName := name);
    RunOne(Initial, NameInput(name));
    assert CanGoNext(w0) by {
      assert w0.step == NameStep && Trim(w0.ruleName) != "";
    }
    StepThrough(Initial, [], [NameInput(name)], Initial, w0);
    assert [] + [NameInput(name)] + [PressNext] == [NameInput(name)] + [PressNext];
  }

  /** After a prefix that reaches the basic step with its initial inputs,
      the basic inputs of `r` and Next reach the conditional step. */
  lemma BasicStepThrough(w0: Wizard, p: seq<Action>, w: Wizard, r: MetadataRule)
    requires Run(w0, p) == w && w.step == BasicStep && w.basic == InitialBasic
    requires WellShaped(r) && (r.offset.Some? ==> r.offset.value >= 0)
    ensures Run(w0, p + BasicEdits(r) + [PressNext]) == w.(step := ConditionalStep, basic := BasicFormFor(r))
  {
    BasicPhase(w, r);
    var w' := w.(basic := BasicFormFor(r));
    assert CanGoNext(w') by {
      assert w'.basic.hasHardcoded || w'.basic.offset >= 0;
    }
    StepThrough(w0, p, BasicEdits(r), w, w');
  }

  /** The same for the conditional-offset step. */
  lemma ConditionalStepThrough(w0: Wizard, p: seq<Action>, w: Wizard, r: MetadataRule)
    requires Run(w0, p) == w && w.step == ConditionalStep && w.conditional == InitialConditional && WellShaped(r)
    ensures Run(w0, p + ConditionalEdits(r) + [PressNext])
         == w.(step := ConditionStep, conditional := ConditionalFormFor(r))
  {
    ConditionalPhase(w, r);
    var w' := w.(conditional := ConditionalFormFor(r));
    assert CanGoNext(w') by {
      assert w'.step == ConditionalStep;
    }
    StepThrough(w0, p, ConditionalEdits(r), w, w');
  }

  /** The same for the condition step. */
  lemma ConditionStepThrough(w0: Wizard, p: seq<Action>, w: Wizard, r: MetadataRule)
    requires Run(w0, p) == w && w.step == ConditionStep && w.conditionForm == InitialCondition && WellShaped(r)
    ensures Run(w0, p + ConditionEdits(r) + [PressNext])
         == w.(step := MappingStep, conditionForm := ConditionFormFor(r))
  {
    ConditionPhase(w, r);
    var w' := w.(conditionForm := ConditionFormFor(r));
    assert CanGoNext(w') by {
      assert w'.step == ConditionStep;
    }
    StepThrough(w0, p, ConditionEdits(r), w, w');
  }

  /** The same for the mapping step. */
  lemma MappingStepThrough(w0: Wizard, p: seq<Action>, w: Wizard, r: MetadataRule)
    requires Run(w0, p) == w && w.step == MappingStep && w.mappingForm == InitialMapping
    requires r.mapping.Some? ==> "" !in r.mapping.value
    ensures Run(w0, p + MappingStepEdits(r) + [PressNext])
         == w.(step := AdditionalStep, mappingForm := MappingFormFor(r))
  {
    MappingPhase(w, r);
    var w' := w.(mappingForm := MappingFormFor(r));
    assert CanGoNext(w') by {
      assert w'.step == MappingStep;
    }
    StepThrough(w0, p, MappingStepEdits(r), w, w');
  }

  /** The name and basic steps of CompletingRun, each followed by Next. */
  function FirstTwoSteps(name: string, r: MetadataRule): seq<Action> {
    [NameInput(name)] + [PressNext] + BasicEdits(r) + [PressNext]
  }

  lemma FirstTwoStepsReach(name: string, r: MetadataRule)
    requires Completable(name, r)
    ensures Run(Initial, FirstTwoSteps(name, r))
         == Initial.(step := ConditionalStep, ruleName := name, basic := BasicFormFor(r))
  {
    NameStepReach(name);
    BasicStepThrough(Initial, [NameInput(name)] + [PressNext], Initial.(ruleName := name, step := BasicStep), r);
  }

  /** The first three steps of CompletingRun: the name, the basic inputs
      and the conditional-offset inputs, each followed by Next. */
  function FirstSteps(name: string, r: MetadataRule): seq<Action> {
    FirstTwoSteps(name, r) + ConditionalEdits(r) + [PressNext]
  }

  /** After the first three steps the wizard is on the condition step with
      the name, basic and conditional inputs of `r`. */
  lemma FirstStepsReach(name: string, r: MetadataRule)
    requires Completable(name, r)
    ensures Run(Initial, FirstSteps(name, r))
         == Initial.(step := ConditionStep, ruleName := name, basic := BasicFormFor(r),
                     conditional := ConditionalFormFor(r))
  {
    FirstTwoStepsReach(name, r);
    ConditionalStepThrough(Initial, FirstTwoSteps(name, r),
                           Initial.(step := ConditionalStep, ruleName := name, basic := BasicFormFor(r)), r);
  }

  /** Every completable rule is what some run of the dialog builds when the
      user presses Complete on the last step: with CompletedRunsAreCompletable,
      the dialog builds exactly the completable rules. */
  lemma {:induction false} EveryCompletableRuleIsBuilt(name: string, r: MetadataRule)
    requires Completable(name, r)
    ensures var w := Run(Initial, CompletingRun(name, r));
      w.step == AdditionalStep && w.ruleName == name && RuleOf(w) == r
  {
    var p3 := FirstSteps(name, r);
    FirstStepsReach(name, r);
    var w3 := Initial.(step := ConditionStep, ruleName := name, basic := BasicFormFor(r),
                       conditional := ConditionalFormFor(r));
    ConditionStepThrough(Initial, p3, w3, r);
    var p4 := p3 + ConditionEdits(r) + [PressNext];
    var w4 := w3.(step := MappingStep, conditionForm := ConditionFormFor(r));
    MappingStepThrough(Initial, p4, w4, r);
    var p5 := p4 + MappingStepEdits(r) + [PressNext];

    assert CompletingRun(name, r) == p5 + AdditionalEdits(r);
    RunAppend(Initial, p5, AdditionalEdits(r));
    AdditionalPhase(w4.(step := AdditionalStep, mappingForm := MappingFormFor(r)), r);
    WizardBuildsEveryProducibleRule(name, r);
  }
}
