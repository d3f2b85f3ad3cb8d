/** The group editor (app/components/EditDialog.tsx) and its per-rule
    RuleEditor. Every handler builds a new group or rule by spreading the old
    one, so each is a function from the old value to the new one. */
module EditDialog {
  import opened Types
  import opened JsBuiltins
  import RuleWizard

  // ---------------------------------------------------------------------
  // updateField

  datatype Field = GroupIdField | GroupNameField | NotesField | DataSourceField
                 | EnabledField | DriversField | MetadataRulesField

  /** The field `updateField` is called with, and the value for it. */
  datatype FieldValue =
    | GroupIdValue(groupId: string)
    | GroupNameValue(groupName: string)
    | NotesValue(notes: string)
    | DataSourceValue(dataSource: DataSource)
    | EnabledValue(enabled: bool)
    | DriversValue(drivers: seq<DriverEntry>)
    | MetadataRulesValue(rules: map<string, MetadataRule>)

  function FieldOf(v: FieldValue): Field {
    match v
    case GroupIdValue(_) => GroupIdField
    case GroupNameValue(_) => GroupNameField
    case NotesValue(_) => NotesField
    case DataSourceValue(_) => DataSourceField
    case EnabledValue(_) => EnabledField
    case DriversValue(_) => DriversField
    case MetadataRulesValue(_) => MetadataRulesField
  }

  /** `r` agrees with `g` on `_id` and on every field other than `f`. */
  ghost predicate SameExcept(g: DriverGroup, r: DriverGroup, f: Field) {
    && r.id == g.id
    && (f != GroupIdField ==> r.groupId == g.groupId)
    && (f != GroupNameField ==> r.groupName == g.groupName)
    && (f != NotesField ==> r.notes == g.notes)
    && (f != DataSourceField ==> r.dataSource == g.dataSource)
    && (f != EnabledField ==> r.enabled == g.enabled)
    && (f != DriversField ==> r.drivers == g.drivers)
    && (f != MetadataRulesField ==> r.metadataRules == g.metadataRules)
  }

  /** The field named by `v` holds `v`'s value in `g`. */
  ghost predicate Holds(g: DriverGroup, v: FieldValue) {
    match v
    case GroupIdValue(x) => g.groupId == Some(x)
    case GroupNameValue(x) => g.groupName == x
    case NotesValue(x) => g.notes == Some(x)
    case DataSourceValue(x) => g.dataSource == Some(x)
    case EnabledValue(x) => g.enabled == x
    case DriversValue(x) => g.drivers == Some(x)
    case MetadataRulesValue(x) => g.metadataRules == Some(x)
  }

  /** updateField: `{ ...prev, [field]: value }`. */
  function UpdateField(g: DriverGroup, v: FieldValue): (r: DriverGroup)
    ensures SameExcept(g, r, FieldOf(v))
    ensures Holds(r, v)
  {
    match v
    case GroupIdValue(x) => g.(groupId := Some(x))
    case GroupNameValue(x) => g.(groupName := x)
    case NotesValue(x) => g.(notes := Some(x))
    case DataSourceValue(x) => g.(dataSource := Some(x))
    case EnabledValue(x) => g.(enabled := x)
    case DriversValue(x) => g.(drivers := Some(x))
    case MetadataRulesValue(x) => g.(metadataRules := Some(x))
  }

  /** Two updates of one field: the second wins. */
  lemma UpdateFieldLastWins(g: DriverGroup, v: FieldValue, v': FieldValue)
    requires FieldOf(v) == FieldOf(v')
    ensures UpdateField(UpdateField(g, v), v') == UpdateField(g, v')
  {
  }

  /** Updates of two different fields commute. */
  lemma UpdateFieldsCommute(g: DriverGroup, v: FieldValue, v': FieldValue)
    requires FieldOf(v) != FieldOf(v')
    ensures UpdateField(UpdateField(g, v), v') == UpdateField(UpdateField(g, v'), v)
  {
  }

  // ---------------------------------------------------------------------
  // The drivers tab

  /** `formData.drivers || []` */
  function DriversOf(g: DriverGroup): seq<DriverEntry> {
    g.drivers.GetOr([])
  }

  /** updateDriver: the input at `index` (an index of the rendered list) now
      holds `value`; the length and every other entry are kept. */
  function UpdateDriver(g: DriverGroup, index: nat, value: string): (r: DriverGroup)
    requires index < |DriversOf(g)|
    ensures SameExcept(g, r, DriversField) && r.drivers.Some?
    ensures |DriversOf(r)| == |DriversOf(g)|
    ensures DriversOf(r)[index] == Plain(value)
    ensures forall j :: 0 <= j < |DriversOf(g)| && j != index ==> DriversOf(r)[j] == DriversOf(g)[j]
  {
    UpdateField(g, DriversValue(DriversOf(g)[index := Plain(value)]))
  }

  /** addDriver: one more driver, the empty name, at the end. */
  function AddDriver(g: DriverGroup): (r: DriverGroup)
    ensures SameExcept(g, r, DriversField) && r.drivers.Some?
    ensures |DriversOf(r)| == |DriversOf(g)| + 1
    ensures DriversOf(r)[..|DriversOf(g)|] == DriversOf(g)
    ensures DriversOf(r)[|DriversOf(g)|] == Plain("")
  {
    UpdateField(g, DriversValue(DriversOf(g) + [Plain("")]))
  }

  /** removeDriver: `filter((_, i) => i !== index)`; an index outside the
      list removes nothing. */
  function RemoveDriver(g: DriverGroup, index: int): (r: DriverGroup)
    ensures SameExcept(g, r, DriversField) && r.drivers.Some?
    ensures 0 <= index < |DriversOf(g)| ==>
              |DriversOf(r)| == |DriversOf(g)| - 1
              && DriversOf(r) == DriversOf(g)[..index] + DriversOf(g)[index + 1..]
    ensures !(0 <= index < |DriversOf(g)|) ==> DriversOf(r) == DriversOf(g)
  {
    FilterOutIndexIsCut(DriversOf(g), index);
    UpdateField(g, DriversValue(FilterOutIndex(DriversOf(g), index)))
  }

  /** Removing the driver just added leaves the list as it was. */
  lemma RemoveUndoesAdd(g: DriverGroup)
    ensures RemoveDriver(AddDriver(g), |DriversOf(g)|) == g.(drivers := Some(DriversOf(g)))
  {
    FilterOutAppended(DriversOf(g), Plain(""));
  }

  /** Typing the old name back into an input restores the group. */
  lemma UpdateDriverRestores(g: DriverGroup, index: nat, value: string, previous: string)
    requires g.drivers.Some? && index < |DriversOf(g)| && DriversOf(g)[index] == Plain(previous)
    ensures UpdateDriver(UpdateDriver(g, index, value), index, previous) == g
  {
    assert DriversOf(g)[index := Plain(value)][index := Plain(previous)] == DriversOf(g);
  }

  // ---------------------------------------------------------------------
  // The rules tab

  /** `prev.metadataRules`, with a missing map read as `{}`. */
  function RulesOf(g: DriverGroup): map<string, MetadataRule> {
    g.metadataRules.GetOr(map[])
  }

  /** updateRule (also what the wizard's onComplete does): `ruleName` now
      maps to `rule`; every other rule and every other field is kept. */
  function UpdateRule(g: DriverGroup, ruleName: string, rule: MetadataRule): (r: DriverGroup)
    ensures SameExcept(g, r, MetadataRulesField) && r.metadataRules.Some?
    ensures ruleName in RulesOf(r) && RulesOf(r)[ruleName] == rule
    ensures AgreeExcept(RulesOf(g), RulesOf(r), ruleName)
  {
    g.(metadataRules := Some(SpreadWith(RulesOf(g), ruleName, rule)))
  }

  /** deleteRule, given the answer to the confirmation dialog: when
      confirmed only `ruleName` is removed; otherwise nothing changes. */
  function DeleteRule(g: DriverGroup, ruleName: string, confirmed: bool): (r: DriverGroup)
    ensures confirmed ==> SameExcept(g, r, MetadataRulesField) && r.metadataRules.Some?
    ensures confirmed ==> ruleName !in RulesOf(r) && AgreeExcept(RulesOf(g), RulesOf(r), ruleName)
    ensures !confirmed ==> r == g
  {
    if confirmed then g.(metadataRules := Some(SpreadWithout(RulesOf(g), ruleName))) else g
  }

  /** Adding a new rule and deleting it leaves the rules as they were. */
  lemma DeleteUndoesUpdateRule(g: DriverGroup, ruleName: string, rule: MetadataRule)
    requires ruleName !in RulesOf(g)
    ensures DeleteRule(UpdateRule(g, ruleName, rule), ruleName, true) == g.(metadataRules := Some(RulesOf(g)))
  {
    WithoutUndoesWith(RulesOf(g), ruleName, rule);
  }

  /** handleWizardComplete: the wizard's rule is stored under the wizard's
      name, and what is stored there is a rule the wizard can produce. */
  lemma WizardCompleteStoresProducibleRule(g: DriverGroup, w: RuleWizard.Wizard)
    ensures var r := UpdateRule(g, w.ruleName, RuleWizard.RuleOf(w));
      && w.ruleName in RulesOf(r) && RuleWizard.Producible(RulesOf(r)[w.ruleName])
      && AgreeExcept(RulesOf(g), RulesOf(r), w.ruleName)
  {
    RuleWizard.RuleOfProducible(w);
  }

  // ---------------------------------------------------------------------
  // Saving

  /** The text sent when the user gave no reason. */
  const DefaultChangeReason := "עדכון"

  /** `changeReason || 'עדכון'` */
  function ChangeReasonSent(changeReason: string): string {
    if changeReason != "" then changeReason else DefaultChangeReason
  }

  /** The PUT that handleSave issues: to the edited group's `_id`, carrying
      the form's document and the change reason. */
  datatype SaveRequest = SaveRequest(targetId: string, document: DriverGroup, changeReason: string)

  function HandleSave(group: DriverGroup, formData: DriverGroup, changeReason: string): (req: SaveRequest)
    ensures req.targetId == group.id && req.document == formData
    ensures req.changeReason != ""
    ensures changeReason != "" ==> req.changeReason == changeReason
    ensures changeReason == "" ==> req.changeReason == DefaultChangeReason
  {
    SaveRequest(group.id, formData, ChangeReasonSent(changeReason))
  }

  // ---------------------------------------------------------------------
  // RuleEditor

  /** `ruleData.mapping`, with a missing map read as `{}`. */
  function MappingOf(rule: MetadataRule): map<string, Scalar> {
    rule.mapping.GetOr(map[])
  }

  /** RuleEditor's updateMapping: only `key` changes, and no other field of
      the rule. */
  function EditorUpdateMapping(rule: MetadataRule, key: string, value: Scalar): (r: MetadataRule)
    ensures r == rule.(mapping := r.mapping) && r.mapping.Some?
    ensures key in MappingOf(r) && MappingOf(r)[key] == value
    ensures AgreeExcept(MappingOf(rule), MappingOf(r), key)
  {
    rule.(mapping := Some(SpreadWith(MappingOf(rule), key, value)))
  }

  /** RuleEditor's addMappingEntry with the prompt's answer: a non-empty key
      maps to ''; an empty or cancelled prompt changes nothing. */
  function EditorAddMappingEntry(rule: MetadataRule, key: Option<string>): (r: MetadataRule)
    ensures key.Some? && key.value != "" ==>
              r == rule.(mapping := r.mapping) && key.value in MappingOf(r) && MappingOf(r)[key.value] == Str("")
              && AgreeExcept(MappingOf(rule), MappingOf(r), key.value)
    ensures !(key.Some? && key.value != "") ==> r == rule
  {
    if key.Some? && key.value != "" then EditorUpdateMapping(rule, key.value, Str("")) else rule
  }

  /** RuleEditor's deleteMappingEntry: only `key` is removed. */
  function EditorDeleteMappingEntry(rule: MetadataRule, key: string): (r: MetadataRule)
    ensures r == rule.(mapping := r.mapping) && r.mapping.Some?
    ensures key !in MappingOf(r)
    ensures AgreeExcept(MappingOf(rule), MappingOf(r), key)
  {
    rule.(mapping := Some(SpreadWithout(MappingOf(rule), key)))
  }

  /** Adding a new key in the editor and deleting it again restores the mapping. */
  lemma EditorDeleteUndoesAdd(rule: MetadataRule, key: string)
    requires key != "" && key !in MappingOf(rule)
    ensures EditorDeleteMappingEntry(EditorAddMappingEntry(rule, Some(key)), key) == rule.(mapping := Some(MappingOf(rule)))
  {
    WithoutUndoesWith(MappingOf(rule), key, Str(""));
  }

  /** The field updateCondition is called with, and its new value. */
  datatype ConditionUpdate = SetOperator(operator: Operator) | SetValue(value: int) | SetValues(values: seq<int>)

  /** updateCondition, which is only reachable while the rule has a
      condition: exactly the named part of the condition is replaced. */
  function UpdateCondition(rule: MetadataRule, u: ConditionUpdate): (r: MetadataRule)
    requires rule.condition.Some?
    ensures r == rule.(condition := r.condition) && r.condition.Some?
    ensures var c, c' := rule.condition.value, r.condition.value;
      match u
      case SetOperator(op) => c'.operator == op && c'.value == c.value && c'.values == c.values
      case SetValue(x) => c'.operator == c.operator && c'.value == Some(x) && c'.values == c.values
      case SetValues(xs) => c'.operator == c.operator && c'.value == c.value && c'.values == Some(xs)
  {
    var c := rule.condition.value;
    match u
    case SetOperator(op) => rule.(condition := Some(c.(operator := op)))
    case SetValue(x) => rule.(condition := Some(c.(value := Some(x))))
    case SetValues(xs) => rule.(condition := Some(c.(values := Some(xs))))
  }

  /** `condition.values || []` */
  function ValuesOf(rule: MetadataRule): seq<int>
    requires rule.condition.Some?
  {
    rule.condition.value.values.GetOr([])
  }

  /** The editor's + button for `in` values: 0 appended to the list. */
  function EditorAddValue(rule: MetadataRule): (r: MetadataRule)
    requires rule.condition.Some?
    ensures r.condition.Some? && r == rule.(condition := r.condition)
    ensures r.condition.value == rule.condition.value.(values := Some(ValuesOf(rule) + [0]))
  {
    UpdateCondition(rule, SetValues(ValuesOf(rule) + [0]))
  }

  /** Editing the `in` value at `idx`: only that position changes. */
  function EditorUpdateValue(rule: MetadataRule, idx: nat, value: int): (r: MetadataRule)
    requires rule.condition.Some? && idx < |ValuesOf(rule)|
    ensures r.condition.Some? && r == rule.(condition := r.condition)
    ensures r.condition.value.operator == rule.condition.value.operator
    ensures r.condition.value.value == rule.condition.value.value
    ensures |ValuesOf(r)| == |ValuesOf(rule)| && ValuesOf(r)[idx] == value
    ensures forall j :: 0 <= j < |ValuesOf(rule)| && j != idx ==> ValuesOf(r)[j] == ValuesOf(rule)[j]
  {
    UpdateCondition(rule, SetValues(ValuesOf(rule)[idx := value]))
  }

  /** Deleting the `in` value at `idx`: the others keep their order. */
  function EditorRemoveValue(rule: MetadataRule, idx: int): (r: MetadataRule)
    requires rule.condition.Some?
    ensures r.condition.Some? && r == rule.(condition := r.condition)
    ensures r.condition.value.operator == rule.condition.value.operator
    ensures r.condition.value.value == rule.condition.value.value
    ensures 0 <= idx < |ValuesOf(rule)| ==> ValuesOf(r) == ValuesOf(rule)[..idx] + ValuesOf(rule)[idx + 1..]
    ensures !(0 <= idx < |ValuesOf(rule)|) ==> ValuesOf(r) == ValuesOf(rule)
  {
    FilterOutIndexIsCut(ValuesOf(rule), idx);
    UpdateCondition(rule, SetValues(FilterOutIndex(ValuesOf(rule), idx)))
  }

  /** The editor does not keep the wizard's shape: switching a well-shaped
      condition with a scalar operator to `in` keeps its scalar `value`, so
      the rule is no longer well shaped, and adding a value then leaves both
      `value` and `values` set. */
  lemma OperatorSwitchKeepsStaleValue(rule: MetadataRule, op: Operator, v: int)
    requires RuleWizard.WellShaped(rule)
    requires rule.condition == Some(Condition(op, Some(v), None)) && op != In
    ensures var switched := UpdateCondition(rule, SetOperator(In));
            && !RuleWizard.WellShaped(switched)
            && switched.condition.value.value == Some(v)
            && var added := EditorAddValue(switched);
               added.condition.value.value == Some(v) && added.condition.value.values == Some([0])
  {
    var switched := UpdateCondition(rule, SetOperator(In));
    assert ValuesOf(switched) + [0] == [0];
  }

  /** The fields updateRuleField is called with, and their new value. */
  datatype RuleFieldValue =
    | HardcodedValue(hardcoded: bool)
    | OffsetValue(offset: int)
    | TypeValue(valueType: ValueType)
    | ConditionalOffsetValue(conditionalOffset: int)
    | ConditionalValueValue(conditionalValue: int)
    | DefaultValue(default: Scalar)
    | ResultValue(result: bool)

  /** updateRuleField: `{ ...ruleData, [field]: value }`: the named field is
      set and the other nine are kept. */
  function UpdateRuleField(rule: MetadataRule, v: RuleFieldValue): (r: MetadataRule)
    ensures r.mapping == rule.mapping && r.condition == rule.condition && r.description == rule.description
    ensures r.hardcoded == (if v.HardcodedValue? then Some(v.hardcoded) else rule.hardcoded)
    ensures r.offset == (if v.OffsetValue? then Some(v.offset) else rule.offset)
    ensures r.valueType == (if v.TypeValue? then Some(v.valueType) else rule.valueType)
    ensures r.conditionalOffset == (if v.ConditionalOffsetValue? then Some(v.conditionalOffset) else rule.conditionalOffset)
    ensures r.conditionalValue == (if v.ConditionalValueValue? then Some(v.conditionalValue) else rule.conditionalValue)
    ensures r.default == (if v.DefaultValue? then Some(v.default) else rule.default)
    ensures r.result == (if v.ResultValue? then Some(v.result) else rule.result)
  {
    match v
    case HardcodedValue(x) => rule.(hardcoded := Some(x))
    case OffsetValue(x) => rule.(offset := Some(x))
    case TypeValue(x) => rule.(valueType := Some(x))
    case ConditionalOffsetValue(x) => rule.(conditionalOffset := Some(x))
    case ConditionalValueValue(x) => rule.(conditionalValue := Some(x))
    case DefaultValue(x) => rule.(default := Some(x))
    case ResultValue(x) => rule.(result := Some(x))
  }

  /** Editing a field the rule already has keeps the wizard's shape, except
      the conditional pair, which moves together. */
  lemma UpdatePresentFieldKeepsShape(rule: MetadataRule, v: RuleFieldValue)
    requires RuleWizard.WellShaped(rule)
    requires v.HardcodedValue? ==> rule.hardcoded.Some?
    requires v.OffsetValue? ==> rule.offset.Some?
    requires v.TypeValue? ==> rule.valueType.Some?
    requires v.ConditionalOffsetValue? || v.ConditionalValueValue? ==> rule.conditionalOffset.Some?
    ensures RuleWizard.WellShaped(UpdateRuleField(rule, v))
  {
  }
}
