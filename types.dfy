/** The records shared by the administrative pages and the lookup endpoint
    (app/types.ts). Every optional TypeScript field (`x?: T`) is an `Option`;
    `Record<string, T>` is a Dafny `map`, so no key order is modelled. */
module Types {

  datatype Option<+T> = None | Some(value: T) {
    /** `x || d` / `x ?? d`: the value when present, the fallback otherwise. */
    function GetOr(default: T): T {
      match this
      case Some(v) => v
      case None => default
    }
  }

  /** `string | number`, the type of mapping values and rule defaults.
      Numbers are the integers the forms produce. */
  datatype Scalar = Str(text: string) | Num(number: int)

  datatype Operator = Equals | NotEquals | LessThan | GreaterThan | In

  datatype ValueType = Byte | Int16 | Int32

  datatype DataSource = Metadata | Data

  /** A rule's boolean condition. The wizard writes `value` for the four
      comparison operators and `values` for `in`. */
  datatype Condition = Condition(operator: Operator, value: Option<int>, values: Option<seq<int>>)

  /** MetadataRule with every field optional; `description` is the extra
      field the wizard adds. */
  datatype MetadataRule = MetadataRule(
    hardcoded: Option<bool>,
    offset: Option<int>,
    valueType: Option<ValueType>,
    conditionalOffset: Option<int>,
    conditionalValue: Option<int>,
    condition: Option<Condition>,
    mapping: Option<map<string, Scalar>>,
    default: Option<Scalar>,
    result: Option<bool>,
    description: Option<string>)

  /** `{}`: a rule with no field set. */
  const EmptyRule := MetadataRule(None, None, None, None, None, None, None, None, None, None)

  /** A stored driver entry: a bare name, or an object carrying a `name`. */
  datatype DriverEntry = Plain(text: string) | Named(name: string)

  /** DriverGroup; `id` is the store's `_id`, compared as a string. */
  datatype DriverGroup = DriverGroup(
    id: string,
    groupId: Option<string>,
    groupName: string,
    notes: Option<string>,
    dataSource: Option<DataSource>,
    enabled: bool,
    drivers: Option<seq<DriverEntry>>,
    metadataRules: Option<map<string, MetadataRule>>)
}
