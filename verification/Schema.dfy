/**
 Object types, boxed input values, and the outcomes of operations on a Realm.

 An input value is what a language binding hands to the accessor code: null, a scalar,
 an accessor for a row or a list that is already managed, a vector, or a dictionary that
 describes an object.
 */
module Schema {

  datatype Option<+T> = None | Some(value: T)

  datatype Error =
    | BadCast
    | MissingPropertyValue
    | InvalidNullKey
    | DuplicateKey
    | MissingPrimaryKey
    | DetachedRow
    | OutOfBoundsIndex
    | InvalidProperty
    | ReadOnlyProperty
    | ModifyPrimaryKey
    | InvalidatedObject
    | WrongTransactionState
    | CommitFailed
    | UserError(code: int)

  datatype Result<+T> = Ok(value: T) | Err(error: Error)

  datatype ScalarType = IntType | BoolType | StringType | DataType | DateType | FloatType | DoubleType

  datatype Scalar =
    | IntValue(i: int)
    | BoolValue(b: bool)
    | StringValue(s: string)
    | DataValue(bytes: seq<bv8>)
    | DateValue(seconds: int, nanoseconds: int)
    | FloatValue(f: real)
    | DoubleValue(d: real)

  function TypeOf(v: Scalar): ScalarType {
    match v
    case IntValue(_) => IntType
    case BoolValue(_) => BoolType
    case StringValue(_) => StringType
    case DataValue(_) => DataType
    case DateValue(_, _) => DateType
    case FloatValue(_) => FloatType
    case DoubleValue(_) => DoubleType
  }

  // What a non-nullable column of a new row holds before anything is written to it.
  function Zero(ty: ScalarType): Scalar {
    match ty
    case IntType => IntValue(0)
    case BoolType => BoolValue(false)
    case StringType => StringValue("")
    case DataType => DataValue([])
    case DateType => DateValue(0, 0)
    case FloatType => FloatValue(0.0)
    case DoubleType => DoubleValue(0.0)
  }

  datatype ElementType = ScalarElement(ty: ScalarType) | ObjectElement(target: string)

  // A property is a single value or a list. A link is a single object and is always nullable.
  datatype PropertyType = Single(elem: ElementType, optional: bool) | Array(elem: ElementType) {
    predicate Nullable() {
      Single? && (optional || elem.ObjectElement?)
    }
  }

  // The address of one cell: a column of a row of a table.
  datatype Pos = Pos(table: string, row: nat, col: nat)

  datatype Input =
    | NullInput
    | ScalarInput(scalar: Scalar)
    | RowInput(table: string, row: nat)
    | ListInput(at: Pos)
    | Vector(elements: seq<Input>)
    | Dict(fields: map<string, Input>, allowMissing: bool)

  // A leaf mentions no object that still has to be created.
  predicate IsLeaf(v: Input) {
    match v
    case Vector(elements) => forall e <- elements :: IsLeaf(e)
    case Dict(_, _) => false
    case _ => true
  }

  type Leaf = v: Input | IsLeaf(v) witness NullInput

  function Weight(v: Input): nat {
    if IsLeaf(v) then 0 else 1
  }

  datatype Property = Property(name: string, ptype: PropertyType, default: Option<Leaf>)

  // A persisted property's table column is its position in `props`.
  datatype ObjectSchema = ObjectSchema(props: seq<Property>, primary: Option<nat>, computed: set<string>) {
    predicate IsPrimary(i: nat) {
      primary == Some(i)
    }
  }

  type Schemas = map<string, ObjectSchema>

  predicate ValidElement(schemas: Schemas, et: ElementType) {
    et.ObjectElement? ==> et.target in schemas
  }

  // Only int and string properties can be primary keys; every link names a known type.
  predicate ValidObjectSchema(schemas: Schemas, os: ObjectSchema) {
    && os.props != []
    && (os.primary.Some? ==>
          os.primary.value < |os.props|
          && os.props[os.primary.value].ptype.Single?
          && os.props[os.primary.value].ptype.elem in {ScalarElement(IntType), ScalarElement(StringType)})
    && (forall i | 0 <= i < |os.props| :: ValidElement(schemas, os.props[i].ptype.elem))
    && (forall i, j | 0 <= i < j < |os.props| :: os.props[i].name != os.props[j].name)
  }

  predicate ValidSchemas(schemas: Schemas) {
    forall t | t in schemas :: ValidObjectSchema(schemas, schemas[t])
  }

  datatype CreatePolicy = Skip | ForceCreate | UpdateAll | UpdateModified

  // What the accessor code can ask of the Realm it works in.
  datatype Context = Context(schemas: Schemas, inMigration: bool)
}
