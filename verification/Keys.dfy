/**
 Which object a description means: the primary key it asks for, said of the fields of the
 description and the properties of the type alone.
 */
module Keys {
  import opened Schema
  import opened Store
  import opened Accessor

  // What a description gives for a property: its own field, or else the property's default.
  function Asked(prop: Property, value: Input): (v: Option<Input>)
    ensures value.Dict? && prop.name in value.fields ==> v == Some(value.fields[prop.name])
    ensures value.Dict? && prop.name !in value.fields ==> v == prop.default
  {
    if value.Dict? && prop.name in value.fields then Some(value.fields[prop.name]) else prop.default
  }

  // `key` is the primary key that the description asks for.
  predicate KeyIs(os: ObjectSchema, value: Input, key: Cell)
    requires KeyedSchema(os)
  {
    var prop := os.props[os.primary.value];
    && value.Dict?
    && match Asked(prop, value)
       case None => prop.ptype.Nullable() && key == Null
       case Some(NullInput) => prop.ptype.Nullable() && key == Null
       case Some(ScalarInput(s)) => prop.ptype.elem == ScalarElement(TypeOf(s)) && key == Value(s)
       case _ => false
  }

  /** The key that is looked up is the one given, or the default if none is given, or else null. */
  lemma KeyForExact(os: ObjectSchema, value: Input)
    requires KeyedSchema(os) && os.props[os.primary.value].ptype.elem.ScalarElement?
    ensures forall key :: KeyFor(os, value) == Ok(key) <==> KeyIs(os, value, key)
    ensures var prop := os.props[os.primary.value];
            var v := Asked(prop, value);
            KeyFor(os, value).Err? ==>
              KeyFor(os, value).error ==
                if !value.Dict? then BadCast
                else if v.None? then MissingPropertyValue
                else if v == Some(NullInput) && !prop.ptype.Nullable() then InvalidNullKey
                else BadCast
  {
  }
}
