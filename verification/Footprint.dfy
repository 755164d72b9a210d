/**
 What an input value says: which columns of which objects it provides, and what for. This is
 computed from the input and the schemas alone.
 */
module Footprint {
  import opened Schema
  import opened Store
  import opened Accessor

  // A column of the object of type `table` whose primary key is `key`; for a type without
  // primary key the key is null, and the column is meant in all of its objects.
  datatype Foot = Foot(table: string, key: Cell, col: nat)

  // A column and the input given for it.
  datatype Claim = Claim(foot: Foot, v: Input)

  function Identity(os: ObjectSchema, value: Input): Result<Cell> {
    if KeyedSchema(os) then KeyFor(os, value) else Ok(Null)
  }

  function Given(value: Input, name: string): Input {
    if value.Dict? && name in value.fields then value.fields[name] else NullInput
  }

  // What an object description says of its own object: its key and every property it provides.
  function OwnClaims(os: ObjectSchema, t: string, value: Input): set<Claim> {
    if value.Dict? && Identity(os, value).Ok? then
      set i: nat | i < |os.props| && (os.IsPrimary(i) || os.props[i].name in value.fields)
        :: Claim(Foot(t, Identity(os, value).value, i), Given(value, os.props[i].name))
    else {}
  }

  function Claims(schemas: Schemas, t: string, value: Input): set<Claim>
    decreases value, 2, 0
  {
    if t in schemas && value.Dict? then
      OwnClaims(schemas[t], t, value) + NestedClaims(schemas, schemas[t], value, 0)
    else {}
  }

  function NestedClaims(schemas: Schemas, os: ObjectSchema, value: Input, i: nat): set<Claim>
    requires value.Dict?
    decreases value, 1, |os.props| - i
  {
    if i >= |os.props| then {}
    else FieldClaims(schemas, os, value, i) + NestedClaims(schemas, os, value, i + 1)
  }

  function FieldClaims(schemas: Schemas, os: ObjectSchema, value: Input, i: nat): set<Claim>
    requires value.Dict? && i < |os.props|
    decreases value, 0, 0
  {
    if os.props[i].name in value.fields then
      InputClaims(schemas, os.props[i].ptype.elem, value.fields[os.props[i].name])
    else {}
  }

  function InputClaims(schemas: Schemas, et: ElementType, v: Input): set<Claim>
    decreases v, 3, 0
  {
    if et.ScalarElement? then {}
    else
      match v
      case Dict(_, _) => Claims(schemas, et.target, v)
      case Vector(_) => ElementClaims(schemas, et, v, 0)
      case _ => {}
  }

  // What the elements of `v` from position `i` on say.
  function ElementClaims(schemas: Schemas, et: ElementType, v: Input, i: nat): set<Claim>
    requires v.Vector?
    decreases v, 0, |v.elements| - i
  {
    if i >= |v.elements| then {}
    else InputClaims(schemas, et, v.elements[i]) + ElementClaims(schemas, et, v, i + 1)
  }

  function TailClaims(schemas: Schemas, et: ElementType, v: Input, i: nat): set<Claim>
    requires v.Vector?
  {
    if et.ScalarElement? then {} else ElementClaims(schemas, et, v, i)
  }

  // ---- The columns alone ----

  function Named(claims: set<Claim>): set<Foot> {
    set k <- claims :: k.foot
  }

  function OwnFeet(os: ObjectSchema, t: string, value: Input): set<Foot> {
    Named(OwnClaims(os, t, value))
  }

  function Feet(schemas: Schemas, t: string, value: Input): set<Foot> {
    Named(Claims(schemas, t, value))
  }

  function NestedFeet(schemas: Schemas, os: ObjectSchema, value: Input, i: nat): set<Foot>
    requires value.Dict?
  {
    Named(NestedClaims(schemas, os, value, i))
  }

  function FieldFeet(schemas: Schemas, os: ObjectSchema, value: Input, i: nat): set<Foot>
    requires value.Dict? && i < |os.props|
  {
    Named(FieldClaims(schemas, os, value, i))
  }

  function InputFeet(schemas: Schemas, et: ElementType, v: Input): set<Foot> {
    Named(InputClaims(schemas, et, v))
  }

  function TailFeet(schemas: Schemas, et: ElementType, v: Input, i: nat): set<Foot>
    requires v.Vector?
  {
    Named(TailClaims(schemas, et, v, i))
  }

  lemma OwnFoot(os: ObjectSchema, t: string, value: Input, i: nat)
    requires value.Dict? && Identity(os, value).Ok? && i < |os.props|
    requires os.IsPrimary(i) || os.props[i].name in value.fields
    ensures var foot := Foot(t, Identity(os, value).value, i);
            Claim(foot, Given(value, os.props[i].name)) in OwnClaims(os, t, value) && foot in OwnFeet(os, t, value)
  {
    assert Claim(Foot(t, Identity(os, value).value, i), Given(value, os.props[i].name)) in OwnClaims(os, t, value);
  }

  lemma {:induction false} LeafFeet(schemas: Schemas, et: ElementType, v: Input)
    requires IsLeaf(v)
    ensures InputClaims(schemas, et, v) == {} && InputFeet(schemas, et, v) == {}
    decreases v, 1, 0
  {
    if v.Vector? {
      LeafElementClaims(schemas, et, v, 0);
    }
  }

  lemma {:induction false} LeafElementClaims(schemas: Schemas, et: ElementType, v: Input, i: nat)
    requires v.Vector? && IsLeaf(v)
    ensures ElementClaims(schemas, et, v, i) == {}
    decreases v, 0, |v.elements| - i
  {
    if i < |v.elements| {
      LeafFeet(schemas, et, v.elements[i]);
      LeafElementClaims(schemas, et, v, i + 1);
    }
  }

  lemma {:induction false} FieldClaimsNested(schemas: Schemas, os: ObjectSchema, value: Input, from: nat, i: nat)
    requires value.Dict? && from <= i < |os.props|
    ensures FieldClaims(schemas, os, value, i) <= NestedClaims(schemas, os, value, from)
    ensures FieldFeet(schemas, os, value, i) <= NestedFeet(schemas, os, value, from)
    decreases i - from
  {
    if from < i {
      FieldClaimsNested(schemas, os, value, from + 1, i);
    }
  }

  // ---- Untangled inputs ----

  // Every described object has a primary key, and while a property of an object is being set
  // from nested descriptions, none of them provides that same property of that same object again.
  predicate Untangled(schemas: Schemas, t: string, value: Input)
    decreases value, 2, 0
  {
    t in schemas && value.Dict? ==>
      KeyedSchema(schemas[t]) && UntangledFields(schemas, t, schemas[t], value, 0)
  }

  predicate UntangledFields(schemas: Schemas, t: string, os: ObjectSchema, value: Input, i: nat)
    requires value.Dict?
    decreases value, 1, |os.props| - i
  {
    i < |os.props| ==>
      UntangledField(schemas, t, os, value, i) && UntangledFields(schemas, t, os, value, i + 1)
  }

  predicate UntangledField(schemas: Schemas, t: string, os: ObjectSchema, value: Input, i: nat)
    requires value.Dict? && i < |os.props|
    decreases value, 0, 0
  {
    os.props[i].name in value.fields ==>
      && UntangledInput(schemas, os.props[i].ptype.elem, value.fields[os.props[i].name])
      && (Identity(os, value).Ok? ==>
            Foot(t, Identity(os, value).value, i) !in FieldFeet(schemas, os, value, i))
  }

  predicate UntangledInput(schemas: Schemas, et: ElementType, v: Input)
    decreases v, 3, 0
  {
    et.ObjectElement? ==>
      match v
      case Dict(_, _) => Untangled(schemas, et.target, v)
      case Vector(_) => UntangledElements(schemas, et, v, 0)
      case _ => true
  }

  predicate UntangledElements(schemas: Schemas, et: ElementType, v: Input, i: nat)
    requires v.Vector?
    decreases v, 0, |v.elements| - i
  {
    i < |v.elements| ==>
      UntangledInput(schemas, et, v.elements[i]) && UntangledElements(schemas, et, v, i + 1)
  }

  lemma {:induction false} LeafUntangled(schemas: Schemas, et: ElementType, v: Input)
    requires IsLeaf(v)
    ensures UntangledInput(schemas, et, v)
    decreases v, 1, 0
  {
    if v.Vector? {
      LeafElementsUntangled(schemas, et, v, 0);
    }
  }

  lemma {:induction false} LeafElementsUntangled(schemas: Schemas, et: ElementType, v: Input, i: nat)
    requires v.Vector? && IsLeaf(v)
    ensures UntangledElements(schemas, et, v, i)
    decreases v, 0, |v.elements| - i
  {
    if i < |v.elements| {
      LeafUntangled(schemas, et, v.elements[i]);
      LeafElementsUntangled(schemas, et, v, i + 1);
    }
  }

  // ---- Consistent inputs ----

  // Whether a description of an object of type `t` may find an existing object under this
  // policy. Without a primary key only UpdateModified, which reuses what a link points to, does.
  predicate Shared(schemas: Schemas, t: string, policy: CreatePolicy) {
    policy.UpdateModified? || (t in schemas && schemas[t].primary.Some?)
  }

  // The two do not give one column of one object different inputs. Keys are never in conflict.
  predicate Compatible(schemas: Schemas, a: set<Claim>, b: set<Claim>, policy: CreatePolicy) {
    forall k <- a, l <- b | k.foot == l.foot && Shared(schemas, k.foot.table, policy) ::
      k.v == l.v || (k.foot.table in schemas && schemas[k.foot.table].IsPrimary(k.foot.col))
  }

  // The object with this key is not described further in `feet`.
  predicate Elsewhere(os: ObjectSchema, t: string, key: Cell, feet: set<Foot>) {
    forall f <- feet | f.table == t && f.key == key :: os.IsPrimary(f.col)
  }

  // Descriptions of one object agree, and no object is described again inside its own
  // description (it may be mentioned by its key alone).
  predicate Consistent(schemas: Schemas, t: string, value: Input, policy: CreatePolicy)
    decreases value, 2, 0
  {
    t in schemas && value.Dict? ==> ConsistentFields(schemas, t, schemas[t], value, 0, policy)
  }

  predicate ConsistentFields(schemas: Schemas, t: string, os: ObjectSchema, value: Input, i: nat,
          policy: CreatePolicy)
    requires value.Dict?
    decreases value, 1, |os.props| - i
  {
    i < |os.props| ==>
      && ConsistentField(schemas, t, os, value, i, policy)
      && Compatible(schemas, FieldClaims(schemas, os, value, i), NestedClaims(schemas, os, value, i + 1), policy)
      && ConsistentFields(schemas, t, os, value, i + 1, policy)
  }

  predicate ConsistentField(schemas: Schemas, t: string, os: ObjectSchema, value: Input, i: nat, policy: CreatePolicy)
    requires value.Dict? && i < |os.props|
    decreases value, 0, 0
  {
    os.props[i].name in value.fields ==>
      && ConsistentInput(schemas, os.props[i].ptype.elem, value.fields[os.props[i].name], policy)
      && (Identity(os, value).Ok? && Shared(schemas, t, policy) ==>
            Elsewhere(os, t, Identity(os, value).value, FieldFeet(schemas, os, value, i)))
  }

  predicate ConsistentInput(schemas: Schemas, et: ElementType, v: Input, policy: CreatePolicy)
    decreases v, 3, 0
  {
    et.ObjectElement? ==>
      match v
      case Dict(_, _) => Consistent(schemas, et.target, v, policy)
      case Vector(_) => ConsistentElements(schemas, et, v, 0, policy)
      case _ => true
  }

  predicate ConsistentElements(schemas: Schemas, et: ElementType, v: Input, i: nat, policy: CreatePolicy)
    requires v.Vector?
    decreases v, 0, |v.elements| - i
  {
    i < |v.elements| ==>
      && ConsistentInput(schemas, et, v.elements[i], policy)
      && Compatible(schemas, InputClaims(schemas, et, v.elements[i]), ElementClaims(schemas, et, v, i + 1), policy)
      && ConsistentElements(schemas, et, v, i + 1, policy)
  }

  lemma {:induction false} LeafConsistent(schemas: Schemas, et: ElementType, v: Input, policy: CreatePolicy)
    requires IsLeaf(v)
    ensures ConsistentInput(schemas, et, v, policy)
    decreases v, 1, 0
  {
    if v.Vector? {
      LeafElementsConsistent(schemas, et, v, 0, policy);
    }
  }

  lemma {:induction false} LeafElementsConsistent(schemas: Schemas, et: ElementType, v: Input, i: nat,
          policy: CreatePolicy)
    requires v.Vector? && IsLeaf(v)
    ensures ConsistentElements(schemas, et, v, i, policy)
    decreases v, 0, |v.elements| - i
  {
    if i < |v.elements| {
      LeafConsistent(schemas, et, v.elements[i], policy);
      LeafFeet(schemas, et, v.elements[i]);
      LeafElementsConsistent(schemas, et, v, i + 1, policy);
    }
  }

  // A consistent description says nothing further about its own object at any depth.
  lemma {:induction false} ConsistentElsewhere(schemas: Schemas, t: string, os: ObjectSchema, value: Input, i: nat,
          policy: CreatePolicy)
    requires value.Dict? && Identity(os, value).Ok? && ConsistentFields(schemas, t, os, value, i, policy)
    requires Shared(schemas, t, policy)
    ensures Elsewhere(os, t, Identity(os, value).value, NestedFeet(schemas, os, value, i))
    decreases |os.props| - i
  {
    if i < |os.props| {
      ConsistentElsewhere(schemas, t, os, value, i + 1, policy);
    }
  }

  // ---- A consistent description agrees with itself ----

  lemma CompatibleUnion(schemas: Schemas, a: set<Claim>, b: set<Claim>, policy: CreatePolicy)
    requires Compatible(schemas, a, a, policy) && Compatible(schemas, b, b, policy) && Compatible(schemas, a, b, policy)
    ensures Compatible(schemas, a + b, a + b, policy)
  {
  }

  lemma {:induction false} ClaimsAgree(schemas: Schemas, t: string, value: Input, policy: CreatePolicy)
    requires Consistent(schemas, t, value, policy)
    ensures Compatible(schemas, Claims(schemas, t, value), Claims(schemas, t, value), policy)
    decreases value, 2, 0
  {
    if t in schemas && value.Dict? {
      var os := schemas[t];
      NestedClaimsAgree(schemas, t, os, value, 0, policy);
      if Identity(os, value).Ok? && Shared(schemas, t, policy) {
        ConsistentElsewhere(schemas, t, os, value, 0, policy);
      }
      OwnClaimsAgree(schemas, t, value, NestedClaims(schemas, os, value, 0), policy);
      CompatibleUnion(schemas, OwnClaims(os, t, value), NestedClaims(schemas, os, value, 0), policy);
    }
  }

  lemma OwnClaimsAgree(schemas: Schemas, t: string, value: Input, nested: set<Claim>, policy: CreatePolicy)
    requires t in schemas
    requires Identity(schemas[t], value).Ok? && Shared(schemas, t, policy) ==>
               Elsewhere(schemas[t], t, Identity(schemas[t], value).value, Named(nested))
    ensures var own := OwnClaims(schemas[t], t, value);
            Compatible(schemas, own, own, policy) && Compatible(schemas, own, nested, policy)
  {
    forall k, l | k in OwnClaims(schemas[t], t, value) && l in nested && k.foot == l.foot
        && Shared(schemas, k.foot.table, policy)
      ensures schemas[t].IsPrimary(k.foot.col)
    {
      assert l.foot in Named(nested);
    }
  }

  lemma {:induction false} NestedClaimsAgree(schemas: Schemas, t: string, os: ObjectSchema, value: Input, i: nat,
          policy: CreatePolicy)
    requires value.Dict? && ConsistentFields(schemas, t, os, value, i, policy)
    ensures Compatible(schemas, NestedClaims(schemas, os, value, i), NestedClaims(schemas, os, value, i), policy)
    decreases value, 1, |os.props| - i
  {
    if i < |os.props| {
      NestedClaimsAgree(schemas, t, os, value, i + 1, policy);
      if os.props[i].name in value.fields {
        InputClaimsAgree(schemas, os.props[i].ptype.elem, value.fields[os.props[i].name], policy);
      }
      CompatibleUnion(schemas, FieldClaims(schemas, os, value, i), NestedClaims(schemas, os, value, i + 1), policy);
    }
  }

  lemma {:induction false} InputClaimsAgree(schemas: Schemas, et: ElementType, v: Input, policy: CreatePolicy)
    requires ConsistentInput(schemas, et, v, policy)
    ensures Compatible(schemas, InputClaims(schemas, et, v), InputClaims(schemas, et, v), policy)
    decreases v, 3, 0
  {
    if et.ObjectElement? && v.Dict? {
      ClaimsAgree(schemas, et.target, v, policy);
    } else if et.ObjectElement? && v.Vector? {
      ElementClaimsAgree(schemas, et, v, 0, policy);
    }
  }

  lemma {:induction false} ElementClaimsAgree(schemas: Schemas, et: ElementType, v: Input, i: nat, policy: CreatePolicy)
    requires v.Vector? && ConsistentElements(schemas, et, v, i, policy)
    ensures Compatible(schemas, ElementClaims(schemas, et, v, i), ElementClaims(schemas, et, v, i), policy)
    decreases v, 0, |v.elements| - i
  {
    if i < |v.elements| {
      InputClaimsAgree(schemas, et, v.elements[i], policy);
      ElementClaimsAgree(schemas, et, v, i + 1, policy);
      CompatibleUnion(schemas, InputClaims(schemas, et, v.elements[i]), ElementClaims(schemas, et, v, i + 1), policy);
    }
  }

  /** A consistent description stays consistent when a list repeats it. */
  lemma {:induction false} RepeatedIsConsistent(schemas: Schemas, et: ElementType, v: Input, i: nat,
          policy: CreatePolicy)
    requires v.Vector? && i < |v.elements| && ConsistentInput(schemas, et, v.elements[i], policy)
    requires forall j | i <= j < |v.elements| :: v.elements[j] == v.elements[i]
    ensures ConsistentElements(schemas, et, v, i, policy)
    ensures ElementClaims(schemas, et, v, i) == InputClaims(schemas, et, v.elements[i])
    decreases |v.elements| - i
  {
    InputClaimsAgree(schemas, et, v.elements[i], policy);
    if i + 1 < |v.elements| {
      RepeatedIsConsistent(schemas, et, v, i + 1, policy);
    }
  }
}
