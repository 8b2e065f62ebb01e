/** The zero-dependency schema checker: a subset of JSON Schema Draft 2020-12 walked together
    with a JSON value, and proved equal to a position-by-position reading of the standard
    (Core sections 4.2.2, 10.3.1.2, 10.3.2.1, 10.3.2.3; Validation sections 6.1.1-6.1.3, 6.5.3). */
module SchemaCheck {
  import opened Options

  /** A JSON value; an object's fields are in insertion order, and no key occurs twice. */
  datatype Json =
    | Null
    | Bool(b: bool)
    | Int(i: int)
    | Number(x: real)
    | Str(s: string)
    | Arr(items: seq<Json>)
    | Obj(fields: seq<Field>)

  datatype Field = Field(key: string, value: Json)

  datatype Additional = Open | Closed | Under(schema: Schema)

  datatype Schema = Schema(
    constant: Option<Json>,
    choices: Option<seq<Json>>,
    types: Option<seq<string>>,
    required: seq<string>,
    properties: map<string, Schema>,
    additional: Additional,
    items: Option<Schema>)

  /** Equality of values; the order of an object's fields does not count. */
  predicate Equal(a: Json, b: Json) {
    match (a, b)
    case (Arr(xs), Arr(ys)) => |xs| == |ys| && forall i :: 0 <= i < |xs| ==> Equal(xs[i], ys[i])
    case (Obj(fs), Obj(gs)) =>
      |fs| == |gs| && forall f :: f in fs ==> exists g :: g in gs && g.key == f.key && Equal(f.value, g.value)
    case (Obj(_), _) => false
    case (Arr(_), _) => false
    case _ => a == b
  }

  function TypeName(v: Json): string {
    match v
    case Null => "null"
    case Bool(_) => "boolean"
    case Int(_) => "integer"
    case Number(_) => "number"
    case Str(_) => "string"
    case Arr(_) => "array"
    case Obj(_) => "object"
  }

  predicate TypeMatches(v: Json, expected: string) {
    if expected == "number" then TypeName(v) == "integer" || TypeName(v) == "number" else TypeName(v) == expected
  }

  predicate HasKey(fields: seq<Field>, key: string) {
    exists f :: f in fields && f.key == key
  }

  // ── the checker ───────────────────────────────────────────────────────────────

  datatype Step = Key(key: string) | Index(index: nat)

  datatype Flaw =
    | WrongConst
    | NotInEnum
    | WrongType
    | MissingProperty(key: string)
    | UnexpectedProperties(keys: set<string>)

  datatype Failure = Failure(path: seq<Step>, flaw: Flaw)

  function FirstMissing(required: seq<string>, fields: seq<Field>): Option<string> {
    if required == [] then None
    else if !HasKey(fields, required[0]) then Some(required[0])
    else FirstMissing(required[1..], fields)
  }

  function Extra(s: Schema, fields: seq<Field>): set<string> {
    set f | f in fields && f.key !in s.properties :: f.key
  }

  /** The first check that `v` itself, leaving its children aside, fails. */
  function LocalFlaw(s: Schema, v: Json): Option<Flaw> {
    if s.constant.Some? && !Equal(v, s.constant.value) then Some(WrongConst)
    else if s.choices.Some? && !(exists c :: c in s.choices.value && Equal(v, c)) then Some(NotInEnum)
    else if s.types.Some? && !(exists t :: t in s.types.value && TypeMatches(v, t)) then Some(WrongType)
    else if !v.Obj? then None
    else
      match FirstMissing(s.required, v.fields)
      case Some(key) => Some(MissingProperty(key))
      case None =>
        if s.additional.Closed? && Extra(s, v.fields) != {} then Some(UnexpectedProperties(Extra(s, v.fields)))
        else None
  }

  /** The schema a field is checked against, if any. */
  function ChildSchema(s: Schema, key: string): Option<Schema> {
    if key in s.properties then Some(s.properties[key])
    else if s.additional.Under? then Some(s.additional.schema)
    else None
  }

  /** None when the value is accepted, else the first failure met. */
  function Validate(s: Schema, v: Json, path: seq<Step>): Option<Failure>
    decreases v, 1
  {
    var flaw := LocalFlaw(s, v);
    if flaw.Some? then Some(Failure(path, flaw.value))
    else
      match v
      case Obj(fields) => ValidateFields(s, fields, path)
      case Arr(items) => if s.items.Some? then ValidateItems(s.items.value, items, 0, path) else None
      case _ => None
  }

  function ValidateFields(s: Schema, fields: seq<Field>, path: seq<Step>): Option<Failure>
    decreases fields, 0
  {
    if fields == [] then None
    else
      var f := fields[0];
      var child := ChildSchema(s, f.key);
      var failure := if child.Some? then Validate(child.value, f.value, path + [Key(f.key)]) else None;
      if failure.Some? then failure else ValidateFields(s, fields[1..], path)
  }

  function ValidateItems(s: Schema, items: seq<Json>, from: nat, path: seq<Step>): Option<Failure>
    decreases items, 0
  {
    if items == [] then None
    else
      var failure := Validate(s, items[0], path + [Index(from)]);
      if failure.Some? then failure else ValidateItems(s, items[1..], from + 1, path)
  }

  // ── the position-by-position reading ──────────────────────────────────────────

  /** Section 6.1.1: the types a value has; an integer is also a number. */
  ghost predicate HasType(v: Json, t: string) {
    match v
    case Null => t == "null"
    case Bool(_) => t == "boolean"
    case Int(_) => t == "integer" || t == "number"
    case Number(_) => t == "number"
    case Str(_) => t == "string"
    case Arr(_) => t == "array"
    case Obj(_) => t == "object"
  }

  /** Sections 10.3.2.1 and 10.3.2.3: `properties` governs the keys it names, and
      `additionalProperties` the others. */
  ghost predicate Governs(s: Schema, key: string, child: Schema) {
    if key in s.properties then child == s.properties[key] else s.additional == Under(child)
  }

  /** Following `path` from `v` under `s` through properties, additionalProperties and items
      arrives at value `v'`, which `s'` governs. */
  ghost predicate Reaches(s: Schema, v: Json, path: seq<Step>, s': Schema, v': Json)
    decreases |path|
  {
    if path == [] then s' == s && v' == v
    else
      match path[0]
      case Key(k) =>
        && v.Obj?
        && exists f, child ::
             f in v.fields && f.key == k && Governs(s, k, child) && Reaches(child, f.value, path[1..], s', v')
      case Index(i) =>
        && v.Arr? && s.items.Some? && i < |v.items|
        && Reaches(s.items.value, v.items[i], path[1..], s', v')
  }

  function Keys(fields: seq<Field>): set<string> {
    set f | f in fields :: f.key
  }

  /** What a schema asserts of one value, whatever its children are. */
  ghost predicate LocallyValid(s: Schema, v: Json) {
    && (s.constant.Some? ==> Equal(v, s.constant.value))
    && (s.choices.Some? ==> exists c :: c in s.choices.value && Equal(v, c))
    && (s.types.Some? ==> exists t :: t in s.types.value && HasType(v, t))
    && (v.Obj? ==> forall k :: k in s.required ==> k in Keys(v.fields))
    && (v.Obj? && s.additional.Closed? ==> forall f :: f in v.fields ==> f.key in s.properties)
  }

  /** The required key at `i` is absent and every one before it is there. */
  ghost predicate FirstAbsent(required: seq<string>, fields: seq<Field>, i: int) {
    && 0 <= i < |required| && required[i] !in Keys(fields)
    && forall j :: 0 <= j < i ==> required[j] in Keys(fields)
  }

  lemma {:induction false} FirstMissingIsMissing(required: seq<string>, fields: seq<Field>) returns (i: int)
    ensures FirstMissing(required, fields) == None <==> forall k :: k in required ==> k in Keys(fields)
    ensures FirstMissing(required, fields).Some? ==>
              FirstAbsent(required, fields, i) && FirstMissing(required, fields) == Some(required[i])
  {
    i := 0;
    if required != [] {
      assert HasKey(fields, required[0]) <==> required[0] in Keys(fields);
      if required[0] in Keys(fields) {
        var k := FirstMissingIsMissing(required[1..], fields);
        i := k + 1;
        assert FirstMissing(required, fields).Some? ==> forall j :: 0 < j <= i ==> required[j] == required[1..][j - 1];
      }
    }
  }

  lemma TypeMatchesIff(v: Json, t: string)
    ensures TypeMatches(v, t) <==> HasType(v, t)
  {
  }

  lemma LocalFlawIff(s: Schema, v: Json)
    ensures LocalFlaw(s, v) == None <==> LocallyValid(s, v)
  {
    forall t ensures TypeMatches(v, t) <==> HasType(v, t) {
      TypeMatchesIff(v, t);
    }
    hide TypeMatches, HasType;
    if v.Obj? {
      var i := FirstMissingIsMissing(s.required, v.fields);
      assert forall f :: f in v.fields && f.key !in s.properties ==> f.key in Extra(s, v.fields);
    }
  }

  predicate ConstHolds(s: Schema, v: Json) {
    s.constant.Some? ==> Equal(v, s.constant.value)
  }

  predicate EnumHolds(s: Schema, v: Json) {
    s.choices.Some? ==> exists c :: c in s.choices.value && Equal(v, c)
  }

  ghost predicate TypeHolds(s: Schema, v: Json) {
    s.types.Some? ==> exists t :: t in s.types.value && HasType(v, t)
  }

  /** Which check is reported: the first to fail of const, enum, type, required and closed
      object; the first required key that is absent; and exactly the keys not allowed for. */
  lemma LocalFlawIsFirst(s: Schema, v: Json)
    ensures var flaw := LocalFlaw(s, v);
            var valued := ConstHolds(s, v) && EnumHolds(s, v) && TypeHolds(s, v);
            && (flaw == Some(WrongConst) <==> !ConstHolds(s, v))
            && (flaw == Some(NotInEnum) <==> ConstHolds(s, v) && !EnumHolds(s, v))
            && (flaw == Some(WrongType) <==> ConstHolds(s, v) && EnumHolds(s, v) && !TypeHolds(s, v))
            && (valued && v.Obj? ==>
                  forall i :: FirstAbsent(s.required, v.fields, i) ==> flaw == Some(MissingProperty(s.required[i])))
            && (forall keys :: flaw == Some(UnexpectedProperties(keys)) <==>
                  && valued && v.Obj? && (forall k :: k in s.required ==> k in Keys(v.fields)) && s.additional.Closed?
                  && keys == Keys(v.fields) - s.properties.Keys && keys != {})
  {
    forall t ensures TypeMatches(v, t) <==> HasType(v, t) {
      TypeMatchesIff(v, t);
    }
    hide TypeMatches, HasType, Equal;
    if v.Obj? {
      var i := FirstMissingIsMissing(s.required, v.fields);
      assert Extra(s, v.fields) == Keys(v.fields) - s.properties.Keys;
    }
  }

  lemma {:induction false} FieldsAccepted(s: Schema, fields: seq<Field>, path: seq<Step>, f: Field)
    requires ValidateFields(s, fields, path) == None && f in fields && ChildSchema(s, f.key).Some?
    ensures Validate(ChildSchema(s, f.key).value, f.value, path + [Key(f.key)]) == None
  {
    if f != fields[0] {
      FieldsAccepted(s, fields[1..], path, f);
    }
  }

  lemma {:induction false} ItemsAccepted(s: Schema, items: seq<Json>, from: nat, path: seq<Step>, i: nat)
    requires ValidateItems(s, items, from, path) == None && i < |items|
    ensures Validate(s, items[i], path + [Index(from + i)]) == None
  {
    if i > 0 {
      ItemsAccepted(s, items[1..], from + 1, path, i - 1);
    }
  }

  /** An accepted value is locally valid at every position that can be reached. */
  lemma {:induction false} AcceptedThroughout(s: Schema, v: Json, path: seq<Step>, rest: seq<Step>,
                                              s': Schema, v': Json)
    requires Validate(s, v, path) == None && Reaches(s, v, rest, s', v')
    ensures LocallyValid(s', v')
    decreases |rest|
  {
    LocalFlawIff(s, v);
    if rest != [] {
      match rest[0]
      case Key(k) =>
        var f, child :|
          f in v.fields && f.key == k && Governs(s, k, child) && Reaches(child, f.value, rest[1..], s', v');
        assert ChildSchema(s, k) == Some(child);
        FieldsAccepted(s, v.fields, path, f);
        AcceptedThroughout(child, f.value, path + [Key(k)], rest[1..], s', v');
      case Index(i) =>
        ItemsAccepted(s.items.value, v.items, 0, path, i);
        AcceptedThroughout(s.items.value, v.items[i], path + [Index(i)], rest[1..], s', v');
    }
  }

  lemma ReachesThroughField(s: Schema, v: Json, f: Field, rest: seq<Step>, s': Schema, v': Json)
    requires v.Obj? && f in v.fields && ChildSchema(s, f.key).Some?
    requires Reaches(ChildSchema(s, f.key).value, f.value, rest, s', v')
    ensures Reaches(s, v, [Key(f.key)] + rest, s', v')
  {
    assert ([Key(f.key)] + rest)[1..] == rest;
    assert Governs(s, f.key, ChildSchema(s, f.key).value);
  }

  lemma ReachesThroughItem(s: Schema, v: Json, i: nat, rest: seq<Step>, s': Schema, v': Json)
    requires v.Arr? && s.items.Some? && i < |v.items|
    requires Reaches(s.items.value, v.items[i], rest, s', v')
    ensures Reaches(s, v, [Index(i)] + rest, s', v')
  {
    assert ([Index(i)] + rest)[1..] == rest;
  }

  /** A rejection names a reachable position and what is wrong there. */
  lemma {:induction false} RejectionIsFounded(s: Schema, v: Json, path: seq<Step>)
    returns (rest: seq<Step>, s': Schema, v': Json)
    requires Validate(s, v, path).Some?
    ensures Validate(s, v, path).value.path == path + rest
    ensures Reaches(s, v, rest, s', v') && !LocallyValid(s', v')
    ensures LocalFlaw(s', v') == Some(Validate(s, v, path).value.flaw)
    decreases v, 1
  {
    hide LocallyValid, LocalFlaw, ChildSchema;
    LocalFlawIff(s, v);
    if LocalFlaw(s, v).Some? {
      rest, s', v' := [], s, v;
    } else if v.Obj? {
      var f, deeper;
      f, deeper, s', v' := RejectedField(s, v.fields, path);
      rest := [Key(f.key)] + deeper;
      ReachesThroughField(s, v, f, deeper, s', v');
      assert path + rest == path + [Key(f.key)] + deeper;
    } else {
      var i, deeper;
      i, deeper, s', v' := RejectedItem(s.items.value, v.items, 0, path);
      rest := [Index(i)] + deeper;
      ReachesThroughItem(s, v, i, deeper, s', v');
      assert path + rest == path + [Index(i)] + deeper;
    }
  }

  lemma {:induction false} RejectedField(s: Schema, fields: seq<Field>, path: seq<Step>)
    returns (f: Field, rest: seq<Step>, s': Schema, v': Json)
    requires ValidateFields(s, fields, path).Some?
    ensures f in fields && ChildSchema(s, f.key).Some?
    ensures ValidateFields(s, fields, path).value.path == path + [Key(f.key)] + rest
    ensures Reaches(ChildSchema(s, f.key).value, f.value, rest, s', v') && !LocallyValid(s', v')
    ensures LocalFlaw(s', v') == Some(ValidateFields(s, fields, path).value.flaw)
    decreases fields, 0
  {
    f := fields[0];
    var child := ChildSchema(s, f.key);
    if child.Some? && Validate(child.value, f.value, path + [Key(f.key)]).Some? {
      rest, s', v' := RejectionIsFounded(child.value, f.value, path + [Key(f.key)]);
    } else {
      f, rest, s', v' := RejectedField(s, fields[1..], path);
    }
  }

  lemma {:induction false} RejectedItem(s: Schema, items: seq<Json>, from: nat, path: seq<Step>)
    returns (i: nat, rest: seq<Step>, s': Schema, v': Json)
    requires ValidateItems(s, items, from, path).Some?
    ensures from <= i < from + |items|
    ensures ValidateItems(s, items, from, path).value.path == path + [Index(i)] + rest
    ensures Reaches(s, items[i - from], rest, s', v') && !LocallyValid(s', v')
    ensures LocalFlaw(s', v') == Some(ValidateItems(s, items, from, path).value.flaw)
    decreases items, 0
  {
    if Validate(s, items[0], path + [Index(from)]).Some? {
      i := from;
      rest, s', v' := RejectionIsFounded(s, items[0], path + [Index(from)]);
    } else {
      i, rest, s', v' := RejectedItem(s, items[1..], from + 1, path);
    }
  }

  /** The checker accepts exactly the values that are locally valid at every position. */
  lemma AcceptsIff(s: Schema, v: Json)
    ensures Validate(s, v, []) == None <==>
            forall path, s', v' :: Reaches(s, v, path, s', v') ==> LocallyValid(s', v')
  {
    if Validate(s, v, []) == None {
      forall path, s', v' | Reaches(s, v, path, s', v') ensures LocallyValid(s', v') {
        AcceptedThroughout(s, v, [], path, s', v');
      }
    } else {
      var rest, s', v' := RejectionIsFounded(s, v, []);
      assert Reaches(s, v, rest, s', v') && !LocallyValid(s', v');
    }
  }

  // ── the order of the walk ─────────────────────────────────────────────────────

  /** A value met on the walk, with the schema it is checked against. */
  datatype Visit = Visit(path: seq<Step>, schema: Schema, value: Json)

  /** Every position in document order: a value before its children, fields as they were
      inserted, items by index. */
  ghost function Walk(s: Schema, v: Json, path: seq<Step>): seq<Visit>
    decreases v, 1
  {
    [Visit(path, s, v)] +
    match v
    case Obj(fields) => WalkFields(s, fields, path)
    case Arr(items) => if s.items.Some? then WalkItems(s.items.value, items, 0, path) else []
    case _ => []
  }

  ghost function WalkFields(s: Schema, fields: seq<Field>, path: seq<Step>): seq<Visit>
    decreases fields, 0
  {
    if fields == [] then []
    else
      var f := fields[0];
      (if f.key in s.properties then Walk(s.properties[f.key], f.value, path + [Key(f.key)])
       else if s.additional.Under? then Walk(s.additional.schema, f.value, path + [Key(f.key)])
       else [])
      + WalkFields(s, fields[1..], path)
  }

  ghost function WalkItems(s: Schema, items: seq<Json>, from: nat, path: seq<Step>): seq<Visit>
    decreases items, 0
  {
    if items == [] then []
    else Walk(s, items[0], path + [Index(from)]) + WalkItems(s, items[1..], from + 1, path)
  }

  ghost function FirstFlaw(visits: seq<Visit>): Option<Failure> {
    if visits == [] then None
    else
      match LocalFlaw(visits[0].schema, visits[0].value)
      case Some(flaw) => Some(Failure(visits[0].path, flaw))
      case None => FirstFlaw(visits[1..])
  }

  lemma {:induction false} FirstFlawOfConcat(xs: seq<Visit>, ys: seq<Visit>)
    ensures FirstFlaw(xs + ys) == if FirstFlaw(xs).Some? then FirstFlaw(xs) else FirstFlaw(ys)
  {
    hide LocalFlaw;
    if xs == [] {
      assert xs + ys == ys;
    } else {
      assert (xs + ys)[1..] == xs[1..] + ys;
      FirstFlawOfConcat(xs[1..], ys);
    }
  }

  lemma {:induction false} ValidateIsFirstFlaw(s: Schema, v: Json, path: seq<Step>)
    ensures Validate(s, v, path) == FirstFlaw(Walk(s, v, path))
    decreases v, 1
  {
    hide LocalFlaw;
    var rest := Walk(s, v, path)[1..];
    FirstFlawOfConcat([Visit(path, s, v)], rest);
    if v.Obj? {
      ValidateFieldsIsFirstFlaw(s, v.fields, path);
      assert rest == WalkFields(s, v.fields, path);
    } else if v.Arr? && s.items.Some? {
      ValidateItemsIsFirstFlaw(s.items.value, v.items, 0, path);
      assert rest == WalkItems(s.items.value, v.items, 0, path);
    }
  }

  lemma {:induction false} ValidateFieldsIsFirstFlaw(s: Schema, fields: seq<Field>, path: seq<Step>)
    ensures ValidateFields(s, fields, path) == FirstFlaw(WalkFields(s, fields, path))
    decreases fields, 0
  {
    hide LocalFlaw;
    if fields != [] {
      var f := fields[0];
      var child := ChildSchema(s, f.key);
      ValidateFieldsIsFirstFlaw(s, fields[1..], path);
      if child.Some? {
        ValidateIsFirstFlaw(child.value, f.value, path + [Key(f.key)]);
      }
      FirstFlawOfConcat(if child.Some? then Walk(child.value, f.value, path + [Key(f.key)]) else [],
                        WalkFields(s, fields[1..], path));
    }
  }

  lemma {:induction false} ValidateItemsIsFirstFlaw(s: Schema, items: seq<Json>, from: nat, path: seq<Step>)
    ensures ValidateItems(s, items, from, path) == FirstFlaw(WalkItems(s, items, from, path))
    decreases items, 0
  {
    hide LocalFlaw;
    if items != [] {
      ValidateIsFirstFlaw(s, items[0], path + [Index(from)]);
      ValidateItemsIsFirstFlaw(s, items[1..], from + 1, path);
      FirstFlawOfConcat(Walk(s, items[0], path + [Index(from)]), WalkItems(s, items[1..], from + 1, path));
    }
  }

  /** What is reported is the first failing check in document order: nothing before it on the
      walk fails, and a value is accepted only when nothing on its whole walk does. */
  lemma RejectionIsFirst(s: Schema, v: Json) returns (i: nat)
    ensures i <= |Walk(s, v, [])|
    ensures forall j :: 0 <= j < i ==>
              LocallyValid(Walk(s, v, [])[j].schema, Walk(s, v, [])[j].value)
    ensures if i == |Walk(s, v, [])| then Validate(s, v, []) == None
            else
              var at := Walk(s, v, [])[i];
              LocalFlaw(at.schema, at.value).Some?
              && Validate(s, v, []) == Some(Failure(at.path, LocalFlaw(at.schema, at.value).value))
  {
    hide LocalFlaw, LocallyValid, Validate, Walk;
    ValidateIsFirstFlaw(s, v, []);
    i := FirstFlawAt(Walk(s, v, []));
  }

  lemma {:induction false} FirstFlawAt(visits: seq<Visit>) returns (i: nat)
    ensures i <= |visits|
    ensures forall j :: 0 <= j < i ==> LocallyValid(visits[j].schema, visits[j].value)
    ensures if i == |visits| then FirstFlaw(visits) == None
            else
              && LocalFlaw(visits[i].schema, visits[i].value).Some?
              && FirstFlaw(visits)
                 == Some(Failure(visits[i].path, LocalFlaw(visits[i].schema, visits[i].value).value))
  {
    hide LocalFlaw, LocallyValid;
    i := 0;
    if visits != [] {
      LocalFlawIff(visits[0].schema, visits[0].value);
      if LocalFlaw(visits[0].schema, visits[0].value).None? {
        var k := FirstFlawAt(visits[1..]);
        i := k + 1;
        forall j | 0 <= j < i ensures LocallyValid(visits[j].schema, visits[j].value) {
          if j > 0 {
            assert visits[j] == visits[1..][j - 1];
          }
        }
      }
    }
  }

  // ── equality of values ────────────────────────────────────────────────────────

  predicate Composite(v: Json) {
    v.Arr? || v.Obj?
  }

  /** Core section 4.2.2, values other than objects: scalars are equal when they are the same,
      arrays when they are item by item, and values of different kinds never. */
  lemma EqualityIff(a: Json, b: Json)
    ensures !Composite(a) || !Composite(b) ==> (Equal(a, b) <==> a == b)
    ensures a.Arr? && b.Arr? ==>
              (Equal(a, b) <==>
               |a.items| == |b.items| && forall i :: 0 <= i < |a.items| ==> Equal(a.items[i], b.items[i]))
    ensures (a.Arr? && b.Obj?) || (a.Obj? && b.Arr?) ==> !Equal(a, b)
  {
  }

  predicate Distinct(fields: seq<Field>) {
    forall i, j :: 0 <= i < j < |fields| ==> fields[i].key != fields[j].key
  }

  lemma {:induction false} DistinctKeys(fields: seq<Field>)
    requires Distinct(fields)
    ensures |Keys(fields)| == |fields|
  {
    if fields != [] {
      DistinctKeys(fields[1..]);
      assert fields == [fields[0]] + fields[1..];
      assert Keys(fields) == {fields[0].key} + Keys(fields[1..]);
    }
  }

  lemma SameSizeSubset(a: set<string>, b: set<string>)
    requires a <= b && |a| == |b|
    ensures a == b
  {
    if x :| x in b && x !in a {
      var c := b - {x};
      assert a <= c;
      SubsetSize(a, c);
    }
  }

  lemma {:induction false} SubsetSize(a: set<string>, b: set<string>)
    requires a <= b
    ensures |a| <= |b|
  {
    if x :| x in a {
      SubsetSize(a - {x}, b - {x});
    }
  }

  /** Core section 4.2.2: objects are equal when they have the same keys, in whatever order,
      and each key the same value. */
  lemma ObjectEqualityIff(fs: seq<Field>, gs: seq<Field>)
    requires Distinct(fs) && Distinct(gs)
    ensures Equal(Obj(fs), Obj(gs)) <==>
            && Keys(fs) == Keys(gs)
            && forall f, g :: f in fs && g in gs && f.key == g.key ==> Equal(f.value, g.value)
  {
    DistinctKeys(fs);
    DistinctKeys(gs);
    if Equal(Obj(fs), Obj(gs)) {
      assert Keys(fs) <= Keys(gs) by {
        forall f | f in fs ensures f.key in Keys(gs) {
          var g :| g in gs && g.key == f.key && Equal(f.value, g.value);
        }
      }
      SameSizeSubset(Keys(fs), Keys(gs));
      forall f, g | f in fs && g in gs && f.key == g.key ensures Equal(f.value, g.value) {
        var h :| h in gs && h.key == f.key && Equal(f.value, h.value);
        assert h == g;
      }
    } else if Keys(fs) == Keys(gs) {
      var f :| f in fs && !exists g :: g in gs && g.key == f.key && Equal(f.value, g.value);
      assert f.key in Keys(gs);
      var g :| g in gs && g.key == f.key;
      assert !Equal(f.value, g.value);
    }
  }
  /** Distinct keys in every object, as parsing JSON text gives. */
  ghost predicate WellFormed(v: Json) {
    match v
    case Arr(items) => forall i :: 0 <= i < |items| ==> WellFormed(items[i])
    case Obj(fields) => Distinct(fields) && forall f :: f in fields ==> WellFormed(f.value)
    case _ => true
  }

  /** What a value shows without descending into it. */
  datatype Face = Scalar(v: Json) | Array(length: nat) | Object(keys: set<string>)

  function FaceOf(v: Json): Face {
    match v
    case Arr(items) => Array(|items|)
    case Obj(fields) => Object(Keys(fields))
    case _ => Scalar(v)
  }

  /** The field filed under a key. */
  function At(fields: seq<Field>, key: string): (f: Field)
    requires key in Keys(fields)
    ensures f in fields && f.key == key
  {
    if fields[0].key == key then fields[0] else At(fields[1..], key)
  }

  /** What is found by following a path; None when it leads nowhere. */
  function FaceAt(v: Json, path: seq<Step>): Option<Face>
    decreases |path|
  {
    if path == [] then Some(FaceOf(v))
    else
      match path[0]
      case Key(k) => if v.Obj? && k in Keys(v.fields) then FaceAt(At(v.fields, k).value, path[1..]) else None
      case Index(i) => if v.Arr? && i < |v.items| then FaceAt(v.items[i], path[1..]) else None
  }

  ghost predicate Indistinguishable(a: Json, b: Json) {
    forall path :: FaceAt(a, path) == FaceAt(b, path)
  }

  lemma OneFieldPerKey(fields: seq<Field>, f: Field, g: Field)
    requires Distinct(fields) && f in fields && g in fields && f.key == g.key
    ensures f == g
  {
  }

  lemma {:induction false} EqualFaces(a: Json, b: Json, path: seq<Step>)
    requires WellFormed(a) && WellFormed(b) && Equal(a, b)
    ensures FaceAt(a, path) == FaceAt(b, path)
    decreases |path|
  {
    if a.Obj? && b.Obj? {
      ObjectEqualityIff(a.fields, b.fields);
    }
    if path != [] {
      match path[0]
      case Key(k) =>
        if a.Obj? && k in Keys(a.fields) {
          EqualFaces(At(a.fields, k).value, At(b.fields, k).value, path[1..]);
        }
      case Index(i) =>
        if a.Arr? && i < |a.items| {
          EqualFaces(a.items[i], b.items[i], path[1..]);
        }
    }
  }

  lemma {:induction false} FacesDecide(a: Json, b: Json)
    requires WellFormed(a) && WellFormed(b) && Indistinguishable(a, b)
    ensures Equal(a, b)
    decreases a
  {
    assert FaceAt(a, []) == FaceAt(b, []);
    match a
    case Arr(items) =>
      forall i | 0 <= i < |items| ensures Equal(items[i], b.items[i]) {
        forall path ensures FaceAt(items[i], path) == FaceAt(b.items[i], path) {
          assert FaceAt(a, [Index(i)] + path) == FaceAt(b, [Index(i)] + path);
          assert ([Index(i)] + path)[1..] == path;
        }
        FacesDecide(items[i], b.items[i]);
      }
    case Obj(fields) =>
      forall f, g | f in fields && g in b.fields && f.key == g.key ensures Equal(f.value, g.value) {
        OneFieldPerKey(fields, f, At(fields, f.key));
        OneFieldPerKey(b.fields, g, At(b.fields, f.key));
        forall path ensures FaceAt(f.value, path) == FaceAt(g.value, path) {
          assert FaceAt(a, [Key(f.key)] + path) == FaceAt(b, [Key(f.key)] + path);
          assert ([Key(f.key)] + path)[1..] == path;
        }
        FacesDecide(f.value, g.value);
      }
      ObjectEqualityIff(fields, b.fields);
    case _ =>
  }

  /** Core section 4.2.2: two values are equal exactly when no path tells them apart. */
  lemma EqualIffIndistinguishable(a: Json, b: Json)
    requires WellFormed(a) && WellFormed(b)
    ensures Equal(a, b) <==> Indistinguishable(a, b)
  {
    if Equal(a, b) {
      forall path ensures FaceAt(a, path) == FaceAt(b, path) {
        EqualFaces(a, b, path);
      }
    } else if Indistinguishable(a, b) {
      FacesDecide(a, b);
    }
  }
}
