/**
 * The schema checker both the publisher and the verifier run: a loop that
 * collects errors while it recurses, and what its silence means.
 */
module JsonSchema {
  import opened Outcomes

  datatype Json =
    | Null | Bool(b: bool) | Int(i: int) | Real(r: real) | Str(s: string)
    | Arr(items: seq<Json>) | Obj(fields: map<string, Json>)

  datatype JsonType = ObjectT | ArrayT | StringT | IntegerT | NumberT | BooleanT | NullT

  /** A schema is a dictionary of keywords; a keyword that is not there is None, or empty. Regular expressions are functions. */
  datatype Schema = Schema(
    const_: Option<Json>, enum_: Option<seq<Json>>, types: Option<seq<JsonType>>,
    isDateTime: bool, pattern: Option<string -> bool>, minLength: Option<nat>,
    properties: seq<Property>, required: seq<string>, closed: bool, items: Option<Schema>)

  datatype Property = Property(name: string, schema: Schema)

  datatype Problem = Const | Enum | Type | DateTime | Pattern | MinLength | Missing(key: string) | Unexpected(key: string)

  datatype Step = Field(name: string) | Index(i: nat)

  datatype Finding = Finding(path: seq<Step>, problem: Problem)

  predicate MatchesType(j: Json, t: JsonType) {
    match t
    case ObjectT => j.Obj?
    case ArrayT => j.Arr?
    case StringT => j.Str?
    case IntegerT => j.Int?
    case NumberT => j.Int? || j.Real?
    case BooleanT => j.Bool?
    case NullT => j.Null?
  }

  predicate MatchesSome(j: Json, types: seq<JsonType>) {
    exists i :: 0 <= i < |types| && MatchesType(j, types[i])
  }

  predicate Named(properties: seq<Property>, key: string) {
    exists i :: 0 <= i < |properties| && properties[i].name == key
  }

  /** The string keywords: nothing else than a string is ever checked by them. */
  predicate StringFits(j: Json, schema: Schema, dateTime: string -> bool) {
    j.Str? ==>
      && (schema.isDateTime ==> dateTime(j.s))
      && (schema.pattern.Some? ==> schema.pattern.value(j.s))
      && (schema.minLength.Some? ==> |j.s| >= schema.minLength.value)
  }

  /**
   * What a schema asks of a value. Constants and enumerations settle the
   * matter; null passes everything but them and the type; keywords for
   * strings, objects and arrays bind only those.
   */
  ghost predicate Conforms(j: Json, schema: Schema, dateTime: string -> bool)
    decreases schema
  {
    if schema.const_.Some? then j == schema.const_.value
    else if schema.enum_.Some? then j in schema.enum_.value
    else
      && (schema.types.Some? ==> MatchesSome(j, schema.types.value))
      && (j.Null? || (
            && StringFits(j, schema, dateTime)
            && (j.Obj? ==>
                  && (forall i :: 0 <= i < |schema.required| ==> schema.required[i] in j.fields)
                  && (schema.closed ==> forall k :: k in j.fields ==> Named(schema.properties, k))
                  && (forall i :: 0 <= i < |schema.properties| && schema.properties[i].name in j.fields ==>
                        Conforms(j.fields[schema.properties[i].name], schema.properties[i].schema, dateTime)))
            && (j.Arr? && schema.items.Some? ==>
                  forall i :: 0 <= i < |j.items| ==> Conforms(j.items[i], schema.items.value, dateTime))))
  }

  // ---- what is wrong, and where ----------------------------------------------

  /** The types a value has; a whole number is also a number. */
  function TypesOf(j: Json): set<JsonType> {
    match j
    case Null => {NullT}
    case Bool(_) => {BooleanT}
    case Int(_) => {IntegerT, NumberT}
    case Real(_) => {NumberT}
    case Str(_) => {StringT}
    case Arr(_) => {ArrayT}
    case Obj(_) => {ObjectT}
  }

  /** The keywords past constant, enumeration and type are looked at. */
  predicate LooksOn(j: Json, schema: Schema) {
    && schema.const_ == None && schema.enum_ == None && j != Null
    && (schema.types.Some? ==> exists t :: t in schema.types.value && t in TypesOf(j))
  }

  /** The problem is at this very value. */
  ghost predicate FaultHere(j: Json, schema: Schema, dateTime: string -> bool, what: Problem) {
    match what
    case Const => schema.const_.Some? && schema.const_ != Some(j)
    case Enum => schema.const_ == None && schema.enum_.Some? && forall c :: c in schema.enum_.value ==> c != j
    case Type =>
      && schema.const_ == None && schema.enum_ == None && schema.types.Some?
      && forall t :: t in schema.types.value ==> t !in TypesOf(j)
    case DateTime => LooksOn(j, schema) && schema.isDateTime && j.Str? && !dateTime(j.s)
    case Pattern => LooksOn(j, schema) && schema.pattern.Some? && j.Str? && !schema.pattern.value(j.s)
    case MinLength => LooksOn(j, schema) && schema.minLength.Some? && j.Str? && |j.s| < schema.minLength.value
    case Missing(key) => LooksOn(j, schema) && j.Obj? && key in schema.required && key !in j.fields
    case Unexpected(key) =>
      && LooksOn(j, schema) && j.Obj? && schema.closed && key in j.fields
      && forall p :: p in schema.properties ==> p.name != key
  }

  /** The problem is where the path leads, through declared properties and items. */
  ghost predicate Fault(j: Json, schema: Schema, dateTime: string -> bool, where_: seq<Step>, what: Problem)
    decreases |where_|
  {
    if where_ == [] then FaultHere(j, schema, dateTime, what)
    else
      LooksOn(j, schema) &&
      match where_[0]
      case Field(name) =>
        j.Obj? && name in j.fields
        && exists p :: p in schema.properties && p.name == name && Fault(j.fields[name], p.schema, dateTime, where_[1..], what)
      case Index(i) =>
        j.Arr? && i < |j.items| && schema.items.Some? && Fault(j.items[i], schema.items.value, dateTime, where_[1..], what)
  }

  lemma TypesAgree(j: Json, t: JsonType)
    ensures MatchesType(j, t) <==> t in TypesOf(j)
  {
  }

  lemma LooksOnIs(j: Json, schema: Schema)
    ensures LooksOn(j, schema) <==>
            schema.const_.None? && schema.enum_.None? && (schema.types.Some? ==> MatchesSome(j, schema.types.value)) && !j.Null?
  {
    hide MatchesType, TypesOf;
    if schema.types.Some? {
      var types := schema.types.value;
      forall i | 0 <= i < |types| ensures MatchesType(j, types[i]) <==> types[i] in TypesOf(j) { TypesAgree(j, types[i]); }
    }
  }

  /** A fault anywhere breaks conformance. */
  lemma {:induction false} FaultBreaks(j: Json, schema: Schema, dateTime: string -> bool, where_: seq<Step>, what: Problem)
    requires Fault(j, schema, dateTime, where_, what)
    ensures !Conforms(j, schema, dateTime)
    decreases |where_|
  {
    LooksOnIs(j, schema);
    if where_ == [] {
      FaultHereBreaks(j, schema, dateTime, what);
    } else {
      match where_[0] {
        case Field(name) =>
          var p :| p in schema.properties && p.name == name && Fault(j.fields[name], p.schema, dateTime, where_[1..], what);
          FaultBreaks(j.fields[name], p.schema, dateTime, where_[1..], what);
        case Index(i) =>
          FaultBreaks(j.items[i], schema.items.value, dateTime, where_[1..], what);
      }
    }
  }

  lemma FaultHereBreaks(j: Json, schema: Schema, dateTime: string -> bool, what: Problem)
    requires FaultHere(j, schema, dateTime, what)
    ensures !Conforms(j, schema, dateTime)
  {
    hide MatchesType, TypesOf;
    LooksOnIs(j, schema);
    if what == Type {
      var types := schema.types.value;
      forall i | 0 <= i < |types| ensures !MatchesType(j, types[i]) { TypesAgree(j, types[i]); }
    }
  }

  /** Where a value does not conform, some fault says why. */
  lemma {:induction false} BreakHasFault(j: Json, schema: Schema, dateTime: string -> bool) returns (where_: seq<Step>, what: Problem)
    requires !Conforms(j, schema, dateTime)
    ensures Fault(j, schema, dateTime, where_, what)
    decreases schema
  {
    hide MatchesType, TypesOf;
    LooksOnIs(j, schema);
    where_ := [];
    if schema.const_.Some? {
      what := Const;
    } else if schema.enum_.Some? {
      what := Enum;
    } else if schema.types.Some? && !MatchesSome(j, schema.types.value) {
      var types := schema.types.value;
      forall t | t in types ensures t !in TypesOf(j) {
        var i :| 0 <= i < |types| && types[i] == t;
        TypesAgree(j, t);
      }
      what := Type;
    } else if j.Str? {
      what := if schema.isDateTime && !dateTime(j.s) then DateTime
              else if schema.pattern.Some? && !schema.pattern.value(j.s) then Pattern else MinLength;
    } else if j.Obj? {
      where_, what := ObjectFault(j, schema, dateTime);
    } else {
      var i :| 0 <= i < |j.items| && !Conforms(j.items[i], schema.items.value, dateTime);
      var inner, why := BreakHasFault(j.items[i], schema.items.value, dateTime);
      where_, what := [Index(i)] + inner, why;
      assert where_[1..] == inner;
    }
  }

  lemma {:induction false} ObjectFault(j: Json, schema: Schema, dateTime: string -> bool) returns (where_: seq<Step>, what: Problem)
    requires !Conforms(j, schema, dateTime) && j.Obj? && LooksOn(j, schema)
    ensures Fault(j, schema, dateTime, where_, what)
    decreases schema, 0
  {
    hide MatchesType, TypesOf;
    LooksOnIs(j, schema);
    where_ := [];
    if i :| 0 <= i < |schema.required| && schema.required[i] !in j.fields {
      what := Missing(schema.required[i]);
    } else if schema.closed && exists k :: k in j.fields && !Named(schema.properties, k) {
      var k :| k in j.fields && !Named(schema.properties, k);
      what := Unexpected(k);
    } else {
      var i :| 0 <= i < |schema.properties| && schema.properties[i].name in j.fields
               && !Conforms(j.fields[schema.properties[i].name], schema.properties[i].schema, dateTime);
      var p := schema.properties[i];
      var inner, why := BreakHasFault(j.fields[p.name], p.schema, dateTime);
      where_, what := [Field(p.name)] + inner, why;
      assert where_[1..] == inner && p in schema.properties;
    }
  }

  /** A value conforms exactly when there is no fault in it. */
  lemma ConformsExactly(j: Json, schema: Schema, dateTime: string -> bool)
    ensures Conforms(j, schema, dateTime) <==> forall where_, what :: !Fault(j, schema, dateTime, where_, what)
  {
    forall where_, what | Fault(j, schema, dateTime, where_, what) ensures !Conforms(j, schema, dateTime) {
      FaultBreaks(j, schema, dateTime, where_, what);
    }
    if !Conforms(j, schema, dateTime) { var where_, what := BreakHasFault(j, schema, dateTime); }
  }

  // ---- the checker --------------------------------------------------------------

  method TypeMatches(j: Json, types: seq<JsonType>) returns (found: bool)
    ensures found == MatchesSome(j, types)
  {
    found := false;
    for i := 0 to |types|
      invariant found <==> exists k :: 0 <= k < i && MatchesType(j, types[k])
    {
      if MatchesType(j, types[i]) { found := true; }
    }
  }

  /** The finding names a fault of the value at `path`. */
  ghost predicate Names(f: Finding, j: Json, schema: Schema, dateTime: string -> bool, path: seq<Step>) {
    path <= f.path && Fault(j, schema, dateTime, f.path[|path|..], f.problem)
  }

  ghost predicate NamesInField(f: Finding, fields: map<string, Json>, p: Property, dateTime: string -> bool, path: seq<Step>) {
    p.name in fields && Names(f, fields[p.name], p.schema, dateTime, path + [Field(p.name)])
  }

  lemma LongerPrefix(path: seq<Step>, step: Step, whole: seq<Step>)
    ensures path + [step] <= whole ==> path <= whole && |path| < |whole|
  {
    if path + [step] <= whole { assert path == (path + [step])[..|path|] == whole[..|path|]; }
  }

  /** Below a value, faults are those of its declared fields and of its items. */
  lemma NamesBelow(f: Finding, j: Json, schema: Schema, dateTime: string -> bool, path: seq<Step>)
    requires LooksOn(j, schema)
    ensures Names(f, j, schema, dateTime, path) <==>
            || (f.path == path && FaultHere(j, schema, dateTime, f.problem))
            || (j.Obj? && exists p :: p in schema.properties && NamesInField(f, j.fields, p, dateTime, path))
            || (j.Arr? && schema.items.Some? && exists i :: 0 <= i < |j.items| && Names(f, j.items[i], schema.items.value, dateTime, path + [Index(i)]))
  {
    hide FaultHere;
    if path <= f.path && |path| < |f.path| {
      var rest := f.path[|path|..];
      forall step ensures path + [step] <= f.path <==> step == rest[0] {
        if step == rest[0] { assert path + [step] == f.path[..|path| + 1]; }
        if path + [step] <= f.path { assert (path + [step])[|path|] == f.path[|path|]; }
      }
      assert f.path[|path + [rest[0]]|..] == rest[1..];
      if Names(f, j, schema, dateTime, path) {
        match rest[0] {
          case Field(name) =>
            var p :| p in schema.properties && p.name == name && Fault(j.fields[name], p.schema, dateTime, rest[1..], f.problem);
            assert NamesInField(f, j.fields, p, dateTime, path);
          case Index(i) =>
            assert Names(f, j.items[i], schema.items.value, dateTime, path + [Index(i)]);
        }
      }
      if j.Obj? && exists p :: p in schema.properties && NamesInField(f, j.fields, p, dateTime, path) {
        var p :| p in schema.properties && NamesInField(f, j.fields, p, dateTime, path);
        assert rest[0] == Field(p.name);
      }
      if j.Arr? && schema.items.Some? && exists i :: 0 <= i < |j.items| && Names(f, j.items[i], schema.items.value, dateTime, path + [Index(i)]) {
        var i :| 0 <= i < |j.items| && Names(f, j.items[i], schema.items.value, dateTime, path + [Index(i)]);
        assert rest[0] == Index(i);
      }
    } else {
      forall step ensures !(path + [step] <= f.path) { LongerPrefix(path, step, f.path); }
    }
  }

  method StringFindings(j: Json, schema: Schema, dateTime: string -> bool, path: seq<Step>) returns (errors: seq<Finding>)
    ensures errors == [] <==> StringFits(j, schema, dateTime)
    ensures LooksOn(j, schema) ==>
              forall f :: f in errors <==>
                f.path == path && f.problem in {DateTime, Pattern, MinLength} && FaultHere(j, schema, dateTime, f.problem)
  {
    errors := [];
    if schema.isDateTime && j.Str? && !dateTime(j.s) { errors := errors + [Finding(path, DateTime)]; }
    if schema.pattern.Some? && j.Str? && !schema.pattern.value(j.s) { errors := errors + [Finding(path, Pattern)]; }
    if schema.minLength.Some? && j.Str? && |j.s| < schema.minLength.value { errors := errors + [Finding(path, MinLength)]; }
  }

  method MissingKeys(fields: map<string, Json>, required: seq<string>, path: seq<Step>) returns (errors: seq<Finding>)
    ensures errors == [] <==> forall i :: 0 <= i < |required| ==> required[i] in fields
    ensures forall f :: f in errors <==> f.path == path && f.problem.Missing? && f.problem.key in required && f.problem.key !in fields
  {
    errors := [];
    for i := 0 to |required|
      invariant errors == [] <==> forall k :: 0 <= k < i ==> required[k] in fields
      invariant forall f :: f in errors <==> f.path == path && f.problem.Missing? && f.problem.key in required[..i] && f.problem.key !in fields
    {
      if required[i] !in fields { errors := errors + [Finding(path, Missing(required[i]))]; }
      assert required[..i + 1] == required[..i] + [required[i]];
    }
    assert required[..|required|] == required;
  }

  method UnexpectedKeys(fields: map<string, Json>, properties: seq<Property>, path: seq<Step>) returns (errors: seq<Finding>)
    ensures errors == [] <==> forall k :: k in fields ==> Named(properties, k)
    ensures forall f :: f in errors <==>
              f.path == path && f.problem.Unexpected? && f.problem.key in fields && !Named(properties, f.problem.key)
  {
    hide Named;
    errors := [];
    var left := fields.Keys;
    while left != {}
      invariant left <= fields.Keys
      invariant errors == [] <==> forall k :: k in fields && k !in left ==> Named(properties, k)
      invariant forall f :: f in errors <==>
                  f.path == path && f.problem.Unexpected? && f.problem.key in fields.Keys - left && !Named(properties, f.problem.key)
      decreases left
    {
      var key :| key in left;
      left := left - {key};
      if !Named(properties, key) { errors := errors + [Finding(path, Unexpected(key))]; }
    }
  }

  lemma NamedIs(properties: seq<Property>, key: string)
    ensures Named(properties, key) <==> exists p :: p in properties && p.name == key
  {
    if p :| p in properties && p.name == key {
      var i :| 0 <= i < |properties| && properties[i] == p;
      assert properties[i].name == key;
    }
  }

  /** The checker reports exactly the faults of the value, each at its path; and nothing exactly when the value conforms. */
  method Validate(j: Json, schema: Schema, dateTime: string -> bool, path: seq<Step>) returns (errors: seq<Finding>)
    ensures errors == [] <==> Conforms(j, schema, dateTime)
    ensures forall f :: f in errors <==> Names(f, j, schema, dateTime, path)
    decreases schema, 1
  {
    hide Conforms, MatchesType, TypesOf, Named, StringFits, FaultHere, LooksOn, Fault, Names, NamesInField;
    LooksOnIs(j, schema);
    ConformsIs(j, schema, dateTime);
    if schema.const_.Some? || schema.enum_.Some? {
      forall f ensures Names(f, j, schema, dateTime, path) <==> f.path == path && FaultHere(j, schema, dateTime, f.problem) {
        NamesOnlyHere(f, j, schema, dateTime, path);
        SettledFaults(j, schema, dateTime, f.problem);
      }
      SettledFaults(j, schema, dateTime, if schema.const_.Some? then Const else Enum);
    }
    if schema.const_.Some? {
      forall f: Finding ensures FaultHere(j, schema, dateTime, f.problem) <==> f.problem == Const && Some(j) != schema.const_ {
        SettledFaults(j, schema, dateTime, f.problem);
      }
      return if j != schema.const_.value then [Finding(path, Const)] else [];
    }
    if schema.enum_.Some? {
      forall f: Finding ensures FaultHere(j, schema, dateTime, f.problem) <==> f.problem == Enum && j !in schema.enum_.value {
        SettledFaults(j, schema, dateTime, f.problem);
      }
      return if j !in schema.enum_.value then [Finding(path, Enum)] else [];
    }
    if schema.types.Some? {
      var found := TypeMatches(j, schema.types.value);
      if !found {
        forall f ensures Names(f, j, schema, dateTime, path) <==> f == Finding(path, Type) {
          NamesOnlyHere(f, j, schema, dateTime, path);
          WrongType(j, schema, dateTime, f.problem);
        }
        return [Finding(path, Type)];
      }
    }
    if j.Null? {
      forall f ensures !Names(f, j, schema, dateTime, path) {
        NamesOnlyHere(f, j, schema, dateTime, path);
        NullFaults(schema, dateTime, f.problem);
      }
      return [];
    }
    assert LooksOn(j, schema);
    errors := StringFindings(j, schema, dateTime, path);
    if j.Obj? {
      var missing := MissingKeys(j.fields, schema.required, path);
      errors := errors + missing;
      if schema.closed {
        var unexpected := UnexpectedKeys(j.fields, schema.properties, path);
        errors := errors + unexpected;
      }
      var inner := ValidateFields(j.fields, schema, dateTime, path);
      errors := errors + inner;
    }
    if j.Arr? && schema.items.Some? {
      var inner := ValidateItems(j.items, schema.items.value, dateTime, path);
      errors := errors + inner;
    }
    forall f ensures f in errors <==> Names(f, j, schema, dateTime, path) {
      NamesBelow(f, j, schema, dateTime, path);
      KeyFaults(j, schema, dateTime, f.problem);
    }
  }

  lemma ConformsIs(j: Json, schema: Schema, dateTime: string -> bool)
    ensures schema.const_.Some? ==> (Conforms(j, schema, dateTime) <==> j == schema.const_.value)
    ensures schema.const_.None? && schema.enum_.Some? ==> (Conforms(j, schema, dateTime) <==> j in schema.enum_.value)
    ensures schema.const_.None? && schema.enum_.None? ==>
              (Conforms(j, schema, dateTime) <==>
               && (schema.types.Some? ==> MatchesSome(j, schema.types.value))
               && (j.Null? || (
                     && StringFits(j, schema, dateTime)
                     && (j.Obj? ==>
                           && (forall i :: 0 <= i < |schema.required| ==> schema.required[i] in j.fields)
                           && (schema.closed ==> forall k :: k in j.fields ==> Named(schema.properties, k))
                           && (forall i :: 0 <= i < |schema.properties| && schema.properties[i].name in j.fields ==>
                                 Conforms(j.fields[schema.properties[i].name], schema.properties[i].schema, dateTime)))
                     && (j.Arr? && schema.items.Some? ==>
                           forall i :: 0 <= i < |j.items| ==> Conforms(j.items[i], schema.items.value, dateTime)))))
  {
    hide MatchesSome, StringFits, Named;
  }

  /** A value the other keywords do not look on has no faults but its own. */
  lemma NamesOnlyHere(f: Finding, j: Json, schema: Schema, dateTime: string -> bool, path: seq<Step>)
    requires !LooksOn(j, schema)
    ensures Names(f, j, schema, dateTime, path) <==> f.path == path && FaultHere(j, schema, dateTime, f.problem)
  {
    hide FaultHere, LooksOn;
    if path <= f.path && f.path[|path|..] == [] { assert f.path == path; }
    if f.path == path { assert f.path[|path|..] == []; }
  }

  lemma SettledFaults(j: Json, schema: Schema, dateTime: string -> bool, what: Problem)
    ensures schema.const_.Some? ==> (FaultHere(j, schema, dateTime, what) <==> what == Const && Some(j) != schema.const_)
    ensures schema.const_.None? && schema.enum_.Some? ==>
              (FaultHere(j, schema, dateTime, what) <==> what == Enum && j !in schema.enum_.value)
  {
    hide TypesOf;
  }

  lemma WrongType(j: Json, schema: Schema, dateTime: string -> bool, what: Problem)
    requires schema.const_.None? && schema.enum_.None? && schema.types.Some? && !MatchesSome(j, schema.types.value)
    ensures FaultHere(j, schema, dateTime, what) <==> what == Type
  {
    hide MatchesType, TypesOf;
    var types := schema.types.value;
    LooksOnIs(j, schema);
    forall t | t in types ensures t !in TypesOf(j) {
      var i :| 0 <= i < |types| && types[i] == t;
      TypesAgree(j, t);
    }
  }

  lemma NullFaults(schema: Schema, dateTime: string -> bool, what: Problem)
    requires schema.const_.None? && schema.enum_.None? && (schema.types.Some? ==> MatchesSome(Null, schema.types.value))
    ensures !FaultHere(Null, schema, dateTime, what)
  {
    hide MatchesType, TypesOf;
    if schema.types.Some? {
      var types := schema.types.value;
      var i :| 0 <= i < |types| && MatchesType(Null, types[i]);
      TypesAgree(Null, types[i]);
      assert types[i] in types;
    }
  }

  /** Of a value the other keywords look on, the faults are those of its strings and its keys. */
  lemma KeyFaults(j: Json, schema: Schema, dateTime: string -> bool, what: Problem)
    requires LooksOn(j, schema)
    ensures FaultHere(j, schema, dateTime, what) <==>
            || (what in {DateTime, Pattern, MinLength} && FaultHere(j, schema, dateTime, what))
            || (j.Obj? && what.Missing? && what.key in schema.required && what.key !in j.fields)
            || (j.Obj? && schema.closed && what.Unexpected? && what.key in j.fields && !Named(schema.properties, what.key))
  {
    hide TypesOf, Named;
    if what.Unexpected? { NamedIs(schema.properties, what.key); }
  }

  method ValidateFields(fields: map<string, Json>, schema: Schema, dateTime: string -> bool, path: seq<Step>)
    returns (errors: seq<Finding>)
    ensures errors == [] <==>
            forall i :: 0 <= i < |schema.properties| && schema.properties[i].name in fields ==>
              Conforms(fields[schema.properties[i].name], schema.properties[i].schema, dateTime)
    ensures forall f :: f in errors <==> exists p :: p in schema.properties && NamesInField(f, fields, p, dateTime, path)
    decreases schema, 0
  {
    hide Conforms, Names;
    errors := [];
    var i := 0;
    while i < |schema.properties|
      invariant 0 <= i <= |schema.properties|
      invariant errors == [] <==>
                forall k :: 0 <= k < i && schema.properties[k].name in fields ==>
                  Conforms(fields[schema.properties[k].name], schema.properties[k].schema, dateTime)
      invariant forall f :: f in errors <==> exists p :: p in schema.properties[..i] && NamesInField(f, fields, p, dateTime, path)
    {
      var property := schema.properties[i];
      FieldsSoFar(schema.properties, i, fields, dateTime, path);
      ghost var before := errors;
      if property.name in fields {
        var inner := Validate(fields[property.name], property.schema, dateTime, path + [Field(property.name)]);
        errors := errors + inner;
      }
      assert forall f :: f in errors <==> f in before || NamesInField(f, fields, property, dateTime, path);
      i := i + 1;
    }
    assert schema.properties[..i] == schema.properties;
  }

  /** One property more looked at: its faults, and those of the properties before. */
  lemma FieldsSoFar(properties: seq<Property>, i: nat, fields: map<string, Json>, dateTime: string -> bool, path: seq<Step>)
    requires i < |properties|
    ensures forall f ::
              (exists p :: p in properties[..i + 1] && NamesInField(f, fields, p, dateTime, path)) <==>
              || (exists p :: p in properties[..i] && NamesInField(f, fields, p, dateTime, path))
              || NamesInField(f, fields, properties[i], dateTime, path)
  {
    hide NamesInField;
    assert properties[..i + 1] == properties[..i] + [properties[i]];
  }

  method ValidateItems(items: seq<Json>, schema: Schema, dateTime: string -> bool, path: seq<Step>) returns (errors: seq<Finding>)
    ensures errors == [] <==> forall i :: 0 <= i < |items| ==> Conforms(items[i], schema, dateTime)
    ensures forall f :: f in errors <==> exists i :: 0 <= i < |items| && Names(f, items[i], schema, dateTime, path + [Index(i)])
    decreases schema, 2
  {
    hide Conforms, Names;
    errors := [];
    for i := 0 to |items|
      invariant errors == [] <==> forall k :: 0 <= k < i ==> Conforms(items[k], schema, dateTime)
      invariant forall f :: f in errors <==> exists k :: 0 <= k < i && Names(f, items[k], schema, dateTime, path + [Index(k)])
    {
      var inner := Validate(items[i], schema, dateTime, path + [Index(i)]);
      errors := errors + inner;
    }
  }
}
