/** Validation of tool-call arguments against a JSON schema, which prunes what a closed object does
    not declare. Arguments are decoded JSON: trees without sharing, numbers as reals. */
module Schema {
  import opened Options

  datatype Json =
    | Null
    | Bool(b: bool)
    | Num(n: real)
    | Str(s: string)
    | Arr(items: seq<Json>)
    | Obj(fields: map<string, Json>)

  // ----- Reading a schema ------------------------------------------------------------------------

  // A schema that is not an object reads as the empty one.
  function Fields(j: Json): map<string, Json> {
    if j.Obj? then j.fields else map[]
  }

  function Sub(schema: Json, name: string): Json {
    if name in Fields(schema) then Fields(schema)[name] else Null
  }

  predicate Empty(schema: Json) {
    Fields(schema) == map[]
  }

  // A union type is no string and constrains nothing.
  function Type(schema: Json): string {
    if Sub(schema, "type").Str? then Sub(schema, "type").s else ""
  }

  function Properties(schema: Json): map<string, Json> {
    Fields(Sub(schema, "properties"))
  }

  function Items(schema: Json): Json {
    Sub(schema, "items")
  }

  function Enum(schema: Json): seq<Json> {
    if Sub(schema, "enum").Arr? then Sub(schema, "enum").items else []
  }

  // `additionalProperties: false` closes an object only next to declared properties.
  predicate Closed(schema: Json) {
    Sub(schema, "additionalProperties") == Bool(false) && Properties(schema) != map[]
  }

  function Required(schema: Json): seq<string> {
    if Sub(schema, "required").Arr? then Names(Sub(schema, "required").items) else []
  }

  function Names(entries: seq<Json>): seq<string> {
    if entries == [] then []
    else Names(entries[..|entries| - 1]) + NameOf(entries[|entries| - 1])
  }

  function NameOf(entry: Json): seq<string> {
    if entry.Str? && entry.s != "" then [entry.s] else []
  }

  predicate Listed(v: Json, schema: Json) {
    Enum(schema) != [] ==> v in Enum(schema)
  }

  predicate Whole(n: real) {
    n.Floor as real == n
  }

  predicate OfType(v: Json, name: string) {
    match name
    case "object" => v.Obj?
    case "array" => v.Arr?
    case "string" => v.Str?
    case "boolean" => v.Bool?
    case "number" => v.Num?
    case "integer" => v.Num? && Whole(v.n)
    case "null" => v.Null?
    case _ => true
  }

  // ----- What the validator computes ---------------------------------------------------------------

  // Required names and enumerations are looked up before anything is pruned.
  predicate Accepts(v: Json, schema: Json)
    decreases v, 1
  {
    Empty(schema) || (Listed(v, schema) && Fits(v, schema))
  }

  predicate Fits(v: Json, schema: Json)
    decreases v, 0
  {
    && OfType(v, Type(schema))
    && (Type(schema) == "object" ==>
          && (forall name | name in Required(schema) :: name in v.fields)
          && (forall name | name in v.fields && name in Properties(schema) ::
                Accepts(v.fields[name], Properties(schema)[name])))
    && (Type(schema) == "array" ==>
          forall i | 0 <= i < |v.items| :: Accepts(v.items[i], Items(schema)))
  }

  predicate Kept(name: string, schema: Json) {
    Closed(schema) ==> name in Properties(schema)
  }

  function Prune(v: Json, schema: Json): Json
    decreases v
  {
    if Type(schema) == "object" && v.Obj? then
      Obj(map name | name in v.fields && Kept(name, schema) ::
            if name in Properties(schema) then Prune(v.fields[name], Properties(schema)[name]) else v.fields[name])
    else if Type(schema) == "array" && v.Arr? then
      Arr(seq(|v.items|, i requires 0 <= i < |v.items| => Prune(v.items[i], Items(schema))))
    else v
  }

  // ----- What a schema means -------------------------------------------------------------------------

  // The value meets the schema at every depth: types, enumerations, required names, and closed
  // objects hold nothing undeclared.
  predicate Conforms(v: Json, schema: Json)
    decreases v
  {
    Empty(schema) ||
      (&& Listed(v, schema) && OfType(v, Type(schema))
       && (Type(schema) == "object" ==>
             && (forall name | name in Required(schema) :: name in v.fields)
             && (Closed(schema) ==> forall name | name in v.fields :: name in Properties(schema))
             && (forall name | name in v.fields && name in Properties(schema) ::
                   Conforms(v.fields[name], Properties(schema)[name])))
       && (Type(schema) == "array" ==>
             forall i | 0 <= i < |v.items| :: Conforms(v.items[i], Items(schema))))
  }

  // Pruning took away nothing that had been checked: at every node visited the required names of
  // a closed object are declared, and an enumerated value is still listed.
  predicate Settled(v: Json, schema: Json)
    decreases v
  {
    Empty(schema) ||
      (&& Listed(Prune(v, schema), schema)
       && (Type(schema) == "object" && v.Obj? ==>
             && (forall name | name in Required(schema) :: Kept(name, schema))
             && (forall name | name in v.fields && name in Properties(schema) ::
                   Settled(v.fields[name], Properties(schema)[name])))
       && (Type(schema) == "array" && v.Arr? ==>
             forall i | 0 <= i < |v.items| :: Settled(v.items[i], Items(schema))))
  }

  lemma {:induction false} AcceptedConformsExactlyWhenSettled(v: Json, schema: Json)
    requires Accepts(v, schema)
    ensures Conforms(Prune(v, schema), schema) <==> Settled(v, schema)
    ensures Accepts(Prune(v, schema), schema) <==> Settled(v, schema)
    decreases v
  {
    if !Empty(schema) {
      if Type(schema) == "object" {
        forall name | name in v.fields && name in Properties(schema)
          ensures var child, sub := v.fields[name], Properties(schema)[name];
                  && (Conforms(Prune(child, sub), sub) <==> Settled(child, sub))
                  && (Accepts(Prune(child, sub), sub) <==> Settled(child, sub))
        {
          AcceptedConformsExactlyWhenSettled(v.fields[name], Properties(schema)[name]);
        }
      } else if Type(schema) == "array" {
        forall i | 0 <= i < |v.items|
          ensures var item, sub := v.items[i], Items(schema);
                  && (Conforms(Prune(item, sub), sub) <==> Settled(item, sub))
                  && (Accepts(Prune(item, sub), sub) <==> Settled(item, sub))
        {
          AcceptedConformsExactlyWhenSettled(v.items[i], Items(schema));
        }
        var w := Prune(v, schema);
        assert |w.items| == |v.items|;
        forall i | 0 <= i < |v.items| ensures w.items[i] == Prune(v.items[i], Items(schema)) {
        }
      }
    }
  }

  // ----- Schemas that never lose anything ---------------------------------------------------------------

  // Some value is accepted: read off the schema alone.
  predicate Satisfiable(schema: Json)
    decreases schema
  {
    Empty(schema) ||
    if Enum(schema) != [] then exists e | e in Enum(schema) :: Fits(e, schema)
    else if Type(schema) == "object" then
      forall name | name in Required(schema) && name in Properties(schema) :: Satisfiable(Properties(schema)[name])
    else true
  }

  // The check on the schema: every listed entry that fits is settled; without an enumeration,
  // closed objects declare what they require, and properties and items pass the check.
  predicate Coherent(schema: Json)
    decreases schema
  {
    Empty(schema) ||
    if Enum(schema) != [] then forall e | e in Enum(schema) && Fits(e, schema) :: Settled(e, schema)
    else if Type(schema) == "object" then
      Satisfiable(schema) ==>
        && (forall name | name in Required(schema) :: Kept(name, schema))
        && (forall name | name in Properties(schema) :: Coherent(Properties(schema)[name]))
    else Type(schema) == "array" && "items" in Fields(schema) ==> Coherent(Items(schema))
  }

  lemma {:induction false} AcceptedIsSatisfiable(v: Json, schema: Json)
    requires Accepts(v, schema)
    ensures Satisfiable(schema)
    decreases v
  {
    if !Empty(schema) && Enum(schema) == [] && Type(schema) == "object" {
      forall name | name in Required(schema) && name in Properties(schema)
        ensures Satisfiable(Properties(schema)[name])
      {
        AcceptedIsSatisfiable(v.fields[name], Properties(schema)[name]);
      }
    }
  }

  ghost function Example(schema: Json): (v: Json)
    requires Satisfiable(schema)
    ensures Accepts(v, schema)
    decreases schema
  {
    if Empty(schema) then Null
    else if Enum(schema) != [] then var e :| e in Enum(schema) && Fits(e, schema); e
    else
      match Type(schema)
      case "object" =>
        Obj(map name | name in Required(schema) ::
              if name in Properties(schema) then Example(Properties(schema)[name]) else Null)
      case "array" => Arr([])
      case "string" => Str("")
      case "boolean" => Bool(false)
      case "number" => Num(0.0)
      case "integer" => Num(0.0)
      case _ => Null
  }

  lemma {:induction false} CoherentSettles(v: Json, schema: Json)
    requires Accepts(v, schema) && Coherent(schema)
    ensures Settled(v, schema)
    decreases v
  {
    if !Empty(schema) && Enum(schema) == [] {
      if Type(schema) == "object" {
        AcceptedIsSatisfiable(v, schema);
        forall name | name in v.fields && name in Properties(schema)
          ensures Settled(v.fields[name], Properties(schema)[name])
        {
          CoherentSettles(v.fields[name], Properties(schema)[name]);
        }
      } else if Type(schema) == "array" {
        forall i | 0 <= i < |v.items| ensures Settled(v.items[i], Items(schema)) {
          CoherentSettles(v.items[i], Items(schema));
        }
      }
    }
  }

  ghost predicate AllSettled(schema: Json) {
    forall v :: Accepts(v, schema) ==> Settled(v, schema)
  }

  // An accepted property value in an accepted object, an accepted item in an array.
  lemma WithField(base: Json, schema: Json, name: string, x: Json)
    requires Type(schema) == "object" && Enum(schema) == [] && !Empty(schema)
    requires base.Obj? && Accepts(base, schema) && name in Properties(schema) && Accepts(x, Properties(schema)[name])
    ensures var v := Obj(base.fields[name := x]);
            Accepts(v, schema) && (Settled(v, schema) ==> Settled(x, Properties(schema)[name]))
  {
    var v := Obj(base.fields[name := x]);
    assert v.fields[name] == x;
  }

  lemma AsItem(schema: Json, x: Json)
    requires Type(schema) == "array" && Enum(schema) == [] && !Empty(schema) && Accepts(x, Items(schema))
    ensures Accepts(Arr([x]), schema) && (Settled(Arr([x]), schema) ==> Settled(x, Items(schema)))
  {
    assert Arr([x]).items[0] == x;
  }

  lemma {:induction false} SettledIsCoherent(schema: Json)
    requires AllSettled(schema)
    ensures Coherent(schema)
    decreases schema
  {
    if Empty(schema) || Enum(schema) != [] {
    } else if Type(schema) == "object" && Satisfiable(schema) {
      var base := Example(schema);
      assert Settled(base, schema);
      forall name | name in Properties(schema) ensures Coherent(Properties(schema)[name]) {
        forall x | Accepts(x, Properties(schema)[name]) ensures Settled(x, Properties(schema)[name]) {
          WithField(base, schema, name, x);
        }
        SettledIsCoherent(Properties(schema)[name]);
      }
    } else if Type(schema) == "array" && "items" in Fields(schema) {
      forall x | Accepts(x, Items(schema)) ensures Settled(x, Items(schema)) {
        AsItem(schema, x);
      }
      SettledIsCoherent(Items(schema));
    }
  }

  // Every accepted value is pruned to one that conforms.
  ghost predicate AllConform(schema: Json) {
    forall v :: Accepts(v, schema) ==> Conforms(Prune(v, schema), schema)
  }

  // The check is exact.
  lemma CoherentExactly(schema: Json)
    ensures Coherent(schema) <==> AllConform(schema)
  {
    forall v | Accepts(v, schema) ensures Conforms(Prune(v, schema), schema) <==> Settled(v, schema) {
      AcceptedConformsExactlyWhenSettled(v, schema);
    }
    if Coherent(schema) {
      forall v | Accepts(v, schema) ensures Conforms(Prune(v, schema), schema) {
        CoherentSettles(v, schema);
      }
    }
    if AllConform(schema) {
      SettledIsCoherent(schema);
    }
  }

  // Pruning twice is pruning once, for every value and every schema.
  lemma {:induction false} PruneIsIdempotent(v: Json, schema: Json)
    ensures Prune(Prune(v, schema), schema) == Prune(v, schema)
    decreases v
  {
    var w := Prune(v, schema);
    if Type(schema) == "object" && v.Obj? {
      forall name | name in w.fields ensures Prune(w, schema).fields[name] == w.fields[name] {
        if name in Properties(schema) {
          PruneIsIdempotent(v.fields[name], Properties(schema)[name]);
        }
      }
      assert Prune(w, schema).fields == w.fields;
    } else if Type(schema) == "array" && v.Arr? {
      forall i | 0 <= i < |v.items| ensures Prune(w, schema).items[i] == w.items[i] {
        PruneIsIdempotent(v.items[i], Items(schema));
      }
      assert Prune(w, schema).items == w.items;
    }
  }

  // With a coherent schema an accepted value is pruned to one that conforms, and a second run
  // accepts it and changes nothing.
  lemma SecondRunChangesNothing(v: Json, schema: Json)
    requires Accepts(v, schema) && Coherent(schema)
    ensures var w := Prune(v, schema);
            Conforms(w, schema) && Accepts(w, schema) && Prune(w, schema) == w
  {
    CoherentSettles(v, schema);
    AcceptedConformsExactlyWhenSettled(v, schema);
    PruneIsIdempotent(v, schema);
  }

  // ----- What pruning takes away ------------------------------------------------------------------------

  datatype Step = Field(name: string) | Index(i: nat)

  predicate Leads(v: Json, step: Step) {
    match step
    case Field(name) => v.Obj? && name in v.fields
    case Index(i) => v.Arr? && i < |v.items|
  }

  function Child(v: Json, step: Step): Json
    requires Leads(v, step)
  {
    match step
    case Field(name) => v.fields[name]
    case Index(i) => v.items[i]
  }

  function Visit(v: Json, path: seq<Step>): Option<Json>
    decreases |path|
  {
    if path == [] then Some(v)
    else if Leads(v, path[0]) then Visit(Child(v, path[0]), path[1..])
    else None
  }

  // The schema of the child a step leads to; an undeclared child has the empty one.
  function Inner(schema: Json, step: Step): Json {
    match step
    case Field(name) =>
      if Type(schema) == "object" && name in Properties(schema) then Properties(schema)[name] else Null
    case Index(i) => if Type(schema) == "array" then Items(schema) else Null
  }

  // The path enters a closed object by a name that it does not declare.
  predicate Undeclared(schema: Json, path: seq<Step>)
    decreases |path|
  {
    path != [] &&
      ((path[0].Field? && Type(schema) == "object" && !Kept(path[0].name, schema))
       || Undeclared(Inner(schema, path[0]), path[1..]))
  }

  predicate SameNode(a: Json, b: Json) {
    match a
    case Obj(_) => b.Obj?
    case Arr(items) => b.Arr? && |b.items| == |items|
    case _ => a == b
  }

  lemma PruneAtEmpty(v: Json, schema: Json)
    requires Empty(schema)
    ensures Prune(v, schema) == v
  {
  }

  lemma PruneChild(v: Json, schema: Json, step: Step)
    ensures Leads(Prune(v, schema), step)
            <==> Leads(v, step) && !(step.Field? && Type(schema) == "object" && !Kept(step.name, schema))
    ensures Leads(v, step) && Leads(Prune(v, schema), step) ==>
              Child(Prune(v, schema), step) == Prune(Child(v, step), Inner(schema, step))
  {
    if Leads(v, step) {
      PruneAtEmpty(Child(v, step), Null);
    }
  }

  // The result holds exactly the nodes of the input that lie below no undeclared name of a closed
  // object, and each node is what it was.
  lemma {:induction false} OnlyUndeclaredGoes(v: Json, schema: Json, path: seq<Step>)
    ensures Visit(Prune(v, schema), path).Some? <==> Visit(v, path).Some? && !Undeclared(schema, path)
    ensures Visit(Prune(v, schema), path).Some? && Visit(v, path).Some? ==>
              SameNode(Visit(v, path).value, Visit(Prune(v, schema), path).value)
    decreases |path|
  {
    if path != [] {
      PruneChild(v, schema, path[0]);
      if Leads(v, path[0]) {
        OnlyUndeclaredGoes(Child(v, path[0]), Inner(schema, path[0]), path[1..]);
      }
    }
  }

  // ----- Where acceptance is not enough --------------------------------------------------------------------

  // A closed object that declares `a` alone, with one more keyword.
  function ClosedOverA(keyword: string, value: Json): Json {
    Obj(map["type" := Str("object"), "properties" := Obj(map["a" := Null]),
            "additionalProperties" := Bool(false)][keyword := value])
  }

  const A_AND_B := Obj(map["a" := Null, "b" := Null])

  lemma PrunedToA(keyword: string, value: Json)
    requires keyword == "required" || keyword == "enum"
    ensures var schema := ClosedOverA(keyword, value);
            && !Empty(schema) && Type(schema) == "object" && Closed(schema) && Sub(schema, keyword) == value
            && Properties(schema) == map["a" := Null]
            && (keyword == "enum" ==> Required(schema) == []) && (keyword == "required" ==> Enum(schema) == [])
            && Prune(A_AND_B, schema) == Obj(map["a" := Null])
  {
    var schema := ClosedOverA(keyword, value);
    assert "type" in schema.fields;
    assert "a" in Properties(schema);
    var w := Prune(A_AND_B, schema);
    assert w.fields["a"] == Null && "b" !in w.fields;
    assert w.fields == map["a" := Null];
  }

  // A closed object may require a name it does not declare: the value is accepted because it has
  // the name, and forwarded without it.
  lemma RequiredNameIsPruned()
    ensures var v, schema := A_AND_B, ClosedOverA("required", Arr([Str("b")]));
            Accepts(v, schema) && !Conforms(Prune(v, schema), schema) && !Accepts(Prune(v, schema), schema)
  {
    PrunedToA("required", Arr([Str("b")]));
    assert [Str("b")][..0] == [];
    assert Names([Str("b")]) == ["b"];
    assert "b" in Required(ClosedOverA("required", Arr([Str("b")])));
  }

  // An enumerated object is compared before it is pruned, so the forwarded one may be unlisted.
  lemma ListedObjectIsPruned()
    ensures var v, schema := A_AND_B, ClosedOverA("enum", Arr([A_AND_B]));
            Accepts(v, schema) && !Conforms(Prune(v, schema), schema) && !Accepts(Prune(v, schema), schema)
  {
    PrunedToA("enum", Arr([A_AND_B]));
    assert "b" in A_AND_B.fields;
  }
}
