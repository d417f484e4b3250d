/** What a schema asks for, keyword by keyword and place by place: the validator accepts a value if
    and only if every place in it meets the schema that applies there. */
module SchemaMeaning {
  import opened Options
  import opened Schema

  // ----- What the keywords say -------------------------------------------------------------------

  predicate Says(schema: Json, keyword: string, value: Json) {
    schema.Obj? && keyword in schema.fields && schema.fields[keyword] == value
  }

  ghost predicate Declares(schema: Json, name: string, sub: Json) {
    exists properties :: Says(schema, "properties", Obj(properties)) && name in properties && properties[name] == sub
  }

  predicate Equals(n: real, i: int) {
    n == i as real
  }

  ghost predicate HasType(v: Json, schema: Json) {
    && (Says(schema, "type", Str("object")) ==> v.Obj?)
    && (Says(schema, "type", Str("array")) ==> v.Arr?)
    && (Says(schema, "type", Str("string")) ==> v.Str?)
    && (Says(schema, "type", Str("boolean")) ==> v.Bool?)
    && (Says(schema, "type", Str("number")) ==> v.Num?)
    && (Says(schema, "type", Str("integer")) ==> v.Num? && exists i :: Equals(v.n, i))
    && (Says(schema, "type", Str("null")) ==> v.Null?)
  }

  ghost predicate IsListed(v: Json, schema: Json) {
    forall entries :: Says(schema, "enum", Arr(entries)) && entries != [] ==> v in entries
  }

  // The schema's own type, enumeration and required names, without looking below.
  ghost predicate Meets(v: Json, schema: Json) {
    && HasType(v, schema) && IsListed(v, schema)
    && (Says(schema, "type", Str("object")) ==>
          forall entries, name ::
            Says(schema, "required", Arr(entries)) && Str(name) in entries && name != "" ==> name in v.fields)
  }

  // A name that a closed object does not declare.
  ghost predicate Foreign(schema: Json, name: string) {
    && Says(schema, "additionalProperties", Bool(false))
    && exists properties :: Says(schema, "properties", Obj(properties)) && properties != map[] && name !in properties
  }

  // ----- The readings of a schema ------------------------------------------------------------------

  lemma {:induction false} NamesAre(entries: seq<Json>, name: string)
    ensures name in Names(entries) <==> name != "" && Str(name) in entries
    decreases |entries|
  {
    if entries != [] {
      var n := |entries| - 1;
      NamesAre(entries[..n], name);
      assert entries == entries[..n] + [entries[n]];
    }
  }

  lemma RequiredExactly(schema: Json, name: string)
    ensures name in Required(schema) <==>
            name != "" && exists entries :: Says(schema, "required", Arr(entries)) && Str(name) in entries
  {
    if Sub(schema, "required").Arr? {
      NamesAre(Sub(schema, "required").items, name);
      assert Says(schema, "required", Arr(Sub(schema, "required").items));
    }
  }

  lemma SubExactly(schema: Json, keyword: string)
    ensures Says(schema, keyword, Sub(schema, keyword)) <==> schema.Obj? && keyword in schema.fields
    ensures !(schema.Obj? && keyword in schema.fields) ==> Sub(schema, keyword) == Null
  {
  }

  lemma TypeExactly(schema: Json, t: string)
    requires t != ""
    ensures Type(schema) == t <==> Says(schema, "type", Str(t))
  {
  }

  lemma WholeExactly(n: real)
    ensures Whole(n) <==> exists i :: Equals(n, i)
  {
    if Whole(n) {
      assert Equals(n, n.Floor);
    }
  }

  lemma KeptExactly(schema: Json, name: string)
    ensures Kept(name, schema) <==> !Foreign(schema, name)
  {
    if Closed(schema) {
      assert Says(schema, "properties", Obj(Properties(schema)));
    }
  }

  lemma InnerExactly(schema: Json, step: Step)
    ensures step.Field? && Says(schema, "type", Str("object")) ==>
              (forall sub :: Declares(schema, step.name, sub) ==> Inner(schema, step) == sub)
    ensures step.Index? && Says(schema, "type", Str("array")) ==>
              (forall sub :: Says(schema, "items", sub) ==> Inner(schema, step) == sub)
    ensures Inner(schema, step) != Null ==>
              var sub := Inner(schema, step);
              || (step.Field? && Says(schema, "type", Str("object")) && Declares(schema, step.name, sub))
              || (step.Index? && Says(schema, "type", Str("array")) && Says(schema, "items", sub))
  {
    if step.Field? && Type(schema) == "object" && step.name in Properties(schema) {
      assert Says(schema, "properties", Obj(Properties(schema)));
    }
  }

  // ----- Acceptance ---------------------------------------------------------------------------------

  // What the validator checks at one node before it goes below.
  predicate Passes(v: Json, schema: Json) {
    Empty(schema) ||
    (&& Listed(v, schema) && OfType(v, Type(schema))
     && (Type(schema) == "object" ==> forall name | name in Required(schema) :: name in v.fields))
  }

  lemma ListedExactly(v: Json, schema: Json)
    ensures Listed(v, schema) <==> IsListed(v, schema)
  {
    if Sub(schema, "enum").Arr? {
      assert Says(schema, "enum", Arr(Sub(schema, "enum").items));
    }
  }

  lemma OfTypeExactly(v: Json, schema: Json)
    ensures OfType(v, Type(schema)) <==> HasType(v, schema)
  {
    hide Whole;
    if v.Num? {
      WholeExactly(v.n);
    }
  }

  lemma NothingIsAsked(v: Json, schema: Json)
    requires Empty(schema)
    ensures HasType(v, schema) && IsListed(v, schema) && !Says(schema, "type", Str("object"))
  {
  }

  lemma PassesExactly(v: Json, schema: Json)
    ensures Passes(v, schema) <==> Meets(v, schema)
  {
    hide Listed, Required, OfType, HasType, IsListed;
    ListedExactly(v, schema);
    OfTypeExactly(v, schema);
    if Empty(schema) {
      NothingIsAsked(v, schema);
    }
    TypeExactly(schema, "object");
    forall name: string
      ensures name in Required(schema) <==>
              name != "" && exists entries :: Says(schema, "required", Arr(entries)) && Str(name) in entries
    {
      RequiredExactly(schema, name);
    }
  }

  // The schema that applies at a place.
  function SchemaAt(schema: Json, path: seq<Step>): Json
    decreases |path|
  {
    if path == [] then schema else SchemaAt(Inner(schema, path[0]), path[1..])
  }

  ghost predicate MeetsAt(v: Json, schema: Json, path: seq<Step>) {
    Visit(v, path).Some? ==> Meets(Visit(v, path).value, SchemaAt(schema, path))
  }

  ghost predicate ChildrenAccepted(v: Json, schema: Json) {
    forall step :: Leads(v, step) ==> Accepts(Child(v, step), Inner(schema, step))
  }

  lemma ChildIsAccepted(v: Json, schema: Json, step: Step)
    requires Accepts(v, schema) && Leads(v, step)
    ensures Accepts(Child(v, step), Inner(schema, step))
  {
    assert Empty(Null) && Accepts(Child(v, step), Null);
    match step
    case Field(name) =>
      if Type(schema) == "object" && name in Properties(schema) {
        assert !Empty(schema);
        assert Fits(v, schema);
        assert Accepts(v.fields[name], Properties(schema)[name]);
      }
    case Index(i) =>
      if Type(schema) == "array" {
        assert !Empty(schema);
        assert Fits(v, schema);
        assert Accepts(v.items[i], Items(schema));
      }
  }

  lemma AcceptsStep(v: Json, schema: Json)
    ensures Accepts(v, schema) <==> Passes(v, schema) && ChildrenAccepted(v, schema)
  {
    if Accepts(v, schema) {
      forall step | Leads(v, step) ensures Accepts(Child(v, step), Inner(schema, step)) {
        ChildIsAccepted(v, schema, step);
      }
    }
    if Passes(v, schema) && !Empty(schema) && ChildrenAccepted(v, schema) {
      if Type(schema) == "object" {
        forall name | name in v.fields && name in Properties(schema)
          ensures Accepts(v.fields[name], Properties(schema)[name])
        {
          assert Leads(v, Field(name));
        }
      } else if Type(schema) == "array" {
        forall i | 0 <= i < |v.items| ensures Accepts(v.items[i], Items(schema)) {
          assert Leads(v, Index(i));
        }
      }
    }
  }

  lemma {:induction false} AcceptedMeetsAt(v: Json, schema: Json, path: seq<Step>)
    requires Accepts(v, schema)
    ensures MeetsAt(v, schema, path)
    decreases |path|
  {
    hide Meets, Accepts, Passes, Inner;
    AcceptsStep(v, schema);
    if path == [] {
      PassesExactly(v, schema);
    } else if Leads(v, path[0]) {
      AcceptedMeetsAt(Child(v, path[0]), Inner(schema, path[0]), path[1..]);
    }
  }

  lemma ChildIsSmaller(v: Json, step: Step)
    requires Leads(v, step)
    ensures Child(v, step) < v
  {
  }

  lemma {:induction false} MeetsEverywhereIsAccepted(v: Json, schema: Json)
    requires forall path: seq<Step> :: MeetsAt(v, schema, path)
    ensures Accepts(v, schema)
    decreases v
  {
    hide Meets, Accepts, Passes, Inner;
    assert MeetsAt(v, schema, []);
    PassesExactly(v, schema);
    forall step | Leads(v, step) ensures Accepts(Child(v, step), Inner(schema, step)) {
      forall path: seq<Step> ensures MeetsAt(Child(v, step), Inner(schema, step), path) {
        assert ([step] + path)[1..] == path;
        assert MeetsAt(v, schema, [step] + path);
      }
      ChildIsSmaller(v, step);
      MeetsEverywhereIsAccepted(Child(v, step), Inner(schema, step));
    }
    AcceptsStep(v, schema);
  }

  // A value is accepted if and only if every place in it meets the schema that applies there.
  lemma AcceptsExactly(v: Json, schema: Json)
    ensures Accepts(v, schema) <==> forall path: seq<Step> :: MeetsAt(v, schema, path)
  {
    hide MeetsAt, Accepts;
    if Accepts(v, schema) {
      forall path: seq<Step> ensures MeetsAt(v, schema, path) {
        AcceptedMeetsAt(v, schema, path);
      }
    }
    if forall path: seq<Step> :: MeetsAt(v, schema, path) {
      MeetsEverywhereIsAccepted(v, schema);
    }
  }

  // ----- Pruning --------------------------------------------------------------------------------------

  // Step k of the path enters a closed object by a name that it does not declare.
  ghost predicate Crosses(schema: Json, path: seq<Step>, k: nat) {
    && k < |path| && path[k].Field?
    && var here := SchemaAt(schema, path[..k]);
       Says(here, "type", Str("object")) && Foreign(here, path[k].name)
  }

  lemma {:induction false} UndeclaredExactly(schema: Json, path: seq<Step>)
    ensures Undeclared(schema, path) <==> exists k: nat :: Crosses(schema, path, k)
    decreases |path|
  {
    hide Foreign, Says, Kept, Inner, Type;
    if path != [] {
      var inner, rest := Inner(schema, path[0]), path[1..];
      assert path[..0] == [];
      TypeExactly(schema, "object");
      if path[0].Field? {
        KeptExactly(schema, path[0].name);
      }
      UndeclaredExactly(inner, rest);
      forall k: nat | k < |rest| ensures Crosses(schema, path, k + 1) <==> Crosses(inner, rest, k) {
        assert path[..k + 1][0] == path[0] && path[..k + 1][1..] == rest[..k];
      }
      if k: nat :| Crosses(schema, path, k) {
        assert k == 0 || Crosses(inner, rest, k - 1);
      }
      if k: nat :| Crosses(inner, rest, k) {
        assert Crosses(schema, path, k + 1);
      }
      assert Crosses(schema, path, 0) <==>
             path[0].Field? && Says(schema, "type", Str("object")) && Foreign(schema, path[0].name);
    }
  }

  // Pruning keeps exactly the places that no step of the way enters by an undeclared name.
  lemma PrunedExactly(v: Json, schema: Json, path: seq<Step>)
    ensures Visit(Prune(v, schema), path).Some? <==>
            Visit(v, path).Some? && forall k: nat :: !Crosses(schema, path, k)
    ensures Visit(Prune(v, schema), path).Some? && Visit(v, path).Some? ==>
              SameNode(Visit(v, path).value, Visit(Prune(v, schema), path).value)
  {
    hide Crosses, SameNode, Prune;
    UndeclaredExactly(schema, path);
    OnlyUndeclaredGoes(v, schema, path);
  }

  // A value conforms if and only if it is accepted and pruning takes nothing away.
  lemma {:induction false} ConformsExactly(v: Json, schema: Json)
    ensures Conforms(v, schema) <==> Accepts(v, schema) && Prune(v, schema) == v
    decreases v
  {
    if !Empty(schema) {
      if Type(schema) == "object" && v.Obj? {
        forall name | name in v.fields && name in Properties(schema)
          ensures var child, sub := v.fields[name], Properties(schema)[name];
                  Conforms(child, sub) <==> Accepts(child, sub) && Prune(child, sub) == child
        {
          ConformsExactly(v.fields[name], Properties(schema)[name]);
        }
        var w := Prune(v, schema);
        if Prune(v, schema) == v {
          forall name | name in v.fields ensures name in w.fields && w.fields[name] == v.fields[name] {
          }
        }
        if Conforms(v, schema) {
          assert w.fields == v.fields;
        }
      } else if Type(schema) == "array" && v.Arr? {
        var w := Prune(v, schema);
        forall i | 0 <= i < |v.items|
          ensures w.items[i] == Prune(v.items[i], Items(schema))
          ensures Conforms(v.items[i], Items(schema))
                  <==> Accepts(v.items[i], Items(schema)) && Prune(v.items[i], Items(schema)) == v.items[i]
        {
          ConformsExactly(v.items[i], Items(schema));
        }
        if Conforms(v, schema) {
          assert w.items == v.items;
        }
      }
    } else {
      PruneAtEmpty(v, schema);
    }
  }
}
