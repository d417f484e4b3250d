/** The recursive validator and the contract check of one tool call. Maps are walked in any order;
    a rejected value may be left half pruned, and its callers forward the original instead. */
module ArgumentValidation {
  import opened Schema
  import opened SchemaMeaning
  import opened Spaces

  method RequiredFromSchema(schema: Json) returns (required: seq<string>)
    ensures required == Required(schema)
  {
    required := [];
    if !Sub(schema, "required").Arr? {
      return;
    }
    var entries := Sub(schema, "required").items;
    for i := 0 to |entries|
      invariant required == Names(entries[..i])
    {
      assert entries[..i + 1][..i] == entries[..i];
      if entries[i].Str? && entries[i].s != "" {
        required := required + [entries[i].s];
      }
    }
    assert entries[..|entries|] == entries;
  }

  method ValidateEnum(value: Json, schema: Json) returns (ok: bool)
    ensures ok == Listed(value, schema)
  {
    var allowed := Enum(schema);
    if allowed == [] {
      return true;
    }
    for i := 0 to |allowed|
      invariant value !in allowed[..i]
    {
      if allowed[i] == value {
        return true;
      }
    }
    return false;
  }

  // The verdict and the result are those of the specification whatever order the maps are walked in.
  method ValidateNode(value: Json, schema: Json) returns (ok: bool, result: Json)
    ensures ok == Accepts(value, schema)
    ensures ok ==> result == Prune(value, schema)
    decreases value, 1
  {
    if Empty(schema) {
      PruneAtEmpty(value, schema);
      return true, value;
    }
    var listed := ValidateEnum(value, schema);
    if !listed {
      return false, value;
    }
    match Type(schema)
    case "object" =>
      if !value.Obj? {
        return false, value;
      }
      var fields;
      ok, fields := ValidateObject(value, schema);
      return ok, Obj(fields);
    case "array" =>
      if !value.Arr? {
        return false, value;
      }
      var items := value.items;
      for i := 0 to |items|
        invariant |items| == |value.items|
        invariant forall k :: i <= k < |items| ==> items[k] == value.items[k]
        invariant forall k :: 0 <= k < i ==> Accepts(value.items[k], Items(schema))
        invariant forall k :: 0 <= k < i ==> items[k] == Prune(value.items[k], Items(schema))
      {
        var item;
        ok, item := ValidateNode(items[i], Items(schema));
        if !ok {
          assert !Accepts(value.items[i], Items(schema));
          return false, value;
        }
        items := items[i := item];
      }
      assert items == Prune(value, schema).items;
      return true, Arr(items);
    case _ =>
      return OfType(value, Type(schema)), value;
  }

  method PruneUndeclared(fields: map<string, Json>, schema: Json) returns (kept: map<string, Json>)
    ensures kept == map name | name in fields && Kept(name, schema) :: fields[name]
  {
    kept := fields;
    if Closed(schema) {
      var todo := fields.Keys;
      while todo != {}
        invariant todo <= fields.Keys
        invariant forall name :: name in kept ==> name in fields && kept[name] == fields[name]
        invariant forall name :: name in fields ==> (name in kept <==> name in todo || Kept(name, schema))
        decreases |todo|
      {
        var name :| name in todo;
        todo := todo - {name};
        if name !in Properties(schema) {
          kept := kept - {name};
        }
      }
    }
    assert kept.Keys == (map name | name in fields && Kept(name, schema) :: fields[name]).Keys;
  }

  method ValidateObject(value: Json, schema: Json) returns (ok: bool, fields: map<string, Json>)
    requires value.Obj? && Type(schema) == "object"
    ensures ok == Fits(value, schema)
    ensures ok ==> Obj(fields) == Prune(value, schema)
    decreases value, 0
  {
    fields := value.fields;
    var required := RequiredFromSchema(schema);
    for i := 0 to |required|
      invariant forall k :: 0 <= k < i ==> required[k] in value.fields
    {
      if required[i] !in fields {
        return false, fields;
      }
    }
    fields := PruneUndeclared(fields, schema);
    var todo := fields.Keys;
    while todo != {}
      invariant todo <= fields.Keys
      invariant forall name :: name in fields <==> name in value.fields && Kept(name, schema)
      invariant forall name :: name in todo ==> fields[name] == value.fields[name]
      invariant forall name :: name in fields && name !in todo ==>
                  if name in Properties(schema)
                  then Accepts(value.fields[name], Properties(schema)[name])
                       && fields[name] == Prune(value.fields[name], Properties(schema)[name])
                  else fields[name] == value.fields[name]
      decreases |todo|
    {
      var name :| name in todo;
      todo := todo - {name};
      if name in Properties(schema) {
        assert fields[name] == value.fields[name] && fields[name] < value;
        var child;
        ok, child := ValidateNode(fields[name], Properties(schema)[name]);
        if !ok {
          return false, fields;
        }
        fields := fields[name := child];
      }
    }
    assert fields == Prune(value, schema).fields;
    return true, fields;
  }

  // ----- One tool call -------------------------------------------------------------------------------

  datatype ToolContracts = ToolContracts(required: map<string, seq<string>>, schemas: map<string, Json>, choice: string)
  {
    predicate Allows(name: string) {
      match choice
      case "" | "auto" | "required" | "any" => true
      case "none" => false
      case _ => choice == name
    }

    function RequiredOf(name: string): seq<string> {
      if name in required then required[name] else []
    }

    function SchemaOf(name: string): Json {
      if name in schemas then schemas[name] else Null
    }
  }

  // The arguments as sent: JSON, or text that is none.
  datatype Raw = Decoded(v: Json) | Text(text: string)

  datatype Verdict = Forward(args: Raw) | Reject(repairable: bool)

  predicate Present(v: Json, key: string) {
    v.Obj? && key in v.fields && !v.fields[key].Null? && !(v.fields[key].Str? && Blank(v.fields[key].s))
  }

  predicate SatisfiesRequired(args: Raw, required: seq<string>) {
    required != [] ==> args.Decoded? && forall key | key in required :: Present(args.v, key)
  }

  method IsBlank(text: string) returns (blank: bool)
    ensures blank == Blank(text)
  {
    for i := 0 to |text|
      invariant Blank(text[..i])
    {
      if !IsSpace(text[i]) {
        return false;
      }
    }
    assert text[..|text|] == text;
    return true;
  }

  method ToolCallSatisfiesRequired(args: Raw, required: seq<string>) returns (ok: bool)
    ensures ok == SatisfiesRequired(args, required)
  {
    if required == [] {
      return true;
    }
    if args.Text? || !args.v.Obj? {
      assert required[0] in required;
      return false;
    }
    for i := 0 to |required|
      invariant forall k :: 0 <= k < i ==> Present(args.v, required[k])
    {
      var key := required[i];
      assert key in required;
      if key !in args.v.fields || args.v.fields[key].Null? {
        return false;
      }
      if args.v.fields[key].Str? {
        var blank := IsBlank(args.v.fields[key].s);
        if blank {
          assert !Present(args.v, key);
          return false;
        }
      }
    }
    return true;
  }

  // `null` decodes into an object without fields, though it is compared and sent on as `null`.
  predicate AcceptsArguments(v: Json, schema: Json) {
    match v
    case Obj(_) => Accepts(v, schema)
    case Null => Listed(Null, schema) && Fits(Obj(map[]), schema)
    case _ => false
  }

  // The tool may be called, its required arguments are there and its schema, if any, accepts the
  // arguments.
  predicate Admits(c: ToolContracts, name: string, args: Raw) {
    && c.Allows(name) && SatisfiesRequired(args, c.RequiredOf(name))
    && (Empty(c.SchemaOf(name)) || (args.Decoded? && AcceptsArguments(args.v, c.SchemaOf(name))))
  }

  // Exactly the calls admitted are forwarded, as they came or pruned.
  method Validate(c: ToolContracts, name: string, args: Raw) returns (verdict: Verdict)
    ensures verdict.Forward? <==> Admits(c, name, args)
    ensures verdict.Forward? ==>
              verdict.args == if Empty(c.SchemaOf(name)) then args else Decoded(Prune(args.v, c.SchemaOf(name)))
    ensures verdict.Reject? ==> (verdict.repairable <==> c.choice != "none")
  {
    if !c.Allows(name) {
      return Reject(c.choice != "none");
    }
    var satisfied := ToolCallSatisfiesRequired(args, c.RequiredOf(name));
    if !satisfied {
      return Reject(true);
    }
    var schema := c.SchemaOf(name);
    if Empty(schema) {
      return Forward(args);
    }
    if args.Text? || !(args.v.Obj? || args.v.Null?) {
      return Reject(true);
    }
    if args.v.Null? {
      var listed := ValidateEnum(Null, schema);
      var fits := OfType(Obj(map[]), Type(schema));
      if fits && Type(schema) == "object" {
        var fields;
        fits, fields := ValidateObject(Obj(map[]), schema);
      }
      return if listed && fits then Forward(args) else Reject(true);
    }
    var ok, result := ValidateNode(args.v, schema);
    return if ok then Forward(Decoded(result)) else Reject(true);
  }

  // ----- What is admitted -----------------------------------------------------------------------------

  // The argument is there, and neither null nor white space.
  ghost predicate IsGiven(args: Raw, key: string) {
    && args.Decoded? && args.v.Obj? && key in args.v.fields && args.v.fields[key] != Null
    && forall text :: args.v.fields[key] == Str(text) ==> exists i :: 0 <= i < |text| && !IsSpace(text[i])
  }

  lemma PresentExactly(v: Json, key: string)
    ensures Present(v, key) <==> IsGiven(Decoded(v), key)
  {
    if v.Obj? && key in v.fields && v.fields[key].Str? {
      assert v.fields[key] == Str(v.fields[key].s);
    }
  }

  lemma TextGivesNothing(args: Raw, key: string)
    requires args.Text?
    ensures !IsGiven(args, key)
  {
  }

  // What a schema asks besides its enumeration.
  ghost predicate MeetsBesides(v: Json, schema: Json) {
    && HasType(v, schema)
    && (Says(schema, "type", Str("object")) ==>
          forall entries, key :: Says(schema, "required", Arr(entries)) && Str(key) in entries && key != "" ==>
            v.Obj? && key in v.fields)
  }

  lemma NullExactly(schema: Json)
    ensures AcceptsArguments(Null, schema) <==> IsListed(Null, schema) && MeetsBesides(Obj(map[]), schema)
  {
    ListedExactly(Null, schema);
    OfTypeExactly(Obj(map[]), schema);
    TypeExactly(schema, "object");
    hide Listed, IsListed, OfType, HasType, Required, Type;
    forall key: string
      ensures key in Required(schema) <==>
              key != "" && exists entries :: Says(schema, "required", Arr(entries)) && Str(key) in entries
    {
      RequiredExactly(schema, key);
    }
  }

  // A call is admitted if and only if the tool choice leaves all tools open or pins this one; every
  // required argument is given; and with a schema that says anything, the arguments are an object
  // that meets it in every place, or null, which has to be listed where something is listed and
  // counts as an object without fields otherwise.
  lemma AdmittedExactly(c: ToolContracts, name: string, args: Raw)
    ensures Admits(c, name, args) <==>
            && (c.choice in {"", "auto", "required", "any"} || (c.choice == name && name != "none"))
            && (name in c.required ==> forall key :: key in c.required[name] ==> IsGiven(args, key))
            && (name in c.schemas && c.schemas[name].Obj? && c.schemas[name].fields != map[] ==>
                  && args.Decoded?
                  && (args.v.Obj? || (args.v.Null? && IsListed(Null, c.schemas[name])))
                  && (args.v.Obj? ==> forall path: seq<Step> :: MeetsAt(args.v, c.schemas[name], path))
                  && (args.v.Null? ==> MeetsBesides(Obj(map[]), c.schemas[name])))
  {
    hide Accepts, Meets, MeetsAt, Present, IsGiven, Listed, IsListed, MeetsBesides, Fits, Properties, Type;
    var required, schema := c.RequiredOf(name), c.SchemaOf(name);
    if args.Decoded? {
      forall key ensures Present(args.v, key) <==> IsGiven(args, key) {
        PresentExactly(args.v, key);
      }
      AcceptsExactly(args.v, schema);
      NullExactly(schema);
    } else {
      forall key ensures !IsGiven(args, key) {
        TextGivesNothing(args, key);
      }
    }
    if required != [] {
      assert required[0] in required;
    }
  }

  // Pruning leaves what is present present, unless it was undeclared.
  lemma PrunePresent(v: Json, schema: Json, key: string)
    requires v.Obj? && Present(v, key) && (Type(schema) == "object" ==> Kept(key, schema))
    ensures Present(Prune(v, schema), key)
  {
    if Type(schema) == "object" && key in Properties(schema) {
      var child := v.fields[key];
      assert child.Str? ==> Prune(child, Properties(schema)[key]) == child;
    }
  }

  lemma EmptyTakesAll(v: Json, schema: Json)
    requires Empty(schema)
    ensures Conforms(v, schema) && Accepts(v, schema) && Prune(v, schema) == v && Required(schema) == []
  {
    PruneAtEmpty(v, schema);
  }

  lemma RequiredIsKept(v: Json, schema: Json, key: string)
    requires Settled(v, schema) && v.Obj? && key in Required(schema)
    ensures Type(schema) == "object" ==> Kept(key, schema)
  {
  }

  // What is forwarded for a tool with a coherent schema conforms to it and still has every required
  // argument.
  lemma ForwardedCallKeepsItsContract(c: ToolContracts, name: string, v: Json)
    requires Admits(c, name, Decoded(v)) && v.Obj? && name in c.schemas && Coherent(c.schemas[name])
    requires name in c.required && c.required[name] == Required(c.schemas[name])
    ensures var w, schema := Prune(v, c.schemas[name]), c.schemas[name];
            && Conforms(w, schema) && Accepts(w, schema) && Prune(w, schema) == w
            && forall key :: key in c.required[name] ==> IsGiven(Decoded(w), key)
  {
    hide Coherent, Conforms, Accepts;
    var schema := c.schemas[name];
    if Empty(schema) {
      EmptyTakesAll(v, schema);
    } else {
      SecondRunChangesNothing(v, schema);
      CoherentSettles(v, schema);
    }
    forall key | key in Required(schema) ensures IsGiven(Decoded(Prune(v, schema)), key) {
      PresentExactly(v, key);
      RequiredIsKept(v, schema, key);
      PrunePresent(v, schema, key);
      PresentExactly(Prune(v, schema), key);
    }
  }
}
