/** The options of `Collection.random` (geometry/collection.py): their
    defaults, the shallow update with the caller's options and their
    validation. */
module CollectionOptions {
  import opened Errors
  import opened Values

  datatype Option<T> = None | Some(value: T)

  /** The default options: 3 plain polygons of 3 to 16 vertices, the default
      space and `(2, 2)` divisions. */
  const Defaults: map<string, Value> := map[
    "type" := StrV("polygon"),
    "count" := IntV(3),
    "form" := DictV(map["min_vertices_count" := IntV(3), "max_vertices_count" := IntV(16)]),
    "space" := DictV(map["space" := NoneV, "divisions" := TupleV([IntV(2), IntV(2)])])
  ]

  /** `value in ['polygon', 'rectangle', 'simple', 'convex', 1, 0, 2, 3]`:
      the list is searched with `==`, so a float equal to one of the
      integers is accepted too. */
  predicate ValidType(v: Value)
  {
    v == StrV("polygon") || v == StrV("rectangle") || v == StrV("simple") || v == StrV("convex")
    || EqualsInt(v, 1) || EqualsInt(v, 0) || EqualsInt(v, 2) || EqualsInt(v, 3)
  }

  /** The first failure of two checks made in order. */
  function AndThen(a: Outcome, b: Outcome): Outcome
  {
    if a.Fail? then a else b
  }

  /** A vertex count of `form` under `key`: when present it must be an int of
      at least 3. */
  function CheckVerticesCount(form: Value, key: string): Outcome
  {
    match Contains(form, key)
    case Err(e) => Fail(e)
    case Ok(false) => Pass
    case Ok(true) =>
      match GetKey(form, key)
      case Err(e) => Fail(e)
      case Ok(v) => if v.IntV? && v.i >= 3 then Pass else Fail(ValueError)
  }

  /** The space under `space['space']`: when present it is None or a
      Rectangle. */
  function CheckSpaceEntry(space: Value): Outcome
  {
    match Contains(space, "space")
    case Err(e) => Fail(e)
    case Ok(false) => Pass
    case Ok(true) =>
      match GetKey(space, "space")
      case Err(e) => Fail(e)
      case Ok(v) => if v != NoneV && !v.RectV? then Fail(ValueError) else Pass
  }

  /** `divisions[0] >= 0 and divisions[1] >= 0` on a tuple, evaluated left
      to right: a missing item is an IndexError, an item that is not a
      number a TypeError, a negative one a ValueError. */
  function CheckDivisionItems(items: seq<Value>): Outcome
  {
    match TupleItem(items, 0)
    case Err(e) => Fail(e)
    case Ok(first) =>
      match AtLeastZero(first)
      case Err(e) => Fail(e)
      case Ok(false) => Fail(ValueError)
      case Ok(true) =>
        match TupleItem(items, 1)
        case Err(e) => Fail(e)
        case Ok(second) =>
          match AtLeastZero(second)
          case Err(e) => Fail(e)
          case Ok(false) => Fail(ValueError)
          case Ok(true) => Pass
  }

  /** The divisions under `space['divisions']`: when present a tuple whose
      first two items are non-negative numbers. */
  function CheckDivisionsEntry(space: Value): Outcome
  {
    match Contains(space, "divisions")
    case Err(e) => Fail(e)
    case Ok(false) => Pass
    case Ok(true) =>
      match GetKey(space, "divisions")
      case Err(e) => Fail(e)
      case Ok(d) => if !d.TupleV? then Fail(ValueError) else CheckDivisionItems(d.items)
  }

  /** `validate_options`: the checks in the order the code makes them. */
  function ValidateOptions(o: map<string, Value>): Outcome
  {
    if "type" in o && !ValidType(o["type"]) then Fail(ValueError)
    else if "count" in o && !(o["count"].IntV? && o["count"].i > 0) then Fail(ValueError)
    else
      var form :=
        if "form" !in o then Pass
        else AndThen(CheckVerticesCount(o["form"], "min_vertices_count"),
                     CheckVerticesCount(o["form"], "max_vertices_count"));
      var space :=
        if "space" !in o then Pass
        else AndThen(CheckSpaceEntry(o["space"]), CheckDivisionsEntry(o["space"]));
      AndThen(form, space)
  }

  /** `check_options`: no options give the defaults as they are; otherwise
      the defaults are updated with the caller's options (a shallow update:
      a caller's `form` or `space` replaces the default one whole) and the
      result is validated. */
  function CheckOptions(user: Option<map<string, Value>>): (r: Result<map<string, Value>>)
  {
    match user
    case None => Ok(Defaults)
    case Some(u) =>
      var o := Defaults + u;
      match ValidateOptions(o)
      case Fail(e) => Err(e)
      case Pass => Ok(o)
  }

  /** A non-negative number. */
  predicate NonNegative(v: Value)
  {
    (v.IntV? && v.i >= 0) || (v.FloatV? && v.r >= 0.0)
  }

  /** What validation promises of a dictionary of form options. */
  predicate FormEntriesValid(e: map<string, Value>)
  {
    ("min_vertices_count" in e ==> e["min_vertices_count"].IntV? && e["min_vertices_count"].i >= 3) &&
    ("max_vertices_count" in e ==> e["max_vertices_count"].IntV? && e["max_vertices_count"].i >= 3)
  }

  /** What validation promises of a dictionary of space options. */
  predicate SpaceEntriesValid(e: map<string, Value>)
  {
    ("space" in e ==> e["space"] == NoneV || e["space"].RectV?) &&
    ("divisions" in e ==>
       e["divisions"].TupleV? && |e["divisions"].items| >= 2 &&
       NonNegative(e["divisions"].items[0]) && NonNegative(e["divisions"].items[1]))
  }

  /** The constraints on the options, stated on their own. */
  predicate OptionsValid(o: map<string, Value>)
  {
    ("type" in o ==> ValidType(o["type"])) &&
    ("count" in o ==> o["count"].IntV? && o["count"].i > 0) &&
    ("form" in o && o["form"].DictV? ==> FormEntriesValid(o["form"].entries)) &&
    ("space" in o && o["space"].DictV? ==> SpaceEntriesValid(o["space"].entries))
  }

  /** The nested options, where present, are dictionaries. */
  predicate NestedDicts(o: map<string, Value>)
  {
    ("form" in o ==> o["form"].DictV?) && ("space" in o ==> o["space"].DictV?)
  }

  lemma DivisionItemsPass(items: seq<Value>)
    ensures CheckDivisionItems(items) == Pass <==>
      |items| >= 2 && NonNegative(items[0]) && NonNegative(items[1])
  {
  }

  /** Validation passes exactly on options that meet the constraints, when
      the nested options are dictionaries; whatever their kind, options that
      pass meet the constraints. */
  lemma ValidateOptionsMeaning(o: map<string, Value>)
    ensures ValidateOptions(o) == Pass ==> OptionsValid(o)
    ensures NestedDicts(o) ==> (ValidateOptions(o) == Pass <==> OptionsValid(o))
  {
    if "space" in o && o["space"].DictV? {
      var e := o["space"].entries;
      if "divisions" in e && e["divisions"].TupleV? {
        DivisionItemsPass(e["divisions"].items);
      }
    }
  }

  /** Validation fails only with the errors its checks raise: a key is read
      only after a membership test found it, so never a KeyError. */
  lemma ValidateOptionsErrors(o: map<string, Value>)
    ensures ValidateOptions(o).Fail? ==>
      ValidateOptions(o).error in {ValueError, TypeError, IndexError}
  {
  }

  /** The defaults are valid, so no options and empty options agree. */
  lemma DefaultsValid()
    ensures ValidateOptions(Defaults) == Pass
    ensures CheckOptions(Some(map[])) == CheckOptions(None)
  {
    assert Defaults + map[] == Defaults;
    ValidateOptionsMeaning(Defaults);
  }

  /** Checked options hold every key of the defaults, the caller's value
      wherever one was given and the default elsewhere, and meet the
      constraints. */
  lemma CheckedOptions(user: Option<map<string, Value>>)
    requires CheckOptions(user).Ok?
    ensures var o := CheckOptions(user).value;
      "type" in o && "count" in o && "form" in o && "space" in o &&
      OptionsValid(o) && o["count"].IntV? && o["count"].i > 0 &&
      (user.Some? ==> forall key :: key in user.value ==> key in o && o[key] == user.value[key]) &&
      (user.Some? ==> forall key :: key in Defaults && key !in user.value ==> o[key] == Defaults[key])
  {
    if user.None? {
      DefaultsValid();
      ValidateOptionsMeaning(Defaults);
    } else {
      ValidateOptionsMeaning(Defaults + user.value);
    }
  }

  /** The cases the unit tests exercise: an invalid type, a count that is not
      an int, vertex counts that are not ints and a space that is not a
      Rectangle are ValueErrors. */
  lemma InvalidTypeRefused()
    ensures CheckOptions(Some(map["type" := StrV("invalid")])) == Err(ValueError)
  {
    var o := Defaults + map["type" := StrV("invalid")];
    assert o["type"] == StrV("invalid");
  }

  lemma InvalidCountRefused()
    ensures CheckOptions(Some(map["count" := StrV("invalid")])) == Err(ValueError)
  {
    var o := Defaults + map["count" := StrV("invalid")];
    assert o["type"] == StrV("polygon") && o["count"] == StrV("invalid");
  }

  lemma InvalidFormRefused()
    ensures CheckOptions(Some(map["form" := DictV(map["min_vertices_count" := StrV("invalid"),
                                                      "max_vertices_count" := StrV("invalid")])]))
         == Err(ValueError)
  {
    var form := DictV(map["min_vertices_count" := StrV("invalid"), "max_vertices_count" := StrV("invalid")]);
    var o := Defaults + map["form" := form];
    assert o["type"] == StrV("polygon") && o["count"] == IntV(3) && o["form"] == form;
    assert CheckVerticesCount(form, "min_vertices_count") == Fail(ValueError);
  }

  lemma InvalidSpaceRefused()
    ensures CheckOptions(Some(map["space" := DictV(map["space" := StrV("invalid"),
                                                       "divisions" := StrV("invalid")])]))
         == Err(ValueError)
  {
    var space := DictV(map["space" := StrV("invalid"), "divisions" := StrV("invalid")]);
    var o := Defaults + map["space" := space];
    assert o["type"] == StrV("polygon") && o["count"] == IntV(3) && o["space"] == space;
    assert CheckVerticesCount(o["form"], "min_vertices_count") == Pass;
    assert CheckVerticesCount(o["form"], "max_vertices_count") == Pass;
    assert CheckSpaceEntry(space) == Fail(ValueError);
  }

  /** A one-item divisions tuple is an IndexError, a string item a
      TypeError. */
  lemma DivisionsErrors()
    ensures CheckDivisionItems([IntV(2)]) == Fail(IndexError)
    ensures CheckDivisionItems([StrV("a"), IntV(2)]) == Fail(TypeError)
    ensures CheckDivisionItems([IntV(-1), StrV("a")]) == Fail(ValueError)
    ensures CheckDivisionItems([FloatV(2.5), FloatV(2.5)]) == Pass
  {
  }
}
