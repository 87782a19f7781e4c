/**
 Schemas from which no default is reachable: a validation adds nothing to the patch,
 on any instance and under any pointer.
 */
module QuietSchemas {
  import opened Wrappers
  import opened JsonValues
  import opened SchemaGraph
  import opened ValidationReport

  /** No property of the list has a default. */
  ghost predicate NoDefaults(g: Graph, ps: seq<Property>)
    requires Grounded(g)
  {
    forall j :: 0 <= j < |ps| && ps[j].schema in g.nodes ==>
      DefaultOf(g, ps[j].schema).Dangling? || DefaultOf(g, ps[j].schema).value == Null
  }

  /** All that the schema refers to is in the set, and none of its properties has a default. */
  ghost predicate TypeQuiet(g: Graph, quiet: set<Id>, t: TypeSchema)
    requires Grounded(g)
  {
    && InPlace(Type(t)) <= quiet && Below(Type(t)) <= quiet
    && (t.objectType.Some? ==> NoDefaults(g, t.objectType.value.properties))
  }

  /** A set of schemas that only refer to one another, and whose properties have no defaults. */
  ghost predicate Quiet(g: Graph, quiet: set<Id>)
    requires Grounded(g)
  {
    && quiet <= g.nodes.Keys
    && forall id :: id in quiet ==>
      match g.nodes[id]
      case Boolean(_) => true
      case Ref(_, target, _) => Members(target) <= quiet
      case Type(t) => TypeQuiet(g, quiet, t)
  }

  lemma {:induction false} ChecksAddNothing(checks: seq<Check>, i: nat, ptr: Pointer, inst: Json)
    requires i <= |checks|
    ensures ChecksFrom(checks, i, ptr, inst).adds == []
    decreases |checks| - i
  {
    if i < |checks| {
      ChecksAddNothing(checks, i + 1, ptr, inst);
    }
  }

  lemma {:induction false} RequiredAddsNothing(names: seq<string>, i: nat, ptr: Pointer, inst: Json, dependency: bool)
    requires i <= |names| && inst.Obj?
    ensures RequiredFrom(names, i, ptr, inst, dependency).adds == []
    decreases |names| - i
  {
    if i < |names| {
      RequiredAddsNothing(names, i + 1, ptr, inst, dependency);
    }
  }

  lemma {:induction false} UniqueAddsNothing(i: nat, ptr: Pointer, inst: Json)
    requires inst.Arr? && i <= |inst.items|
    ensures UniqueFrom(i, ptr, inst).adds == []
    decreases |inst.items| - i
  {
    if i < |inst.items| {
      UniqueAddsNothing(i + 1, ptr, inst);
    }
  }

  /** A validation by a quiet schema adds nothing. */
  lemma {:induction false} ValidateAddsNothing(g: Graph, quiet: set<Id>, id: Id, ptr: Pointer, inst: Json)
    requires Grounded(g) && Quiet(g, quiet) && id in quiet
    ensures Validate(g, id, ptr, inst).adds == []
    decreases IsContainer(inst), inst, Rank(g)[id], 9, 0
  {
    hide TypeReport, TypeQuiet;
    NodeFits(g, id);
    match g.nodes[id]
    case Boolean(_) =>
    case Ref(_, target, _) =>
      if target.Some? {
        ValidateAddsNothing(g, quiet, target.value, ptr, inst);
      }
    case Type(t) => TypeAddsNothing(g, quiet, t, Rank(g)[id], ptr, inst);
  }

  lemma {:induction false} TypeAddsNothing(g: Graph, quiet: set<Id>, t: TypeSchema, bound: nat, ptr: Pointer,
                                           inst: Json)
    requires Grounded(g) && Quiet(g, quiet) && TypeQuiet(g, quiet, t) && Fits(g, t, bound)
    ensures TypeReport(g, t, bound, ptr, inst).adds == []
    decreases IsContainer(inst), inst, bound, 8, 0
  {
    hide Validate, KindReport, ChecksFrom, LogicFrom, ConditionalReport, Quiet, NoDefaults;
    KindAddsNothing(g, quiet, t, bound, ptr, inst);
    ChecksAddNothing(ValueChecks(t, inst), 0, ptr, inst);
    LogicListAddsNothing(g, quiet, t, bound, 0, ptr, inst);
    ConditionalAddsNothing(g, quiet, t, bound, ptr, inst);
  }

  lemma {:induction false} ConditionalAddsNothing(g: Graph, quiet: set<Id>, t: TypeSchema, bound: nat, ptr: Pointer,
                                                  inst: Json)
    requires Grounded(g) && Quiet(g, quiet) && TypeQuiet(g, quiet, t) && Fits(g, t, bound)
    ensures ConditionalReport(g, t, bound, ptr, inst).adds == []
    decreases IsContainer(inst), inst, bound, 7, 0
  {
    hide Validate, Quiet, NoDefaults;
    if t.ifSchema.Some? {
      assert t.ifSchema.value in InPlace(Type(t));
      ValidateAddsNothing(g, quiet, t.ifSchema.value, ptr, inst);
      var condition := Validate(g, t.ifSchema.value, ptr, inst);
      var chosen := if condition.errors == [] then t.thenSchema else t.elseSchema;
      if chosen.Some? {
        assert chosen.value in InPlace(Type(t));
        ValidateAddsNothing(g, quiet, chosen.value, ptr, inst);
      }
    }
  }

  lemma {:induction false} KindAddsNothing(g: Graph, quiet: set<Id>, t: TypeSchema, bound: nat, ptr: Pointer,
                                           inst: Json)
    requires Grounded(g) && Quiet(g, quiet) && TypeQuiet(g, quiet, t) && Fits(g, t, bound)
    ensures KindReport(g, t, bound, ptr, inst).adds == []
    decreases IsContainer(inst), inst, bound, 7, 0
  {
    hide Validate, ChecksFrom, ArrayReport, ObjectReport, Quiet, NoDefaults;
    match inst
    case Int(n) =>
      if t.integerType.Some? {
        ChecksAddNothing(NumericChecks(t.integerType.value, n), 0, ptr, inst);
      }
    case Str(s) =>
      if t.textType.Some? {
        ChecksAddNothing(TextChecks(g, t.textType.value, s), 0, ptr, inst);
      }
    case Arr(_) =>
      if t.arrayType.Some? {
        ArrayAddsNothing(g, quiet, t.arrayType.value, bound, ptr, inst);
      }
    case Obj(_) =>
      if t.objectType.Some? {
        var o := t.objectType.value;
        assert DependencyIds(o.dependencies) <= InPlace(Type(t)) && ObjectIds(o) <= Below(Type(t));
        ObjectAddsNothing(g, quiet, o, bound, ptr, inst);
      }
    case _ =>
  }

  lemma {:induction false} LogicListAddsNothing(g: Graph, quiet: set<Id>, t: TypeSchema, bound: nat, i: nat,
                                                ptr: Pointer, inst: Json)
    requires Grounded(g) && Quiet(g, quiet) && TypeQuiet(g, quiet, t) && Fits(g, t, bound) && i <= |t.logic|
    ensures LogicFrom(g, t, bound, i, ptr, inst).adds == []
    decreases IsContainer(inst), inst, bound, 6, |t.logic| - i
  {
    hide Validate, LogicReport, LogicIds, Quiet, NoDefaults;
    if i < |t.logic| {
      LogicLower(g, t, bound, i);
      forall id | id in LogicIds(t.logic[i])
        ensures id in quiet
      {
        assert id in InPlace(Type(t));
      }
      LogicAddsNothing(g, quiet, t.logic[i], bound, ptr, inst);
      LogicListAddsNothing(g, quiet, t, bound, i + 1, ptr, inst);
    }
  }

  lemma {:induction false} LogicAddsNothing(g: Graph, quiet: set<Id>, l: Logic, bound: nat, ptr: Pointer, inst: Json)
    requires Grounded(g) && Quiet(g, quiet) && LogicIds(l) <= quiet && Lower(g, LogicIds(l), bound)
    ensures LogicReport(g, l, bound, ptr, inst).adds == []
    decreases IsContainer(inst), inst, bound, 5, 0
  {
    hide Validate, CombinationFrom, Quiet;
    match l
    case Not(sub) => ValidateAddsNothing(g, quiet, sub, ptr, inst);
    case Combination(_, _) => CombinationAddsNothing(g, quiet, l, bound, 0, 0, ptr, inst);
  }

  lemma {:induction false} CombinationAddsNothing(g: Graph, quiet: set<Id>, l: Logic, bound: nat, i: nat, count: nat,
                                                  ptr: Pointer, inst: Json)
    requires Grounded(g) && Quiet(g, quiet) && l.Combination? && LogicIds(l) <= quiet && Lower(g, LogicIds(l), bound)
        && i <= |l.subs|
    ensures CombinationFrom(g, l, bound, i, count, ptr, inst).adds == []
    decreases IsContainer(inst), inst, bound, 4, |l.subs| - i
  {
    hide Validate, CompletionErrors, Completes, Quiet, Grounded, Lower, LogicIds, CombinationFrom;
    if i < |l.subs| {
      CombinationUnfold(g, l, bound, i, count, ptr, inst);
      ValidateAddsNothing(g, quiet, l.subs[i], ptr, inst);
      var r := Validate(g, l.subs[i], ptr, inst);
      CombinationAddsNothing(g, quiet, l, bound, i + 1, if r.errors == [] then count + 1 else count, ptr, inst);
    } else {
      CombinationOver(g, l, bound, count, ptr, inst);
    }
  }

  lemma CombinationOver(g: Graph, l: Logic, bound: nat, count: nat, ptr: Pointer, inst: Json)
    requires Grounded(g) && l.Combination? && Lower(g, LogicIds(l), bound)
    ensures CombinationFrom(g, l, bound, |l.subs|, count, ptr, inst).adds == []
  {
    hide LogicIds;
  }

  // ------------------------------------------------------------ arrays and objects

  lemma {:induction false} ArrayAddsNothing(g: Graph, quiet: set<Id>, a: ArraySchema, bound: nat, ptr: Pointer,
                                            inst: Json)
    requires Grounded(g) && Quiet(g, quiet) && ArrayIds(a) <= quiet && ArrayIds(a) <= g.nodes.Keys && inst.Arr?
    ensures ArrayReport(g, a, bound, ptr, inst).adds == []
    decreases IsContainer(inst), inst, bound, 6, 0
  {
    hide Validate, ChecksFrom, UniqueFrom, ItemsFrom, TupleFrom, ContainsFrom, Quiet, ArrayIds;
    ChecksAddNothing(ItemCountChecks(a, |inst.items|), 0, ptr, inst);
    UniqueAddsNothing(0, ptr, inst);
    InArray(a);
    if a.itemsSchema.Some? {
      ItemsAddNothing(g, quiet, a, bound, 0, ptr, inst);
    } else {
      TupleAddsNothing(g, quiet, a, bound, 0, ptr, inst);
    }
    if a.contains.Some? {
      ContainsAddsNothing(g, quiet, a, bound, 0, ptr, inst);
    }
  }

  lemma InArray(a: ArraySchema)
    ensures forall k: nat :: TupleValidator(a, k).Some? ==> TupleValidator(a, k).value in ArrayIds(a)
    ensures a.contains.Some? ==> a.contains.value in ArrayIds(a)
  {
  }

  lemma {:induction false} ItemsAddNothing(g: Graph, quiet: set<Id>, a: ArraySchema, bound: nat, i: nat,
                                           ptr: Pointer, inst: Json)
    requires Grounded(g) && Quiet(g, quiet) && ArrayIds(a) <= quiet && ArrayIds(a) <= g.nodes.Keys && inst.Arr?
    requires i <= |inst.items| && a.itemsSchema.Some?
    ensures ItemsFrom(g, a, bound, i, ptr, inst).adds == []
    decreases IsContainer(inst), inst, bound, 5, |inst.items| - i
  {
    hide Validate, Quiet;
    if i < |inst.items| {
      ValidateAddsNothing(g, quiet, a.itemsSchema.value, ptr + [Index(i)], inst.items[i]);
      ItemsAddNothing(g, quiet, a, bound, i + 1, ptr, inst);
    }
  }

  lemma {:induction false} TupleAddsNothing(g: Graph, quiet: set<Id>, a: ArraySchema, bound: nat, i: nat,
                                            ptr: Pointer, inst: Json)
    requires Grounded(g) && Quiet(g, quiet) && ArrayIds(a) <= g.nodes.Keys && inst.Arr? && i <= |inst.items|
    requires forall k: nat :: i <= k && TupleValidator(a, k).Some? ==> TupleValidator(a, k).value in quiet
    ensures TupleFrom(g, a, bound, i, ptr, inst).adds == []
    decreases IsContainer(inst), inst, bound, 5, |inst.items| - i
  {
    hide Validate, Quiet, ArrayIds;
    if i < |inst.items| && TupleValidator(a, i).Some? {
      ValidateAddsNothing(g, quiet, TupleValidator(a, i).value, ptr + [Index(0)], inst.items[i]);
      TupleAddsNothing(g, quiet, a, bound, i + 1, ptr, inst);
    }
  }

  lemma {:induction false} ContainsAddsNothing(g: Graph, quiet: set<Id>, a: ArraySchema, bound: nat, i: nat,
                                               ptr: Pointer, inst: Json)
    requires Grounded(g) && Quiet(g, quiet) && ArrayIds(a) <= g.nodes.Keys && inst.Arr? && i <= |inst.items|
    requires a.contains.Some? && a.contains.value in quiet
    ensures ContainsFrom(g, a, bound, i, ptr, inst).adds == []
    decreases IsContainer(inst), inst, bound, 5, |inst.items| - i
  {
    hide Validate, Quiet, ArrayIds;
    if i < |inst.items| {
      ValidateAddsNothing(g, quiet, a.contains.value, ptr, inst.items[i]);
      ContainsAddsNothing(g, quiet, a, bound, i + 1, ptr, inst);
    }
  }

  lemma {:induction false} ObjectAddsNothing(g: Graph, quiet: set<Id>, o: ObjectSchema, bound: nat, ptr: Pointer,
                                             inst: Json)
    requires Grounded(g) && Quiet(g, quiet) && ObjectIds(o) <= quiet && DependencyIds(o.dependencies) <= quiet
    requires NoDefaults(g, o.properties) && ObjectFits(g, o, bound) && inst.Obj?
    ensures ObjectReport(g, o, bound, ptr, inst).adds == []
    decreases IsContainer(inst), inst, bound, 6, 0
  {
    hide Validate, ChecksFrom, RequiredFrom, MembersFrom, DefaultsFrom, DependenciesFrom, Quiet, NoDefaults,
        PropertyIds;
    ChecksAddNothing(PropertyCountChecks(o, |inst.members|), 0, ptr, inst);
    RequiredAddsNothing(o.required, 0, ptr, inst, false);
    MembersAddNothing(g, quiet, o, bound, 0, ptr, inst);
    DefaultsAddNothing(g, o.properties, 0, ptr, inst);
    DependenciesAddNothing(g, quiet, o, bound, 0, ptr, inst);
  }

  lemma {:induction false} DefaultsAddNothing(g: Graph, ps: seq<Property>, j: nat, ptr: Pointer, inst: Json)
    requires Grounded(g) && NoDefaults(g, ps) && PropertyIds(ps) <= g.nodes.Keys && j <= |ps| && inst.Obj?
    ensures DefaultsFrom(g, ps, j, ptr, inst).adds == []
    decreases |ps| - j
  {
    hide OneDefault, Grounded, NoDefaults;
    if j < |ps| {
      assert ps[j].schema in PropertyIds(ps);
      DefaultAddsNothing(g, ps, j, ptr, inst);
      DefaultsAddNothing(g, ps, j + 1, ptr, inst);
    }
  }

  lemma DefaultAddsNothing(g: Graph, ps: seq<Property>, j: nat, ptr: Pointer, inst: Json)
    requires Grounded(g) && NoDefaults(g, ps) && j < |ps| && ps[j].schema in g.nodes && inst.Obj?
    ensures OneDefault(g, ps[j], ptr, inst).adds == []
  {
    hide DefaultOf, Grounded;
  }

  lemma {:induction false} DependenciesAddNothing(g: Graph, quiet: set<Id>, o: ObjectSchema, bound: nat, j: nat,
                                                  ptr: Pointer, inst: Json)
    requires Grounded(g) && Quiet(g, quiet) && ObjectFits(g, o, bound) && inst.Obj? && j <= |o.dependencies|
    requires DependencyIds(o.dependencies) <= quiet
    ensures DependenciesFrom(g, o, bound, j, ptr, inst).adds == []
    decreases IsContainer(inst), inst, bound, 5, |o.dependencies| - j
  {
    hide Validate, RequiredFrom, Quiet, ObjectIds;
    if j < |o.dependencies| {
      DependencyAddsNothing(g, quiet, o, bound, j, ptr, inst);
      DependenciesAddNothing(g, quiet, o, bound, j + 1, ptr, inst);
    }
  }

  lemma {:induction false} DependencyAddsNothing(g: Graph, quiet: set<Id>, o: ObjectSchema, bound: nat, j: nat,
                                                 ptr: Pointer, inst: Json)
    requires Grounded(g) && Quiet(g, quiet) && ObjectFits(g, o, bound) && inst.Obj? && j < |o.dependencies|
    requires DependencyIds(o.dependencies) <= quiet
    ensures DependencyReport(g, o, bound, j, ptr, inst).adds == []
    decreases IsContainer(inst), inst, bound, 4, 0
  {
    hide Validate, RequiredFrom, Quiet, ObjectIds;
    var d := o.dependencies[j];
    match d.rule
    case Needs(names) => RequiredAddsNothing(names, 0, ptr + [Key(d.name)], inst, true);
    case Satisfies(id) =>
      assert id in RuleIds(o.dependencies[j].rule);
      assert id in DependencyIds(o.dependencies);
      ValidateAddsNothing(g, quiet, id, ptr + [Key(d.name)], inst);
  }

  lemma {:induction false} MembersAddNothing(g: Graph, quiet: set<Id>, o: ObjectSchema, bound: nat, i: nat,
                                             ptr: Pointer, inst: Json)
    requires Grounded(g) && Quiet(g, quiet) && ObjectIds(o) <= quiet && ObjectFits(g, o, bound) && inst.Obj?
        && i <= |inst.members|
    ensures MembersFrom(g, o, bound, i, ptr, inst).adds == []
    decreases IsContainer(inst), inst, bound, 5, |inst.members| - i
  {
    hide Validate, MemberReport, Quiet, ObjectIds;
    if i < |inst.members| {
      MemberAddsNothing(g, quiet, o, bound, i, ptr, inst);
      MembersAddNothing(g, quiet, o, bound, i + 1, ptr, inst);
    }
  }

  lemma {:induction false} MemberAddsNothing(g: Graph, quiet: set<Id>, o: ObjectSchema, bound: nat, i: nat,
                                             ptr: Pointer, inst: Json)
    requires Grounded(g) && Quiet(g, quiet) && ObjectIds(o) <= quiet && ObjectFits(g, o, bound) && inst.Obj?
        && i < |inst.members|
    ensures MemberReport(g, o, bound, i, ptr, inst).adds == []
    decreases IsContainer(inst), inst, bound, 4, 0
  {
    hide Validate, PatternsFrom, FindProperty, AnyPatternMatches, Quiet;
    var m := inst.members[i];
    var below := ptr + [Key(m.key)];
    if o.propertyNames.Some? {
      ValidateAddsNothing(g, quiet, o.propertyNames.value, ptr, Str(m.key));
    }
    var known := FindProperty(o.properties, m.key);
    if known.Some? {
      ValidateAddsNothing(g, quiet, known.value, below, m.value);
    }
    PatternsAddNothing(g, quiet, o, bound, i, 0, ptr, inst);
    if TakesAdditional(g, o, m.key) {
      ValidateAddsNothing(g, quiet, o.additionalProperties.value, below, m.value);
    }
  }

  lemma {:induction false} PatternsAddNothing(g: Graph, quiet: set<Id>, o: ObjectSchema, bound: nat, i: nat, j: nat,
                                              ptr: Pointer, inst: Json)
    requires Grounded(g) && Quiet(g, quiet) && ObjectIds(o) <= quiet && ObjectFits(g, o, bound) && inst.Obj?
        && i < |inst.members|
    requires j <= |o.patternProperties|
    ensures PatternsFrom(g, o, bound, i, j, ptr, inst).adds == []
    decreases IsContainer(inst), inst, bound, 3, |o.patternProperties| - j
  {
    hide Validate, Quiet, Grounded, ObjectFits, PatternReport, PatternsFrom, ObjectIds;
    PatternsUnfold(g, o, bound, i, j, ptr, inst);
    if j < |o.patternProperties| {
      PatternAddsNothing(g, quiet, o, bound, i, j, ptr, inst);
      PatternsAddNothing(g, quiet, o, bound, i, j + 1, ptr, inst);
    }
  }

  lemma {:induction false} PatternAddsNothing(g: Graph, quiet: set<Id>, o: ObjectSchema, bound: nat, i: nat, j: nat,
                                              ptr: Pointer, inst: Json)
    requires Grounded(g) && Quiet(g, quiet) && ObjectIds(o) <= quiet && ObjectFits(g, o, bound) && inst.Obj?
        && i < |inst.members|
    requires j < |o.patternProperties|
    ensures PatternReport(g, o, bound, i, j, ptr, inst).adds == []
    decreases IsContainer(inst), inst, bound, 2, 0
  {
    hide Validate, Quiet;
    assert o.patternProperties[j].schema in PropertyIds(o.patternProperties);
    ValidateAddsNothing(g, quiet, o.patternProperties[j].schema, ptr + [Key(inst.members[i].key)],
        inst.members[i].value);
  }

  lemma PatternsUnfold(g: Graph, o: ObjectSchema, bound: nat, i: nat, j: nat, ptr: Pointer, inst: Json)
    requires Grounded(g) && ObjectFits(g, o, bound) && inst.Obj? && i < |inst.members| && j <= |o.patternProperties|
    ensures PatternsFrom(g, o, bound, i, j, ptr, inst) ==
      if j == |o.patternProperties| then Nothing
      else Then(PatternReport(g, o, bound, i, j, ptr, inst), PatternsFrom(g, o, bound, i, j + 1, ptr, inst))
  {
    hide PatternReport, Then;
  }
}
