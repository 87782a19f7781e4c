/**
 The patch that validation returns only fills in what the instance lacks.

 Every `add` names a member that its parent object in the instance does not have,
 also the adds that come from failed branches.  Applying the whole patch succeeds
 and keeps every value of the instance at its path.

 `contains`, dependency schemas and all positions of a tuple but the first receive
 pointers that do not lead to their instance.  This is about graphs in which such
 schemas, as far as they are reached, reach no default; `TupleOverwrites`, `ContainsMisses` and
 `DependencyOverwrites` show what each of them can do otherwise.
 */
module PatchSafety {
  import opened Wrappers
  import opened JsonValues
  import opened SchemaGraph
  import opened ValidationReport
  import opened QuietSchemas

  /**
   Among the schemas that can be reached from `id`, every one that receives a pointer which may not
   lead to its instance belongs to a set of quiet schemas: `contains`, dependency schemas, and those of
   all positions of a tuple but the first.
   */
  ghost predicate LocatesInstances(g: Graph, id: Id)
    requires Grounded(g)
  {
    exists quiet, reach :: id in reach && Locates(g, quiet, reach)
  }

  ghost predicate Locates(g: Graph, quiet: set<Id>, reach: set<Id>)
    requires Grounded(g)
  {
    && Quiet(g, quiet) && reach <= g.nodes.Keys
    && forall id :: id in reach ==>
      && InPlace(g.nodes[id]) <= reach && Below(g.nodes[id]) <= reach
      && (g.nodes[id].Type? ==> TypeLocates(quiet, g.nodes[id].schema))
  }

  ghost predicate TypeLocates(quiet: set<Id>, t: TypeSchema) {
    && (t.arrayType.Some? ==> ArrayLocates(quiet, t.arrayType.value))
    && (t.objectType.Some? ==> ObjectLocates(quiet, t.objectType.value))
  }

  ghost predicate ArrayLocates(quiet: set<Id>, a: ArraySchema) {
    && Members(a.contains) <= quiet
    && (a.itemsSchema.None? ==> forall k: nat :: 1 <= k && TupleValidator(a, k).Some? ==>
        TupleValidator(a, k).value in quiet)
  }

  predicate ObjectLocates(quiet: set<Id>, o: ObjectSchema) {
    DependencyIds(o.dependencies) <= quiet
  }

  /** The parent of the added member is an object of `root` that lacks the member. */
  ghost predicate Fills(root: Json, a: Add) {
    && a.path != []
    && a.path[|a.path| - 1].Key?
    && var parent := Lookup(root, a.path[..|a.path| - 1]);
    && parent.Some? && parent.value.Obj?
    && FindMember(parent.value.members, a.path[|a.path| - 1].key).None?
  }

  ghost predicate AllFill(root: Json, adds: seq<Add>) {
    forall i :: 0 <= i < |adds| ==> Fills(root, adds[i])
  }

  lemma FillThen(root: Json, a: Report, b: Report)
    ensures AllFill(root, Then(a, b).adds) <==> AllFill(root, a.adds) && AllFill(root, b.adds)
  {
    var whole := Then(a, b).adds;
    assert forall i :: 0 <= i < |a.adds| ==> whole[i] == a.adds[i];
    assert forall i :: 0 <= i < |b.adds| ==> whole[|a.adds| + i] == b.adds[i];
  }

  /** `ptr` leads to `inst` in `root`; nothing is added to an instance without members or items. */
  ghost predicate Located(root: Json, ptr: Pointer, inst: Json) {
    WellFormed(inst) && (IsContainer(inst) ==> Lookup(root, ptr) == Some(inst))
  }

  // ------------------------------------------------------------ adds only fill

  lemma {:induction false} ValidateFills(g: Graph, quiet: set<Id>, reach: set<Id>, id: Id, ptr: Pointer, inst: Json,
                                         root: Json)
    requires Grounded(g) && Locates(g, quiet, reach) && id in reach && Located(root, ptr, inst)
    ensures AllFill(root, Validate(g, id, ptr, inst).adds)
    decreases IsContainer(inst), inst, Rank(g)[id], 9, 0
  {
    hide TypeReport, Located, Fills;
    NodeFits(g, id);
    match g.nodes[id]
    case Boolean(_) =>
    case Ref(_, target, _) =>
      if target.Some? {
        ValidateFills(g, quiet, reach, target.value, ptr, inst, root);
      }
    case Type(t) => TypeFills(g, quiet, reach, t, Rank(g)[id], ptr, inst, root);
  }

  lemma {:induction false} TypeFills(g: Graph, quiet: set<Id>, reach: set<Id>, t: TypeSchema, bound: nat,
                                     ptr: Pointer, inst: Json, root: Json)
    requires Grounded(g) && Locates(g, quiet, reach) && TypeLocates(quiet, t) && Fits(g, t, bound)
        && Located(root, ptr, inst)
    requires InPlace(Type(t)) <= reach && Below(Type(t)) <= reach
    ensures AllFill(root, TypeReport(g, t, bound, ptr, inst).adds)
    decreases IsContainer(inst), inst, bound, 8, 0
  {
    hide Validate, Then, KindReport, ChecksFrom, LogicFrom, Located, AllFill;
    var a, b := KindReport(g, t, bound, ptr, inst), ChecksFrom(ValueChecks(t, inst), 0, ptr, inst);
    var c, d := LogicFrom(g, t, bound, 0, ptr, inst), ConditionalReport(g, t, bound, ptr, inst);
    KindFills(g, quiet, reach, t, bound, ptr, inst, root);
    ChecksAddNothing(ValueChecks(t, inst), 0, ptr, inst);
    LogicListFills(g, quiet, reach, t, bound, 0, ptr, inst, root);
    NothingFills(root, []);
    if t.ifSchema.Some? {
      assert t.ifSchema.value in InPlace(Type(t));
      var condition := Validate(g, t.ifSchema.value, ptr, inst);
      ValidateFills(g, quiet, reach, t.ifSchema.value, ptr, inst, root);
      var chosen := if condition.errors == [] then t.thenSchema else t.elseSchema;
      if chosen.Some? {
        assert chosen.value in InPlace(Type(t));
        ValidateFills(g, quiet, reach, chosen.value, ptr, inst, root);
        FillThen(root, Report([], condition.adds), Validate(g, chosen.value, ptr, inst));
      } else {
        FillThen(root, Report([], condition.adds), Nothing);
      }
    }
    FillThen(root, c, d);
    FillThen(root, b, Then(c, d));
    FillThen(root, a, Then(b, Then(c, d)));
  }

  lemma NothingFills(root: Json, adds: seq<Add>)
    requires adds == []
    ensures AllFill(root, adds)
  {
  }

  lemma {:induction false} KindFills(g: Graph, quiet: set<Id>, reach: set<Id>, t: TypeSchema, bound: nat,
                                     ptr: Pointer, inst: Json, root: Json)
    requires Grounded(g) && Locates(g, quiet, reach) && TypeLocates(quiet, t) && Fits(g, t, bound)
        && Located(root, ptr, inst)
    requires InPlace(Type(t)) <= reach && Below(Type(t)) <= reach
    ensures AllFill(root, KindReport(g, t, bound, ptr, inst).adds)
    decreases IsContainer(inst), inst, bound, 7, 0
  {
    hide Validate, ChecksFrom, ArrayReport, ObjectReport, Located, AllFill;
    NothingFills(root, []);
    match inst
    case Int(n) =>
      if t.integerType.Some? {
        ChecksAddNothing(NumericChecks(t.integerType.value, n), 0, ptr, inst);
      }
    case Str(s) =>
      if t.textType.Some? {
        ChecksAddNothing(TextChecks(g, t.textType.value, s), 0, ptr, inst);
      }
    case Arr(_) =>
      if t.arrayType.Some? {
        ArrayFills(g, quiet, reach, t.arrayType.value, bound, ptr, inst, root);
      }
    case Obj(_) =>
      if t.objectType.Some? {
        ObjectFills(g, quiet, reach, t.objectType.value, bound, ptr, inst, root);
      }
    case _ =>
  }

  lemma LogicWithin(t: TypeSchema, i: nat)
    requires i < |t.logic|
    ensures LogicIds(t.logic[i]) <= InPlace(Type(t))
  {
  }

  lemma LocatesQuiet(g: Graph, quiet: set<Id>, reach: set<Id>)
    requires Grounded(g) && Locates(g, quiet, reach)
    ensures Quiet(g, quiet)
  {
  }

  lemma {:induction false} LogicListFills(g: Graph, quiet: set<Id>, reach: set<Id>, t: TypeSchema, bound: nat,
                                          i: nat, ptr: Pointer, inst: Json, root: Json)
    requires Grounded(g) && Locates(g, quiet, reach) && Fits(g, t, bound) && i <= |t.logic| && Located(root, ptr, inst)
    requires InPlace(Type(t)) <= reach && Below(Type(t)) <= reach
    ensures AllFill(root, LogicFrom(g, t, bound, i, ptr, inst).adds)
    decreases IsContainer(inst), inst, bound, 6, |t.logic| - i
  {
    hide Validate, Then, LogicReport, Located, AllFill, InPlace, LogicIds;
    NothingFills(root, []);
    if i < |t.logic| {
      LogicLower(g, t, bound, i);
      LogicWithin(t, i);
      LogicFills(g, quiet, reach, t.logic[i], bound, ptr, inst, root);
      LogicListFills(g, quiet, reach, t, bound, i + 1, ptr, inst, root);
      FillThen(root, LogicReport(g, t.logic[i], bound, ptr, inst), LogicFrom(g, t, bound, i + 1, ptr, inst));
    }
  }

  lemma {:induction false} LogicFills(g: Graph, quiet: set<Id>, reach: set<Id>, l: Logic, bound: nat, ptr: Pointer,
                                      inst: Json, root: Json)
    requires Grounded(g) && Locates(g, quiet, reach) && Lower(g, LogicIds(l), bound) && Located(root, ptr, inst)
    requires LogicIds(l) <= reach
    ensures AllFill(root, LogicReport(g, l, bound, ptr, inst).adds)
    decreases IsContainer(inst), inst, bound, 5, 0
  {
    hide Validate, Then, CombinationFrom, Located, AllFill;
    NothingFills(root, []);
    match l
    case Not(sub) =>
      var r := Validate(g, sub, ptr, inst);
      ValidateFills(g, quiet, reach, sub, ptr, inst, root);
      FillThen(root, Report([], r.adds), ErrorIf(r.errors == [], ptr, inst, SubschemaSucceeded));
    case Combination(_, _) => CombinationFills(g, quiet, reach, l, bound, 0, 0, ptr, inst, root);
  }

  lemma {:induction false} CombinationFills(g: Graph, quiet: set<Id>, reach: set<Id>, l: Logic, bound: nat, i: nat,
                                            count: nat, ptr: Pointer, inst: Json, root: Json)
    requires Grounded(g) && Locates(g, quiet, reach) && l.Combination? && Lower(g, LogicIds(l), bound) && i <= |l.subs|
    requires Located(root, ptr, inst)
    requires LogicIds(l) <= reach
    ensures AllFill(root, CombinationFrom(g, l, bound, i, count, ptr, inst).adds)
    decreases IsContainer(inst), inst, bound, 4, |l.subs| - i
  {
    hide Validate, Then, CompletionErrors, Completes, Located, AllFill, CombinationFrom, LogicIds, Grounded, Lower,
        Locates;
    if i < |l.subs| {
      CombinationUnfold(g, l, bound, i, count, ptr, inst);
      var r := Validate(g, l.subs[i], ptr, inst);
      var count' := if r.errors == [] then count + 1 else count;
      ValidateFills(g, quiet, reach, l.subs[i], ptr, inst, root);
      CombinationFills(g, quiet, reach, l, bound, i + 1, count', ptr, inst, root);
      NothingFills(root, []);
      FillThen(root, Report(CompletionErrors(l.kind, r.errors, count', ptr, inst), r.adds),
        if Completes(l.kind, r.errors != [], count') then Nothing
        else CombinationFrom(g, l, bound, i + 1, count', ptr, inst));
    } else {
      CombinationOver(g, l, bound, count, ptr, inst);
      NothingFills(root, CombinationFrom(g, l, bound, i, count, ptr, inst).adds);
    }
  }

  lemma LocatedBelow(root: Json, ptr: Pointer, inst: Json, t: Token)
    requires Located(root, ptr, inst) && IsContainer(inst) && Child(inst, t).Some?
    requires WellFormed(Child(inst, t).value)
    ensures Located(root, ptr + [t], Child(inst, t).value)
  {
    LookupSnoc(root, ptr, t);
  }

  lemma {:induction false} ArrayFills(g: Graph, quiet: set<Id>, reach: set<Id>, a: ArraySchema, bound: nat,
                                      ptr: Pointer, inst: Json, root: Json)
    requires Grounded(g) && Locates(g, quiet, reach) && ArrayLocates(quiet, a) && ArrayIds(a) <= g.nodes.Keys
        && inst.Arr?
    requires Located(root, ptr, inst)
    requires ArrayIds(a) <= reach
    ensures AllFill(root, ArrayReport(g, a, bound, ptr, inst).adds)
    decreases IsContainer(inst), inst, bound, 6, 0
  {
    hide Validate, Then, ChecksFrom, UniqueFrom, ItemsFrom, TupleFrom, ContainsFrom, Located, AllFill, Quiet,
        ArrayIds, Locates;
    var r0 := ChecksFrom(ItemCountChecks(a, |inst.items|), 0, ptr, inst);
    var r1 := if a.uniqueItems then UniqueFrom(0, ptr, inst) else Nothing;
    var r2 := if a.itemsSchema.Some? then ItemsFrom(g, a, bound, 0, ptr, inst)
        else TupleFrom(g, a, bound, 0, ptr, inst);
    var r3 := if a.contains.Some? then ContainsFrom(g, a, bound, 0, ptr, inst) else Nothing;
    ChecksAddNothing(ItemCountChecks(a, |inst.items|), 0, ptr, inst);
    NothingFills(root, r0.adds);
    UniqueAddsNothing(0, ptr, inst);
    NothingFills(root, r1.adds);
    if a.itemsSchema.Some? {
      ItemsFill(g, quiet, reach, a, bound, 0, ptr, inst, root);
    } else {
      TupleFills(g, quiet, reach, a, bound, ptr, inst, root);
    }
    LocatesQuiet(g, quiet, reach);
    if a.contains.Some? {
      ContainsAddsNothing(g, quiet, a, bound, 0, ptr, inst);
    }
    NothingFills(root, r3.adds);
    FillThen(root, r2, r3);
    FillThen(root, r1, Then(r2, r3));
    FillThen(root, r0, Then(r1, Then(r2, r3)));
  }

  /** Only the first position of a tuple adds anything, and its pointer leads to the first item. */
  lemma {:induction false} TupleFills(g: Graph, quiet: set<Id>, reach: set<Id>, a: ArraySchema, bound: nat,
                                      ptr: Pointer, inst: Json, root: Json)
    requires Grounded(g) && Locates(g, quiet, reach) && ArrayLocates(quiet, a) && ArrayIds(a) <= g.nodes.Keys
        && inst.Arr?
    requires a.itemsSchema.None? && Located(root, ptr, inst)
    requires ArrayIds(a) <= reach
    ensures AllFill(root, TupleFrom(g, a, bound, 0, ptr, inst).adds)
    decreases IsContainer(inst), inst, bound, 5, 0
  {
    hide Validate, Then, Located, AllFill, Quiet, ArrayIds, Locates;
    NothingFills(root, []);
    if 0 < |inst.items| && TupleValidator(a, 0).Some? {
      InArray(a);
      LocatesQuiet(g, quiet, reach);
      ItemLocated(root, ptr, inst, 0);
      var rest := TupleFrom(g, a, bound, 1, ptr, inst);
      ValidateFills(g, quiet, reach, TupleValidator(a, 0).value, ptr + [Index(0)], inst.items[0], root);
      TupleAddsNothing(g, quiet, a, bound, 1, ptr, inst);
      NothingFills(root, rest.adds);
      FillThen(root, Validate(g, TupleValidator(a, 0).value, ptr + [Index(0)], inst.items[0]), rest);
    }
  }

  lemma ItemLocated(root: Json, ptr: Pointer, inst: Json, i: nat)
    requires inst.Arr? && i < |inst.items| && Located(root, ptr, inst)
    ensures Located(root, ptr + [Index(i)], inst.items[i])
  {
    LocatedBelow(root, ptr, inst, Index(i));
  }

  lemma ItemsSchemaInArray(a: ArraySchema)
    requires a.itemsSchema.Some?
    ensures a.itemsSchema.value in ArrayIds(a)
  {
  }

  lemma {:induction false} ItemsFill(g: Graph, quiet: set<Id>, reach: set<Id>, a: ArraySchema, bound: nat, i: nat,
                                     ptr: Pointer, inst: Json, root: Json)
    requires Grounded(g) && Locates(g, quiet, reach) && ArrayIds(a) <= g.nodes.Keys && inst.Arr? && i <= |inst.items|
    requires a.itemsSchema.Some? && Located(root, ptr, inst)
    requires ArrayIds(a) <= reach
    ensures AllFill(root, ItemsFrom(g, a, bound, i, ptr, inst).adds)
    decreases IsContainer(inst), inst, bound, 5, |inst.items| - i
  {
    hide Validate, Then, AllFill, Located, ArrayIds;
    NothingFills(root, []);
    if i < |inst.items| {
      ItemLocated(root, ptr, inst, i);
      assert a.itemsSchema.value in ArrayIds(a) by { ItemsSchemaInArray(a); }
      ValidateFills(g, quiet, reach, a.itemsSchema.value, ptr + [Index(i)], inst.items[i], root);
      ItemsFill(g, quiet, reach, a, bound, i + 1, ptr, inst, root);
      FillThen(root, Validate(g, a.itemsSchema.value, ptr + [Index(i)], inst.items[i]),
          ItemsFrom(g, a, bound, i + 1, ptr, inst));
    }
  }

  lemma {:induction false} ObjectFills(g: Graph, quiet: set<Id>, reach: set<Id>, o: ObjectSchema, bound: nat,
                                       ptr: Pointer, inst: Json, root: Json)
    requires Grounded(g) && Locates(g, quiet, reach) && ObjectLocates(quiet, o) && ObjectFits(g, o, bound) && inst.Obj?
    requires Located(root, ptr, inst)
    requires ObjectIds(o) <= reach
    ensures AllFill(root, ObjectReport(g, o, bound, ptr, inst).adds)
    decreases IsContainer(inst), inst, bound, 6, 0
  {
    hide Validate, Then, ChecksFrom, RequiredFrom, MembersFrom, DefaultsFrom, DependenciesFrom, AllFill, Quiet, Locates;
    var a := ChecksFrom(PropertyCountChecks(o, |inst.members|), 0, ptr, inst);
    var b, c := RequiredFrom(o.required, 0, ptr, inst, false), MembersFrom(g, o, bound, 0, ptr, inst);
    var d, f := DefaultsFrom(g, o.properties, 0, ptr, inst), DependenciesFrom(g, o, bound, 0, ptr, inst);
    ChecksAddNothing(PropertyCountChecks(o, |inst.members|), 0, ptr, inst);
    NothingFills(root, a.adds);
    RequiredAddsNothing(o.required, 0, ptr, inst, false);
    NothingFills(root, b.adds);
    MembersFill(g, quiet, reach, o, bound, 0, ptr, inst, root);
    DefaultsFill(g, o.properties, 0, ptr, inst, root);
    LocatesQuiet(g, quiet, reach);
    DependenciesAddNothing(g, quiet, o, bound, 0, ptr, inst);
    NothingFills(root, f.adds);
    FillThen(root, d, f);
    FillThen(root, c, Then(d, f));
    FillThen(root, b, Then(c, Then(d, f)));
    FillThen(root, a, Then(b, Then(c, Then(d, f))));
  }

  lemma {:induction false} DefaultsFill(g: Graph, ps: seq<Property>, j: nat, ptr: Pointer, inst: Json, root: Json)
    requires Grounded(g) && PropertyIds(ps) <= g.nodes.Keys && j <= |ps| && inst.Obj? && Located(root, ptr, inst)
    ensures AllFill(root, DefaultsFrom(g, ps, j, ptr, inst).adds)
    decreases |ps| - j
  {
    hide OneDefault, Then, Located, AllFill, Grounded;
    NothingFills(root, []);
    if j < |ps| {
      assert ps[j].schema in PropertyIds(ps);
      DefaultsFill(g, ps, j + 1, ptr, inst, root);
      DefaultFills(g, ps[j], ptr, inst, root);
      FillThen(root, OneDefault(g, ps[j], ptr, inst), DefaultsFrom(g, ps, j + 1, ptr, inst));
    }
  }

  lemma DefaultFills(g: Graph, p: Property, ptr: Pointer, inst: Json, root: Json)
    requires Grounded(g) && p.schema in g.nodes && inst.Obj? && Located(root, ptr, inst)
    ensures AllFill(root, OneDefault(g, p, ptr, inst).adds)
  {
    hide DefaultOf, Grounded;
    var path := ptr + [Key(p.name)];
    assert path[..|path| - 1] == ptr;
  }

  lemma {:induction false} MembersFill(g: Graph, quiet: set<Id>, reach: set<Id>, o: ObjectSchema, bound: nat, i: nat,
                                       ptr: Pointer, inst: Json, root: Json)
    requires Grounded(g) && Locates(g, quiet, reach) && ObjectFits(g, o, bound) && inst.Obj? && i <= |inst.members|
    requires Located(root, ptr, inst)
    requires ObjectIds(o) <= reach
    ensures AllFill(root, MembersFrom(g, o, bound, i, ptr, inst).adds)
    decreases IsContainer(inst), inst, bound, 5, |inst.members| - i
  {
    hide Validate, Then, MemberReport, AllFill, Located, Grounded, Locates, ObjectFits, ObjectIds;
    NothingFills(root, []);
    if i < |inst.members| {
      MemberFills(g, quiet, reach, o, bound, i, ptr, inst, root);
      MembersFill(g, quiet, reach, o, bound, i + 1, ptr, inst, root);
      FillThen(root, MemberReport(g, o, bound, i, ptr, inst), MembersFrom(g, o, bound, i + 1, ptr, inst));
    }
  }

  lemma MemberLocated(root: Json, ptr: Pointer, inst: Json, i: nat)
    requires inst.Obj? && i < |inst.members| && Located(root, ptr, inst)
    ensures Located(root, ptr + [Key(inst.members[i].key)], inst.members[i].value)
  {
    FindMemberAt(inst.members, i);
    LocatedBelow(root, ptr, inst, Key(inst.members[i].key));
  }

  lemma {:induction false} MemberFills(g: Graph, quiet: set<Id>, reach: set<Id>, o: ObjectSchema, bound: nat, i: nat,
                                       ptr: Pointer, inst: Json, root: Json)
    requires Grounded(g) && Locates(g, quiet, reach) && ObjectFits(g, o, bound) && inst.Obj? && i < |inst.members|
    requires Located(root, ptr, inst)
    requires ObjectIds(o) <= reach
    ensures AllFill(root, MemberReport(g, o, bound, i, ptr, inst).adds)
    decreases IsContainer(inst), inst, bound, 4, 0
  {
    hide Validate, Then, PatternsFrom, FindProperty, AnyPatternMatches, AllFill;
    var a, b := NameReport(g, o, bound, i, ptr, inst), KnownReport(g, o, bound, i, ptr, inst);
    var c, d := PatternsFrom(g, o, bound, i, 0, ptr, inst), AdditionalReport(g, o, bound, i, ptr, inst);
    var m := inst.members[i];
    var below := ptr + [Key(m.key)];
    NothingFills(root, []);
    MemberLocated(root, ptr, inst, i);
    if o.propertyNames.Some? {
      ValidateFills(g, quiet, reach, o.propertyNames.value, ptr, Str(m.key), root);
    }
    var known := FindProperty(o.properties, m.key);
    if known.Some? {
      ValidateFills(g, quiet, reach, known.value, below, m.value, root);
    }
    PatternsFill(g, quiet, reach, o, bound, i, 0, ptr, inst, root);
    if TakesAdditional(g, o, m.key) {
      var r := Validate(g, o.additionalProperties.value, below, m.value);
      ValidateFills(g, quiet, reach, o.additionalProperties.value, below, m.value, root);
      FillThen(root, Report([], r.adds), if r.errors == [] then Nothing
             else ErrorIf(true, ptr, inst, AdditionalPropertyFailed(m.key, r.errors[0].message)));
    }
    FillThen(root, c, d);
    FillThen(root, b, Then(c, d));
    FillThen(root, a, Then(b, Then(c, d)));
  }

  lemma {:induction false} PatternsFill(g: Graph, quiet: set<Id>, reach: set<Id>, o: ObjectSchema, bound: nat,
                                        i: nat, j: nat, ptr: Pointer, inst: Json, root: Json)
    requires Grounded(g) && Locates(g, quiet, reach) && ObjectFits(g, o, bound) && inst.Obj? && i < |inst.members|
    requires j <= |o.patternProperties| && Located(root, ptr, inst)
    requires ObjectIds(o) <= reach
    ensures AllFill(root, PatternsFrom(g, o, bound, i, j, ptr, inst).adds)
    decreases IsContainer(inst), inst, bound, 3, |o.patternProperties| - j
  {
    hide Validate, Then, AllFill, Located, PatternReport, PatternsFrom, Grounded, Locates, ObjectFits;
    PatternsUnfold(g, o, bound, i, j, ptr, inst);
    NothingFills(root, []);
    if j < |o.patternProperties| {
      PatternFills(g, quiet, reach, o, bound, i, j, ptr, inst, root);
      PatternsFill(g, quiet, reach, o, bound, i, j + 1, ptr, inst, root);
      FillThen(root, PatternReport(g, o, bound, i, j, ptr, inst), PatternsFrom(g, o, bound, i, j + 1, ptr, inst));
    }
  }

  lemma {:induction false} PatternFills(g: Graph, quiet: set<Id>, reach: set<Id>, o: ObjectSchema, bound: nat,
                                        i: nat, j: nat, ptr: Pointer, inst: Json, root: Json)
    requires Grounded(g) && Locates(g, quiet, reach) && ObjectFits(g, o, bound) && inst.Obj? && i < |inst.members|
    requires j < |o.patternProperties| && Located(root, ptr, inst)
    requires ObjectIds(o) <= reach
    ensures AllFill(root, PatternReport(g, o, bound, i, j, ptr, inst).adds)
    decreases IsContainer(inst), inst, bound, 2, 0
  {
    hide Validate, AllFill, Located, Locates;
    NothingFills(root, []);
    assert o.patternProperties[j].schema in PropertyIds(o.patternProperties);
    MemberLocated(root, ptr, inst, i);
    ValidateFills(g, quiet, reach, o.patternProperties[j].schema, ptr + [Key(inst.members[i].key)],
        inst.members[i].value, root);
  }

  // ------------------------------------------------------- applying the patch

  /** `new` has every value of `old` at the same path; objects may have further members. */
  ghost predicate Extends(old': Json, new': Json)
    decreases old'
  {
    match old'
    case Arr(items) =>
      && new'.Arr? && |new'.items| == |items|
      && forall i :: 0 <= i < |items| ==> Extends(items[i], new'.items[i])
    case Obj(members) =>
      && new'.Obj?
      && forall i :: 0 <= i < |members| ==>
        var found := FindMember(new'.members, members[i].key);
        found.Some? && Extends(members[i].value, found.value)
    case _ => new' == old'
  }

  lemma {:induction false} ExtendsItself(j: Json)
    requires WellFormed(j)
    ensures Extends(j, j)
    decreases j
  {
    match j
    case Arr(items) => forall i | 0 <= i < |items| ensures Extends(items[i], items[i]) { ExtendsItself(items[i]); }
    case Obj(members) =>
      forall i | 0 <= i < |members|
        ensures FindMember(members, members[i].key) == Some(members[i].value)
            && Extends(members[i].value, members[i].value)
      {
        FindMemberAt(members, i);
        ExtendsItself(members[i].value);
      }
    case _ =>
  }

  lemma ChildExtends(old': Json, new': Json, t: Token)
    requires Extends(old', new') && Child(old', t).Some?
    ensures Child(new', t).Some? && Extends(Child(old', t).value, Child(new', t).value)
  {
    if old'.Obj? {
      var i :| 0 <= i < |old'.members| && old'.members[i] == Member(t.key, Child(old', t).value);
    }
  }

  /** Every path of the old document leads to an extension of the old value. */
  lemma {:induction false} PathsSurvive(old': Json, new': Json, ptr: Pointer)
    requires Extends(old', new') && Lookup(old', ptr).Some?
    ensures Lookup(new', ptr).Some? && Extends(Lookup(old', ptr).value, Lookup(new', ptr).value)
    decreases |ptr|
  {
    if ptr != [] {
      ChildExtends(old', new', ptr[0]);
      PathsSurvive(Child(old', ptr[0]).value, Child(new', ptr[0]).value, ptr[1..]);
    }
  }

  lemma {:induction false} FillingKeepsValues(root: Json, doc: Json, path: Pointer, value: Json)
    requires WellFormed(root) && Extends(root, doc) && Fills(root, Add(path, value))
    ensures ApplyAdd(doc, path, value).Some? && Extends(root, ApplyAdd(doc, path, value).value)
    decreases |path|
  {
    var parent := path[..|path| - 1];
    if |path| == 1 {
      assert parent == [];
      NewMemberKeepsValues(root, doc, path, value);
    } else {
      assert path[1..][..|path| - 2] == parent[1..];
      var t := path[0];
      assert parent[0] == t;
      ChildExtends(root, doc, t);
      var c, c' := Child(root, t).value, Child(doc, t).value;
      ChildWellFormed(root, t);
      FillingKeepsValues(c, c', path[1..], value);
      ReplacingKeepsValues(root, doc, t, ApplyAdd(c', path[1..], value).value);
    }
  }

  lemma NewMemberKeepsValues(root: Json, doc: Json, path: Pointer, value: Json)
    requires WellFormed(root) && Extends(root, doc) && |path| == 1 && path[0].Key?
    requires root.Obj? && FindMember(root.members, path[0].key).None?
    ensures ApplyAdd(doc, path, value).Some? && Extends(root, ApplyAdd(doc, path, value).value)
  {
    var r := ApplyAdd(doc, path, value).value;
    forall i | 0 <= i < |root.members|
      ensures FindMember(r.members, root.members[i].key).Some?
      ensures Extends(root.members[i].value, FindMember(r.members, root.members[i].key).value)
    {
      FindMemberAt(root.members, i);
    }
  }

  lemma ChildWellFormed(j: Json, t: Token)
    requires WellFormed(j) && Child(j, t).Some?
    ensures WellFormed(Child(j, t).value)
  {
    if j.Obj? {
      var i :| 0 <= i < |j.members| && j.members[i] == Member(t.key, Child(j, t).value);
    }
  }

  lemma ReplacingKeepsValues(root: Json, doc: Json, t: Token, c: Json)
    requires WellFormed(root) && Extends(root, doc)
    requires Child(root, t).Some? && Child(doc, t).Some? && Extends(Child(root, t).value, c)
    ensures Extends(root, ReplaceChild(doc, t, c))
  {
    var r := ReplaceChild(doc, t, c);
    match root
    case Obj(members) =>
      forall i | 0 <= i < |members|
        ensures FindMember(r.members, members[i].key).Some?
        ensures Extends(members[i].value, FindMember(r.members, members[i].key).value)
      {
        FindMemberAt(members, i);
        assert Child(r, Key(members[i].key)) == if Key(members[i].key) == t then Some(c)
            else Child(doc, Key(members[i].key));
      }
    case Arr(items) =>
      forall i | 0 <= i < |items| ensures Extends(items[i], r.items[i]) {
        assert Child(r, Index(i)) == if Index(i) == t then Some(c) else Child(doc, Index(i));
      }
  }

  lemma {:induction false} FillingAllKeepsValues(root: Json, doc: Json, adds: seq<Add>)
    requires WellFormed(root) && Extends(root, doc) && AllFill(root, adds)
    ensures ApplyAll(doc, adds).Some? && Extends(root, ApplyAll(doc, adds).value)
    decreases |adds|
  {
    if adds != [] {
      FillingKeepsValues(root, doc, adds[0].path, adds[0].value);
      FillingAllKeepsValues(root, ApplyAdd(doc, adds[0].path, adds[0].value).value, adds[1..]);
    }
  }

  /** The patch applies, and every original path still leads to the original value. */
  lemma PatchKeepsInstance(g: Graph, id: Id, inst: Json)
    requires Grounded(g) && LocatesInstances(g, id) && WellFormed(inst)
    ensures id in g.nodes
    ensures var adds := Validate(g, id, [], inst).adds;
      && AllFill(inst, adds)
      && ApplyAll(inst, adds).Some?
      && Extends(inst, ApplyAll(inst, adds).value)
  {
    hide Validate;
    var quiet, reach :| id in reach && Locates(g, quiet, reach);
    var adds := Validate(g, id, [], inst).adds;
    ValidateFills(g, quiet, reach, id, [], inst, inst);
    ExtendsItself(inst);
    FillingAllKeepsValues(inst, inst, adds);
  }

  // ----------------------------------------------------- what the patch leaves

  /** The added value is at its path. */
  lemma {:induction false} AddedThere(j: Json, path: Pointer, value: Json)
    requires path != [] && path[|path| - 1].Key? && ApplyAdd(j, path, value).Some?
    ensures Lookup(ApplyAdd(j, path, value).value, path) == Some(value)
    decreases |path|
  {
    if |path| == 1 {
      assert Lookup(value, path[1..]) == Some(value);
    } else {
      var rest := path[1..];
      assert rest[|rest| - 1] == path[|path| - 1];
      AddedThere(Child(j, path[0]).value, rest, value);
    }
  }

  /** Values that are neither above nor below the path stay. */
  lemma {:induction false} OthersStay(j: Json, path: Pointer, value: Json, other: Pointer)
    requires path != [] && path[|path| - 1].Key? && ApplyAdd(j, path, value).Some?
    requires !(path <= other) && !(other <= path) && Lookup(j, other).Some?
    ensures Lookup(ApplyAdd(j, path, value).value, other) == Lookup(j, other)
    decreases |path|
  {
    assert other != [];
    if path[0] == other[0] {
      assert path == [path[0]] + path[1..] && other == [other[0]] + other[1..];
      assert path[1..] <= other[1..] ==> path <= other;
      assert other[1..] <= path[1..] ==> other <= path;
      assert |path| > 1;
      assert path[1..][|path| - 2] == path[|path| - 1];
      OthersStay(Child(j, path[0]).value, path[1..], value, other[1..]);
    }
  }

  lemma {:induction false} PrefixThere(j: Json, ptr: Pointer, prefix: Pointer)
    requires prefix <= ptr && Lookup(j, ptr).Some?
    ensures Lookup(j, prefix).Some?
    decreases |prefix|
  {
    if prefix != [] {
      assert prefix[0] == ptr[0] && prefix[1..] <= ptr[1..];
      PrefixThere(Child(j, ptr[0]).value, ptr[1..], prefix[1..]);
    }
  }

  /** Of two members that a document lacks neither is below the other. */
  lemma FillsApart(root: Json, a: Add, b: Add)
    requires Fills(root, a) && Fills(root, b) && a.path != b.path
    ensures !(a.path <= b.path)
  {
    if a.path <= b.path {
      var parent := b.path[..|b.path| - 1];
      assert a.path <= parent;
      PrefixThere(root, parent, a.path);
      var above := a.path[..|a.path| - 1];
      assert a.path == above + [a.path[|a.path| - 1]];
      LookupSnoc(root, above, a.path[|a.path| - 1]);
    }
  }

  lemma {:induction false} FilledStays(root: Json, doc: Json, adds: seq<Add>, a: Add)
    requires WellFormed(root) && Extends(root, doc) && AllFill(root, adds) && Fills(root, a)
    requires forall i :: 0 <= i < |adds| ==> adds[i].path != a.path
    requires Lookup(doc, a.path) == Some(a.value)
    ensures ApplyAll(doc, adds).Some? && Lookup(ApplyAll(doc, adds).value, a.path) == Some(a.value)
    decreases |adds|
  {
    hide Fills, Extends;
    if adds != [] {
      var first := adds[0];
      assert Fills(root, first);
      FillingKeepsValues(root, doc, first.path, first.value);
      FillsApart(root, first, a);
      FillsApart(root, a, first);
      EndsWithKey(root, first);
      OthersStay(doc, first.path, first.value, a.path);
      FilledStays(root, ApplyAdd(doc, first.path, first.value).value, adds[1..], a);
    }
  }

  lemma EndsWithKey(root: Json, a: Add)
    requires Fills(root, a)
    ensures a.path != [] && a.path[|a.path| - 1].Key?
  {
  }

  /** Of several adds for a member that the document lacks the last one shows. */
  lemma {:induction false} LastFillShows(root: Json, doc: Json, adds: seq<Add>, k: nat)
    requires WellFormed(root) && Extends(root, doc) && AllFill(root, adds) && k < |adds|
    requires forall i :: k < i < |adds| ==> adds[i].path != adds[k].path
    ensures ApplyAll(doc, adds).Some? && Lookup(ApplyAll(doc, adds).value, adds[k].path) == Some(adds[k].value)
    decreases k
  {
    hide Fills, Extends;
    var first := adds[0];
    assert Fills(root, first);
    FillingKeepsValues(root, doc, first.path, first.value);
    var doc' := ApplyAdd(doc, first.path, first.value).value;
    if k == 0 {
      EndsWithKey(root, first);
      AddedThere(doc, first.path, first.value);
      FilledStays(root, doc', adds[1..], first);
    } else {
      assert adds[1..][k - 1] == adds[k];
      LastFillShows(root, doc', adds[1..], k - 1);
    }
  }

  /** In the patched instance the last default that was added for a member is its value. */
  lemma DefaultsShow(g: Graph, id: Id, inst: Json, k: nat)
    requires Grounded(g) && LocatesInstances(g, id) && WellFormed(inst) && id in g.nodes
    requires var adds := Validate(g, id, [], inst).adds;
      k < |adds| && forall i :: k < i < |adds| ==> adds[i].path != adds[k].path
    ensures var adds := Validate(g, id, [], inst).adds;
      ApplyAll(inst, adds).Some? && Lookup(ApplyAll(inst, adds).value, adds[k].path) == Some(adds[k].value)
  {
    hide Validate, Grounded, LocatesInstances;
    PatchKeepsInstance(g, id, inst);
    ExtendsItself(inst);
    LastFillShows(inst, inst, Validate(g, id, [], inst).adds, k);
  }

  // ----------------------------------- tuples, `contains` and dependencies overwrite

  const Anything := TypeSchema(true, true, Some(Numeric(None, None, false, false)),
    Some(Text(None, None, None, None, None)),
    Some(ObjectSchema(None, None, [], [], [], None, [], None)),
    Some(ArraySchema(None, None, false, None, [], None, None)),
    None, None, [], None, None, None, Null)

  /**
   `{"items": [{}, F]}` at node 0, `{"contains": F}` at node 4 and `{"dependencies": {"d": F}}` at
   node 5, where F is `{"properties": {"a": {"default": 1}}}` at node 2.
   */
  const FillerObject := ObjectSchema(None, None, [], [Property("a", 3)], [], None, [], None)
  const Filler := Anything.(objectType := Some(FillerObject))
  const FillerDefault := Anything.(defaultValue := Int(1))
  const DependentObject := ObjectSchema(None, None, [], [], [], None, [Dependency("d", Satisfies(2))], None)
  const Dependent := Anything.(objectType := Some(DependentObject))

  const Offenders := Graph(
    map[0 := Type(Anything.(arrayType := Some(ArraySchema(None, None, false, None, [1, 2], None, None)))),
        1 := Boolean(true),
        2 := Type(Filler),
        3 := Type(FillerDefault),
        4 := Type(Anything.(arrayType := Some(ArraySchema(None, None, false, None, [], None, Some(2))))),
        5 := Type(Dependent)],
    (s, p) => true, (f, s) => true, (c, s) => true)

  /** `[{"a": 5}, {}]` */
  const TupleInstance := Arr([Obj([Member("a", Int(5))]), Obj([])])

  /** A type schema without logic, conditional and dependency keywords stays on no instance. */
  lemma NothingInPlace(t: TypeSchema)
    requires t.logic == [] && t.ifSchema.None? && t.thenSchema.None? && t.elseSchema.None?
    requires t.objectType.Some? ==> t.objectType.value.dependencies == []
    ensures InPlace(Type(t)) == {}
  {
  }

  lemma OffendersGrounded()
    ensures Grounded(Offenders)
  {
    hide InPlace, Below;
    var g := Offenders;
    NothingInPlace(g.nodes[0].schema);
    NothingInPlace(g.nodes[2].schema);
    NothingInPlace(g.nodes[3].schema);
    NothingInPlace(g.nodes[4].schema);
    BooleanInPlace(true);
    DependencyInPlace(g.nodes[5].schema);
    OffendersBelow();
    assert Ranked(g, map[0 := 0, 1 := 0, 2 := 0, 3 := 0, 4 := 0, 5 := 1]);
  }

  lemma DependencyInPlace(t: TypeSchema)
    requires t.logic == [] && t.ifSchema.None? && t.thenSchema.None? && t.elseSchema.None?
    requires t.objectType.Some? && t.objectType.value.dependencies == [Dependency("d", Satisfies(2))]
    ensures InPlace(Type(t)) == {2}
  {
    var ds := t.objectType.value.dependencies;
    assert RuleIds(ds[0].rule) == {2};
    assert DependencyIds(ds) == {2};
  }

  lemma OffendersBelow()
    ensures forall id :: id in Offenders.nodes ==> Below(Offenders.nodes[id]) <= {1, 2, 3}
  {
    var g := Offenders;
    assert PropertyIds(g.nodes[2].schema.objectType.value.properties) <= {3};
    assert ArrayIds(g.nodes[0].schema.arrayType.value) <= {1, 2};
    assert ArrayIds(g.nodes[4].schema.arrayType.value) <= {2};
    assert ObjectIds(Anything.objectType.value) == {} && ArrayIds(Anything.arrayType.value) == {};
    assert ObjectIds(g.nodes[5].schema.objectType.value) == {};
    assert ObjectIds(g.nodes[2].schema.objectType.value) <= {3};
  }

  lemma BooleanInPlace(b: bool)
    ensures InPlace(Boolean(b)) == {}
  {
  }

  lemma PassingChecks(checks: seq<Check>, ptr: Pointer, inst: Json)
    requires |checks| == 2 && !checks[0].fails && !checks[1].fails
    ensures ChecksFrom(checks, 0, ptr, inst) == Nothing
  {
    assert ChecksFrom(checks, 2, ptr, inst) == Nothing;
    assert ChecksFrom(checks, 1, ptr, inst) == Nothing;
  }

  /** A type schema without value, logic or conditional keywords reports what its kind reports. */
  lemma OnlyKind(g: Graph, t: TypeSchema, bound: nat, ptr: Pointer, inst: Json)
    requires Grounded(g) && Fits(g, t, bound)
    requires t.enumeration.None? && t.constant.None? && t.logic == [] && t.ifSchema.None?
    ensures TypeReport(g, t, bound, ptr, inst) == KindReport(g, t, bound, ptr, inst)
  {
    hide KindReport, ChecksFrom;
    PassingChecks(ValueChecks(t, inst), ptr, inst);
  }

  /** An object schema without any say on the members reports nothing about them. */
  lemma {:induction false} NoMembersChecked(g: Graph, o: ObjectSchema, bound: nat, i: nat, ptr: Pointer, inst: Json)
    requires Grounded(g) && ObjectFits(g, o, bound) && inst.Obj? && i <= |inst.members|
    requires o.propertyNames.None? && o.patternProperties == [] && o.additionalProperties.None?
    requires forall k :: 0 <= k < |inst.members| ==> FindProperty(o.properties, inst.members[k].key).None?
    ensures MembersFrom(g, o, bound, i, ptr, inst) == Nothing
    decreases |inst.members| - i
  {
    hide Validate, FindProperty;
    if i < |inst.members| {
      NoMembersChecked(g, o, bound, i + 1, ptr, inst);
      assert PatternsFrom(g, o, bound, i, 0, ptr, inst) == Nothing;
      assert MemberReport(g, o, bound, i, ptr, inst) == Nothing;
    }
  }

  /** Such a schema without counts and required members leaves defaults and dependencies. */
  lemma DefaultsAndDependencies(g: Graph, t: TypeSchema, bound: nat, ptr: Pointer, inst: Json)
    requires Grounded(g) && Fits(g, t, bound) && inst.Obj? && t.objectType.Some?
    requires t.enumeration.None? && t.constant.None? && t.logic == [] && t.ifSchema.None?
    requires var o := t.objectType.value;
      && o.maxProperties.None? && o.minProperties.None? && o.required == []
      && o.propertyNames.None? && o.patternProperties == [] && o.additionalProperties.None?
      && forall k :: 0 <= k < |inst.members| ==> FindProperty(o.properties, inst.members[k].key).None?
    ensures ObjectFits(g, t.objectType.value, bound)
    ensures TypeReport(g, t, bound, ptr, inst)
      == Then(DefaultsFrom(g, t.objectType.value.properties, 0, ptr, inst),
          DependenciesFrom(g, t.objectType.value, bound, 0, ptr, inst))
  {
    hide ChecksFrom, MembersFrom, DefaultsFrom, DependenciesFrom, Then, TypeReport, FindProperty;
    var o := t.objectType.value;
    OnlyKind(g, t, bound, ptr, inst);
    PassingChecks(PropertyCountChecks(o, |inst.members|), ptr, inst);
    assert RequiredFrom([], 0, ptr, inst, false) == Nothing;
    NoMembersChecked(g, o, bound, 0, ptr, inst);
    var rest := Then(DefaultsFrom(g, o.properties, 0, ptr, inst), DependenciesFrom(g, o, bound, 0, ptr, inst));
    assert KindReport(g, t, bound, ptr, inst) == Then(Nothing, Then(Nothing, Then(Nothing, rest)));
    ThenNothing(rest);
  }

  /** The schema F adds its default to every object without the member. */
  lemma FillerAdds(g: Graph, ptr: Pointer, inst: Json)
    requires Grounded(g) && inst.Obj? && forall k :: 0 <= k < |inst.members| ==> inst.members[k].key != "a"
    requires 2 in g.nodes && g.nodes[2] == Type(Filler) && 3 in g.nodes && g.nodes[3] == Type(FillerDefault)
    ensures Validate(g, 2, ptr, inst) == Report([], [Add(ptr + [Key("a")], Int(1))])
  {
    hide TypeReport, MembersFrom, DependenciesFrom, DefaultsFrom;
    NodeFits(g, 2);
    var bound := Rank(g)[2];
    assert forall k :: 0 <= k < |inst.members| ==> FindProperty(FillerObject.properties, inst.members[k].key).None?;
    DefaultsAndDependencies(g, Filler, bound, ptr, inst);
    FillerDefaults(g, ptr, inst);
    NoDependencies(g, FillerObject, bound, ptr, inst);
    assert Validate(g, 2, ptr, inst) == TypeReport(g, Filler, bound, ptr, inst);
    ThenNothing(DefaultsFrom(g, FillerObject.properties, 0, ptr, inst));
  }

  lemma FillerDefaults(g: Graph, ptr: Pointer, inst: Json)
    requires Grounded(g) && inst.Obj? && FindMember(inst.members, "a").None?
    requires 3 in g.nodes && g.nodes[3] == Type(FillerDefault) && PropertyIds(FillerObject.properties) <= g.nodes.Keys
    ensures DefaultsFrom(g, FillerObject.properties, 0, ptr, inst) == Report([], [Add(ptr + [Key("a")], Int(1))])
  {
    var ps := FillerObject.properties;
    assert DefaultsFrom(g, ps, 1, ptr, inst) == Nothing;
    assert OneDefault(g, ps[0], ptr, inst) == Report([], [Add(ptr + [Key("a")], Int(1))]);
  }

  lemma NoDependencies(g: Graph, o: ObjectSchema, bound: nat, ptr: Pointer, inst: Json)
    requires Grounded(g) && ObjectFits(g, o, bound) && inst.Obj? && o.dependencies == []
    ensures DependenciesFrom(g, o, bound, 0, ptr, inst) == Nothing
  {
  }

  lemma TwoItems(g: Graph, a: ArraySchema, bound: nat, inst: Json)
    requires Grounded(g) && ArrayIds(a) <= g.nodes.Keys && |a.items| == 2 && inst.Arr? && |inst.items| == 2
    requires a.items[0] in g.nodes && a.items[1] in g.nodes
    ensures TupleFrom(g, a, bound, 0, [], inst)
      == Then(Validate(g, a.items[0], [Index(0)], inst.items[0]), Validate(g, a.items[1], [Index(0)], inst.items[1]))
  {
    hide Validate, ArrayIds, Then;
    var second := Validate(g, a.items[1], [Index(0)], inst.items[1]);
    assert [] + [Index(0)] == [Index(0)];
    assert TupleFrom(g, a, bound, 2, [], inst) == Nothing;
    assert TupleFrom(g, a, bound, 1, [], inst) == Then(second, Nothing);
    ThenNothing(second);
  }

  lemma TupleItemAdds(bound: nat)
    requires Grounded(Offenders) && ArrayIds(Offenders.nodes[0].schema.arrayType.value) <= Offenders.nodes.Keys
    ensures TupleFrom(Offenders, Offenders.nodes[0].schema.arrayType.value, bound, 0, [], TupleInstance)
      == Report([], [Add([Index(0), Key("a")], Int(1))])
  {
    hide Validate, ArrayIds, TupleFrom, Grounded;
    var g, inst := Offenders, TupleInstance;
    TwoItems(g, g.nodes[0].schema.arrayType.value, bound, inst);
    FirstItem(inst.items[0]);
    FillerAdds(Offenders, [Index(0)], Obj([]));
    assert [Index(0)] + [Key("a")] == [Index(0), Key("a")];
  }

  lemma FirstItem(inst: Json)
    requires Grounded(Offenders)
    ensures 1 in Offenders.nodes && Validate(Offenders, 1, [Index(0)], inst) == Nothing
  {
    hide TypeReport;
  }

  lemma ArrayAdds(g: Graph, t: TypeSchema, bound: nat, inst: Json)
    requires Grounded(g) && Fits(g, t, bound) && inst.Arr? && t.arrayType.Some?
    requires !t.arrayType.value.uniqueItems && t.arrayType.value.contains.None? && t.arrayType.value.itemsSchema.None?
    requires ChecksFrom(ItemCountChecks(t.arrayType.value, |inst.items|), 0, [], inst) == Nothing
    ensures KindReport(g, t, bound, [], inst) == TupleFrom(g, t.arrayType.value, bound, 0, [], inst)
  {
    hide TupleFrom, ChecksFrom;
    var r := TupleFrom(g, t.arrayType.value, bound, 0, [], inst);
    assert Then(Nothing, Then(Nothing, Then(r, Nothing))) == r;
  }

  lemma TupleAdds()
    requires Grounded(Offenders)
    ensures Validate(Offenders, 0, [], TupleInstance) == Report([], [Add([Index(0), Key("a")], Int(1))])
  {
    hide TypeReport;
    var g, inst := Offenders, TupleInstance;
    var t := g.nodes[0].schema;
    NodeFits(g, 0);
    OnlyKind(g, t, Rank(g)[0], [], inst);
    TupleItemAdds(Rank(g)[0]);
    PassingChecks(ItemCountChecks(t.arrayType.value, 2), [], inst);
    ArrayAdds(g, t, Rank(g)[0], inst);
  }

  /** With tuple items the default meant for the second item replaces a value of the first. */
  lemma TupleOverwrites()
    ensures Grounded(Offenders) && WellFormed(TupleInstance)
    ensures var adds := Validate(Offenders, 0, [], TupleInstance).adds;
      && adds == [Add([Index(0), Key("a")], Int(1))]
      && ApplyAll(TupleInstance, adds) == Some(Arr([Obj([Member("a", Int(1))]), Obj([])]))
      && !Extends(TupleInstance, ApplyAll(TupleInstance, adds).value)
  {
    hide Validate;
    OffendersGrounded();
    TupleAdds();
    var add := Add([Index(0), Key("a")], Int(1));
    var first, second := TupleInstance.items[0], Obj([Member("a", Int(1))]);
    assert first.members[0] == Member("a", Int(5)) && first.members[1..] == [];
    assert SetMember(first.members, "a", Int(1)) == second.members;
    assert ApplyAdd(first, [Key("a")], Int(1)) == Some(second);
    assert add.path[1..] == [Key("a")];
    var new' := Arr([second, Obj([])]);
    assert ApplyAdd(TupleInstance, add.path, add.value) == Some(new') by {
      assert TupleInstance.items[0 := second] == new'.items;
    }
    assert [add][1..] == [];
    assert !Extends(first, second) by {
      assert FindMember(second.members, first.members[0].key) == Some(Int(1));
      assert !Extends(first.members[0].value, Int(1));
    }
    assert !Extends(TupleInstance.items[0], new'.items[0]);
  }

  lemma NoTuple(g: Graph, a: ArraySchema, bound: nat, inst: Json)
    requires Grounded(g) && ArrayIds(a) <= g.nodes.Keys && inst.Arr? && a.items == [] && a.additionalItems.None?
    ensures TupleFrom(g, a, bound, 0, [], inst) == Nothing
  {
    hide Validate, Then, ArrayIds;
  }

  lemma ContainsAdds(g: Graph, t: TypeSchema, bound: nat, inst: Json)
    requires Grounded(g) && Fits(g, t, bound) && inst.Arr? && t.arrayType.Some?
    requires var a := t.arrayType.value;
      !a.uniqueItems && a.contains.Some? && a.itemsSchema.None? && a.items == [] && a.additionalItems.None?
    requires ChecksFrom(ItemCountChecks(t.arrayType.value, |inst.items|), 0, [], inst) == Nothing
    ensures KindReport(g, t, bound, [], inst) == ContainsFrom(g, t.arrayType.value, bound, 0, [], inst)
  {
    hide ContainsFrom, ChecksFrom, Then, TupleFrom, ArrayIds;
    var r := ContainsFrom(g, t.arrayType.value, bound, 0, [], inst);
    NoTuple(g, t.arrayType.value, bound, inst);
    ThenNothing(r);
  }

  /** With `contains` the default meant for a member of an item is added to the array, where it cannot be. */
  lemma ContainsMisses()
    ensures Grounded(Offenders)
    ensures var inst := Arr([Obj([])]);
      var adds := Validate(Offenders, 4, [], inst).adds;
      WellFormed(inst) && adds == [Add([Key("a")], Int(1))] && ApplyAll(inst, adds) == None
  {
    hide TypeReport, ContainsFrom, Grounded, ArrayIds;
    OffendersGrounded();
    var g, inst := Offenders, Arr([Obj([])]);
    var t := g.nodes[4].schema;
    NodeFits(g, 4);
    OnlyKind(g, t, Rank(g)[4], [], inst);
    PassingChecks(ItemCountChecks(t.arrayType.value, 1), [], inst);
    ContainsAdds(g, t, Rank(g)[4], inst);
    FillerAdds(g, [], Obj([]));
    OneContained(g, t.arrayType.value, Rank(g)[4], inst);
    assert [] + [Key("a")] == [Key("a")];
  }

  lemma OneContained(g: Graph, a: ArraySchema, bound: nat, inst: Json)
    requires Grounded(g) && ArrayIds(a) <= g.nodes.Keys && a.contains.Some? && a.contains.value in g.nodes
    requires inst.Arr? && |inst.items| == 1 && Validate(g, a.contains.value, [], inst.items[0]).errors == []
    ensures ContainsFrom(g, a, bound, 0, [], inst) == Validate(g, a.contains.value, [], inst.items[0])
  {
    hide Validate;
  }

  /** With a dependency the default meant for the object replaces a value of the member depended upon. */
  lemma DependencyOverwrites()
    ensures Grounded(Offenders)
    ensures var inst := Obj([Member("d", Obj([Member("a", Int(5))]))]);
      var adds := Validate(Offenders, 5, [], inst).adds;
      && WellFormed(inst) && adds == [Add([Key("d"), Key("a")], Int(1))]
      && ApplyAll(inst, adds) == Some(Obj([Member("d", Obj([Member("a", Int(1))]))]))
      && !Extends(inst, ApplyAll(inst, adds).value)
  {
    hide Validate;
    OffendersGrounded();
    DependencyAdds();
    var inner, inner' := Obj([Member("a", Int(5))]), Obj([Member("a", Int(1))]);
    var inst, inst' := Obj([Member("d", inner)]), Obj([Member("d", inner')]);
    assert inner.members[1..] == [] && inst.members[1..] == [];
    assert SetMember(inner.members, "a", Int(1)) == inner'.members;
    assert ApplyAdd(inner, [Key("a")], Int(1)) == Some(inner');
    assert SetMember(inst.members, "d", inner') == inst'.members;
    var add := Add([Key("d"), Key("a")], Int(1));
    assert add.path[1..] == [Key("a")];
    assert ApplyAdd(inst, add.path, add.value) == Some(inst');
    assert [add][1..] == [];
    assert !Extends(inst, inst') by {
      assert FindMember(inst'.members, "d") == Some(inner') && FindMember(inner'.members, "a") == Some(Int(1));
      assert inst.members[0].key == "d" && inner.members[0].key == "a";
      assert !Extends(inner, inner');
    }
  }

  lemma DependencyAdds()
    requires Grounded(Offenders)
    ensures Validate(Offenders, 5, [], Obj([Member("d", Obj([Member("a", Int(5))]))]))
      == Report([], [Add([Key("d"), Key("a")], Int(1))])
  {
    hide TypeReport, DependenciesFrom, DefaultsFrom;
    var g, inst := Offenders, Obj([Member("d", Obj([Member("a", Int(5))]))]);
    NodeFits(g, 5);
    DefaultsAndDependencies(g, Dependent, Rank(g)[5], [], inst);
    NoProperties(g, inst);
    FillerAdds(g, [Key("d")], inst);
    OneDependency(g, DependentObject, Rank(g)[5], inst);
    assert [Key("d")] + [Key("a")] == [Key("d"), Key("a")];
    ThenNothing(Validate(g, 2, [Key("d")], inst));
  }

  lemma NoProperties(g: Graph, inst: Json)
    requires Grounded(g) && inst.Obj?
    ensures DefaultsFrom(g, [], 0, [], inst) == Nothing
  {
  }

  lemma OneDependency(g: Graph, o: ObjectSchema, bound: nat, inst: Json)
    requires Grounded(g) && ObjectFits(g, o, bound) && inst.Obj? && 2 in g.nodes
    requires o.dependencies == [Dependency("d", Satisfies(2))] && FindMember(inst.members, "d").Some?
    ensures DependenciesFrom(g, o, bound, 0, [], inst) == Validate(g, 2, [Key("d")], inst)
  {
    hide Validate, Then;
    assert [] + [Key("d")] == [Key("d")];
    assert DependenciesFrom(g, o, bound, 1, [], inst) == Nothing;
    assert DependencyReport(g, o, bound, 0, [], inst) == Validate(g, 2, [Key("d")], inst);
    ThenNothing(Validate(g, 2, [Key("d")], inst));
  }
}
