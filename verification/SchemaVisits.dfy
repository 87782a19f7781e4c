/**
 Which schemas a validation runs, on which instance and under which pointer, told by the keywords
 and by what `Semantics` accepts.  With that the report is read off a resolved graph: the patch holds
 exactly the defaults of the properties that are absent where a schema is run, and every error is a
 keyword that is violated there, by the instance and at the pointer that it names.
 */
module SchemaVisits {
  import opened Wrappers
  import opened JsonValues
  import opened SchemaGraph
  import opened ValidationReport
  import opened Semantics
  import opened QuietSchemas

  /** A schema that is run on an instance under a pointer. */
  datatype Site = Site(id: Id, ptr: Pointer, inst: Json)

  /**
   Every schema that is run; those whose errors are handed on as they are; those of `allOf`, whose
   first error is handed on inside another.
   */
  datatype Part = Every | Handed | Wrapped

  ghost predicate Takes(g: Graph, id: Id, inst: Json)
    requires Grounded(g)
  {
    id in g.nodes && Accepts(g, id, inst)
  }

  /** The loop over the subschemas comes to `subs[k]`. */
  ghost predicate Reaches(g: Graph, kind: CombinationKind, subs: seq<Id>, inst: Json, k: nat)
    requires Grounded(g) && k <= |subs|
  {
    match kind
    case AllOf => forall j :: 0 <= j < k ==> Takes(g, subs[j], inst)
    case AnyOf => forall j :: 0 <= j < k ==> !Takes(g, subs[j], inst)
    case OneOf => forall j, l :: 0 <= j < l < k ==> !(Takes(g, subs[j], inst) && Takes(g, subs[l], inst))
  }

  ghost predicate LogicRuns(g: Graph, l: Logic, inst: Json, id: Id, part: Part)
    requires Grounded(g)
  {
    match l
    case Not(sub) => part == Every && id == sub
    case Combination(kind, subs) =>
      && (part == Every || (part == Wrapped && kind == AllOf))
      && exists k: nat :: k < |subs| && subs[k] == id && Reaches(g, kind, subs, inst, k)
  }

  /** `if` is run for its verdict, and the branch that it chooses. */
  ghost predicate ConditionalRuns(g: Graph, t: TypeSchema, inst: Json, id: Id, part: Part)
    requires Grounded(g)
  {
    && t.ifSchema.Some?
    && ((part == Every && id == t.ifSchema.value)
        || (part != Wrapped && Some(id) == if Takes(g, t.ifSchema.value, inst) then t.thenSchema else t.elseSchema))
  }

  /** No property has the name, and no pattern matches it. */
  ghost predicate Unlisted(g: Graph, o: ObjectSchema, name: string) {
    && (forall k :: 0 <= k < |o.properties| ==> o.properties[k].name != name)
    && (forall j :: 0 <= j < |o.patternProperties| ==> !g.matches(name, o.patternProperties[j].name))
  }

  predicate IsProperty(ps: seq<Property>, name: string, id: Id) {
    exists k :: 0 <= k < |ps| && ps[k] == Property(name, id) && forall l :: 0 <= l < k ==> ps[l].name != name
  }

  predicate IsPattern(g: Graph, ps: seq<Property>, name: string, id: Id) {
    exists j :: 0 <= j < |ps| && ps[j].schema == id && g.matches(name, ps[j].name)
  }

  ghost predicate MemberRuns(g: Graph, o: ObjectSchema, ptr: Pointer, m: Member, n: Site, part: Part) {
    && part != Wrapped
    && ((o.propertyNames == Some(n.id) && n.ptr == ptr && n.inst == Str(m.key))
        || (n.ptr == ptr + [Key(m.key)] && n.inst == m.value && ValueRuns(g, o, m.key, n.id, part)))
  }

  ghost predicate ValueRuns(g: Graph, o: ObjectSchema, name: string, id: Id, part: Part) {
    || IsProperty(o.properties, name, id)
    || IsPattern(g, o.patternProperties, name, id)
    || (part == Every && o.additionalProperties == Some(id) && Unlisted(g, o, name))
  }

  predicate DependencyRuns(d: Dependency, ptr: Pointer, inst: Json, n: Site, part: Part)
    requires inst.Obj?
  {
    part != Wrapped && HasMember(inst, d.name) && d.rule == Satisfies(n.id) && n.ptr == ptr + [Key(d.name)]
    && n.inst == inst
  }

  predicate IsItemSchema(a: ArraySchema, i: nat, id: Id) {
    if a.itemsSchema.Some? then a.itemsSchema.value == id
    else if i < |a.items| then a.items[i] == id
    else a.additionalItems == Some(id)
  }

  /** The pointer of an item of a tuple has the index 0. */
  ghost predicate ItemRuns(g: Graph, a: ArraySchema, ptr: Pointer, inst: Json, i: nat, n: Site, part: Part)
    requires Grounded(g) && inst.Arr? && i < |inst.items|
  {
    && part != Wrapped && n.inst == inst.items[i]
    && ((IsItemSchema(a, i, n.id) && n.ptr == ptr + [Index(if a.itemsSchema.Some? then i else 0)])
        || (part == Every && a.contains == Some(n.id) && n.ptr == ptr
            && forall k :: 0 <= k < i ==> !Takes(g, n.id, inst.items[k])))
  }

  ghost predicate InPlaceRuns(g: Graph, t: TypeSchema, inst: Json, id: Id, part: Part)
    requires Grounded(g)
  {
    (exists i: nat :: i < |t.logic| && LogicRuns(g, t.logic[i], inst, id, part))
    || ConditionalRuns(g, t, inst, id, part)
  }

  ghost predicate ObjectRuns(g: Graph, o: ObjectSchema, ptr: Pointer, inst: Json, n: Site, part: Part)
    requires Grounded(g) && inst.Obj?
  {
    (exists i: nat :: i < |inst.members| && MemberRuns(g, o, ptr, inst.members[i], n, part))
    || (exists j: nat :: j < |o.dependencies| && DependencyRuns(o.dependencies[j], ptr, inst, n, part))
  }

  ghost predicate ArrayRuns(g: Graph, a: ArraySchema, ptr: Pointer, inst: Json, n: Site, part: Part)
    requires Grounded(g) && inst.Arr?
  {
    exists i: nat :: i < |inst.items| && ItemRuns(g, a, ptr, inst, i, n, part)
  }

  ghost predicate TypeRuns(g: Graph, t: TypeSchema, ptr: Pointer, inst: Json, n: Site, part: Part)
    requires Grounded(g)
  {
    || (n.ptr == ptr && n.inst == inst && InPlaceRuns(g, t, inst, n.id, part))
    || (inst.Obj? && t.objectType.Some? && ObjectRuns(g, t.objectType.value, ptr, inst, n, part))
    || (inst.Arr? && t.arrayType.Some? && ArrayRuns(g, t.arrayType.value, ptr, inst, n, part))
  }

  /** While the schema of `s` is run, that of `n` is called. */
  ghost predicate Runs(g: Graph, s: Site, n: Site, part: Part)
    requires Grounded(g) && s.id in g.nodes
  {
    n.id in g.nodes
    && match g.nodes[s.id]
       case Boolean(_) => false
       case Ref(_, target, _) => part != Wrapped && target == Some(n.id) && n.ptr == s.ptr && n.inst == s.inst
       case Type(t) => TypeRuns(g, t, s.ptr, s.inst, n, part)
  }

  // ------------------------------------------------------------------- defaults

  function OwnDefault(n: Node): Json {
    match n
    case Boolean(_) => Null
    case Ref(_, _, d) => d
    case Type(t) => t.defaultValue
  }

  /** From target to target, past references without a default of their own, up to a schema with the default `d`. */
  ghost predicate DefaultWalk(g: Graph, walk: seq<Id>, id: Id, d: Json) {
    && walk != [] && walk[0] == id
    && (forall i :: 0 <= i < |walk| ==> walk[i] in g.nodes)
    && (forall i :: 0 <= i < |walk| - 1 ==> ReadsOn(g, walk[i], walk[i + 1]))
    && OwnDefault(g.nodes[walk[|walk| - 1]]) == d
  }

  predicate ReadsOn(g: Graph, id: Id, next: Id)
    requires id in g.nodes
  {
    g.nodes[id].Ref? && g.nodes[id].defaultValue == Null && g.nodes[id].target == Some(next)
  }

  ghost predicate HasDefault(g: Graph, id: Id, d: Json) {
    d != Null && exists walk :: DefaultWalk(g, walk, id, d)
  }

  lemma {:induction false} DefaultAlong(g: Graph, walk: seq<Id>, id: Id, d: Json)
    requires Grounded(g) && DefaultWalk(g, walk, id, d) && d != Null
    ensures DefaultOf(g, id) == Found(d)
    decreases |walk|
  {
    if |walk| > 1 {
      assert ReadsOn(g, walk[0], walk[1]);
      DefaultAlong(g, walk[1..], walk[1], d);
    }
  }

  lemma {:induction false} WalkOfDefault(g: Graph, id: Id) returns (walk: seq<Id>)
    requires Grounded(g) && id in g.nodes && DefaultOf(g, id).Found?
    ensures DefaultWalk(g, walk, id, DefaultOf(g, id).value)
    decreases Rank(g)[id]
  {
    walk := [id];
    var n := g.nodes[id];
    if n.Ref? && n.defaultValue == Null {
      NodeFits(g, id);
      var rest := WalkOfDefault(g, n.target.value);
      walk := [id] + rest;
      assert ReadsOn(g, id, rest[0]);
    }
  }

  /** The default that the patch is given is the first on the way from target to target. */
  lemma DefaultIsFirst(g: Graph, id: Id, d: Json)
    requires Grounded(g) && id in g.nodes
    ensures HasDefault(g, id, d) <==> d != Null && DefaultOf(g, id) == Found(d)
  {
    if HasDefault(g, id, d) {
      var walk :| DefaultWalk(g, walk, id, d);
      DefaultAlong(g, walk, id, d);
    }
    if DefaultOf(g, id) == Found(d) {
      var walk := WalkOfDefault(g, id);
    }
  }

  /** The property is absent, and its schema has a default. */
  ghost predicate DefaultFor(g: Graph, p: Property, ptr: Pointer, inst: Json, a: Add)
    requires inst.Obj?
  {
    !HasMember(inst, p.name) && a.path == ptr + [Key(p.name)] && HasDefault(g, p.schema, a.value)
  }

  ghost predicate DefaultHere(g: Graph, ps: seq<Property>, ptr: Pointer, inst: Json, a: Add)
    requires inst.Obj?
  {
    exists j: nat :: j < |ps| && DefaultFor(g, ps[j], ptr, inst, a)
  }

  /** An add that the schema of the site makes itself. */
  ghost predicate OwnAdd(g: Graph, s: Site, a: Add)
    requires s.id in g.nodes
  {
    && g.nodes[s.id].Type? && g.nodes[s.id].schema.objectType.Some? && s.inst.Obj?
    && DefaultHere(g, g.nodes[s.id].schema.objectType.value.properties, s.ptr, s.inst, a)
  }

  lemma ThenAdds(x: Report, y: Report, a: Add)
    ensures a in Then(x, y).adds <==> a in x.adds || a in y.adds
  {
  }

  lemma OneDefaultAdds(g: Graph, p: Property, ptr: Pointer, inst: Json, a: Add)
    requires Grounded(g) && p.schema in g.nodes && inst.Obj?
    ensures a in OneDefault(g, p, ptr, inst).adds <==> DefaultFor(g, p, ptr, inst, a)
  {
    hide DefaultOf, Grounded, HasDefault;
    DefaultIsFirst(g, p.schema, a.value);
  }

  lemma {:induction false} DefaultsAdds(g: Graph, ps: seq<Property>, j: nat, ptr: Pointer, inst: Json, a: Add)
    requires Grounded(g) && PropertyIds(ps) <= g.nodes.Keys && j <= |ps| && inst.Obj?
    ensures a in DefaultsFrom(g, ps, j, ptr, inst).adds <==>
      exists k: nat :: j <= k < |ps| && DefaultFor(g, ps[k], ptr, inst, a)
    decreases |ps| - j
  {
    hide OneDefault, Then, DefaultFor, Grounded;
    if j < |ps| {
      assert ps[j].schema in PropertyIds(ps);
      OneDefaultAdds(g, ps[j], ptr, inst, a);
      DefaultsAdds(g, ps, j + 1, ptr, inst, a);
      ThenAdds(OneDefault(g, ps[j], ptr, inst), DefaultsFrom(g, ps, j + 1, ptr, inst), a);
    }
  }

  // ------------------------------------------------------------ what is added

  ghost predicate Gives(g: Graph, n: Site, a: Add)
    requires Grounded(g)
  {
    n.id in g.nodes && a in Validate(g, n.id, n.ptr, n.inst).adds
  }

  lemma PassesIfTakes(g: Graph, id: Id, ptr: Pointer, inst: Json)
    requires Grounded(g) && Resolved(g) && id in g.nodes
    ensures Validate(g, id, ptr, inst).errors == [] <==> Takes(g, id, inst)
  {
    hide Validate, Accepts;
    Verdict(g, id, ptr, inst);
  }

  /** `count` of the subschemas before `i` have succeeded. */
  ghost predicate CountsSo(g: Graph, kind: CombinationKind, subs: seq<Id>, inst: Json, i: nat, count: nat)
    requires Grounded(g) && i <= |subs|
  {
    && Reaches(g, kind, subs, inst, i)
    && match kind
       case AllOf => count == i
       case AnyOf => count == 0
       case OneOf =>
         && count <= 1
         && (count == 1 <==> exists j :: 0 <= j < i && Takes(g, subs[j], inst))
  }

  lemma CountsOn(g: Graph, kind: CombinationKind, subs: seq<Id>, inst: Json, i: nat, count: nat)
    requires Grounded(g) && i < |subs| && CountsSo(g, kind, subs, inst, i, count)
    ensures var failed := !Takes(g, subs[i], inst);
      var count' := if failed then count else count + 1;
      if Completes(kind, failed, count') then forall k: nat :: i < k <= |subs| ==> !Reaches(g, kind, subs, inst, k)
      else CountsSo(g, kind, subs, inst, i + 1, count')
  {
    hide Takes;
  }

  lemma {:induction false} CombinationAdds(g: Graph, l: Logic, bound: nat, i: nat, count: nat, ptr: Pointer,
                                           inst: Json, a: Add)
    requires Grounded(g) && Resolved(g) && l.Combination? && Lower(g, LogicIds(l), bound) && i <= |l.subs|
    requires CountsSo(g, l.kind, l.subs, inst, i, count)
    ensures a in CombinationFrom(g, l, bound, i, count, ptr, inst).adds <==>
      exists k: nat :: i <= k < |l.subs| && Reaches(g, l.kind, l.subs, inst, k)
        && Gives(g, Site(l.subs[k], ptr, inst), a)
    decreases |l.subs| - i
  {
    hide Validate, Then, CompletionErrors, Completes, CombinationFrom, LogicIds, Grounded, Lower, Reaches, Takes,
        Gives, Resolved;
    if i < |l.subs| {
      CombinationUnfold(g, l, bound, i, count, ptr, inst);
      PassesIfTakes(g, l.subs[i], ptr, inst);
      CountsOn(g, l.kind, l.subs, inst, i, count);
      var r := Validate(g, l.subs[i], ptr, inst);
      var count' := if r.errors == [] then count + 1 else count;
      var rest := if Completes(l.kind, r.errors != [], count') then Nothing
        else CombinationFrom(g, l, bound, i + 1, count', ptr, inst);
      ThenAdds(Report(CompletionErrors(l.kind, r.errors, count', ptr, inst), r.adds), rest, a);
      assert a in r.adds <==> Gives(g, Site(l.subs[i], ptr, inst), a) by { GivesMeans(g, l.subs[i], ptr, inst, a); }
      if !Completes(l.kind, r.errors != [], count') {
        CombinationAdds(g, l, bound, i + 1, count', ptr, inst, a);
      }
    } else {
      CombinationStops(g, l, bound, count, ptr, inst);
    }
  }

  lemma GivesMeans(g: Graph, id: Id, ptr: Pointer, inst: Json, a: Add)
    requires Grounded(g) && id in g.nodes
    ensures a in Validate(g, id, ptr, inst).adds <==> Gives(g, Site(id, ptr, inst), a)
  {
    hide Validate;
  }

  lemma CombinationStops(g: Graph, l: Logic, bound: nat, count: nat, ptr: Pointer, inst: Json)
    requires Grounded(g) && l.Combination? && Lower(g, LogicIds(l), bound)
    ensures CombinationFrom(g, l, bound, |l.subs|, count, ptr, inst).adds == []
  {
    hide LogicIds;
  }

  ghost predicate LogicGives(g: Graph, l: Logic, ptr: Pointer, inst: Json, a: Add)
    requires Grounded(g)
  {
    exists id: Id :: LogicRuns(g, l, inst, id, Every) && Gives(g, Site(id, ptr, inst), a)
  }

  lemma LogicAdds(g: Graph, l: Logic, bound: nat, ptr: Pointer, inst: Json, a: Add)
    requires Grounded(g) && Resolved(g) && Lower(g, LogicIds(l), bound)
    ensures a in LogicReport(g, l, bound, ptr, inst).adds <==> LogicGives(g, l, ptr, inst, a)
  {
    hide Validate, CombinationFrom, Gives, Grounded, Resolved, Reaches;
    match l
    case Not(sub) =>
      GivesMeans(g, sub, ptr, inst, a);
      assert LogicRuns(g, l, inst, sub, Every);
    case Combination(kind, subs) =>
      NoneCounted(g, kind, subs, inst);
      CombinationAdds(g, l, bound, 0, 0, ptr, inst, a);
      if k: nat :| k < |subs| && Reaches(g, kind, subs, inst, k) && Gives(g, Site(subs[k], ptr, inst), a) {
        assert LogicRuns(g, l, inst, subs[k], Every);
      }
  }

  lemma NoneCounted(g: Graph, kind: CombinationKind, subs: seq<Id>, inst: Json)
    requires Grounded(g)
    ensures CountsSo(g, kind, subs, inst, 0, 0)
  {
  }

  lemma {:induction false} LogicListAdds(g: Graph, t: TypeSchema, bound: nat, i: nat, ptr: Pointer, inst: Json, a: Add)
    requires Grounded(g) && Resolved(g) && Fits(g, t, bound) && i <= |t.logic|
    ensures a in LogicFrom(g, t, bound, i, ptr, inst).adds <==>
      exists k: nat :: i <= k < |t.logic| && LogicGives(g, t.logic[k], ptr, inst, a)
    decreases |t.logic| - i
  {
    hide Validate, Then, LogicReport, LogicGives, InPlace, LogicIds, Grounded, Resolved;
    if i < |t.logic| {
      LogicLower(g, t, bound, i);
      LogicAdds(g, t.logic[i], bound, ptr, inst, a);
      LogicListAdds(g, t, bound, i + 1, ptr, inst, a);
      ThenAdds(LogicReport(g, t.logic[i], bound, ptr, inst), LogicFrom(g, t, bound, i + 1, ptr, inst), a);
    }
  }

  lemma ConditionalAdds(g: Graph, t: TypeSchema, bound: nat, ptr: Pointer, inst: Json, a: Add)
    requires Grounded(g) && Resolved(g) && Fits(g, t, bound)
    ensures a in ConditionalReport(g, t, bound, ptr, inst).adds <==>
      exists id: Id :: ConditionalRuns(g, t, inst, id, Every) && Gives(g, Site(id, ptr, inst), a)
  {
    hide Validate, Then, Gives, Takes, Resolved, Grounded;
    if t.ifSchema.Some? {
      assert t.ifSchema.value in InPlace(Type(t));
      var condition := Validate(g, t.ifSchema.value, ptr, inst);
      PassesIfTakes(g, t.ifSchema.value, ptr, inst);
      GivesMeans(g, t.ifSchema.value, ptr, inst, a);
      assert ConditionalRuns(g, t, inst, t.ifSchema.value, Every);
      var chosen := if condition.errors == [] then t.thenSchema else t.elseSchema;
      if chosen.Some? {
        assert chosen.value in InPlace(Type(t));
        GivesMeans(g, chosen.value, ptr, inst, a);
        assert ConditionalRuns(g, t, inst, chosen.value, Every);
        ThenAdds(Report([], condition.adds), Validate(g, chosen.value, ptr, inst), a);
      } else {
        ThenAdds(Report([], condition.adds), Nothing, a);
      }
    }
  }

  ghost predicate MemberGives(g: Graph, o: ObjectSchema, ptr: Pointer, m: Member, a: Add)
    requires Grounded(g)
  {
    exists n :: MemberRuns(g, o, ptr, m, n, Every) && Gives(g, n, a)
  }

  lemma NameAdds(g: Graph, o: ObjectSchema, bound: nat, i: nat, ptr: Pointer, inst: Json, a: Add)
    requires Grounded(g) && ObjectFits(g, o, bound) && inst.Obj? && i < |inst.members|
    ensures a in NameReport(g, o, bound, i, ptr, inst).adds <==>
      o.propertyNames.Some? && Gives(g, Site(o.propertyNames.value, ptr, Str(inst.members[i].key)), a)
  {
    hide Validate, Grounded;
  }

  lemma KnownAdds(g: Graph, o: ObjectSchema, bound: nat, i: nat, ptr: Pointer, inst: Json, a: Add)
    requires Grounded(g) && ObjectFits(g, o, bound) && inst.Obj? && i < |inst.members|
    ensures var m := inst.members[i];
      a in KnownReport(g, o, bound, i, ptr, inst).adds <==>
        exists id: Id :: IsProperty(o.properties, m.key, id) && Gives(g, Site(id, ptr + [Key(m.key)], m.value), a)
  {
    hide Validate, Grounded, FindProperty, Gives, ObjectFits;
    var m := inst.members[i];
    PropertyFound(o.properties, m.key);
    var known := FindProperty(o.properties, m.key);
    if known.Some? {
      KnownInGraph(g, o, bound, known.value);
      GivesMeans(g, known.value, ptr + [Key(m.key)], m.value, a);
    }
  }

  lemma KnownInGraph(g: Graph, o: ObjectSchema, bound: nat, id: Id)
    requires Grounded(g) && ObjectFits(g, o, bound)
    ensures id in PropertyIds(o.properties) || id in PropertyIds(o.patternProperties) ==> id in g.nodes
    ensures o.propertyNames == Some(id) || o.additionalProperties == Some(id) ==> id in g.nodes
  {
    hide Grounded;
  }

  lemma PropertyFound(ps: seq<Property>, name: string)
    ensures forall id: Id :: IsProperty(ps, name, id) <==> FindProperty(ps, name) == Some(id)
  {
    var found := FindProperty(ps, name);
    if found.Some? {
      var k := PropertyAt(ps, name);
      forall id: Id
        ensures IsProperty(ps, name, id) <==> found == Some(id)
      {
        if IsProperty(ps, name, id) {
          var l :| 0 <= l < |ps| && ps[l] == Property(name, id) && forall i :: 0 <= i < l ==> ps[i].name != name;
          assert l == k;
        }
      }
    }
  }

  ghost predicate PatternGives(g: Graph, p: Property, ptr: Pointer, m: Member, a: Add)
    requires Grounded(g)
  {
    g.matches(m.key, p.name) && Gives(g, Site(p.schema, ptr + [Key(m.key)], m.value), a)
  }

  lemma PatternAdds(g: Graph, o: ObjectSchema, bound: nat, i: nat, j: nat, ptr: Pointer, inst: Json, a: Add)
    requires Grounded(g) && ObjectFits(g, o, bound) && inst.Obj? && i < |inst.members| && j < |o.patternProperties|
    ensures a in PatternReport(g, o, bound, i, j, ptr, inst).adds <==>
      PatternGives(g, o.patternProperties[j], ptr, inst.members[i], a)
  {
    hide Validate, Grounded;
    assert o.patternProperties[j].schema in PropertyIds(o.patternProperties);
  }

  lemma {:induction false} PatternsAdds(g: Graph, o: ObjectSchema, bound: nat, i: nat, j: nat, ptr: Pointer,
                                        inst: Json, a: Add)
    requires Grounded(g) && ObjectFits(g, o, bound) && inst.Obj? && i < |inst.members| && j <= |o.patternProperties|
    ensures a in PatternsFrom(g, o, bound, i, j, ptr, inst).adds <==>
      exists k: nat :: j <= k < |o.patternProperties|
        && PatternGives(g, o.patternProperties[k], ptr, inst.members[i], a)
    decreases |o.patternProperties| - j
  {
    hide Validate, Grounded, PatternReport, Then, PatternGives, ObjectFits;
    if j < |o.patternProperties| {
      PatternAdds(g, o, bound, i, j, ptr, inst, a);
      PatternsAdds(g, o, bound, i, j + 1, ptr, inst, a);
      ThenAdds(PatternReport(g, o, bound, i, j, ptr, inst), PatternsFrom(g, o, bound, i, j + 1, ptr, inst), a);
    }
  }

  lemma AdditionalAdds(g: Graph, o: ObjectSchema, bound: nat, i: nat, ptr: Pointer, inst: Json, a: Add)
    requires Grounded(g) && ObjectFits(g, o, bound) && inst.Obj? && i < |inst.members|
    ensures var m := inst.members[i];
      a in AdditionalReport(g, o, bound, i, ptr, inst).adds <==>
        o.additionalProperties.Some? && Unlisted(g, o, m.key)
        && Gives(g, Site(o.additionalProperties.value, ptr + [Key(m.key)], m.value), a)
  {
    hide Validate, Grounded, TakesAdditional;
    TakesAdditionalMeans(g, o, inst.members[i].key);
  }

  lemma MemberAdds(g: Graph, o: ObjectSchema, bound: nat, i: nat, ptr: Pointer, inst: Json, a: Add)
    requires Grounded(g) && ObjectFits(g, o, bound) && inst.Obj? && i < |inst.members|
    ensures a in MemberReport(g, o, bound, i, ptr, inst).adds <==> MemberGives(g, o, ptr, inst.members[i], a)
  {
    hide Then, NameReport, KnownReport, PatternsFrom, AdditionalReport, Gives, PatternGives, Grounded, ObjectFits,
        Unlisted, IsProperty;
    var m := inst.members[i];
    var r1, r2 := NameReport(g, o, bound, i, ptr, inst), KnownReport(g, o, bound, i, ptr, inst);
    var r3, r4 := PatternsFrom(g, o, bound, i, 0, ptr, inst), AdditionalReport(g, o, bound, i, ptr, inst);
    ThenAdds(r1, Then(r2, Then(r3, r4)), a);
    ThenAdds(r2, Then(r3, r4), a);
    ThenAdds(r3, r4, a);
    NameAdds(g, o, bound, i, ptr, inst, a);
    KnownAdds(g, o, bound, i, ptr, inst, a);
    PatternsAdds(g, o, bound, i, 0, ptr, inst, a);
    AdditionalAdds(g, o, bound, i, ptr, inst, a);
    MemberGivesIff(g, o, ptr, m, a);
  }

  /** The four kinds of schemas that are run for a member. */
  lemma MemberGivesIff(g: Graph, o: ObjectSchema, ptr: Pointer, m: Member, a: Add)
    requires Grounded(g)
    ensures var below := ptr + [Key(m.key)];
      MemberGives(g, o, ptr, m, a) <==>
        || (o.propertyNames.Some? && Gives(g, Site(o.propertyNames.value, ptr, Str(m.key)), a))
        || (exists id: Id :: IsProperty(o.properties, m.key, id) && Gives(g, Site(id, below, m.value), a))
        || (exists k: nat :: k < |o.patternProperties| && PatternGives(g, o.patternProperties[k], ptr, m, a))
        || (o.additionalProperties.Some? && Unlisted(g, o, m.key)
              && Gives(g, Site(o.additionalProperties.value, below, m.value), a))
  {
    hide Gives, Grounded, Unlisted, IsProperty;
    var below := ptr + [Key(m.key)];
    if o.propertyNames.Some? {
      assert MemberRuns(g, o, ptr, m, Site(o.propertyNames.value, ptr, Str(m.key)), Every);
    }
    forall id: Id | ValueRuns(g, o, m.key, id, Every)
      ensures MemberRuns(g, o, ptr, m, Site(id, below, m.value), Every)
    {
    }
    if k: nat :| k < |o.patternProperties| && PatternGives(g, o.patternProperties[k], ptr, m, a) {
      assert IsPattern(g, o.patternProperties, m.key, o.patternProperties[k].schema);
      assert ValueRuns(g, o, m.key, o.patternProperties[k].schema, Every);
    }
    if o.additionalProperties.Some? && Unlisted(g, o, m.key) {
      assert ValueRuns(g, o, m.key, o.additionalProperties.value, Every);
    }
    if id: Id :| IsProperty(o.properties, m.key, id) && Gives(g, Site(id, below, m.value), a) {
      assert ValueRuns(g, o, m.key, id, Every);
    }
    if n :| MemberRuns(g, o, ptr, m, n, Every) && Gives(g, n, a) {
      assert n == Site(n.id, n.ptr, n.inst);
      if n.ptr == below && n.inst == m.value && IsPattern(g, o.patternProperties, m.key, n.id) {
        var k :| 0 <= k < |o.patternProperties| && o.patternProperties[k].schema == n.id
          && g.matches(m.key, o.patternProperties[k].name);
      }
    }
  }

  lemma {:induction false} MembersAdds(g: Graph, o: ObjectSchema, bound: nat, i: nat, ptr: Pointer, inst: Json, a: Add)
    requires Grounded(g) && ObjectFits(g, o, bound) && inst.Obj? && i <= |inst.members|
    ensures a in MembersFrom(g, o, bound, i, ptr, inst).adds <==>
      exists k: nat :: i <= k < |inst.members| && MemberGives(g, o, ptr, inst.members[k], a)
    decreases |inst.members| - i
  {
    hide MemberReport, Then, MemberGives, Grounded, ObjectFits;
    if i < |inst.members| {
      MemberAdds(g, o, bound, i, ptr, inst, a);
      MembersAdds(g, o, bound, i + 1, ptr, inst, a);
      ThenAdds(MemberReport(g, o, bound, i, ptr, inst), MembersFrom(g, o, bound, i + 1, ptr, inst), a);
    }
  }

  ghost predicate DependencyGives(g: Graph, d: Dependency, ptr: Pointer, inst: Json, a: Add)
    requires Grounded(g) && inst.Obj?
  {
    exists n :: DependencyRuns(d, ptr, inst, n, Every) && Gives(g, n, a)
  }

  lemma DependencyAdds(g: Graph, o: ObjectSchema, bound: nat, j: nat, ptr: Pointer, inst: Json, a: Add)
    requires Grounded(g) && ObjectFits(g, o, bound) && inst.Obj? && j < |o.dependencies|
    ensures a in DependencyReport(g, o, bound, j, ptr, inst).adds <==>
      DependencyGives(g, o.dependencies[j], ptr, inst, a)
  {
    hide Validate, RequiredFrom, Grounded, Gives;
    var d := o.dependencies[j];
    match d.rule
    case Needs(names) => RequiredAddsNothing(names, 0, ptr + [Key(d.name)], inst, true);
    case Satisfies(id) =>
      assert id in RuleIds(o.dependencies[j].rule);
      var n := Site(id, ptr + [Key(d.name)], inst);
      GivesMeans(g, id, n.ptr, inst, a);
      assert HasMember(inst, d.name) ==> DependencyRuns(d, ptr, inst, n, Every);
      assert forall n' :: DependencyRuns(d, ptr, inst, n', Every) ==> n' == n;
  }

  lemma {:induction false} DependenciesAdds(g: Graph, o: ObjectSchema, bound: nat, j: nat, ptr: Pointer, inst: Json,
                                            a: Add)
    requires Grounded(g) && ObjectFits(g, o, bound) && inst.Obj? && j <= |o.dependencies|
    ensures a in DependenciesFrom(g, o, bound, j, ptr, inst).adds <==>
      exists k: nat :: j <= k < |o.dependencies| && DependencyGives(g, o.dependencies[k], ptr, inst, a)
    decreases |o.dependencies| - j
  {
    hide DependencyReport, Then, DependencyGives, Grounded, ObjectFits;
    if j < |o.dependencies| {
      DependencyAdds(g, o, bound, j, ptr, inst, a);
      DependenciesAdds(g, o, bound, j + 1, ptr, inst, a);
      ThenAdds(DependencyReport(g, o, bound, j, ptr, inst), DependenciesFrom(g, o, bound, j + 1, ptr, inst), a);
    }
  }

  ghost predicate ObjectGives(g: Graph, o: ObjectSchema, ptr: Pointer, inst: Json, a: Add)
    requires Grounded(g) && inst.Obj?
  {
    exists n :: ObjectRuns(g, o, ptr, inst, n, Every) && Gives(g, n, a)
  }

  lemma ObjectAdds(g: Graph, o: ObjectSchema, bound: nat, ptr: Pointer, inst: Json, a: Add)
    requires Grounded(g) && ObjectFits(g, o, bound) && inst.Obj?
    ensures a in ObjectReport(g, o, bound, ptr, inst).adds <==>
      DefaultHere(g, o.properties, ptr, inst, a) || ObjectGives(g, o, ptr, inst, a)
  {
    hide ChecksFrom, RequiredFrom, MembersFrom, DefaultsFrom, DependenciesFrom, Then, Grounded, MemberGives,
        DependencyGives, DefaultFor, ObjectGives;
    var r0 := ChecksFrom(PropertyCountChecks(o, |inst.members|), 0, ptr, inst);
    var r1, r2 := RequiredFrom(o.required, 0, ptr, inst, false), MembersFrom(g, o, bound, 0, ptr, inst);
    var r3, r4 := DefaultsFrom(g, o.properties, 0, ptr, inst), DependenciesFrom(g, o, bound, 0, ptr, inst);
    ChecksAddNothing(PropertyCountChecks(o, |inst.members|), 0, ptr, inst);
    RequiredAddsNothing(o.required, 0, ptr, inst, false);
    MembersAdds(g, o, bound, 0, ptr, inst, a);
    DefaultsAdds(g, o.properties, 0, ptr, inst, a);
    DependenciesAdds(g, o, bound, 0, ptr, inst, a);
    ThenAdds(r3, r4, a);
    ThenAdds(r2, Then(r3, r4), a);
    ThenAdds(r1, Then(r2, Then(r3, r4)), a);
    ThenAdds(r0, Then(r1, Then(r2, Then(r3, r4))), a);
    ObjectGivesIff(g, o, ptr, inst, a);
  }

  lemma ObjectGivesIff(g: Graph, o: ObjectSchema, ptr: Pointer, inst: Json, a: Add)
    requires Grounded(g) && inst.Obj?
    ensures ObjectGives(g, o, ptr, inst, a) <==>
      || (exists i: nat :: i < |inst.members| && MemberGives(g, o, ptr, inst.members[i], a))
      || (exists j: nat :: j < |o.dependencies| && DependencyGives(g, o.dependencies[j], ptr, inst, a))
  {
    hide Gives, Grounded, MemberRuns, DependencyRuns;
    if n :| ObjectRuns(g, o, ptr, inst, n, Every) && Gives(g, n, a) {
      if i: nat :| i < |inst.members| && MemberRuns(g, o, ptr, inst.members[i], n, Every) {
        assert MemberGives(g, o, ptr, inst.members[i], a);
      } else {
        var j: nat :| j < |o.dependencies| && DependencyRuns(o.dependencies[j], ptr, inst, n, Every);
        assert DependencyGives(g, o.dependencies[j], ptr, inst, a);
      }
    }
    if i: nat :| i < |inst.members| && MemberGives(g, o, ptr, inst.members[i], a) {
      var n :| MemberRuns(g, o, ptr, inst.members[i], n, Every) && Gives(g, n, a);
      assert ObjectRuns(g, o, ptr, inst, n, Every);
    }
    if j: nat :| j < |o.dependencies| && DependencyGives(g, o.dependencies[j], ptr, inst, a) {
      var n :| DependencyRuns(o.dependencies[j], ptr, inst, n, Every) && Gives(g, n, a);
      assert ObjectRuns(g, o, ptr, inst, n, Every);
    }
  }

  lemma {:induction false} ItemsAdds(g: Graph, a: ArraySchema, bound: nat, i: nat, ptr: Pointer, inst: Json, add: Add)
    requires Grounded(g) && ArrayIds(a) <= g.nodes.Keys && inst.Arr? && i <= |inst.items| && a.itemsSchema.Some?
    ensures add in ItemsFrom(g, a, bound, i, ptr, inst).adds <==>
      exists k: nat :: i <= k < |inst.items| && ItemGives(g, a, ptr, inst, k, add)
    decreases |inst.items| - i
  {
    hide Validate, Then, Gives, Grounded, ArrayIds;
    if i < |inst.items| {
      var id := a.itemsSchema.value;
      assert id in ArrayIds(a) by { InItems(a); }
      ItemsAdds(g, a, bound, i + 1, ptr, inst, add);
      GivesMeans(g, id, ptr + [Index(i)], inst.items[i], add);
      ThenAdds(Validate(g, id, ptr + [Index(i)], inst.items[i]), ItemsFrom(g, a, bound, i + 1, ptr, inst), add);
      assert ItemGives(g, a, ptr, inst, i, add) <==> add in Validate(g, id, ptr + [Index(i)], inst.items[i]).adds;
    }
  }

  lemma InItems(a: ArraySchema)
    ensures a.itemsSchema.Some? ==> a.itemsSchema.value in ArrayIds(a)
    ensures a.additionalItems.Some? ==> a.additionalItems.value in ArrayIds(a)
    ensures a.contains.Some? ==> a.contains.value in ArrayIds(a)
    ensures forall i :: 0 <= i < |a.items| ==> a.items[i] in ArrayIds(a)
  {
  }

  /** The schema of the item, if it has one, makes the add. */
  ghost predicate ItemGives(g: Graph, a: ArraySchema, ptr: Pointer, inst: Json, i: nat, add: Add)
    requires Grounded(g) && inst.Arr? && i < |inst.items|
  {
    if a.itemsSchema.Some? then Gives(g, Site(a.itemsSchema.value, ptr + [Index(i)], inst.items[i]), add)
    else if i < |a.items| then Gives(g, Site(a.items[i], ptr + [Index(0)], inst.items[i]), add)
    else a.additionalItems.Some? && Gives(g, Site(a.additionalItems.value, ptr + [Index(0)], inst.items[i]), add)
  }

  lemma {:induction false} TupleAdds(g: Graph, a: ArraySchema, bound: nat, i: nat, ptr: Pointer, inst: Json, add: Add)
    requires Grounded(g) && ArrayIds(a) <= g.nodes.Keys && inst.Arr? && i <= |inst.items| && a.itemsSchema.None?
    ensures add in TupleFrom(g, a, bound, i, ptr, inst).adds <==>
      exists k: nat :: i <= k < |inst.items| && ItemGives(g, a, ptr, inst, k, add)
    decreases |inst.items| - i
  {
    hide Validate, Then, Gives, Grounded, ArrayIds;
    if i < |inst.items| && TupleValidator(a, i).Some? {
      InItems(a);
      var id := TupleValidator(a, i).value;
      TupleAdds(g, a, bound, i + 1, ptr, inst, add);
      GivesMeans(g, id, ptr + [Index(0)], inst.items[i], add);
      ThenAdds(Validate(g, id, ptr + [Index(0)], inst.items[i]), TupleFrom(g, a, bound, i + 1, ptr, inst), add);
      assert ItemGives(g, a, ptr, inst, i, add) <==> add in Validate(g, id, ptr + [Index(0)], inst.items[i]).adds;
    }
  }

  /** The items before `i` are not accepted. */
  ghost predicate SearchesOn(g: Graph, id: Id, inst: Json, i: nat)
    requires Grounded(g) && inst.Arr? && i <= |inst.items|
  {
    forall k :: 0 <= k < i ==> !Takes(g, id, inst.items[k])
  }

  ghost predicate SearchGives(g: Graph, id: Id, ptr: Pointer, inst: Json, i: nat, add: Add)
    requires Grounded(g) && inst.Arr? && i < |inst.items|
  {
    SearchesOn(g, id, inst, i) && Gives(g, Site(id, ptr, inst.items[i]), add)
  }

  lemma {:induction false} ContainsAdds(g: Graph, a: ArraySchema, bound: nat, i: nat, ptr: Pointer, inst: Json,
                                        add: Add)
    requires Grounded(g) && Resolved(g) && ArrayIds(a) <= g.nodes.Keys && inst.Arr? && i <= |inst.items|
    requires a.contains.Some? && SearchesOn(g, a.contains.value, inst, i)
    ensures add in ContainsFrom(g, a, bound, i, ptr, inst).adds <==>
      exists k: nat :: i <= k < |inst.items| && SearchGives(g, a.contains.value, ptr, inst, k, add)
    decreases |inst.items| - i
  {
    hide Validate, Then, Gives, Grounded, Resolved, ArrayIds, Takes;
    if i < |inst.items| {
      var id := a.contains.value;
      InItems(a);
      var r := Validate(g, id, ptr, inst.items[i]);
      PassesIfTakes(g, id, ptr, inst.items[i]);
      GivesMeans(g, id, ptr, inst.items[i], add);
      ThenAdds(Report([], r.adds), if r.errors == [] then Nothing
               else ContainsFrom(g, a, bound, i + 1, ptr, inst), add);
      assert SearchGives(g, id, ptr, inst, i, add) <==> add in r.adds;
      if r.errors != [] {
        ContainsAdds(g, a, bound, i + 1, ptr, inst, add);
      } else {
        assert forall k: nat :: i < k < |inst.items| ==> !SearchGives(g, id, ptr, inst, k, add);
      }
    }
  }

  ghost predicate ArrayGives(g: Graph, a: ArraySchema, ptr: Pointer, inst: Json, add: Add)
    requires Grounded(g) && inst.Arr?
  {
    exists n :: ArrayRuns(g, a, ptr, inst, n, Every) && Gives(g, n, add)
  }

  lemma ArrayAdds(g: Graph, a: ArraySchema, bound: nat, ptr: Pointer, inst: Json, add: Add)
    requires Grounded(g) && Resolved(g) && ArrayIds(a) <= g.nodes.Keys && inst.Arr?
    ensures add in ArrayReport(g, a, bound, ptr, inst).adds <==> ArrayGives(g, a, ptr, inst, add)
  {
    hide ChecksFrom, UniqueFrom, ItemsFrom, TupleFrom, ContainsFrom, Then, Grounded, Resolved, Gives, ArrayGives,
        ArrayIds, ItemGives, Takes;
    var r0 := ChecksFrom(ItemCountChecks(a, |inst.items|), 0, ptr, inst);
    var r1 := if a.uniqueItems then UniqueFrom(0, ptr, inst) else Nothing;
    var r2 := if a.itemsSchema.Some? then ItemsFrom(g, a, bound, 0, ptr, inst)
      else TupleFrom(g, a, bound, 0, ptr, inst);
    var r3 := if a.contains.Some? then ContainsFrom(g, a, bound, 0, ptr, inst) else Nothing;
    ChecksAddNothing(ItemCountChecks(a, |inst.items|), 0, ptr, inst);
    UniqueAddsNothing(0, ptr, inst);
    if a.itemsSchema.Some? {
      ItemsAdds(g, a, bound, 0, ptr, inst, add);
    } else {
      TupleAdds(g, a, bound, 0, ptr, inst, add);
    }
    if a.contains.Some? {
      ContainsAdds(g, a, bound, 0, ptr, inst, add);
    }
    ThenAdds(r2, r3, add);
    ThenAdds(r1, Then(r2, r3), add);
    ThenAdds(r0, Then(r1, Then(r2, r3)), add);
    ArrayGivesIff(g, a, ptr, inst, add);
  }

  lemma ArrayGivesIff(g: Graph, a: ArraySchema, ptr: Pointer, inst: Json, add: Add)
    requires Grounded(g) && inst.Arr?
    ensures ArrayGives(g, a, ptr, inst, add) <==>
      || (exists i: nat :: i < |inst.items| && ItemGives(g, a, ptr, inst, i, add))
      || (a.contains.Some? && exists i: nat :: i < |inst.items| && SearchGives(g, a.contains.value, ptr, inst, i, add))
  {
    hide Gives, Grounded, Takes;
    if n :| ArrayRuns(g, a, ptr, inst, n, Every) && Gives(g, n, add) {
      var i: nat :| i < |inst.items| && ItemRuns(g, a, ptr, inst, i, n, Every);
      assert n == Site(n.id, n.ptr, n.inst);
      if IsItemSchema(a, i, n.id) && n.ptr == ptr + [Index(if a.itemsSchema.Some? then i else 0)] {
        assert ItemGives(g, a, ptr, inst, i, add);
      } else {
        assert SearchGives(g, n.id, ptr, inst, i, add);
      }
    }
    if i: nat :| i < |inst.items| && ItemGives(g, a, ptr, inst, i, add) {
      var id := if a.itemsSchema.Some? then a.itemsSchema.value
        else if i < |a.items| then a.items[i] else a.additionalItems.value;
      var n := Site(id, ptr + [Index(if a.itemsSchema.Some? then i else 0)], inst.items[i]);
      assert ItemRuns(g, a, ptr, inst, i, n, Every);
      assert ArrayRuns(g, a, ptr, inst, n, Every);
    }
    if i: nat :| a.contains.Some? && i < |inst.items| && SearchGives(g, a.contains.value, ptr, inst, i, add) {
      var n := Site(a.contains.value, ptr, inst.items[i]);
      assert ItemRuns(g, a, ptr, inst, i, n, Every);
      assert ArrayRuns(g, a, ptr, inst, n, Every);
    }
  }

  ghost predicate TypeGives(g: Graph, t: TypeSchema, ptr: Pointer, inst: Json, a: Add)
    requires Grounded(g)
  {
    exists n :: TypeRuns(g, t, ptr, inst, n, Every) && Gives(g, n, a)
  }

  ghost predicate InPlaceGives(g: Graph, t: TypeSchema, ptr: Pointer, inst: Json, a: Add)
    requires Grounded(g)
  {
    exists id: Id :: InPlaceRuns(g, t, inst, id, Every) && Gives(g, Site(id, ptr, inst), a)
  }

  ghost predicate ConditionalGives(g: Graph, t: TypeSchema, ptr: Pointer, inst: Json, a: Add)
    requires Grounded(g)
  {
    exists id: Id :: ConditionalRuns(g, t, inst, id, Every) && Gives(g, Site(id, ptr, inst), a)
  }

  lemma InPlaceGivesIff(g: Graph, t: TypeSchema, ptr: Pointer, inst: Json, a: Add)
    requires Grounded(g)
    ensures InPlaceGives(g, t, ptr, inst, a) <==>
      || (exists k: nat :: k < |t.logic| && LogicGives(g, t.logic[k], ptr, inst, a))
      || ConditionalGives(g, t, ptr, inst, a)
  {
    hide Gives, Grounded, LogicRuns, ConditionalRuns;
    if id: Id :| InPlaceRuns(g, t, inst, id, Every) && Gives(g, Site(id, ptr, inst), a) {
      if !ConditionalRuns(g, t, inst, id, Every) {
        var k: nat :| k < |t.logic| && LogicRuns(g, t.logic[k], inst, id, Every);
        assert LogicGives(g, t.logic[k], ptr, inst, a);
      }
    }
    if k: nat :| k < |t.logic| && LogicGives(g, t.logic[k], ptr, inst, a) {
      var id: Id :| LogicRuns(g, t.logic[k], inst, id, Every) && Gives(g, Site(id, ptr, inst), a);
      assert InPlaceRuns(g, t, inst, id, Every);
    }
    if id: Id :| ConditionalRuns(g, t, inst, id, Every) && Gives(g, Site(id, ptr, inst), a) {
      assert InPlaceRuns(g, t, inst, id, Every);
    }
  }

  lemma TypeGivesIff(g: Graph, t: TypeSchema, ptr: Pointer, inst: Json, a: Add)
    requires Grounded(g)
    ensures TypeGives(g, t, ptr, inst, a) <==>
      || InPlaceGives(g, t, ptr, inst, a)
      || (inst.Obj? && t.objectType.Some? && ObjectGives(g, t.objectType.value, ptr, inst, a))
      || (inst.Arr? && t.arrayType.Some? && ArrayGives(g, t.arrayType.value, ptr, inst, a))
  {
    hide Gives, Grounded, InPlaceRuns, ObjectRuns, ArrayRuns;
    if n :| TypeRuns(g, t, ptr, inst, n, Every) && Gives(g, n, a) {
      assert n == Site(n.id, n.ptr, n.inst);
    }
    if id: Id :| InPlaceRuns(g, t, inst, id, Every) && Gives(g, Site(id, ptr, inst), a) {
      assert TypeRuns(g, t, ptr, inst, Site(id, ptr, inst), Every);
    }
  }

  lemma KindAdds(g: Graph, t: TypeSchema, bound: nat, ptr: Pointer, inst: Json, a: Add)
    requires Grounded(g) && Resolved(g) && Fits(g, t, bound)
    ensures a in KindReport(g, t, bound, ptr, inst).adds <==>
      || (inst.Obj? && t.objectType.Some?
          && (DefaultHere(g, t.objectType.value.properties, ptr, inst, a)
              || ObjectGives(g, t.objectType.value, ptr, inst, a)))
      || (inst.Arr? && t.arrayType.Some? && ArrayGives(g, t.arrayType.value, ptr, inst, a))
  {
    hide Validate, ChecksFrom, ArrayReport, ObjectReport, Grounded, Resolved, DefaultHere, ObjectGives, ArrayGives,
        NumericChecks, TextChecks;
    match inst
    case Int(n) =>
      if t.integerType.Some? {
        ChecksAddNothing(NumericChecks(t.integerType.value, n), 0, ptr, inst);
      }
    case Str(s) =>
      if t.textType.Some? {
        ChecksAddNothing(TextChecks(g, t.textType.value, s), 0, ptr, inst);
      }
    case Arr(_) =>
      if t.arrayType.Some? {
        ArrayAdds(g, t.arrayType.value, bound, ptr, inst, a);
      }
    case Obj(_) =>
      if t.objectType.Some? {
        ObjectAdds(g, t.objectType.value, bound, ptr, inst, a);
      }
    case _ =>
  }

  lemma TypeAdds(g: Graph, t: TypeSchema, bound: nat, ptr: Pointer, inst: Json, a: Add)
    requires Grounded(g) && Resolved(g) && Fits(g, t, bound)
    ensures a in TypeReport(g, t, bound, ptr, inst).adds <==>
      || (inst.Obj? && t.objectType.Some? && DefaultHere(g, t.objectType.value.properties, ptr, inst, a))
      || TypeGives(g, t, ptr, inst, a)
  {
    hide Then, KindReport, ChecksFrom, LogicFrom, ConditionalReport, Grounded, Resolved, Fits, DefaultHere, ObjectGives,
        ArrayGives, InPlaceGives, TypeGives, LogicGives, ConditionalRuns, Gives;
    var r0, r1 := KindReport(g, t, bound, ptr, inst), ChecksFrom(ValueChecks(t, inst), 0, ptr, inst);
    var r2, r3 := LogicFrom(g, t, bound, 0, ptr, inst), ConditionalReport(g, t, bound, ptr, inst);
    KindAdds(g, t, bound, ptr, inst, a);
    ChecksAddNothing(ValueChecks(t, inst), 0, ptr, inst);
    LogicListAdds(g, t, bound, 0, ptr, inst, a);
    ConditionalAdds(g, t, bound, ptr, inst, a);
    ThenAdds(r2, r3, a);
    ThenAdds(r1, Then(r2, r3), a);
    ThenAdds(r0, Then(r1, Then(r2, r3)), a);
    InPlaceGivesIff(g, t, ptr, inst, a);
    TypeGivesIff(g, t, ptr, inst, a);
  }

  /** A schema adds the defaults that it finds missing, and what the schemas add that it runs. */
  lemma SiteAdds(g: Graph, s: Site, a: Add)
    requires Grounded(g) && Resolved(g) && s.id in g.nodes
    ensures a in Validate(g, s.id, s.ptr, s.inst).adds <==>
      OwnAdd(g, s, a) || exists n :: Runs(g, s, n, Every) && Gives(g, n, a)
  {
    hide TypeReport, Grounded, Resolved, Fits, DefaultHere, TypeRuns, Gives;
    NodeFits(g, s.id);
    match g.nodes[s.id]
    case Boolean(_) =>
    case Ref(_, target, _) =>
      TargetInGraph(g, s.id);
      var n := Site(target.value, s.ptr, s.inst);
      GivesMeans(g, n.id, n.ptr, n.inst, a);
      assert Runs(g, s, n, Every);
      assert forall n' :: Runs(g, s, n', Every) ==> n' == n;
    case Type(t) =>
      TypeAdds(g, t, Rank(g)[s.id], s.ptr, s.inst, a);
      GivesInGraph(g, a);
      if n :| TypeRuns(g, t, s.ptr, s.inst, n, Every) && Gives(g, n, a) {
        assert Runs(g, s, n, Every);
      }
  }

  lemma TargetInGraph(g: Graph, id: Id)
    requires Grounded(g) && Resolved(g) && id in g.nodes && g.nodes[id].Ref?
    ensures g.nodes[id].target.Some? && g.nodes[id].target.value in g.nodes
  {
    NodeFits(g, id);
  }

  lemma GivesInGraph(g: Graph, a: Add)
    requires Grounded(g)
    ensures forall n :: Gives(g, n, a) ==> n.id in g.nodes
  {
    hide Validate;
  }

  /** A schema that is run has a smaller instance to do with, or the same one and a lower rank. */
  ghost predicate Lowers(g: Graph, s: Site, n: Site)
    requires Grounded(g) && s.id in g.nodes && n.id in g.nodes
  {
    && (IsContainer(n.inst) ==> IsContainer(s.inst))
    && ((IsContainer(s.inst) && !IsContainer(n.inst)) || n.inst < s.inst
        || (n.inst == s.inst && Rank(g)[n.id] < Rank(g)[s.id]))
  }

  lemma RunsDown(g: Graph, s: Site, n: Site, part: Part)
    requires Grounded(g) && s.id in g.nodes && Runs(g, s, n, part)
    ensures n.id in g.nodes && Lowers(g, s, n)
  {
    hide Grounded, InPlaceRuns, ObjectRuns, ArrayRuns, InPlace, Lowers;
    match g.nodes[s.id]
    case Boolean(_) =>
    case Ref(_, target, _) =>
      assert n.id in InPlace(g.nodes[s.id]) by { TargetInPlace(g.nodes[s.id]); }
      InPlaceDown(g, s, n);
    case Type(t) =>
      if n.ptr == s.ptr && n.inst == s.inst && InPlaceRuns(g, t, s.inst, n.id, part) {
        RunsInPlace(g, t, s.inst, n.id, part);
        InPlaceDown(g, s, n);
      } else if s.inst.Obj? && t.objectType.Some? && ObjectRuns(g, t.objectType.value, s.ptr, s.inst, n, part) {
        ObjectRunsDown(g, t, s, n, part);
      } else {
        ArrayRunsDown(g, t.arrayType.value, s, n, part);
      }
  }

  lemma TargetInPlace(n: Node)
    ensures n.Ref? && n.target.Some? ==> n.target.value in InPlace(n)
  {
  }

  lemma InPlaceDown(g: Graph, s: Site, n: Site)
    requires Grounded(g) && s.id in g.nodes && n.id in g.nodes && n.id in InPlace(g.nodes[s.id]) && n.inst == s.inst
    ensures Lowers(g, s, n)
  {
    hide InPlace;
  }

  lemma ObjectRunsDown(g: Graph, t: TypeSchema, s: Site, n: Site, part: Part)
    requires Grounded(g) && s.id in g.nodes && g.nodes[s.id] == Type(t) && s.inst.Obj? && t.objectType.Some?
    requires n.id in g.nodes && ObjectRuns(g, t.objectType.value, s.ptr, s.inst, n, part)
    ensures Lowers(g, s, n)
  {
    hide Grounded, ValueRuns, InPlace;
    var o := t.objectType.value;
    if j: nat :| j < |o.dependencies| && DependencyRuns(o.dependencies[j], s.ptr, s.inst, n, part) {
      DependencyInPlaceToo(t, j, n.id);
      InPlaceDown(g, s, n);
    }
  }

  lemma DependencyInPlaceToo(t: TypeSchema, j: nat, id: Id)
    requires t.objectType.Some? && j < |t.objectType.value.dependencies|
    requires t.objectType.value.dependencies[j].rule == Satisfies(id)
    ensures id in InPlace(Type(t))
  {
    assert id in RuleIds(t.objectType.value.dependencies[j].rule);
    assert id in DependencyIds(t.objectType.value.dependencies);
  }

  lemma ArrayRunsDown(g: Graph, a: ArraySchema, s: Site, n: Site, part: Part)
    requires Grounded(g) && s.id in g.nodes && n.id in g.nodes && s.inst.Arr?
    requires ArrayRuns(g, a, s.ptr, s.inst, n, part)
    ensures Lowers(g, s, n)
  {
    hide Grounded, IsItemSchema, Takes;
  }

  lemma RunsInPlace(g: Graph, t: TypeSchema, inst: Json, id: Id, part: Part)
    requires Grounded(g) && InPlaceRuns(g, t, inst, id, part)
    ensures id in InPlace(Type(t))
  {
    hide Takes, Reaches, Grounded;
    if i: nat :| i < |t.logic| && LogicRuns(g, t.logic[i], inst, id, part) {
      assert id in LogicIds(t.logic[i]);
    }
  }

  /** In so many steps from one schema to one that it runs, the validation comes from `s` to `n`. */
  ghost predicate Visits(g: Graph, s: Site, n: Site, steps: nat)
    requires Grounded(g) && s.id in g.nodes
    decreases steps
  {
    if steps == 0 then n == s
    else exists m: Site :: m.id in g.nodes && Runs(g, s, m, Every) && Visits(g, m, n, steps - 1)
  }

  lemma {:induction false} VisitedInGraph(g: Graph, s: Site, n: Site, steps: nat)
    requires Grounded(g) && s.id in g.nodes && Visits(g, s, n, steps)
    ensures n.id in g.nodes
    decreases steps
  {
    hide Grounded, Runs;
    if steps > 0 {
      var m: Site :| m.id in g.nodes && Runs(g, s, m, Every) && Visits(g, m, n, steps - 1);
      VisitedInGraph(g, m, n, steps - 1);
    }
  }

  lemma RunsInGraph(g: Graph, s: Site, n: Site, part: Part)
    requires Grounded(g) && s.id in g.nodes && Runs(g, s, n, part)
    ensures n.id in g.nodes
  {
    hide Grounded, TypeRuns;
  }

  /** An add of a site that is visited. */
  ghost predicate Visited(g: Graph, s: Site, a: Add)
    requires Grounded(g) && s.id in g.nodes
  {
    exists n, steps: nat :: Visits(g, s, n, steps) && n.id in g.nodes && OwnAdd(g, n, a)
  }

  /** The patch holds the defaults of the properties that are absent where a schema is run, and nothing else. */
  lemma PatchIsDefaults(g: Graph, s: Site, a: Add)
    requires Grounded(g) && Resolved(g) && s.id in g.nodes
    ensures a in Validate(g, s.id, s.ptr, s.inst).adds <==> Visited(g, s, a)
  {
    hide Validate, Grounded, Resolved, OwnAdd, Visits;
    if a in Validate(g, s.id, s.ptr, s.inst).adds {
      var n, steps := AddIsVisited(g, s, a);
    }
    if n, steps: nat :| Visits(g, s, n, steps) && n.id in g.nodes && OwnAdd(g, n, a) {
      VisitedIsAdd(g, s, n, steps, a);
    }
  }

  lemma {:induction false} AddIsVisited(g: Graph, s: Site, a: Add) returns (n: Site, steps: nat)
    requires Grounded(g) && Resolved(g) && s.id in g.nodes && a in Validate(g, s.id, s.ptr, s.inst).adds
    ensures Visits(g, s, n, steps) && n.id in g.nodes && OwnAdd(g, n, a)
    decreases IsContainer(s.inst), s.inst, Rank(g)[s.id]
  {
    hide Validate, Grounded, Resolved, OwnAdd, Runs;
    SiteAdds(g, s, a);
    if OwnAdd(g, s, a) {
      n, steps := s, 0;
    } else {
      var m :| Runs(g, s, m, Every) && Gives(g, m, a);
      RunsInGraph(g, s, m, Every);
      RunsDown(g, s, m, Every);
      n, steps := AddIsVisited(g, m, a);
      steps := steps + 1;
    }
  }

  lemma {:induction false} VisitedIsAdd(g: Graph, s: Site, n: Site, steps: nat, a: Add)
    requires Grounded(g) && Resolved(g) && s.id in g.nodes && Visits(g, s, n, steps)
    requires n.id in g.nodes && OwnAdd(g, n, a)
    ensures a in Validate(g, s.id, s.ptr, s.inst).adds
    decreases steps
  {
    hide Validate, Grounded, Resolved, OwnAdd, Runs;
    SiteAdds(g, s, a);
    if steps > 0 {
      var m: Site :| m.id in g.nodes && Runs(g, s, m, Every) && Visits(g, m, n, steps - 1);
      VisitedIsAdd(g, m, n, steps - 1, a);
      GivesMeans(g, m.id, m.ptr, m.inst, a);
      assert m == Site(m.id, m.ptr, m.inst);
    }
  }
}
