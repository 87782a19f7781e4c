/**
 The errors of a resolved graph: which keyword of a schema reports what, and which errors a schema
 hands on from those that it runs.
 */
module SchemaErrors {
  import opened Wrappers
  import opened JsonValues
  import opened SchemaGraph
  import opened ValidationReport
  import opened Semantics
  import opened SchemaVisits

  // ------------------------------------------------- what a message says of an instance

  /** An exclusive bound must not be reached, any other not passed. */
  predicate NumberViolates(k: Numeric, n: int, m: Message) {
    match m
    case AboveMaximum(exclusive) =>
      k.maximum.Some? && exclusive == k.exclusiveMaximum
      && if exclusive then n >= k.maximum.value else n > k.maximum.value
    case BelowMinimum(exclusive) =>
      k.minimum.Some? && exclusive == k.exclusiveMinimum
      && if exclusive then n <= k.minimum.value else n < k.minimum.value
    case _ => false
  }

  predicate TextViolates(g: Graph, k: Text, s: string, m: Message) {
    match m
    case TooShort => k.minLength.Some? && Utf8Length(s) < k.minLength.value
    case TooLong => k.maxLength.Some? && Utf8Length(s) > k.maxLength.value
    case ContentCheckFailed => k.content.Some? && !g.contentHolds(k.content.value, s)
    case PatternMismatch => k.pattern.Some? && !g.matches(s, k.pattern.value)
    case FormatCheckFailed => k.format.Some? && !g.formatHolds(k.format.value, s)
    case _ => false
  }

  predicate ValueViolates(t: TypeSchema, inst: Json, m: Message) {
    match m
    case NotInEnum => t.enumeration.Some? && inst !in t.enumeration.value
    case NotConst => t.constant.Some? && inst != t.constant.value
    case _ => false
  }

  predicate PropertyCountViolates(o: ObjectSchema, size: nat, m: Message) {
    match m
    case TooManyProperties => o.maxProperties.Some? && size > o.maxProperties.value
    case TooFewProperties => o.minProperties.Some? && size < o.minProperties.value
    case _ => false
  }

  predicate ItemCountViolates(a: ArraySchema, size: nat, m: Message) {
    match m
    case TooManyItems => a.maxItems.Some? && size > a.maxItems.value
    case TooFewItems => a.minItems.Some? && size < a.minItems.value
    case _ => false
  }

  ghost predicate LogicViolates(g: Graph, l: Logic, inst: Json, m: Message)
    requires Grounded(g)
  {
    match l
    case Not(sub) => m == SubschemaSucceeded && Takes(g, sub, inst)
    case Combination(kind, subs) =>
      match m
      case NoneSucceeded => if kind == AllOf then subs == [] else NoneTakes(g, subs, inst)
      case MoreThanOneSucceeded => kind == OneOf && TwoTake(g, subs, inst)
      case _ => false
  }

  ghost predicate NoneTakes(g: Graph, subs: seq<Id>, inst: Json)
    requires Grounded(g)
  {
    forall k :: 0 <= k < |subs| ==> !Takes(g, subs[k], inst)
  }

  ghost predicate TwoTake(g: Graph, subs: seq<Id>, inst: Json)
    requires Grounded(g)
  {
    exists k, l :: 0 <= k < l < |subs| && Takes(g, subs[k], inst) && Takes(g, subs[l], inst)
  }

  predicate Reports(ptr: Pointer, inst: Json, e: Err) {
    e.ptr == ptr && e.instance == inst
  }

  // ------------------------------------------------------ keywords without schemas

  lemma ThenErrors(x: Report, y: Report, e: Err)
    ensures e in Then(x, y).errors <==> e in x.errors || e in y.errors
  {
  }

  ghost predicate CheckReports(checks: seq<Check>, i: nat, ptr: Pointer, inst: Json, e: Err) {
    exists k: nat :: i <= k < |checks| && checks[k].fails && e == Err(ptr, inst, checks[k].message)
  }

  lemma {:induction false} ChecksErrors(checks: seq<Check>, i: nat, ptr: Pointer, inst: Json, e: Err)
    requires i <= |checks|
    ensures e in ChecksFrom(checks, i, ptr, inst).errors <==> CheckReports(checks, i, ptr, inst, e)
    decreases |checks| - i
  {
    if i < |checks| {
      ChecksErrors(checks, i + 1, ptr, inst, e);
      ThenErrors(ErrorIf(checks[i].fails, ptr, inst, checks[i].message), ChecksFrom(checks, i + 1, ptr, inst), e);
    }
  }

  lemma TwoChecks(checks: seq<Check>, ptr: Pointer, inst: Json, e: Err)
    requires |checks| == 2
    ensures e in ChecksFrom(checks, 0, ptr, inst).errors <==>
      Reports(ptr, inst, e)
      && ((checks[0].fails && e.message == checks[0].message) || (checks[1].fails && e.message == checks[1].message))
  {
    hide ChecksFrom;
    ChecksErrors(checks, 0, ptr, inst, e);
  }

  lemma NumberErrors(k: Numeric, n: int, ptr: Pointer, inst: Json, e: Err)
    ensures e in ChecksFrom(NumericChecks(k, n), 0, ptr, inst).errors <==>
      Reports(ptr, inst, e) && NumberViolates(k, n, e.message)
  {
    hide ChecksFrom, Reports;
    TwoChecks(NumericChecks(k, n), ptr, inst, e);
  }

  lemma TextErrors(g: Graph, k: Text, s: string, ptr: Pointer, inst: Json, e: Err)
    ensures e in ChecksFrom(TextChecks(g, k, s), 0, ptr, inst).errors <==>
      Reports(ptr, inst, e) && TextViolates(g, k, s, e.message)
  {
    hide ChecksFrom, Utf8Length;
    ChecksErrors(TextChecks(g, k, s), 0, ptr, inst, e);
    var checks := TextChecks(g, k, s);
    assert CheckReports(checks, 0, ptr, inst, e) <==>
      (Reports(ptr, inst, e)
       && ((checks[0].fails && e.message == TooShort) || (checks[1].fails && e.message == TooLong)
           || (checks[2].fails && e.message == ContentCheckFailed) || (checks[3].fails && e.message == PatternMismatch)
           || (checks[4].fails && e.message == FormatCheckFailed)));
  }

  lemma ValueErrors(t: TypeSchema, ptr: Pointer, inst: Json, e: Err)
    ensures e in ChecksFrom(ValueChecks(t, inst), 0, ptr, inst).errors <==>
      Reports(ptr, inst, e) && ValueViolates(t, inst, e.message)
  {
    hide ChecksFrom, Reports;
    TwoChecks(ValueChecks(t, inst), ptr, inst, e);
  }

  lemma PropertyCountErrors(o: ObjectSchema, size: nat, ptr: Pointer, inst: Json, e: Err)
    ensures e in ChecksFrom(PropertyCountChecks(o, size), 0, ptr, inst).errors <==>
      Reports(ptr, inst, e) && PropertyCountViolates(o, size, e.message)
  {
    hide ChecksFrom, Reports;
    TwoChecks(PropertyCountChecks(o, size), ptr, inst, e);
  }

  lemma ItemCountErrors(a: ArraySchema, size: nat, ptr: Pointer, inst: Json, e: Err)
    ensures e in ChecksFrom(ItemCountChecks(a, size), 0, ptr, inst).errors <==>
      Reports(ptr, inst, e) && ItemCountViolates(a, size, e.message)
  {
    hide ChecksFrom, Reports;
    TwoChecks(ItemCountChecks(a, size), ptr, inst, e);
  }

  predicate Lacks(names: seq<string>, k: nat, ptr: Pointer, inst: Json, dependency: bool, e: Err)
    requires inst.Obj? && k < |names|
  {
    && !HasMember(inst, names[k]) && Reports(ptr, inst, e)
    && e.message == if dependency then MissingDependency(names[k]) else MissingProperty(names[k])
  }

  lemma {:induction false} RequiredErrors(names: seq<string>, i: nat, ptr: Pointer, inst: Json, dependency: bool,
                                          e: Err)
    requires i <= |names| && inst.Obj?
    ensures e in RequiredFrom(names, i, ptr, inst, dependency).errors <==>
      exists k: nat :: i <= k < |names| && Lacks(names, k, ptr, inst, dependency, e)
    decreases |names| - i
  {
    hide FindMember, Lacks, Then, ErrorIf;
    if i < |names| {
      RequiredErrors(names, i + 1, ptr, inst, dependency, e);
      var message := if dependency then MissingDependency(names[i]) else MissingProperty(names[i]);
      var missing := FindMember(inst.members, names[i]).None?;
      ThenErrors(ErrorIf(missing, ptr, inst, message), RequiredFrom(names, i + 1, ptr, inst, dependency), e);
      LacksMeans(names, i, ptr, inst, dependency, e);
    }
  }

  lemma LacksMeans(names: seq<string>, k: nat, ptr: Pointer, inst: Json, dependency: bool, e: Err)
    requires inst.Obj? && k < |names|
    ensures Lacks(names, k, ptr, inst, dependency, e) <==>
      e in ErrorIf(FindMember(inst.members, names[k]).None?, ptr, inst,
                   if dependency then MissingDependency(names[k]) else MissingProperty(names[k])).errors
  {
  }

  lemma {:induction false} UniqueErrors(i: nat, ptr: Pointer, inst: Json, e: Err)
    requires inst.Arr? && i <= |inst.items|
    ensures e in UniqueFrom(i, ptr, inst).errors <==>
      Reports(ptr, inst, e) && e.message == ItemsNotUnique && Repeats(inst, i)
    decreases |inst.items| - i
  {
    if i < |inst.items| {
      UniqueErrors(i + 1, ptr, inst, e);
      var again := inst.items[i] in inst.items[i + 1..];
      ThenErrors(ErrorIf(again, ptr, inst, ItemsNotUnique), UniqueFrom(i + 1, ptr, inst), e);
      RepeatsStep(inst, i);
    }
  }

  /** Some item from `i` on occurs again later. */
  ghost predicate Repeats(inst: Json, i: nat)
    requires inst.Arr?
  {
    exists k, l :: i <= k < l < |inst.items| && inst.items[k] == inst.items[l]
  }

  lemma RepeatsStep(inst: Json, i: nat)
    requires inst.Arr? && i < |inst.items|
    ensures Repeats(inst, i) <==> inst.items[i] in inst.items[i + 1..] || Repeats(inst, i + 1)
  {
    var rest := inst.items[i + 1..];
    if inst.items[i] in rest {
      var l: nat :| l < |rest| && rest[l] == inst.items[i];
      assert inst.items[i] == inst.items[i + 1 + l];
    }
    if k, l :| i <= k < l < |inst.items| && inst.items[k] == inst.items[l] {
      if k == i {
        assert rest[l - i - 1] == inst.items[i];
      }
    }
  }

  // ------------------------------------------------------------ schemas in place

  ghost predicate Fails(g: Graph, n: Site, e: Err)
    requires Grounded(g)
  {
    n.id in g.nodes && e in Validate(g, n.id, n.ptr, n.inst).errors
  }

  /** The first error of a schema of `allOf`, inside another. */
  ghost predicate FailsFirst(g: Graph, n: Site, e: Err)
    requires Grounded(g)
  {
    && n.id in g.nodes
    && var errors := Validate(g, n.id, n.ptr, n.inst).errors;
       errors != [] && e == Err(errors[0].ptr, errors[0].instance, AllOfFailed(errors[0].message))
  }

  lemma FailsMeans(g: Graph, id: Id, ptr: Pointer, inst: Json, e: Err)
    requires Grounded(g) && id in g.nodes
    ensures e in Validate(g, id, ptr, inst).errors <==> Fails(g, Site(id, ptr, inst), e)
  {
    hide Validate;
  }

  ghost predicate FailsInTurn(g: Graph, subs: seq<Id>, k: nat, ptr: Pointer, inst: Json, e: Err)
    requires Grounded(g) && k < |subs|
  {
    Reaches(g, AllOf, subs, inst, k) && FailsFirst(g, Site(subs[k], ptr, inst), e)
  }

  /** What the loop over subschemas reports from `i` on. */
  ghost predicate CombinationFails(g: Graph, kind: CombinationKind, subs: seq<Id>, i: nat, ptr: Pointer, inst: Json,
                                   e: Err)
    requires Grounded(g)
  {
    || (kind == AllOf && exists k: nat :: i <= k < |subs| && FailsInTurn(g, subs, k, ptr, inst, e))
    || (Reports(ptr, inst, e) && LogicViolates(g, Combination(kind, subs), inst, e.message))
  }

  lemma {:induction false} CombinationErrors(g: Graph, l: Logic, bound: nat, i: nat, count: nat, ptr: Pointer,
                                             inst: Json, e: Err)
    requires Grounded(g) && Resolved(g) && l.Combination? && Lower(g, LogicIds(l), bound) && i <= |l.subs|
    requires CountsSo(g, l.kind, l.subs, inst, i, count)
    ensures e in CombinationFrom(g, l, bound, i, count, ptr, inst).errors <==>
      CombinationFails(g, l.kind, l.subs, i, ptr, inst, e)
    decreases |l.subs| - i
  {
    hide Validate, Then, CombinationFrom, LogicIds, Grounded, Lower, Takes, Fails, Resolved, CountsSo,
        CompletionErrors, Completes, CombinationFails;
    if i < |l.subs| {
      CombinationUnfold(g, l, bound, i, count, ptr, inst);
      PassesIfTakes(g, l.subs[i], ptr, inst);
      CountsOn(g, l.kind, l.subs, inst, i, count);
      var r := Validate(g, l.subs[i], ptr, inst);
      var count' := if r.errors == [] then count + 1 else count;
      var stops := Completes(l.kind, r.errors != [], count');
      var rest := if stops then Nothing else CombinationFrom(g, l, bound, i + 1, count', ptr, inst);
      ThenErrors(Report(CompletionErrors(l.kind, r.errors, count', ptr, inst), r.adds), rest, e);
      if !stops {
        CombinationErrors(g, l, bound, i + 1, count', ptr, inst, e);
      }
      CombinationFailsStep(g, l.kind, l.subs, i, count, ptr, inst, e);
    } else {
      CombinationOver(g, l, bound, count, ptr, inst, e);
    }
  }

  lemma CombinationFailsStep(g: Graph, kind: CombinationKind, subs: seq<Id>, i: nat, count: nat, ptr: Pointer,
                             inst: Json, e: Err)
    requires Grounded(g) && Resolved(g) && i < |subs| && CountsSo(g, kind, subs, inst, i, count) && subs[i] in g.nodes
    ensures var errors := Validate(g, subs[i], ptr, inst).errors;
      var count' := if errors == [] then count + 1 else count;
      CombinationFails(g, kind, subs, i, ptr, inst, e) <==>
        || e in CompletionErrors(kind, errors, count', ptr, inst)
        || (!Completes(kind, errors != [], count') && CombinationFails(g, kind, subs, i + 1, ptr, inst, e))
  {
    hide Validate, Grounded, Takes, Resolved, Reaches;
    PassesIfTakes(g, subs[i], ptr, inst);
    CountsOn(g, kind, subs, inst, i, count);
    var errors := Validate(g, subs[i], ptr, inst).errors;
    if kind == AllOf {
      var n := Site(subs[i], ptr, inst);
      assert Reaches(g, kind, subs, inst, i);
      assert FailsInTurn(g, subs, i, ptr, inst, e) <==> e in CompletionErrors(kind, errors, count, ptr, inst);
      if errors != [] {
        assert forall k: nat :: i < k < |subs| ==> !FailsInTurn(g, subs, k, ptr, inst, e);
      }
    } else {
      TakesDecide(g, kind, subs, inst, i, count);
    }
  }

  /** With the verdict on `subs[i]` a loop is over, or says no more than what the rest says. */
  lemma TakesDecide(g: Graph, kind: CombinationKind, subs: seq<Id>, inst: Json, i: nat, count: nat)
    requires Grounded(g) && i < |subs| && CountsSo(g, kind, subs, inst, i, count) && kind != AllOf
    ensures Takes(g, subs[i], inst) ==> !NoneTakes(g, subs, inst)
    ensures kind == OneOf && Takes(g, subs[i], inst) && count == 1 ==> TwoTake(g, subs, inst)
  {
    hide Takes;
  }

  lemma CombinationOver(g: Graph, l: Logic, bound: nat, count: nat, ptr: Pointer, inst: Json, e: Err)
    requires Grounded(g) && l.Combination? && Lower(g, LogicIds(l), bound)
    requires CountsSo(g, l.kind, l.subs, inst, |l.subs|, count)
    ensures e in CombinationFrom(g, l, bound, |l.subs|, count, ptr, inst).errors <==>
      CombinationFails(g, l.kind, l.subs, |l.subs|, ptr, inst, e)
  {
    hide LogicIds, Validate, Takes, Grounded;
  }

  ghost predicate LogicHands(g: Graph, l: Logic, ptr: Pointer, inst: Json, e: Err)
    requires Grounded(g)
  {
    exists id: Id :: LogicRuns(g, l, inst, id, Wrapped) && FailsFirst(g, Site(id, ptr, inst), e)
  }

  lemma LogicErrors(g: Graph, l: Logic, bound: nat, ptr: Pointer, inst: Json, e: Err)
    requires Grounded(g) && Resolved(g) && Lower(g, LogicIds(l), bound)
    ensures e in LogicReport(g, l, bound, ptr, inst).errors <==>
      LogicHands(g, l, ptr, inst, e) || (Reports(ptr, inst, e) && LogicViolates(g, l, inst, e.message))
  {
    hide Validate, CombinationFrom, FailsFirst, Grounded, Resolved, Reaches, Takes, NoneTakes, TwoTake;
    match l
    case Not(sub) => PassesIfTakes(g, sub, ptr, inst);
    case Combination(kind, subs) =>
      NoneCounted(g, kind, subs, inst);
      CombinationErrors(g, l, bound, 0, 0, ptr, inst, e);
      if kind == AllOf {
        if k: nat :| k < |subs| && FailsInTurn(g, subs, k, ptr, inst, e) {
          assert LogicRuns(g, l, inst, subs[k], Wrapped);
        }
        if id: Id :| LogicRuns(g, l, inst, id, Wrapped) && FailsFirst(g, Site(id, ptr, inst), e) {
          var k: nat :| k < |subs| && subs[k] == id && Reaches(g, kind, subs, inst, k);
          assert FailsInTurn(g, subs, k, ptr, inst, e);
        }
      }
  }

  /** What the list of `not` and combinations reports: own errors, and the first of each `allOf`. */
  ghost predicate LogicFails(g: Graph, l: Logic, ptr: Pointer, inst: Json, e: Err)
    requires Grounded(g)
  {
    LogicHands(g, l, ptr, inst, e) || (Reports(ptr, inst, e) && LogicViolates(g, l, inst, e.message))
  }

  lemma {:induction false} LogicListErrors(g: Graph, t: TypeSchema, bound: nat, i: nat, ptr: Pointer, inst: Json,
                                           e: Err)
    requires Grounded(g) && Resolved(g) && Fits(g, t, bound) && i <= |t.logic|
    ensures e in LogicFrom(g, t, bound, i, ptr, inst).errors <==>
      exists k: nat :: i <= k < |t.logic| && LogicFails(g, t.logic[k], ptr, inst, e)
    decreases |t.logic| - i
  {
    hide Validate, Then, LogicReport, LogicHands, LogicViolates, InPlace, LogicIds, Grounded, Resolved;
    if i < |t.logic| {
      LogicLower(g, t, bound, i);
      LogicErrors(g, t.logic[i], bound, ptr, inst, e);
      LogicListErrors(g, t, bound, i + 1, ptr, inst, e);
      ThenErrors(LogicReport(g, t.logic[i], bound, ptr, inst), LogicFrom(g, t, bound, i + 1, ptr, inst), e);
      assert LogicFails(g, t.logic[i], ptr, inst, e) <==> e in LogicReport(g, t.logic[i], bound, ptr, inst).errors;
    }
  }

  ghost predicate ConditionalHands(g: Graph, t: TypeSchema, ptr: Pointer, inst: Json, e: Err)
    requires Grounded(g)
  {
    exists id: Id :: ConditionalRuns(g, t, inst, id, Handed) && Fails(g, Site(id, ptr, inst), e)
  }

  lemma ConditionalErrors(g: Graph, t: TypeSchema, bound: nat, ptr: Pointer, inst: Json, e: Err)
    requires Grounded(g) && Resolved(g) && Fits(g, t, bound)
    ensures e in ConditionalReport(g, t, bound, ptr, inst).errors <==> ConditionalHands(g, t, ptr, inst, e)
  {
    hide Validate, Then, Fails, Takes, Resolved, Grounded;
    if t.ifSchema.Some? {
      assert t.ifSchema.value in InPlace(Type(t));
      var condition := Validate(g, t.ifSchema.value, ptr, inst);
      PassesIfTakes(g, t.ifSchema.value, ptr, inst);
      var chosen := if condition.errors == [] then t.thenSchema else t.elseSchema;
      if chosen.Some? {
        assert chosen.value in InPlace(Type(t));
        FailsMeans(g, chosen.value, ptr, inst, e);
        assert ConditionalRuns(g, t, inst, chosen.value, Handed);
        ThenErrors(Report([], condition.adds), Validate(g, chosen.value, ptr, inst), e);
      } else {
        ThenErrors(Report([], condition.adds), Nothing, e);
      }
    }
  }

  // -------------------------------------------------------------------- objects

  lemma NameErrors(g: Graph, o: ObjectSchema, bound: nat, i: nat, ptr: Pointer, inst: Json, e: Err)
    requires Grounded(g) && ObjectFits(g, o, bound) && inst.Obj? && i < |inst.members|
    ensures e in NameReport(g, o, bound, i, ptr, inst).errors <==>
      o.propertyNames.Some? && Fails(g, Site(o.propertyNames.value, ptr, Str(inst.members[i].key)), e)
  {
    hide Validate, Grounded;
  }

  lemma KnownErrors(g: Graph, o: ObjectSchema, bound: nat, i: nat, ptr: Pointer, inst: Json, e: Err)
    requires Grounded(g) && ObjectFits(g, o, bound) && inst.Obj? && i < |inst.members|
    ensures var m := inst.members[i];
      e in KnownReport(g, o, bound, i, ptr, inst).errors <==>
        exists id: Id :: IsProperty(o.properties, m.key, id) && Fails(g, Site(id, ptr + [Key(m.key)], m.value), e)
  {
    hide Validate, Grounded, FindProperty, Fails, ObjectFits;
    var m := inst.members[i];
    PropertyFound(o.properties, m.key);
    var known := FindProperty(o.properties, m.key);
    if known.Some? {
      KnownInGraph(g, o, bound, known.value);
      FailsMeans(g, known.value, ptr + [Key(m.key)], m.value, e);
    }
  }

  ghost predicate PatternFails(g: Graph, p: Property, ptr: Pointer, m: Member, e: Err)
    requires Grounded(g)
  {
    g.matches(m.key, p.name) && Fails(g, Site(p.schema, ptr + [Key(m.key)], m.value), e)
  }

  lemma PatternErrors(g: Graph, o: ObjectSchema, bound: nat, i: nat, j: nat, ptr: Pointer, inst: Json, e: Err)
    requires Grounded(g) && ObjectFits(g, o, bound) && inst.Obj? && i < |inst.members| && j < |o.patternProperties|
    ensures e in PatternReport(g, o, bound, i, j, ptr, inst).errors <==>
      PatternFails(g, o.patternProperties[j], ptr, inst.members[i], e)
  {
    hide Validate, Grounded;
    assert o.patternProperties[j].schema in PropertyIds(o.patternProperties);
  }

  lemma {:induction false} PatternsErrors(g: Graph, o: ObjectSchema, bound: nat, i: nat, j: nat, ptr: Pointer,
                                          inst: Json, e: Err)
    requires Grounded(g) && ObjectFits(g, o, bound) && inst.Obj? && i < |inst.members| && j <= |o.patternProperties|
    ensures e in PatternsFrom(g, o, bound, i, j, ptr, inst).errors <==>
      exists k: nat :: j <= k < |o.patternProperties|
        && PatternFails(g, o.patternProperties[k], ptr, inst.members[i], e)
    decreases |o.patternProperties| - j
  {
    hide Validate, Grounded, PatternReport, Then, PatternFails, ObjectFits;
    if j < |o.patternProperties| {
      PatternErrors(g, o, bound, i, j, ptr, inst, e);
      PatternsErrors(g, o, bound, i, j + 1, ptr, inst, e);
      ThenErrors(PatternReport(g, o, bound, i, j, ptr, inst), PatternsFrom(g, o, bound, i, j + 1, ptr, inst), e);
    }
  }

  /** The one error about an additional property names it, and the first error of its schema. */
  ghost predicate AdditionalFails(g: Graph, o: ObjectSchema, ptr: Pointer, inst: Json, m: Member, e: Err)
    requires Grounded(g)
  {
    && o.additionalProperties.Some? && o.additionalProperties.value in g.nodes && Unlisted(g, o, m.key)
    && !Takes(g, o.additionalProperties.value, m.value) && Reports(ptr, inst, e)
    && var errors := Validate(g, o.additionalProperties.value, ptr + [Key(m.key)], m.value).errors;
       errors != [] && e.message == AdditionalPropertyFailed(m.key, errors[0].message)
  }

  lemma AdditionalErrors(g: Graph, o: ObjectSchema, bound: nat, i: nat, ptr: Pointer, inst: Json, e: Err)
    requires Grounded(g) && Resolved(g) && ObjectFits(g, o, bound) && inst.Obj? && i < |inst.members|
    ensures e in AdditionalReport(g, o, bound, i, ptr, inst).errors <==>
      AdditionalFails(g, o, ptr, inst, inst.members[i], e)
  {
    hide Validate, Grounded, Resolved, TakesAdditional, Takes;
    var m := inst.members[i];
    TakesAdditionalMeans(g, o, m.key);
    if o.additionalProperties.Some? {
      PassesIfTakes(g, o.additionalProperties.value, ptr + [Key(m.key)], m.value);
    }
  }

  ghost predicate MemberHands(g: Graph, o: ObjectSchema, ptr: Pointer, m: Member, e: Err)
    requires Grounded(g)
  {
    exists n :: MemberRuns(g, o, ptr, m, n, Handed) && Fails(g, n, e)
  }

  ghost predicate MemberFails(g: Graph, o: ObjectSchema, ptr: Pointer, inst: Json, m: Member, e: Err)
    requires Grounded(g)
  {
    MemberHands(g, o, ptr, m, e) || AdditionalFails(g, o, ptr, inst, m, e)
  }

  lemma MemberErrors(g: Graph, o: ObjectSchema, bound: nat, i: nat, ptr: Pointer, inst: Json, e: Err)
    requires Grounded(g) && Resolved(g) && ObjectFits(g, o, bound) && inst.Obj? && i < |inst.members|
    ensures e in MemberReport(g, o, bound, i, ptr, inst).errors <==>
      MemberFails(g, o, ptr, inst, inst.members[i], e)
  {
    hide Then, NameReport, KnownReport, PatternsFrom, AdditionalReport, Fails, PatternFails, Grounded, Resolved,
        ObjectFits, IsProperty, MemberHands, AdditionalFails;
    var m := inst.members[i];
    var r1, r2 := NameReport(g, o, bound, i, ptr, inst), KnownReport(g, o, bound, i, ptr, inst);
    var r3, r4 := PatternsFrom(g, o, bound, i, 0, ptr, inst), AdditionalReport(g, o, bound, i, ptr, inst);
    ThenErrors(r1, Then(r2, Then(r3, r4)), e);
    ThenErrors(r2, Then(r3, r4), e);
    ThenErrors(r3, r4, e);
    NameErrors(g, o, bound, i, ptr, inst, e);
    KnownErrors(g, o, bound, i, ptr, inst, e);
    PatternsErrors(g, o, bound, i, 0, ptr, inst, e);
    AdditionalErrors(g, o, bound, i, ptr, inst, e);
    MemberHandsIff(g, o, ptr, m, e);
  }

  lemma MemberHandsIff(g: Graph, o: ObjectSchema, ptr: Pointer, m: Member, e: Err)
    requires Grounded(g)
    ensures var below := ptr + [Key(m.key)];
      MemberHands(g, o, ptr, m, e) <==>
        || (o.propertyNames.Some? && Fails(g, Site(o.propertyNames.value, ptr, Str(m.key)), e))
        || (exists id: Id :: IsProperty(o.properties, m.key, id) && Fails(g, Site(id, below, m.value), e))
        || (exists k: nat :: k < |o.patternProperties| && PatternFails(g, o.patternProperties[k], ptr, m, e))
  {
    hide Fails, Grounded, Unlisted, IsProperty;
    var below := ptr + [Key(m.key)];
    if o.propertyNames.Some? {
      assert MemberRuns(g, o, ptr, m, Site(o.propertyNames.value, ptr, Str(m.key)), Handed);
    }
    forall id: Id | ValueRuns(g, o, m.key, id, Handed)
      ensures MemberRuns(g, o, ptr, m, Site(id, below, m.value), Handed)
    {
    }
    if k: nat :| k < |o.patternProperties| && PatternFails(g, o.patternProperties[k], ptr, m, e) {
      assert IsPattern(g, o.patternProperties, m.key, o.patternProperties[k].schema);
      assert ValueRuns(g, o, m.key, o.patternProperties[k].schema, Handed);
    }
    if id: Id :| IsProperty(o.properties, m.key, id) && Fails(g, Site(id, below, m.value), e) {
      assert ValueRuns(g, o, m.key, id, Handed);
    }
    if n :| MemberRuns(g, o, ptr, m, n, Handed) && Fails(g, n, e) {
      assert n == Site(n.id, n.ptr, n.inst);
      if n.ptr == below && n.inst == m.value && IsPattern(g, o.patternProperties, m.key, n.id) {
        var k :| 0 <= k < |o.patternProperties| && o.patternProperties[k].schema == n.id
          && g.matches(m.key, o.patternProperties[k].name);
        assert PatternFails(g, o.patternProperties[k], ptr, m, e);
      }
    }
  }

  lemma {:induction false} MembersErrors(g: Graph, o: ObjectSchema, bound: nat, i: nat, ptr: Pointer, inst: Json,
                                         e: Err)
    requires Grounded(g) && Resolved(g) && ObjectFits(g, o, bound) && inst.Obj? && i <= |inst.members|
    ensures e in MembersFrom(g, o, bound, i, ptr, inst).errors <==>
      exists k: nat :: i <= k < |inst.members| && MemberFails(g, o, ptr, inst, inst.members[k], e)
    decreases |inst.members| - i
  {
    hide MemberReport, Then, MemberFails, Grounded, Resolved, ObjectFits;
    if i < |inst.members| {
      MemberErrors(g, o, bound, i, ptr, inst, e);
      MembersErrors(g, o, bound, i + 1, ptr, inst, e);
      ThenErrors(MemberReport(g, o, bound, i, ptr, inst), MembersFrom(g, o, bound, i + 1, ptr, inst), e);
    }
  }

  /** The pointer of an error about a dependency ends with the name of the dependency. */
  ghost predicate DependencyLacks(d: Dependency, ptr: Pointer, inst: Json, e: Err)
    requires inst.Obj?
  {
    && HasMember(inst, d.name) && d.rule.Needs?
    && exists k: nat :: k < |d.rule.names| && Lacks(d.rule.names, k, ptr + [Key(d.name)], inst, true, e)
  }

  ghost predicate DependencyHands(g: Graph, d: Dependency, ptr: Pointer, inst: Json, e: Err)
    requires Grounded(g) && inst.Obj?
  {
    exists n :: DependencyRuns(d, ptr, inst, n, Handed) && Fails(g, n, e)
  }

  ghost predicate DependencyFails(g: Graph, d: Dependency, ptr: Pointer, inst: Json, e: Err)
    requires Grounded(g) && inst.Obj?
  {
    DependencyLacks(d, ptr, inst, e) || DependencyHands(g, d, ptr, inst, e)
  }

  lemma DependencyErrors(g: Graph, o: ObjectSchema, bound: nat, j: nat, ptr: Pointer, inst: Json, e: Err)
    requires Grounded(g) && ObjectFits(g, o, bound) && inst.Obj? && j < |o.dependencies|
    ensures e in DependencyReport(g, o, bound, j, ptr, inst).errors <==>
      DependencyFails(g, o.dependencies[j], ptr, inst, e)
  {
    hide Validate, RequiredFrom, Grounded, Fails, Lacks;
    var d := o.dependencies[j];
    match d.rule
    case Needs(names) => RequiredErrors(names, 0, ptr + [Key(d.name)], inst, true, e);
    case Satisfies(id) =>
      assert id in RuleIds(o.dependencies[j].rule);
      var n := Site(id, ptr + [Key(d.name)], inst);
      FailsMeans(g, id, n.ptr, inst, e);
      assert HasMember(inst, d.name) ==> DependencyRuns(d, ptr, inst, n, Handed);
      assert forall n' :: DependencyRuns(d, ptr, inst, n', Handed) ==> n' == n;
  }

  lemma {:induction false} DependenciesErrors(g: Graph, o: ObjectSchema, bound: nat, j: nat, ptr: Pointer,
                                              inst: Json, e: Err)
    requires Grounded(g) && ObjectFits(g, o, bound) && inst.Obj? && j <= |o.dependencies|
    ensures e in DependenciesFrom(g, o, bound, j, ptr, inst).errors <==>
      exists k: nat :: j <= k < |o.dependencies| && DependencyFails(g, o.dependencies[k], ptr, inst, e)
    decreases |o.dependencies| - j
  {
    hide DependencyReport, Then, DependencyFails, Grounded, ObjectFits;
    if j < |o.dependencies| {
      DependencyErrors(g, o, bound, j, ptr, inst, e);
      DependenciesErrors(g, o, bound, j + 1, ptr, inst, e);
      ThenErrors(DependencyReport(g, o, bound, j, ptr, inst), DependenciesFrom(g, o, bound, j + 1, ptr, inst), e);
    }
  }

  /** The errors that the object keywords report themselves. */
  ghost predicate ObjectViolates(g: Graph, o: ObjectSchema, ptr: Pointer, inst: Json, e: Err)
    requires Grounded(g) && inst.Obj?
  {
    || (Reports(ptr, inst, e) && PropertyCountViolates(o, |inst.members|, e.message))
    || (exists k: nat :: k < |o.required| && Lacks(o.required, k, ptr, inst, false, e))
    || (exists i: nat :: i < |inst.members| && AdditionalFails(g, o, ptr, inst, inst.members[i], e))
    || (exists j: nat :: j < |o.dependencies| && DependencyLacks(o.dependencies[j], ptr, inst, e))
  }

  ghost predicate ObjectHands(g: Graph, o: ObjectSchema, ptr: Pointer, inst: Json, e: Err)
    requires Grounded(g) && inst.Obj?
  {
    exists n :: ObjectRuns(g, o, ptr, inst, n, Handed) && Fails(g, n, e)
  }

  lemma ObjectErrors(g: Graph, o: ObjectSchema, bound: nat, ptr: Pointer, inst: Json, e: Err)
    requires Grounded(g) && Resolved(g) && ObjectFits(g, o, bound) && inst.Obj?
    ensures e in ObjectReport(g, o, bound, ptr, inst).errors <==>
      ObjectViolates(g, o, ptr, inst, e) || ObjectHands(g, o, ptr, inst, e)
  {
    hide ChecksFrom, RequiredFrom, MembersFrom, DefaultsFrom, DependenciesFrom, Then, Grounded, Resolved, Lacks,
        AdditionalFails, DependencyLacks, MemberHands, DependencyHands, ObjectHands;
    var r0 := ChecksFrom(PropertyCountChecks(o, |inst.members|), 0, ptr, inst);
    var r1, r2 := RequiredFrom(o.required, 0, ptr, inst, false), MembersFrom(g, o, bound, 0, ptr, inst);
    var r3, r4 := DefaultsFrom(g, o.properties, 0, ptr, inst), DependenciesFrom(g, o, bound, 0, ptr, inst);
    PropertyCountErrors(o, |inst.members|, ptr, inst, e);
    RequiredErrors(o.required, 0, ptr, inst, false, e);
    MembersErrors(g, o, bound, 0, ptr, inst, e);
    NoDefaultFails(g, o.properties, 0, ptr, inst);
    DependenciesErrors(g, o, bound, 0, ptr, inst, e);
    ThenErrors(r3, r4, e);
    ThenErrors(r2, Then(r3, r4), e);
    ThenErrors(r1, Then(r2, Then(r3, r4)), e);
    ThenErrors(r0, Then(r1, Then(r2, Then(r3, r4))), e);
    ObjectHandsIff(g, o, ptr, inst, e);
  }

  lemma ObjectHandsIff(g: Graph, o: ObjectSchema, ptr: Pointer, inst: Json, e: Err)
    requires Grounded(g) && inst.Obj?
    ensures ObjectHands(g, o, ptr, inst, e) <==>
      || (exists i: nat :: i < |inst.members| && MemberHands(g, o, ptr, inst.members[i], e))
      || (exists j: nat :: j < |o.dependencies| && DependencyHands(g, o.dependencies[j], ptr, inst, e))
  {
    hide Fails, Grounded, MemberRuns, DependencyRuns;
    if n :| ObjectRuns(g, o, ptr, inst, n, Handed) && Fails(g, n, e) {
      if i: nat :| i < |inst.members| && MemberRuns(g, o, ptr, inst.members[i], n, Handed) {
        assert MemberHands(g, o, ptr, inst.members[i], e);
      } else {
        var j: nat :| j < |o.dependencies| && DependencyRuns(o.dependencies[j], ptr, inst, n, Handed);
        assert DependencyHands(g, o.dependencies[j], ptr, inst, e);
      }
    }
    if i: nat :| i < |inst.members| && MemberHands(g, o, ptr, inst.members[i], e) {
      var n :| MemberRuns(g, o, ptr, inst.members[i], n, Handed) && Fails(g, n, e);
      assert ObjectRuns(g, o, ptr, inst, n, Handed);
    }
    if j: nat :| j < |o.dependencies| && DependencyHands(g, o.dependencies[j], ptr, inst, e) {
      var n :| DependencyRuns(o.dependencies[j], ptr, inst, n, Handed) && Fails(g, n, e);
      assert ObjectRuns(g, o, ptr, inst, n, Handed);
    }
  }

  // --------------------------------------------------------------------- arrays

  /** The schema of the item, if it has one, reports the error. */
  ghost predicate ItemFails(g: Graph, a: ArraySchema, ptr: Pointer, inst: Json, i: nat, e: Err)
    requires Grounded(g) && inst.Arr? && i < |inst.items|
  {
    if a.itemsSchema.Some? then Fails(g, Site(a.itemsSchema.value, ptr + [Index(i)], inst.items[i]), e)
    else if i < |a.items| then Fails(g, Site(a.items[i], ptr + [Index(0)], inst.items[i]), e)
    else a.additionalItems.Some? && Fails(g, Site(a.additionalItems.value, ptr + [Index(0)], inst.items[i]), e)
  }

  lemma {:induction false} ItemsErrors(g: Graph, a: ArraySchema, bound: nat, i: nat, ptr: Pointer, inst: Json, e: Err)
    requires Grounded(g) && ArrayIds(a) <= g.nodes.Keys && inst.Arr? && i <= |inst.items| && a.itemsSchema.Some?
    ensures e in ItemsFrom(g, a, bound, i, ptr, inst).errors <==>
      exists k: nat :: i <= k < |inst.items| && ItemFails(g, a, ptr, inst, k, e)
    decreases |inst.items| - i
  {
    hide Validate, Then, Fails, Grounded, ArrayIds;
    if i < |inst.items| {
      var id := a.itemsSchema.value;
      InItems(a);
      ItemsErrors(g, a, bound, i + 1, ptr, inst, e);
      FailsMeans(g, id, ptr + [Index(i)], inst.items[i], e);
      ThenErrors(Validate(g, id, ptr + [Index(i)], inst.items[i]), ItemsFrom(g, a, bound, i + 1, ptr, inst), e);
      assert ItemFails(g, a, ptr, inst, i, e) <==> e in Validate(g, id, ptr + [Index(i)], inst.items[i]).errors;
    }
  }

  lemma {:induction false} TupleErrors(g: Graph, a: ArraySchema, bound: nat, i: nat, ptr: Pointer, inst: Json, e: Err)
    requires Grounded(g) && ArrayIds(a) <= g.nodes.Keys && inst.Arr? && i <= |inst.items| && a.itemsSchema.None?
    ensures e in TupleFrom(g, a, bound, i, ptr, inst).errors <==>
      exists k: nat :: i <= k < |inst.items| && ItemFails(g, a, ptr, inst, k, e)
    decreases |inst.items| - i
  {
    hide Validate, Then, Fails, Grounded, ArrayIds;
    if i < |inst.items| && TupleValidator(a, i).Some? {
      InItems(a);
      var id := TupleValidator(a, i).value;
      TupleErrors(g, a, bound, i + 1, ptr, inst, e);
      FailsMeans(g, id, ptr + [Index(0)], inst.items[i], e);
      ThenErrors(Validate(g, id, ptr + [Index(0)], inst.items[i]), TupleFrom(g, a, bound, i + 1, ptr, inst), e);
      assert ItemFails(g, a, ptr, inst, i, e) <==> e in Validate(g, id, ptr + [Index(0)], inst.items[i]).errors;
    }
  }

  lemma {:induction false} ContainsErrors(g: Graph, a: ArraySchema, bound: nat, i: nat, ptr: Pointer, inst: Json,
                                          e: Err)
    requires Grounded(g) && Resolved(g) && ArrayIds(a) <= g.nodes.Keys && inst.Arr? && i <= |inst.items|
    requires a.contains.Some? && SearchesOn(g, a.contains.value, inst, i)
    ensures e in ContainsFrom(g, a, bound, i, ptr, inst).errors <==>
      Reports(ptr, inst, e) && e.message == ContainsFailed && SearchesOn(g, a.contains.value, inst, |inst.items|)
    decreases |inst.items| - i
  {
    hide Validate, Then, Grounded, Resolved, ArrayIds, Takes;
    if i < |inst.items| {
      var id := a.contains.value;
      InItems(a);
      var r := Validate(g, id, ptr, inst.items[i]);
      PassesIfTakes(g, id, ptr, inst.items[i]);
      ThenErrors(Report([], r.adds), if r.errors == [] then Nothing
                 else ContainsFrom(g, a, bound, i + 1, ptr, inst), e);
      if r.errors != [] {
        ContainsErrors(g, a, bound, i + 1, ptr, inst, e);
      }
    }
  }

  /** The errors that the array keywords report themselves. */
  ghost predicate ArrayViolates(g: Graph, a: ArraySchema, inst: Json, m: Message)
    requires Grounded(g) && inst.Arr?
  {
    || ItemCountViolates(a, |inst.items|, m)
    || (a.uniqueItems && m == ItemsNotUnique && Repeats(inst, 0))
    || (a.contains.Some? && m == ContainsFailed && SearchesOn(g, a.contains.value, inst, |inst.items|))
  }

  ghost predicate ArrayHands(g: Graph, a: ArraySchema, ptr: Pointer, inst: Json, e: Err)
    requires Grounded(g) && inst.Arr?
  {
    exists n :: ArrayRuns(g, a, ptr, inst, n, Handed) && Fails(g, n, e)
  }

  lemma ArrayErrors(g: Graph, a: ArraySchema, bound: nat, ptr: Pointer, inst: Json, e: Err)
    requires Grounded(g) && Resolved(g) && ArrayIds(a) <= g.nodes.Keys && inst.Arr?
    ensures e in ArrayReport(g, a, bound, ptr, inst).errors <==>
      (Reports(ptr, inst, e) && ArrayViolates(g, a, inst, e.message)) || ArrayHands(g, a, ptr, inst, e)
  {
    hide ChecksFrom, UniqueFrom, ItemsFrom, TupleFrom, ContainsFrom, Then, Grounded, Resolved, ItemCountViolates,
        Repeats, ArrayHands, ArrayIds, ItemFails, Takes, Reports;
    var r0 := ChecksFrom(ItemCountChecks(a, |inst.items|), 0, ptr, inst);
    var r1 := if a.uniqueItems then UniqueFrom(0, ptr, inst) else Nothing;
    var r2 := if a.itemsSchema.Some? then ItemsFrom(g, a, bound, 0, ptr, inst)
      else TupleFrom(g, a, bound, 0, ptr, inst);
    var r3 := if a.contains.Some? then ContainsFrom(g, a, bound, 0, ptr, inst) else Nothing;
    ItemCountErrors(a, |inst.items|, ptr, inst, e);
    UniqueErrors(0, ptr, inst, e);
    if a.itemsSchema.Some? {
      ItemsErrors(g, a, bound, 0, ptr, inst, e);
    } else {
      TupleErrors(g, a, bound, 0, ptr, inst, e);
    }
    if a.contains.Some? {
      ContainsErrors(g, a, bound, 0, ptr, inst, e);
    }
    ThenErrors(r2, r3, e);
    ThenErrors(r1, Then(r2, r3), e);
    ThenErrors(r0, Then(r1, Then(r2, r3)), e);
    ArrayHandsIff(g, a, ptr, inst, e);
  }

  lemma ArrayHandsIff(g: Graph, a: ArraySchema, ptr: Pointer, inst: Json, e: Err)
    requires Grounded(g) && inst.Arr?
    ensures ArrayHands(g, a, ptr, inst, e) <==>
      exists i: nat :: i < |inst.items| && ItemFails(g, a, ptr, inst, i, e)
  {
    hide Fails, Grounded, Takes;
    if n :| ArrayRuns(g, a, ptr, inst, n, Handed) && Fails(g, n, e) {
      var i: nat :| i < |inst.items| && ItemRuns(g, a, ptr, inst, i, n, Handed);
      assert n == Site(n.id, n.ptr, n.inst);
      assert ItemFails(g, a, ptr, inst, i, e);
    }
    if i: nat :| i < |inst.items| && ItemFails(g, a, ptr, inst, i, e) {
      var id := if a.itemsSchema.Some? then a.itemsSchema.value
        else if i < |a.items| then a.items[i] else a.additionalItems.value;
      var n := Site(id, ptr + [Index(if a.itemsSchema.Some? then i else 0)], inst.items[i]);
      assert ItemRuns(g, a, ptr, inst, i, n, Handed);
      assert ArrayRuns(g, a, ptr, inst, n, Handed);
    }
  }

  // ------------------------------------------------------------------ the schema

  ghost predicate KindViolates(g: Graph, t: TypeSchema, inst: Json, m: Message) {
    match inst
    case Null => m == UnexpectedType && !t.nullType
    case Bool(_) => m == UnexpectedType && !t.booleanType
    case Int(n) => if t.integerType.Some? then NumberViolates(t.integerType.value, n, m) else m == UnexpectedType
    case Str(s) => if t.textType.Some? then TextViolates(g, t.textType.value, s, m) else m == UnexpectedType
    case Arr(_) => t.arrayType.None? && m == UnexpectedType
    case Obj(_) => t.objectType.None? && m == UnexpectedType
  }

  /** What the array and object keywords of the schema report themselves. */
  ghost predicate PartsViolate(g: Graph, t: TypeSchema, ptr: Pointer, inst: Json, e: Err)
    requires Grounded(g)
  {
    || (inst.Arr? && t.arrayType.Some? && Reports(ptr, inst, e) && ArrayViolates(g, t.arrayType.value, inst, e.message))
    || (inst.Obj? && t.objectType.Some? && ObjectViolates(g, t.objectType.value, ptr, inst, e))
  }

  ghost predicate PartsHand(g: Graph, t: TypeSchema, ptr: Pointer, inst: Json, e: Err)
    requires Grounded(g)
  {
    || (inst.Arr? && t.arrayType.Some? && ArrayHands(g, t.arrayType.value, ptr, inst, e))
    || (inst.Obj? && t.objectType.Some? && ObjectHands(g, t.objectType.value, ptr, inst, e))
  }

  lemma KindErrors(g: Graph, t: TypeSchema, bound: nat, ptr: Pointer, inst: Json, e: Err)
    requires Grounded(g) && Resolved(g) && Fits(g, t, bound)
    ensures e in KindReport(g, t, bound, ptr, inst).errors <==>
      || (Reports(ptr, inst, e) && KindViolates(g, t, inst, e.message))
      || PartsViolate(g, t, ptr, inst, e)
      || PartsHand(g, t, ptr, inst, e)
  {
    hide Validate, ChecksFrom, ArrayReport, ObjectReport, Grounded, Resolved, NumericChecks, TextChecks,
        NumberViolates, TextViolates, ArrayViolates, ObjectViolates, ArrayHands, ObjectHands;
    match inst
    case Int(n) =>
      if t.integerType.Some? {
        NumberErrors(t.integerType.value, n, ptr, inst, e);
      }
    case Str(s) =>
      if t.textType.Some? {
        TextErrors(g, t.textType.value, s, ptr, inst, e);
      }
    case Arr(_) =>
      if t.arrayType.Some? {
        ArrayErrors(g, t.arrayType.value, bound, ptr, inst, e);
      }
    case Obj(_) =>
      if t.objectType.Some? {
        ObjectErrors(g, t.objectType.value, bound, ptr, inst, e);
      }
    case _ =>
  }

  ghost predicate SomeLogicViolates(g: Graph, t: TypeSchema, inst: Json, m: Message)
    requires Grounded(g)
  {
    exists k: nat :: k < |t.logic| && LogicViolates(g, t.logic[k], inst, m)
  }

  /** What the keywords of the schema report themselves. */
  ghost predicate TypeViolates(g: Graph, t: TypeSchema, ptr: Pointer, inst: Json, e: Err)
    requires Grounded(g)
  {
    || (Reports(ptr, inst, e)
        && (KindViolates(g, t, inst, e.message) || ValueViolates(t, inst, e.message)
            || SomeLogicViolates(g, t, inst, e.message)))
    || PartsViolate(g, t, ptr, inst, e)
  }

  ghost predicate HandsOn(g: Graph, t: TypeSchema, ptr: Pointer, inst: Json, e: Err)
    requires Grounded(g)
  {
    exists n :: TypeRuns(g, t, ptr, inst, n, Handed) && Fails(g, n, e)
  }

  ghost predicate HandsFirst(g: Graph, t: TypeSchema, ptr: Pointer, inst: Json, e: Err)
    requires Grounded(g)
  {
    exists n :: TypeRuns(g, t, ptr, inst, n, Wrapped) && FailsFirst(g, n, e)
  }

  lemma TypeErrors(g: Graph, t: TypeSchema, bound: nat, ptr: Pointer, inst: Json, e: Err)
    requires Grounded(g) && Resolved(g) && Fits(g, t, bound)
    ensures e in TypeReport(g, t, bound, ptr, inst).errors <==>
      TypeViolates(g, t, ptr, inst, e) || HandsOn(g, t, ptr, inst, e) || HandsFirst(g, t, ptr, inst, e)
  {
    hide Then, KindReport, ChecksFrom, LogicFrom, ConditionalReport, Grounded, Resolved, Fits, PartsViolate, PartsHand,
        KindViolates, ValueViolates, LogicViolates, LogicHands, ConditionalHands, HandsOn, HandsFirst, Reports;
    var r0, r1 := KindReport(g, t, bound, ptr, inst), ChecksFrom(ValueChecks(t, inst), 0, ptr, inst);
    var r2, r3 := LogicFrom(g, t, bound, 0, ptr, inst), ConditionalReport(g, t, bound, ptr, inst);
    KindErrors(g, t, bound, ptr, inst, e);
    ValueErrors(t, ptr, inst, e);
    LogicListErrors(g, t, bound, 0, ptr, inst, e);
    ConditionalErrors(g, t, bound, ptr, inst, e);
    ThenErrors(r2, r3, e);
    ThenErrors(r1, Then(r2, r3), e);
    ThenErrors(r0, Then(r1, Then(r2, r3)), e);
    HandedIff(g, t, ptr, inst, e);
    WrappedIff(g, t, ptr, inst, e);
  }

  lemma HandedIff(g: Graph, t: TypeSchema, ptr: Pointer, inst: Json, e: Err)
    requires Grounded(g)
    ensures HandsOn(g, t, ptr, inst, e) <==>
      ConditionalHands(g, t, ptr, inst, e) || PartsHand(g, t, ptr, inst, e)
  {
    hide Fails, Grounded, ConditionalRuns, ObjectRuns, ArrayRuns;
    if n :| TypeRuns(g, t, ptr, inst, n, Handed) && Fails(g, n, e) {
      assert n == Site(n.id, n.ptr, n.inst);
      assert forall i: nat :: i < |t.logic| ==> !LogicRuns(g, t.logic[i], inst, n.id, Handed);
    }
    if id: Id :| ConditionalRuns(g, t, inst, id, Handed) && Fails(g, Site(id, ptr, inst), e) {
      assert TypeRuns(g, t, ptr, inst, Site(id, ptr, inst), Handed);
    }
  }

  lemma WrappedIff(g: Graph, t: TypeSchema, ptr: Pointer, inst: Json, e: Err)
    requires Grounded(g)
    ensures HandsFirst(g, t, ptr, inst, e) <==>
      exists k: nat :: k < |t.logic| && LogicHands(g, t.logic[k], ptr, inst, e)
  {
    hide FailsFirst, Grounded, LogicRuns, Takes, IsItemSchema, ValueRuns;
    if n :| TypeRuns(g, t, ptr, inst, n, Wrapped) && FailsFirst(g, n, e) {
      assert n == Site(n.id, n.ptr, n.inst);
      var k: nat :| k < |t.logic| && LogicRuns(g, t.logic[k], inst, n.id, Wrapped);
      assert LogicHands(g, t.logic[k], ptr, inst, e);
    }
    if k: nat :| k < |t.logic| && LogicHands(g, t.logic[k], ptr, inst, e) {
      var id: Id :| LogicRuns(g, t.logic[k], inst, id, Wrapped) && FailsFirst(g, Site(id, ptr, inst), e);
      assert TypeRuns(g, t, ptr, inst, Site(id, ptr, inst), Wrapped);
    }
  }

  /** An error that the schema of the site reports itself. */
  ghost predicate OwnError(g: Graph, s: Site, e: Err)
    requires Grounded(g) && s.id in g.nodes
  {
    match g.nodes[s.id]
    case Boolean(accepting) => !accepting && Reports(s.ptr, s.inst, e) && e.message == FalseSchema
    case Ref(_, _, _) => false
    case Type(t) => TypeViolates(g, t, s.ptr, s.inst, e)
  }

  /**
   A schema reports, each at its pointer and with its instance, the keywords that are violated; it hands on
   all errors of the schemas that bind the instance or a part of it, and the first of one in `allOf`.
   */
  lemma SiteErrors(g: Graph, s: Site, e: Err)
    requires Grounded(g) && Resolved(g) && s.id in g.nodes
    ensures e in Validate(g, s.id, s.ptr, s.inst).errors <==>
      || OwnError(g, s, e)
      || (exists n :: Runs(g, s, n, Handed) && Fails(g, n, e))
      || (exists n :: Runs(g, s, n, Wrapped) && FailsFirst(g, n, e))
  {
    hide TypeReport, Grounded, Resolved, Fits, TypeViolates, TypeRuns, Fails, FailsFirst;
    NodeFits(g, s.id);
    match g.nodes[s.id]
    case Boolean(_) =>
    case Ref(_, target, _) =>
      TargetInGraph(g, s.id);
      var n := Site(target.value, s.ptr, s.inst);
      FailsMeans(g, n.id, n.ptr, n.inst, e);
      assert Runs(g, s, n, Handed);
      assert forall n' :: Runs(g, s, n', Handed) ==> n' == n;
    case Type(t) =>
      TypeErrors(g, t, Rank(g)[s.id], s.ptr, s.inst, e);
      FailsInGraph(g, e);
      if n :| TypeRuns(g, t, s.ptr, s.inst, n, Handed) && Fails(g, n, e) {
        assert Runs(g, s, n, Handed);
      }
      if n :| TypeRuns(g, t, s.ptr, s.inst, n, Wrapped) && FailsFirst(g, n, e) {
        assert Runs(g, s, n, Wrapped);
      }
  }

  lemma FailsInGraph(g: Graph, e: Err)
    requires Grounded(g)
    ensures forall n :: Fails(g, n, e) || FailsFirst(g, n, e) ==> n.id in g.nodes
  {
    hide Validate;
  }

  // --------------------------------------------------------------- traced to its site

  /** From `s` to `n` over schemas whose errors are handed on; each `allOf` on the way is named by the message. */
  ghost predicate Traces(g: Graph, s: Site, m: Message, n: Site, m': Message, steps: nat)
    requires Grounded(g) && s.id in g.nodes
    decreases steps
  {
    if steps == 0 then n == s && m' == m
    else
      || (exists x: Site :: x.id in g.nodes && Runs(g, s, x, Handed) && Traces(g, x, m, n, m', steps - 1))
      || (m.AllOfFailed?
          && exists x: Site :: x.id in g.nodes && Runs(g, s, x, Wrapped) && Traces(g, x, m.inner, n, m', steps - 1))
  }

  /** Every error is one of a schema on such a way, with the pointer and the instance that it has there. */
  lemma {:induction false} ErrorIsTraced(g: Graph, s: Site, e: Err) returns (n: Site, m: Message, steps: nat)
    requires Grounded(g) && Resolved(g) && s.id in g.nodes && e in Validate(g, s.id, s.ptr, s.inst).errors
    ensures Traces(g, s, e.message, n, m, steps)
    ensures n.id in g.nodes && OwnError(g, n, Err(e.ptr, e.instance, m))
    decreases IsContainer(s.inst), s.inst, Rank(g)[s.id]
  {
    hide Validate, Grounded, Resolved, OwnError, Runs, Traces, Fails, FailsFirst;
    SiteErrors(g, s, e);
    if OwnError(g, s, e) {
      n, m, steps := s, e.message, 0;
      NoTrace(g, s, m);
    } else if x :| Runs(g, s, x, Handed) && Fails(g, x, e) {
      RunsDown(g, s, x, Handed);
      FailsThere(g, x, e);
      n, m, steps := ErrorIsTraced(g, x, e);
      HandedTrace(g, s, x, e.message, n, m, steps);
      steps := steps + 1;
    } else {
      var x :| Runs(g, s, x, Wrapped) && FailsFirst(g, x, e);
      RunsDown(g, s, x, Wrapped);
      var first := FirstOf(g, x, e);
      n, m, steps := ErrorIsTraced(g, x, first);
      WrappedTrace(g, s, x, first.message, n, m, steps);
      steps := steps + 1;
    }
  }

  lemma FailsThere(g: Graph, x: Site, e: Err)
    requires Grounded(g) && Fails(g, x, e)
    ensures x.id in g.nodes && e in Validate(g, x.id, x.ptr, x.inst).errors
  {
    hide Validate;
  }

  lemma FirstOf(g: Graph, x: Site, e: Err) returns (first: Err)
    requires Grounded(g) && FailsFirst(g, x, e)
    ensures x.id in g.nodes && first in Validate(g, x.id, x.ptr, x.inst).errors
    ensures e == Err(first.ptr, first.instance, AllOfFailed(first.message))
  {
    hide Validate;
    first := Validate(g, x.id, x.ptr, x.inst).errors[0];
  }

  lemma NoTrace(g: Graph, s: Site, m: Message)
    requires Grounded(g) && s.id in g.nodes
    ensures Traces(g, s, m, s, m, 0)
  {
    hide Grounded;
  }

  lemma HandedTrace(g: Graph, s: Site, x: Site, m: Message, n: Site, m': Message, steps: nat)
    requires Grounded(g) && s.id in g.nodes && x.id in g.nodes && Runs(g, s, x, Handed)
    requires Traces(g, x, m, n, m', steps)
    ensures Traces(g, s, m, n, m', steps + 1)
  {
    hide Grounded, Runs;
  }

  lemma WrappedTrace(g: Graph, s: Site, x: Site, m: Message, n: Site, m': Message, steps: nat)
    requires Grounded(g) && s.id in g.nodes && x.id in g.nodes && Runs(g, s, x, Wrapped)
    requires Traces(g, x, m, n, m', steps)
    ensures Traces(g, s, AllOfFailed(m), n, m', steps + 1)
  {
    hide Grounded, Runs;
  }

  /** No dependencies, and no positional items but for a first one: their errors have other pointers. */
  ghost predicate Straight(g: Graph) {
    forall id :: id in g.nodes && g.nodes[id].Type? ==> TypeStraight(g.nodes[id].schema)
  }

  predicate TypeStraight(t: TypeSchema) {
    && (t.objectType.Some? ==> t.objectType.value.dependencies == [])
    && (t.arrayType.Some? ==>
        var a := t.arrayType.value;
        a.itemsSchema.Some? || (|a.items| <= 1 && a.additionalItems.None?))
  }

  /** The pointer leads to the instance, or to the object of which the instance is a member's name. */
  ghost predicate PointsAt(root: Json, ptr: Pointer, inst: Json) {
    && WellFormed(inst) && Lookup(root, ptr).Some?
    && var j := Lookup(root, ptr).value;
       j == inst || (j.Obj? && inst.Str? && HasMember(j, inst.s))
  }

  lemma PointsBelow(root: Json, ptr: Pointer, inst: Json, t: Token)
    requires PointsAt(root, ptr, inst) && IsContainer(inst) && Child(inst, t).Some? && WellFormed(Child(inst, t).value)
    ensures PointsAt(root, ptr + [t], Child(inst, t).value)
  {
    LookupSnoc(root, ptr, t);
  }

  lemma RunsStraight(g: Graph, root: Json, s: Site, n: Site, part: Part)
    requires Grounded(g) && Straight(g) && s.id in g.nodes && Runs(g, s, n, part) && part != Every
    requires PointsAt(root, s.ptr, s.inst)
    ensures PointsAt(root, n.ptr, n.inst)
  {
    hide Grounded, InPlaceRuns, ObjectRuns, ArrayRuns, PointsAt, TypeStraight;
    match g.nodes[s.id]
    case Boolean(_) =>
    case Ref(_, _, _) =>
    case Type(t) =>
      assert TypeStraight(t);
      if s.inst.Obj? && t.objectType.Some? && ObjectRuns(g, t.objectType.value, s.ptr, s.inst, n, part) {
        ObjectStraight(g, root, t, s, n, part);
      } else if s.inst.Arr? && t.arrayType.Some? && ArrayRuns(g, t.arrayType.value, s.ptr, s.inst, n, part) {
        ArrayStraight(g, root, t, s, n, part);
      }
  }

  lemma ObjectStraight(g: Graph, root: Json, t: TypeSchema, s: Site, n: Site, part: Part)
    requires Grounded(g) && TypeStraight(t) && t.objectType.Some? && s.inst.Obj?
    requires PointsAt(root, s.ptr, s.inst)
    requires ObjectRuns(g, t.objectType.value, s.ptr, s.inst, n, part)
    ensures PointsAt(root, n.ptr, n.inst)
  {
    hide Grounded, ValueRuns;
    var i: nat :| i < |s.inst.members| && MemberRuns(g, t.objectType.value, s.ptr, s.inst.members[i], n, part);
    var m := s.inst.members[i];
    FindMemberAt(s.inst.members, i);
    assert HasMember(s.inst, m.key);
    PointsBelow(root, s.ptr, s.inst, Key(m.key));
  }

  lemma ArrayStraight(g: Graph, root: Json, t: TypeSchema, s: Site, n: Site, part: Part)
    requires Grounded(g) && TypeStraight(t) && t.arrayType.Some? && s.inst.Arr? && part != Every
    requires PointsAt(root, s.ptr, s.inst)
    requires ArrayRuns(g, t.arrayType.value, s.ptr, s.inst, n, part)
    ensures PointsAt(root, n.ptr, n.inst)
  {
    hide Grounded, Takes;
    var a := t.arrayType.value;
    var i: nat :| i < |s.inst.items| && ItemRuns(g, a, s.ptr, s.inst, i, n, part);
    assert a.itemsSchema.None? ==> i == 0;
    PointsBelow(root, s.ptr, s.inst, Index(i));
  }

  lemma {:induction false} TracesStraight(g: Graph, root: Json, s: Site, m: Message, n: Site, m': Message, steps: nat)
    requires Grounded(g) && Straight(g) && s.id in g.nodes && Traces(g, s, m, n, m', steps)
    requires PointsAt(root, s.ptr, s.inst)
    ensures PointsAt(root, n.ptr, n.inst)
    decreases steps
  {
    hide Grounded, Straight, Runs, PointsAt;
    if steps > 0 {
      if x: Site :| x.id in g.nodes && Runs(g, s, x, Handed) && Traces(g, x, m, n, m', steps - 1) {
        RunsStraight(g, root, s, x, Handed);
        TracesStraight(g, root, x, m, n, m', steps - 1);
      } else {
        var x: Site :| x.id in g.nodes && Runs(g, s, x, Wrapped) && Traces(g, x, m.inner, n, m', steps - 1);
        RunsStraight(g, root, s, x, Wrapped);
        TracesStraight(g, root, x, m.inner, n, m', steps - 1);
      }
    }
  }

  lemma OwnErrorThere(g: Graph, n: Site, e: Err)
    requires Grounded(g) && Straight(g) && n.id in g.nodes && OwnError(g, n, e)
    ensures e.ptr == n.ptr && e.instance == n.inst
  {
    hide Grounded, KindViolates, ValueViolates, SomeLogicViolates, ArrayViolates, PropertyCountViolates, HasMember,
        Takes, Unlisted;
    assert g.nodes[n.id].Type? ==> TypeStraight(g.nodes[n.id].schema);
  }

  /** For such graphs the pointer of every error leads to the instance that the error names. */
  lemma ErrorIsLocated(g: Graph, id: Id, root: Json, e: Err)
    requires Grounded(g) && Resolved(g) && Straight(g) && id in g.nodes && WellFormed(root)
    requires e in Validate(g, id, [], root).errors
    ensures PointsAt(root, e.ptr, e.instance)
  {
    hide Validate, Grounded, Resolved, Straight, OwnError, Traces;
    var s := Site(id, [], root);
    var n, m, steps := ErrorIsTraced(g, s, e);
    TracesStraight(g, root, s, e.message, n, m, steps);
    OwnErrorThere(g, n, Err(e.ptr, e.instance, m));
  }

  /** The error about a missing dependency has the object for its instance, and the pointer of a member. */
  lemma DependencyMisplaced(g: Graph, root: Json, s: Site, j: nat, e: Err)
    requires Grounded(g) && Resolved(g) && s.id in g.nodes && g.nodes[s.id].Type? && s.inst.Obj?
    requires g.nodes[s.id].schema.objectType.Some? && j < |g.nodes[s.id].schema.objectType.value.dependencies|
    requires DependencyLacks(g.nodes[s.id].schema.objectType.value.dependencies[j], s.ptr, s.inst, e)
    requires WellFormed(s.inst) && Lookup(root, s.ptr) == Some(s.inst)
    ensures e in Validate(g, s.id, s.ptr, s.inst).errors && e.instance == s.inst
    ensures Lookup(root, e.ptr).Some? && Lookup(root, e.ptr).value < s.inst
  {
    hide Validate, Grounded, Resolved, Lookup;
    var t := g.nodes[s.id].schema;
    var d := t.objectType.value.dependencies[j];
    assert ObjectViolates(g, t.objectType.value, s.ptr, s.inst, e);
    assert OwnError(g, s, e);
    SiteErrors(g, s, e);
    var i :| 0 <= i < |s.inst.members| && s.inst.members[i].key == d.name;
    FindMemberAt(s.inst.members, i);
    LookupSnoc(root, s.ptr, Key(d.name));
  }

  /** The error about an item of a tuple after the first has the pointer of the first. */
  lemma TupleMisplaced(g: Graph, root: Json, s: Site, i: nat)
    requires Grounded(g) && Resolved(g) && s.id in g.nodes && g.nodes[s.id].Type? && s.inst.Arr?
    requires g.nodes[s.id].schema.arrayType.Some? && g.nodes[s.id].schema.arrayType.value.itemsSchema.None?
    requires var a := g.nodes[s.id].schema.arrayType.value;
      i < |a.items| && i < |s.inst.items| && a.items[i] in g.nodes && g.nodes[a.items[i]] == Boolean(false)
    requires Lookup(root, s.ptr) == Some(s.inst)
    ensures Err(s.ptr + [Index(0)], s.inst.items[i], FalseSchema) in Validate(g, s.id, s.ptr, s.inst).errors
    ensures Lookup(root, s.ptr + [Index(0)]) == Some(s.inst.items[0])
  {
    hide Validate, Grounded, Resolved, Lookup, TypeViolates;
    var a := g.nodes[s.id].schema.arrayType.value;
    var n := Site(a.items[i], s.ptr + [Index(0)], s.inst.items[i]);
    var e := Err(n.ptr, n.inst, FalseSchema);
    SiteErrors(g, n, e);
    assert ItemRuns(g, a, s.ptr, s.inst, i, n, Handed);
    assert Runs(g, s, n, Handed);
    FailsMeans(g, n.id, n.ptr, n.inst, e);
    SiteErrors(g, s, e);
    LookupSnoc(root, s.ptr, Index(0));
  }

  // ------------------------------------------------------------------ the first error

  /** Of two reports one after the other the first error is that of the first one that has any. */
  lemma FirstOfTwo(x: Report, y: Report)
    ensures Then(x, y).errors == [] <==> x.errors == [] && y.errors == []
    ensures Then(x, y).errors != [] ==> Then(x, y).errors[0] == if x.errors != [] then x.errors[0] else y.errors[0]
  {
  }

  lemma {:induction false} FirstOfLogic(g: Graph, t: TypeSchema, bound: nat, i: nat, ptr: Pointer, inst: Json)
    returns (k: nat)
    requires Grounded(g) && Fits(g, t, bound) && i <= |t.logic|
    requires forall j :: 0 <= j < |t.logic| ==> Lower(g, LogicIds(t.logic[j]), bound)
    requires LogicFrom(g, t, bound, i, ptr, inst).errors != []
    ensures i <= k < |t.logic|
    ensures forall j :: i <= j < k ==> LogicReport(g, t.logic[j], bound, ptr, inst).errors == []
    ensures var r := LogicReport(g, t.logic[k], bound, ptr, inst);
      r.errors != [] && LogicFrom(g, t, bound, i, ptr, inst).errors[0] == r.errors[0]
    decreases |t.logic| - i
  {
    hide Validate, Then, LogicReport, InPlace, LogicIds, Grounded, Fits;
    k := i;
    if i < |t.logic| {
      var r := LogicReport(g, t.logic[i], bound, ptr, inst);
      FirstOfTwo(r, LogicFrom(g, t, bound, i + 1, ptr, inst));
      if r.errors == [] {
        k := FirstOfLogic(g, t, bound, i + 1, ptr, inst);
      }
    }
  }

  /**
   The first error of a type schema: that of the validator for the kind of the instance if it rejects, then
   the enumeration, the constant, the first of the list of `not` and combinations that rejects, the conditional.
   */
  lemma FirstOfType(g: Graph, t: TypeSchema, bound: nat, ptr: Pointer, inst: Json)
    requires Grounded(g) && Resolved(g) && Fits(g, t, bound) && TypeReport(g, t, bound, ptr, inst).errors != []
    ensures forall j :: 0 <= j < |t.logic| ==> Lower(g, LogicIds(t.logic[j]), bound)
    ensures var first := TypeReport(g, t, bound, ptr, inst).errors[0];
      if !AcceptsKind(g, t, bound, inst) then
        var r := KindReport(g, t, bound, ptr, inst); r.errors != [] && first == r.errors[0]
      else if t.enumeration.Some? && inst !in t.enumeration.value then first == Err(ptr, inst, NotInEnum)
      else if t.constant.Some? && inst != t.constant.value then first == Err(ptr, inst, NotConst)
      else if exists k :: 0 <= k < |t.logic| && !AcceptsLogic(g, t.logic[k], bound, inst) then
        exists k :: FirstLogic(g, t, bound, ptr, inst, k, first)
      else
        var r := ConditionalReport(g, t, bound, ptr, inst); r.errors != [] && first == r.errors[0]
  {
    hide Then, KindReport, LogicFrom, LogicReport, ConditionalReport, AcceptsKind, AcceptsLogic, Grounded, Resolved,
        ChecksFrom, Fits, FirstLogic;
    var r0, r1 := KindReport(g, t, bound, ptr, inst), ChecksFrom(ValueChecks(t, inst), 0, ptr, inst);
    var r2, r3 := LogicFrom(g, t, bound, 0, ptr, inst), ConditionalReport(g, t, bound, ptr, inst);
    forall j | 0 <= j < |t.logic|
      ensures Lower(g, LogicIds(t.logic[j]), bound)
    {
      LogicLower(g, t, bound, j);
    }
    KindVerdict(g, t, bound, ptr, inst);
    ValuesInOrder(t, ptr, inst);
    LogicInOrder(g, t, bound, ptr, inst);
    FirstOfTwo(r2, r3);
    FirstOfTwo(r1, Then(r2, r3));
    FirstOfTwo(r0, Then(r1, Then(r2, r3)));
  }

  /** `e` is the first error of the first entry of the list that rejects. */
  ghost predicate FirstLogic(g: Graph, t: TypeSchema, bound: nat, ptr: Pointer, inst: Json, k: int, e: Err)
    requires Grounded(g) && Fits(g, t, bound)
    requires forall j :: 0 <= j < |t.logic| ==> Lower(g, LogicIds(t.logic[j]), bound)
  {
    && 0 <= k < |t.logic|
    && (forall j :: 0 <= j < k ==> AcceptsLogic(g, t.logic[j], bound, inst))
    && !AcceptsLogic(g, t.logic[k], bound, inst)
    && var r := LogicReport(g, t.logic[k], bound, ptr, inst);
       r.errors != [] && e == r.errors[0]
  }

  lemma LogicInOrder(g: Graph, t: TypeSchema, bound: nat, ptr: Pointer, inst: Json)
    requires Grounded(g) && Resolved(g) && Fits(g, t, bound)
    requires forall j :: 0 <= j < |t.logic| ==> Lower(g, LogicIds(t.logic[j]), bound)
    ensures LogicFrom(g, t, bound, 0, ptr, inst).errors != [] <==>
      exists k :: 0 <= k < |t.logic| && !AcceptsLogic(g, t.logic[k], bound, inst)
    ensures var r := LogicFrom(g, t, bound, 0, ptr, inst);
      r.errors != [] ==> exists k :: FirstLogic(g, t, bound, ptr, inst, k, r.errors[0])
  {
    hide Validate, LogicReport, LogicFrom, AcceptsLogic, Grounded, Resolved, Fits, LogicIds;
    forall j | 0 <= j < |t.logic|
      ensures LogicReport(g, t.logic[j], bound, ptr, inst).errors == [] <==> AcceptsLogic(g, t.logic[j], bound, inst)
    {
      LogicVerdict(g, t.logic[j], bound, ptr, inst);
    }
    if LogicFrom(g, t, bound, 0, ptr, inst).errors != [] {
      var k := FirstOfLogic(g, t, bound, 0, ptr, inst);
      assert FirstLogic(g, t, bound, ptr, inst, k, LogicFrom(g, t, bound, 0, ptr, inst).errors[0]);
    } else {
      NoLogicFails(g, t, bound, 0, ptr, inst);
    }
  }

  lemma {:induction false} NoLogicFails(g: Graph, t: TypeSchema, bound: nat, i: nat, ptr: Pointer, inst: Json)
    requires Grounded(g) && Fits(g, t, bound) && i <= |t.logic|
    requires forall j :: 0 <= j < |t.logic| ==> Lower(g, LogicIds(t.logic[j]), bound)
    requires LogicFrom(g, t, bound, i, ptr, inst).errors == []
    ensures forall j :: i <= j < |t.logic| ==> LogicReport(g, t.logic[j], bound, ptr, inst).errors == []
    decreases |t.logic| - i
  {
    hide Validate, Then, LogicReport, InPlace, LogicIds, Grounded, Fits;
    if i < |t.logic| {
      FirstOfTwo(LogicReport(g, t.logic[i], bound, ptr, inst), LogicFrom(g, t, bound, i + 1, ptr, inst));
      NoLogicFails(g, t, bound, i + 1, ptr, inst);
    }
  }

  lemma ValuesInOrder(t: TypeSchema, ptr: Pointer, inst: Json)
    ensures var errors := ChecksFrom(ValueChecks(t, inst), 0, ptr, inst).errors;
      if t.enumeration.Some? && inst !in t.enumeration.value then errors != [] && errors[0] == Err(ptr, inst, NotInEnum)
      else if t.constant.Some? && inst != t.constant.value then errors != [] && errors[0] == Err(ptr, inst, NotConst)
      else errors == []
  {
    TwoInOrder(ValueChecks(t, inst), ptr, inst);
  }

  lemma TwoInOrder(checks: seq<Check>, ptr: Pointer, inst: Json)
    requires |checks| == 2
    ensures var errors := ChecksFrom(checks, 0, ptr, inst).errors;
      if checks[0].fails then errors != [] && errors[0] == Err(ptr, inst, checks[0].message)
      else if checks[1].fails then errors == [Err(ptr, inst, checks[1].message)]
      else errors == []
  {
    assert ChecksFrom(checks, 2, ptr, inst) == Nothing;
    assert ChecksFrom(checks, 1, ptr, inst)
      == Then(ErrorIf(checks[1].fails, ptr, inst, checks[1].message), Nothing);
  }

  // ------------------------------------------------------ the first error of an object

  lemma {:induction false} FirstOfRequired(names: seq<string>, i: nat, ptr: Pointer, inst: Json) returns (k: nat)
    requires i <= |names| && inst.Obj? && RequiredFrom(names, i, ptr, inst, false).errors != []
    ensures i <= k < |names| && !HasMember(inst, names[k])
    ensures forall j :: i <= j < k ==> HasMember(inst, names[j])
    ensures RequiredFrom(names, i, ptr, inst, false).errors[0] == Err(ptr, inst, MissingProperty(names[k]))
    decreases |names| - i
  {
    hide Then;
    k := i;
    if i < |names| {
      var missing := FindMember(inst.members, names[i]).None?;
      FirstOfTwo(ErrorIf(missing, ptr, inst, MissingProperty(names[i])), RequiredFrom(names, i + 1, ptr, inst, false));
      if !missing {
        k := FirstOfRequired(names, i + 1, ptr, inst);
      }
    }
  }

  lemma {:induction false} FirstOfMembers(g: Graph, o: ObjectSchema, bound: nat, i: nat, ptr: Pointer, inst: Json)
    returns (k: nat)
    requires Grounded(g) && ObjectFits(g, o, bound) && inst.Obj? && i <= |inst.members|
    requires MembersFrom(g, o, bound, i, ptr, inst).errors != []
    ensures i <= k < |inst.members|
    ensures forall j :: i <= j < k ==> MemberReport(g, o, bound, j, ptr, inst).errors == []
    ensures var r := MemberReport(g, o, bound, k, ptr, inst);
      r.errors != [] && MembersFrom(g, o, bound, i, ptr, inst).errors[0] == r.errors[0]
    decreases |inst.members| - i
  {
    hide Then, MemberReport, Grounded, ObjectFits;
    k := i;
    if i < |inst.members| {
      var r := MemberReport(g, o, bound, i, ptr, inst);
      FirstOfTwo(r, MembersFrom(g, o, bound, i + 1, ptr, inst));
      if r.errors == [] {
        k := FirstOfMembers(g, o, bound, i + 1, ptr, inst);
      }
    }
  }

  /** `e` is the first error of the first member that is rejected. */
  ghost predicate FirstMember(g: Graph, o: ObjectSchema, bound: nat, ptr: Pointer, inst: Json, k: int, e: Err)
    requires Grounded(g) && ObjectFits(g, o, bound) && inst.Obj?
  {
    && 0 <= k < |inst.members|
    && (forall j :: 0 <= j < k ==> AcceptsMember(g, o, bound, inst, j))
    && !AcceptsMember(g, o, bound, inst, k)
    && var r := MemberReport(g, o, bound, k, ptr, inst);
       r.errors != [] && e == r.errors[0]
  }

  lemma MembersInOrder(g: Graph, o: ObjectSchema, bound: nat, ptr: Pointer, inst: Json)
    requires Grounded(g) && Resolved(g) && ObjectFits(g, o, bound) && inst.Obj?
    ensures var r := MembersFrom(g, o, bound, 0, ptr, inst);
      r.errors != [] ==> exists k :: FirstMember(g, o, bound, ptr, inst, k, r.errors[0])
  {
    hide MemberReport, MembersFrom, AcceptsMember, Grounded, Resolved, ObjectFits;
    var r := MembersFrom(g, o, bound, 0, ptr, inst);
    FitsParts(g, o, bound);
    if r.errors != [] {
      var k := FirstOfMembers(g, o, bound, 0, ptr, inst);
      forall j | 0 <= j < |inst.members|
        ensures MemberReport(g, o, bound, j, ptr, inst).errors == [] <==> AcceptsMember(g, o, bound, inst, j)
      {
        MemberVerdict(g, o, bound, j, ptr, inst);
      }
      assert FirstMember(g, o, bound, ptr, inst, k, r.errors[0]);
    }
  }

  /** `e` names the first of the required members that is missing. */
  ghost predicate FirstMissing(o: ObjectSchema, ptr: Pointer, inst: Json, k: int, e: Err)
    requires inst.Obj?
  {
    && 0 <= k < |o.required| && !HasMember(inst, o.required[k])
    && (forall j :: 0 <= j < k ==> HasMember(inst, o.required[j]))
    && e == Err(ptr, inst, MissingProperty(o.required[k]))
  }

  /**
   The first error of an object: too many members, too few, the first required one that is missing, the
   first member that is rejected, the first dependency.
   */
  lemma FirstOfObject(g: Graph, o: ObjectSchema, bound: nat, ptr: Pointer, inst: Json)
    requires Grounded(g) && Resolved(g) && ObjectFits(g, o, bound) && inst.Obj?
    requires ObjectReport(g, o, bound, ptr, inst).errors != []
    ensures var first := ObjectReport(g, o, bound, ptr, inst).errors[0];
      if o.maxProperties.Some? && |inst.members| > o.maxProperties.value then
        first == Err(ptr, inst, TooManyProperties)
      else if o.minProperties.Some? && |inst.members| < o.minProperties.value then
        first == Err(ptr, inst, TooFewProperties)
      else if exists k :: 0 <= k < |o.required| && !HasMember(inst, o.required[k]) then
        exists k :: FirstMissing(o, ptr, inst, k, first)
      else if MembersFrom(g, o, bound, 0, ptr, inst).errors != [] then
        exists k :: FirstMember(g, o, bound, ptr, inst, k, first)
      else
        var r := DependenciesFrom(g, o, bound, 0, ptr, inst); r.errors != [] && first == r.errors[0]
  {
    hide ChecksFrom, RequiredFrom, MembersFrom, DefaultsFrom, DependenciesFrom, Then, Grounded, Resolved, ObjectFits,
        FirstMember, HasMember;
    FitsParts(g, o, bound);
    var r0 := ChecksFrom(PropertyCountChecks(o, |inst.members|), 0, ptr, inst);
    var r1, r2 := RequiredFrom(o.required, 0, ptr, inst, false), MembersFrom(g, o, bound, 0, ptr, inst);
    var r3, r4 := DefaultsFrom(g, o.properties, 0, ptr, inst), DependenciesFrom(g, o, bound, 0, ptr, inst);
    TwoInOrder(PropertyCountChecks(o, |inst.members|), ptr, inst);
    RequiredVerdict(o.required, 0, ptr, inst, false);
    MembersInOrder(g, o, bound, ptr, inst);
    NoDefaultFails(g, o.properties, 0, ptr, inst);
    FirstOfTwo(r3, r4);
    FirstOfTwo(r2, Then(r3, r4));
    FirstOfTwo(r1, Then(r2, Then(r3, r4)));
    FirstOfTwo(r0, Then(r1, Then(r2, Then(r3, r4))));
    if r1.errors != [] {
      var k := FirstOfRequired(o.required, 0, ptr, inst);
      assert FirstMissing(o, ptr, inst, k, r1.errors[0]);
    }
  }

  lemma FitsParts(g: Graph, o: ObjectSchema, bound: nat)
    requires Grounded(g) && ObjectFits(g, o, bound)
    ensures ObjectIds(o) <= g.nodes.Keys && PropertyIds(o.properties) <= g.nodes.Keys
  {
    hide Grounded;
  }

  /** For a member its name comes first, then its property, the patterns, and what is additional. */
  lemma FirstOfMember(g: Graph, o: ObjectSchema, bound: nat, i: nat, ptr: Pointer, inst: Json)
    requires Grounded(g) && ObjectFits(g, o, bound) && inst.Obj? && i < |inst.members|
    requires MemberReport(g, o, bound, i, ptr, inst).errors != []
    ensures var first := MemberReport(g, o, bound, i, ptr, inst).errors[0];
      var r1, r2 := NameReport(g, o, bound, i, ptr, inst), KnownReport(g, o, bound, i, ptr, inst);
      var r3, r4 := PatternsFrom(g, o, bound, i, 0, ptr, inst), AdditionalReport(g, o, bound, i, ptr, inst);
      if r1.errors != [] then first == r1.errors[0]
      else if r2.errors != [] then first == r2.errors[0]
      else if r3.errors != [] then first == r3.errors[0]
      else r4.errors != [] && first == r4.errors[0]
  {
    hide Then, NameReport, KnownReport, PatternsFrom, AdditionalReport, Grounded, ObjectFits;
    var r1, r2 := NameReport(g, o, bound, i, ptr, inst), KnownReport(g, o, bound, i, ptr, inst);
    var r3, r4 := PatternsFrom(g, o, bound, i, 0, ptr, inst), AdditionalReport(g, o, bound, i, ptr, inst);
    FirstOfTwo(r3, r4);
    FirstOfTwo(r2, Then(r3, r4));
    FirstOfTwo(r1, Then(r2, Then(r3, r4)));
  }

  /** For an array the counts come first, then repeated items, the items, and what is to be contained. */
  lemma FirstOfArray(g: Graph, a: ArraySchema, bound: nat, ptr: Pointer, inst: Json)
    requires Grounded(g) && ArrayIds(a) <= g.nodes.Keys && inst.Arr?
    requires ArrayReport(g, a, bound, ptr, inst).errors != []
    ensures var first := ArrayReport(g, a, bound, ptr, inst).errors[0];
      var items := if a.itemsSchema.Some? then ItemsFrom(g, a, bound, 0, ptr, inst)
        else TupleFrom(g, a, bound, 0, ptr, inst);
      if a.maxItems.Some? && |inst.items| > a.maxItems.value then first == Err(ptr, inst, TooManyItems)
      else if a.minItems.Some? && |inst.items| < a.minItems.value then first == Err(ptr, inst, TooFewItems)
      else if a.uniqueItems && Repeats(inst, 0) then first == Err(ptr, inst, ItemsNotUnique)
      else if items.errors != [] then first == items.errors[0]
      else
        a.contains.Some?
        && var r := ContainsFrom(g, a, bound, 0, ptr, inst); r.errors != [] && first == r.errors[0]
  {
    hide ChecksFrom, UniqueFrom, ItemsFrom, TupleFrom, ContainsFrom, Then, Grounded, ArrayIds, Repeats;
    var r0 := ChecksFrom(ItemCountChecks(a, |inst.items|), 0, ptr, inst);
    var r1 := if a.uniqueItems then UniqueFrom(0, ptr, inst) else Nothing;
    var r2 := if a.itemsSchema.Some? then ItemsFrom(g, a, bound, 0, ptr, inst)
      else TupleFrom(g, a, bound, 0, ptr, inst);
    var r3 := if a.contains.Some? then ContainsFrom(g, a, bound, 0, ptr, inst) else Nothing;
    TwoInOrder(ItemCountChecks(a, |inst.items|), ptr, inst);
    UniqueFirst(ptr, inst);
    FirstOfTwo(r2, r3);
    FirstOfTwo(r1, Then(r2, r3));
    FirstOfTwo(r0, Then(r1, Then(r2, r3)));
  }

  lemma UniqueFirst(ptr: Pointer, inst: Json)
    requires inst.Arr?
    ensures var errors := UniqueFrom(0, ptr, inst).errors;
      if Repeats(inst, 0) then errors != [] && errors[0] == Err(ptr, inst, ItemsNotUnique) else errors == []
  {
    hide UniqueFrom, Repeats;
    var errors := UniqueFrom(0, ptr, inst).errors;
    UniqueErrors(0, ptr, inst, Err(ptr, inst, ItemsNotUnique));
    if errors != [] {
      UniqueErrors(0, ptr, inst, errors[0]);
    }
  }
}
