/**
 The validators as they run: loops and calls that append to a patch and report
 to an error handler, which may keep every error, keep the first one, or throw.

 Every method is proved to leave what `ValidationReport` says, whatever the
 handler.  A thrown exception is the result `thrown`; the callers return at once.
 */
module Validator {
  import opened Wrappers
  import opened JsonValues
  import opened SchemaGraph
  import opened ValidationReport
  import Semantics

  datatype HandlerKind = Collecting | FirstError | Throwing

  /** What a handler of the given kind holds after the further errors `more`. */
  function Absorb(kind: HandlerKind, held: seq<Err>, more: seq<Err>): seq<Err> {
    if kind == Collecting then held + more
    else if held != [] || more == [] then held
    else [more[0]]
  }

  class ErrorHandler {
    const kind: HandlerKind
    var errors: seq<Err>

    constructor (kind: HandlerKind)
      ensures this.kind == kind && errors == []
    {
      this.kind := kind;
      errors := [];
    }

    method Error(ptr: Pointer, inst: Json, message: Message) returns (thrown: bool)
      modifies this
      ensures errors == Absorb(kind, old(errors), [Err(ptr, inst, message)])
      ensures thrown <==> kind == Throwing
    {
      thrown := false;
      match kind
      case Collecting => errors := errors + [Err(ptr, inst, message)];
      case FirstError =>
        if errors == [] {
          errors := [Err(ptr, inst, message)];
        }
      case Throwing =>
        if errors == [] {
          errors := [Err(ptr, inst, message)];
        }
        thrown := true;
    }
  }

  class JsonPatch {
    var operations: seq<Add>

    constructor ()
      ensures operations == []
    {
      operations := [];
    }

    method Append(path: Pointer, value: Json)
      modifies this
      ensures operations == old(operations) + [Add(path, value)]
    {
      operations := operations + [Add(path, value)];
    }
  }

  /** The contents of a handler and a patch at one moment. */
  datatype Log = Log(errors: seq<Err>, adds: seq<Add>)

  ghost function Now(patch: JsonPatch, e: ErrorHandler): Log
    reads patch, e
  {
    Log(e.errors, patch.operations)
  }

  /** A call that reports `r` to a handler of this kind led from `before` to `after`. */
  ghost predicate Reported(kind: HandlerKind, before: Log, r: Report, thrown: bool, after: Log) {
    && (thrown <==> kind == Throwing && r.errors != [])
    && after.errors == Absorb(kind, before.errors, r.errors)
    && (!thrown ==> after.adds == before.adds + r.adds)
  }

  lemma Sequel(kind: HandlerKind, before: Log, r: Report, mid: Log, next: Report, thrown: bool, after: Log)
    requires Reported(kind, before, r, false, mid) && Reported(kind, mid, next, thrown, after)
    ensures Reported(kind, before, Then(r, next), thrown, after)
  {
    assert before.errors + r.errors + next.errors == before.errors + (r.errors + next.errors);
    assert before.adds + r.adds + next.adds == before.adds + (r.adds + next.adds);
    if r.errors != [] {
      assert (r.errors + next.errors)[0] == r.errors[0];
    } else {
      assert r.errors + next.errors == next.errors;
    }
  }

  lemma Aborted(kind: HandlerKind, before: Log, r: Report, after: Log, rest: Report)
    requires Reported(kind, before, r, true, after)
    ensures Reported(kind, before, Then(r, rest), true, after)
  {
    assert (r.errors + rest.errors)[0] == r.errors[0];
  }

  lemma ThenAssociates(a: Report, b: Report, c: Report)
    ensures Then(Then(a, b), c) == Then(a, Then(b, c))
  {
    assert a.errors + b.errors + c.errors == a.errors + (b.errors + c.errors);
    assert a.adds + b.adds + c.adds == a.adds + (b.adds + c.adds);
  }

  /** A loop that has reported `done`, with `Then(done, next, rest)` as its whole report, makes one step. */
  lemma LoopStep(kind: HandlerKind, before: Log, done: Report, mid: Log, next: Report, rest: Report, thrown: bool,
                 after: Log)
    requires Reported(kind, before, done, false, mid) && Reported(kind, mid, next, thrown, after)
    ensures Then(done, Then(next, rest)) == Then(Then(done, next), rest)
    ensures Reported(kind, before, Then(done, next), thrown, after)
    ensures thrown ==> Reported(kind, before, Then(done, Then(next, rest)), true, after)
  {
    Sequel(kind, before, done, mid, next, thrown, after);
    ThenAssociates(done, next, rest);
    if thrown {
      Aborted(kind, before, Then(done, next), after, rest);
    }
  }

  /** A subschema that reported to a first-error handler of its own, seen from the caller's handler. */
  lemma OwnHandler(kind: HandlerKind, before: Log, r: Report, sub: Log)
    requires Reported(FirstError, Log([], before.adds), r, false, sub)
    ensures sub.errors == if r.errors == [] then [] else [r.errors[0]]
    ensures Reported(kind, before, Report([], r.adds), false, Log(before.errors, sub.adds))
  {
  }

  method ErrorWhen(c: bool, ptr: Pointer, inst: Json, m: Message, patch: JsonPatch,
                   e: ErrorHandler) returns (thrown: bool)
    modifies e
    ensures Reported(e.kind, old(Now(patch, e)), ErrorIf(c, ptr, inst, m), thrown, Now(patch, e))
  {
    thrown := false;
    if c {
      thrown := e.Error(ptr, inst, m);
    }
  }

  /** The start of a sequence of steps that reports `whole` in the end. */
  lemma Start(kind: HandlerKind, before: Log, whole: Report)
    ensures Reported(kind, before, Nothing, false, before)
    ensures Then(Nothing, whole) == whole
  {
    ThenNothing(whole);
    assert before.adds + [] == before.adds && before.errors + [] == before.errors;
  }

  method RunChecks(checks: seq<Check>, ptr: Pointer, inst: Json, patch: JsonPatch,
                   e: ErrorHandler) returns (thrown: bool)
    modifies e
    ensures Reported(e.kind, old(Now(patch, e)), ChecksFrom(checks, 0, ptr, inst), thrown, Now(patch, e))
  {
    hide Reported, Then;
    ghost var before, whole, done := Now(patch, e), ChecksFrom(checks, 0, ptr, inst), Nothing;
    Start(e.kind, before, whole);
    thrown := false;
    for i := 0 to |checks|
      invariant Reported(e.kind, before, done, false, Now(patch, e))
      invariant Then(done, ChecksFrom(checks, i, ptr, inst)) == whole
    {
      ghost var mid := Now(patch, e);
      thrown := ErrorWhen(checks[i].fails, ptr, inst, checks[i].message, patch, e);
      ghost var next := ErrorIf(checks[i].fails, ptr, inst, checks[i].message);
      LoopStep(e.kind, before, done, mid, next, ChecksFrom(checks, i + 1, ptr, inst), thrown, Now(patch, e));
      if thrown {
        return;
      }
      done := Then(done, next);
    }
    ThenNothing(done);
  }

  method ValidateRequired(names: seq<string>, ptr: Pointer, inst: Json, dependency: bool, patch: JsonPatch,
                          e: ErrorHandler)
    returns (thrown: bool)
    requires inst.Obj?
    modifies e
    ensures Reported(e.kind, old(Now(patch, e)), RequiredFrom(names, 0, ptr, inst, dependency), thrown, Now(patch, e))
  {
    hide Reported, Then;
    ghost var before, whole, done := Now(patch, e), RequiredFrom(names, 0, ptr, inst, dependency), Nothing;
    Start(e.kind, before, whole);
    thrown := false;
    for i := 0 to |names|
      invariant Reported(e.kind, before, done, false, Now(patch, e))
      invariant Then(done, RequiredFrom(names, i, ptr, inst, dependency)) == whole
    {
      ghost var mid := Now(patch, e);
      var missing := FindMember(inst.members, names[i]).None?;
      var message := if dependency then MissingDependency(names[i]) else MissingProperty(names[i]);
      thrown := ErrorWhen(missing, ptr, inst, message, patch, e);
      ghost var next := ErrorIf(missing, ptr, inst, message);
      LoopStep(e.kind, before, done, mid, next, RequiredFrom(names, i + 1, ptr, inst, dependency), thrown,
          Now(patch, e));
      if thrown {
        return;
      }
      done := Then(done, next);
    }
    ThenNothing(done);
  }

  // ------------------------------------------------------- the schema validators

  method ValidateSchema(g: Graph, id: Id, ptr: Pointer, inst: Json, patch: JsonPatch,
                        e: ErrorHandler) returns (thrown: bool)
    requires Grounded(g) && id in g.nodes
    modifies patch, e
    ensures Reported(e.kind, old(Now(patch, e)), Validate(g, id, ptr, inst), thrown, Now(patch, e))
    decreases IsContainer(inst), inst, Rank(g)[id], 9, 0
  {
    hide Reported, TypeReport;
    NodeFits(g, id);
    match g.nodes[id]
    case Boolean(accepting) => thrown := ErrorWhen(!accepting, ptr, inst, FalseSchema, patch, e);
    case Ref(name, target, _) =>
      if target.Some? {
        thrown := ValidateSchema(g, target.value, ptr, inst, patch, e);
      } else {
        thrown := ErrorWhen(true, ptr, inst, UnresolvedReference(name), patch, e);
      }
    case Type(t) => thrown := ValidateType(g, t, Rank(g)[id], ptr, inst, patch, e);
  }

  /** Runs a subschema with a first-error handler of its own. */
  method ValidateApart(g: Graph, id: Id, ptr: Pointer, inst: Json, patch: JsonPatch, ghost e: ErrorHandler)
    returns (first: seq<Err>)
    requires Grounded(g) && id in g.nodes
    modifies patch
    ensures var r := Validate(g, id, ptr, inst);
      && first == (if r.errors == [] then [] else [r.errors[0]])
      && Reported(e.kind, old(Now(patch, e)), Report([], r.adds), false, Now(patch, e))
    decreases IsContainer(inst), inst, Rank(g)[id], 9, 1
  {
    hide Validate;
    ghost var before := Now(patch, e);
    var sub := new ErrorHandler(FirstError);
    var thrown := ValidateSchema(g, id, ptr, inst, patch, sub);
    first := sub.errors;
    OwnHandler(e.kind, before, Validate(g, id, ptr, inst), Now(patch, sub));
  }

  method ValidateType(g: Graph, t: TypeSchema, ghost bound: nat, ptr: Pointer, inst: Json, patch: JsonPatch,
                      e: ErrorHandler)
    returns (thrown: bool)
    requires Grounded(g) && Fits(g, t, bound)
    modifies patch, e
    ensures Reported(e.kind, old(Now(patch, e)), TypeReport(g, t, bound, ptr, inst), thrown, Now(patch, e))
    decreases IsContainer(inst), inst, bound, 8, 0
  {
    hide Reported, Then, KindReport, ChecksFrom, LogicFrom, ConditionalReport;
    ghost var before := Now(patch, e);
    ghost var a, b := KindReport(g, t, bound, ptr, inst), ChecksFrom(ValueChecks(t, inst), 0, ptr, inst);
    ghost var c, d := LogicFrom(g, t, bound, 0, ptr, inst), ConditionalReport(g, t, bound, ptr, inst);
    thrown := ValidateKind(g, t, bound, ptr, inst, patch, e);
    if thrown {
      Aborted(e.kind, before, a, Now(patch, e), Then(b, Then(c, d)));
      return;
    }
    ghost var mid := Now(patch, e);
    thrown := RunChecks(ValueChecks(t, inst), ptr, inst, patch, e);
    LoopStep(e.kind, before, a, mid, b, Then(c, d), thrown, Now(patch, e));
    if thrown {
      return;
    }
    ghost var done := Then(a, b);
    mid := Now(patch, e);
    thrown := ValidateLogicList(g, t, bound, ptr, inst, patch, e);
    LoopStep(e.kind, before, done, mid, c, d, thrown, Now(patch, e));
    if thrown {
      return;
    }
    mid := Now(patch, e);
    thrown := ValidateConditional(g, t, bound, ptr, inst, patch, e);
    Sequel(e.kind, before, Then(done, c), mid, d, thrown, Now(patch, e));
  }

  method ValidateKind(g: Graph, t: TypeSchema, ghost bound: nat, ptr: Pointer, inst: Json, patch: JsonPatch,
                      e: ErrorHandler)
    returns (thrown: bool)
    requires Grounded(g) && Fits(g, t, bound)
    modifies patch, e
    ensures Reported(e.kind, old(Now(patch, e)), KindReport(g, t, bound, ptr, inst), thrown, Now(patch, e))
    decreases IsContainer(inst), inst, bound, 7, 0
  {
    hide Reported, ObjectReport, ArrayReport, ChecksFrom, NumericChecks, TextChecks, Grounded, ErrorIf;
    match inst
    case Null => thrown := ErrorWhen(!t.nullType, ptr, inst, UnexpectedType, patch, e);
    case Bool(_) => thrown := ErrorWhen(!t.booleanType, ptr, inst, UnexpectedType, patch, e);
    case Int(n) =>
      if t.integerType.Some? {
        thrown := RunChecks(NumericChecks(t.integerType.value, n), ptr, inst, patch, e);
      } else {
        thrown := ErrorWhen(true, ptr, inst, UnexpectedType, patch, e);
      }
    case Str(s) =>
      if t.textType.Some? {
        thrown := RunChecks(TextChecks(g, t.textType.value, s), ptr, inst, patch, e);
      } else {
        thrown := ErrorWhen(true, ptr, inst, UnexpectedType, patch, e);
      }
    case Arr(_) =>
      if t.arrayType.Some? {
        thrown := ValidateArray(g, t.arrayType.value, bound, ptr, inst, patch, e);
      } else {
        thrown := ErrorWhen(true, ptr, inst, UnexpectedType, patch, e);
      }
    case Obj(_) =>
      if t.objectType.Some? {
        thrown := ValidateObject(g, t.objectType.value, bound, ptr, inst, patch, e);
      } else {
        thrown := ErrorWhen(true, ptr, inst, UnexpectedType, patch, e);
      }
  }

  method ValidateConditional(g: Graph, t: TypeSchema, ghost bound: nat, ptr: Pointer, inst: Json, patch: JsonPatch,
                             e: ErrorHandler)
    returns (thrown: bool)
    requires Grounded(g) && Fits(g, t, bound)
    modifies patch, e
    ensures Reported(e.kind, old(Now(patch, e)), ConditionalReport(g, t, bound, ptr, inst), thrown, Now(patch, e))
    decreases IsContainer(inst), inst, bound, 7, 0
  {
    hide Reported, Validate, Then;
    ghost var before := Now(patch, e);
    thrown := false;
    if t.ifSchema.None? {
      Start(e.kind, before, Nothing);
      return;
    }
    assert t.ifSchema.value in InPlace(Type(t));
    var first := ValidateApart(g, t.ifSchema.value, ptr, inst, patch, e);
    ghost var condition := Validate(g, t.ifSchema.value, ptr, inst);
    var chosen := if first == [] then t.thenSchema else t.elseSchema;
    if chosen.None? {
      ThenNothing(Report([], condition.adds));
      return;
    }
    assert chosen.value in InPlace(Type(t));
    ghost var mid := Now(patch, e);
    thrown := ValidateSchema(g, chosen.value, ptr, inst, patch, e);
    Sequel(e.kind, before, Report([], condition.adds), mid, Validate(g, chosen.value, ptr, inst), thrown,
        Now(patch, e));
  }

  method ValidateLogicList(g: Graph, t: TypeSchema, ghost bound: nat, ptr: Pointer, inst: Json, patch: JsonPatch,
                           e: ErrorHandler)
    returns (thrown: bool)
    requires Grounded(g) && Fits(g, t, bound)
    modifies patch, e
    ensures Reported(e.kind, old(Now(patch, e)), LogicFrom(g, t, bound, 0, ptr, inst), thrown, Now(patch, e))
    decreases IsContainer(inst), inst, bound, 6, 0
  {
    hide Reported, Then, LogicReport, InPlace, LogicIds;
    ghost var before, whole, done := Now(patch, e), LogicFrom(g, t, bound, 0, ptr, inst), Nothing;
    Start(e.kind, before, whole);
    thrown := false;
    for i := 0 to |t.logic|
      invariant Reported(e.kind, before, done, false, Now(patch, e))
      invariant Then(done, LogicFrom(g, t, bound, i, ptr, inst)) == whole
    {
      LogicLower(g, t, bound, i);
      ghost var mid := Now(patch, e);
      thrown := ValidateLogic(g, t.logic[i], bound, ptr, inst, patch, e);
      ghost var next := LogicReport(g, t.logic[i], bound, ptr, inst);
      LoopStep(e.kind, before, done, mid, next, LogicFrom(g, t, bound, i + 1, ptr, inst), thrown, Now(patch, e));
      if thrown {
        return;
      }
      done := Then(done, next);
    }
    ThenNothing(done);
  }

  method ValidateLogic(g: Graph, l: Logic, ghost bound: nat, ptr: Pointer, inst: Json, patch: JsonPatch,
                       e: ErrorHandler)
    returns (thrown: bool)
    requires Grounded(g) && Lower(g, LogicIds(l), bound)
    modifies patch, e
    ensures Reported(e.kind, old(Now(patch, e)), LogicReport(g, l, bound, ptr, inst), thrown, Now(patch, e))
    decreases IsContainer(inst), inst, bound, 5, 0
  {
    hide Reported, Then, Validate, CombinationFrom, InPlace;
    match l
    case Not(sub) =>
      ghost var before := Now(patch, e);
      var first := ValidateApart(g, sub, ptr, inst, patch, e);
      ghost var mid := Now(patch, e);
      thrown := ErrorWhen(first == [], ptr, inst, SubschemaSucceeded, patch, e);
      ghost var r := Validate(g, sub, ptr, inst);
      Sequel(e.kind, before, Report([], r.adds), mid, ErrorIf(r.errors == [], ptr, inst, SubschemaSucceeded), thrown,
          Now(patch, e));
    case Combination(_, _) =>
      thrown := ValidateCombination(g, l, bound, ptr, inst, patch, e);
  }

  method ValidateCombination(g: Graph, l: Logic, ghost bound: nat, ptr: Pointer, inst: Json, patch: JsonPatch,
                             e: ErrorHandler)
    returns (thrown: bool)
    requires Grounded(g) && l.Combination? && Lower(g, LogicIds(l), bound)
    modifies patch, e
    ensures Reported(e.kind, old(Now(patch, e)), CombinationFrom(g, l, bound, 0, 0, ptr, inst), thrown, Now(patch, e))
    decreases IsContainer(inst), inst, bound, 4, 0
  {
    hide Reported, Then, Validate, InPlace, LogicIds;
    ghost var before, whole, done := Now(patch, e), CombinationFrom(g, l, bound, 0, 0, ptr, inst), Nothing;
    Start(e.kind, before, whole);
    thrown := false;
    var count := 0;
    for i := 0 to |l.subs|
      invariant Reported(e.kind, before, done, false, Now(patch, e))
      invariant Then(done, CombinationFrom(g, l, bound, i, count, ptr, inst)) == whole
    {
      SubLower(g, l, bound, i);
      ghost var r, mid := Validate(g, l.subs[i], ptr, inst), Now(patch, e);
      var first := ValidateApart(g, l.subs[i], ptr, inst, patch, e);
      ghost var quiet := Now(patch, e);
      if first == [] {
        count := count + 1;
      }
      var completion := CompletionErrors(l.kind, first, count, ptr, inst);
      if completion != [] {
        thrown := e.Error(completion[0].ptr, completion[0].instance, completion[0].message);
      }
      ghost var next := Report(completion, r.adds);
      AddsThenErrors(e.kind, mid, r.adds, quiet, completion, thrown, Now(patch, e));
      var complete := Completes(l.kind, first != [], count);
      ghost var rest := if complete then Nothing else CombinationFrom(g, l, bound, i + 1, count, ptr, inst);
      LoopStep(e.kind, before, done, mid, next, rest, thrown, Now(patch, e));
      if thrown {
        return;
      }
      done := Then(done, next);
      if complete {
        ThenNothing(done);
        return;
      }
    }
    ghost var mid := Now(patch, e);
    thrown := ErrorWhen(count == 0, ptr, inst, NoneSucceeded, patch, e);
    Sequel(e.kind, before, done, mid, ErrorIf(count == 0, ptr, inst, NoneSucceeded), thrown, Now(patch, e));
  }

  lemma SubLower(g: Graph, l: Logic, bound: nat, i: nat)
    requires Grounded(g) && l.Combination? && Lower(g, LogicIds(l), bound) && i < |l.subs|
    ensures l.subs[i] in LogicIds(l) && l.subs[i] in g.nodes && Rank(g)[l.subs[i]] < bound
  {
    assert l.subs[i] in LogicIds(l);
  }

  /** A subschema that only added to the patch, followed by the error of `is_validate_complete`. */
  lemma AddsThenErrors(kind: HandlerKind, before: Log, adds: seq<Add>, mid: Log, errors: seq<Err>, thrown: bool,
                       after: Log)
    requires Reported(kind, before, Report([], adds), false, mid) && |errors| <= 1
    requires after.adds == mid.adds && after.errors == Absorb(kind, mid.errors, errors)
    requires thrown <==> kind == Throwing && errors != []
    ensures Reported(kind, before, Report(errors, adds), thrown, after)
  {
    assert before.errors + [] == before.errors;
  }

  // -------------------------------------------------------------------- objects

  method ValidateObject(g: Graph, o: ObjectSchema, ghost bound: nat, ptr: Pointer, inst: Json, patch: JsonPatch,
                        e: ErrorHandler)
    returns (thrown: bool)
    requires Grounded(g) && ObjectFits(g, o, bound) && inst.Obj?
    modifies patch, e
    ensures Reported(e.kind, old(Now(patch, e)), ObjectReport(g, o, bound, ptr, inst), thrown, Now(patch, e))
    decreases IsContainer(inst), inst, bound, 6, 0
  {
    hide Reported, Then, ChecksFrom, RequiredFrom, MembersFrom, DefaultsFrom, DependenciesFrom;
    ghost var before := Now(patch, e);
    ghost var a := ChecksFrom(PropertyCountChecks(o, |inst.members|), 0, ptr, inst);
    ghost var b, c := RequiredFrom(o.required, 0, ptr, inst, false), MembersFrom(g, o, bound, 0, ptr, inst);
    ghost var d, f := DefaultsFrom(g, o.properties, 0, ptr, inst), DependenciesFrom(g, o, bound, 0, ptr, inst);
    thrown := RunChecks(PropertyCountChecks(o, |inst.members|), ptr, inst, patch, e);
    if thrown {
      Aborted(e.kind, before, a, Now(patch, e), Then(b, Then(c, Then(d, f))));
      return;
    }
    ghost var mid := Now(patch, e);
    thrown := ValidateRequired(o.required, ptr, inst, false, patch, e);
    LoopStep(e.kind, before, a, mid, b, Then(c, Then(d, f)), thrown, Now(patch, e));
    if thrown {
      return;
    }
    ghost var done := Then(a, b);
    mid := Now(patch, e);
    thrown := ValidateMembers(g, o, bound, ptr, inst, patch, e);
    LoopStep(e.kind, before, done, mid, c, Then(d, f), thrown, Now(patch, e));
    if thrown {
      return;
    }
    done := Then(done, c);
    mid := Now(patch, e);
    thrown := AddDefaults(g, o.properties, ptr, inst, patch, e);
    LoopStep(e.kind, before, done, mid, d, f, thrown, Now(patch, e));
    if thrown {
      return;
    }
    mid := Now(patch, e);
    thrown := ValidateDependencies(g, o, bound, ptr, inst, patch, e);
    Sequel(e.kind, before, Then(done, d), mid, f, thrown, Now(patch, e));
  }

  method ValidateMembers(g: Graph, o: ObjectSchema, ghost bound: nat, ptr: Pointer, inst: Json, patch: JsonPatch,
                         e: ErrorHandler)
    returns (thrown: bool)
    requires Grounded(g) && ObjectFits(g, o, bound) && inst.Obj?
    modifies patch, e
    ensures Reported(e.kind, old(Now(patch, e)), MembersFrom(g, o, bound, 0, ptr, inst), thrown, Now(patch, e))
    decreases IsContainer(inst), inst, bound, 5, 0
  {
    hide Reported, Then, MemberReport;
    ghost var before, whole, done := Now(patch, e), MembersFrom(g, o, bound, 0, ptr, inst), Nothing;
    Start(e.kind, before, whole);
    thrown := false;
    for i := 0 to |inst.members|
      invariant Reported(e.kind, before, done, false, Now(patch, e))
      invariant Then(done, MembersFrom(g, o, bound, i, ptr, inst)) == whole
    {
      ghost var mid := Now(patch, e);
      thrown := ValidateMember(g, o, bound, i, ptr, inst, patch, e);
      ghost var next := MemberReport(g, o, bound, i, ptr, inst);
      LoopStep(e.kind, before, done, mid, next, MembersFrom(g, o, bound, i + 1, ptr, inst), thrown, Now(patch, e));
      if thrown {
        return;
      }
      done := Then(done, next);
    }
    ThenNothing(done);
  }

  method ValidateMember(g: Graph, o: ObjectSchema, ghost bound: nat, i: nat, ptr: Pointer, inst: Json,
                        patch: JsonPatch, e: ErrorHandler)
    returns (thrown: bool)
    requires Grounded(g) && ObjectFits(g, o, bound) && inst.Obj? && i < |inst.members|
    modifies patch, e
    ensures Reported(e.kind, old(Now(patch, e)), MemberReport(g, o, bound, i, ptr, inst), thrown, Now(patch, e))
    decreases IsContainer(inst), inst, bound, 4, 0
  {
    hide Reported, Then, Validate, PatternsFrom, AdditionalReport, FindProperty;
    var m := inst.members[i];
    ghost var before := Now(patch, e);
    ghost var a, b := NameReport(g, o, bound, i, ptr, inst), KnownReport(g, o, bound, i, ptr, inst);
    ghost var c, d := PatternsFrom(g, o, bound, i, 0, ptr, inst), AdditionalReport(g, o, bound, i, ptr, inst);
    thrown := false;
    if o.propertyNames.Some? {
      thrown := ValidateSchema(g, o.propertyNames.value, ptr, Str(m.key), patch, e);
    } else {
      Start(e.kind, before, Nothing);
    }
    if thrown {
      Aborted(e.kind, before, a, Now(patch, e), Then(b, Then(c, d)));
      return;
    }
    ghost var mid := Now(patch, e);
    var known := FindProperty(o.properties, m.key);
    if known.Some? {
      thrown := ValidateSchema(g, known.value, ptr + [Key(m.key)], m.value, patch, e);
    } else {
      Start(e.kind, mid, Nothing);
    }
    LoopStep(e.kind, before, a, mid, b, Then(c, d), thrown, Now(patch, e));
    if thrown {
      return;
    }
    ghost var done := Then(a, b);
    mid := Now(patch, e);
    var matched;
    thrown, matched := ValidatePatterns(g, o, bound, i, ptr, inst, patch, e);
    LoopStep(e.kind, before, done, mid, c, d, thrown, Now(patch, e));
    if thrown {
      return;
    }
    mid := Now(patch, e);
    thrown := ValidateAdditional(g, o, bound, i, known.Some? || matched, ptr, inst, patch, e);
    Sequel(e.kind, before, Then(done, c), mid, d, thrown, Now(patch, e));
  }

  method ValidatePattern(g: Graph, o: ObjectSchema, ghost bound: nat, i: nat, j: nat, ptr: Pointer, inst: Json,
                         patch: JsonPatch, e: ErrorHandler)
    returns (thrown: bool, matched: bool)
    requires Grounded(g) && ObjectFits(g, o, bound) && inst.Obj? && i < |inst.members| && j < |o.patternProperties|
    modifies patch, e
    ensures Reported(e.kind, old(Now(patch, e)), PatternReport(g, o, bound, i, j, ptr, inst), thrown, Now(patch, e))
    ensures matched == g.matches(inst.members[i].key, o.patternProperties[j].name)
    decreases IsContainer(inst), inst, bound, 2, 0
  {
    hide Reported, Validate;
    var p := o.patternProperties[j];
    assert p.schema in PropertyIds(o.patternProperties);
    Start(e.kind, Now(patch, e), Nothing);
    thrown := false;
    matched := g.matches(inst.members[i].key, p.name);
    if matched {
      thrown := ValidateSchema(g, p.schema, ptr + [Key(inst.members[i].key)], inst.members[i].value, patch, e);
    }
  }

  method ValidatePatterns(g: Graph, o: ObjectSchema, ghost bound: nat, i: nat, ptr: Pointer, inst: Json,
                          patch: JsonPatch, e: ErrorHandler)
    returns (thrown: bool, matched: bool)
    requires Grounded(g) && ObjectFits(g, o, bound) && inst.Obj? && i < |inst.members|
    modifies patch, e
    ensures Reported(e.kind, old(Now(patch, e)), PatternsFrom(g, o, bound, i, 0, ptr, inst), thrown, Now(patch, e))
    ensures !thrown ==> matched == AnyPatternMatches(g, o.patternProperties, inst.members[i].key)
    decreases IsContainer(inst), inst, bound, 3, 0
  {
    hide Reported, Then, PatternReport, ObjectFits;
    var m := inst.members[i];
    ghost var before, whole, done := Now(patch, e), PatternsFrom(g, o, bound, i, 0, ptr, inst), Nothing;
    Start(e.kind, before, whole);
    thrown, matched := false, false;
    for j := 0 to |o.patternProperties|
      invariant Reported(e.kind, before, done, false, Now(patch, e))
      invariant Then(done, PatternsFrom(g, o, bound, i, j, ptr, inst)) == whole
      invariant matched <==> exists k :: 0 <= k < j && g.matches(m.key, o.patternProperties[k].name)
    {
      ghost var mid, next := Now(patch, e), PatternReport(g, o, bound, i, j, ptr, inst);
      var hit;
      thrown, hit := ValidatePattern(g, o, bound, i, j, ptr, inst, patch, e);
      matched := matched || hit;
      LoopStep(e.kind, before, done, mid, next, PatternsFrom(g, o, bound, i, j + 1, ptr, inst), thrown, Now(patch, e));
      if thrown {
        return;
      }
      done := Then(done, next);
    }
    ThenNothing(done);
  }

  method ValidateAdditional(g: Graph, o: ObjectSchema, ghost bound: nat, i: nat, matched: bool, ptr: Pointer,
                            inst: Json,
                            patch: JsonPatch, e: ErrorHandler)
    returns (thrown: bool)
    requires Grounded(g) && ObjectFits(g, o, bound) && inst.Obj? && i < |inst.members|
    requires matched <==> FindProperty(o.properties, inst.members[i].key).Some?
                          || AnyPatternMatches(g, o.patternProperties, inst.members[i].key)
    modifies patch, e
    ensures Reported(e.kind, old(Now(patch, e)), AdditionalReport(g, o, bound, i, ptr, inst), thrown, Now(patch, e))
    decreases IsContainer(inst), inst, bound, 3, 0
  {
    hide Reported, Then, Validate, FindProperty, AnyPatternMatches;
    var m := inst.members[i];
    ghost var before := Now(patch, e);
    thrown := false;
    if matched || o.additionalProperties.None? {
      Start(e.kind, before, Nothing);
      return;
    }
    var below := ptr + [Key(m.key)];
    ghost var r := Validate(g, o.additionalProperties.value, below, m.value);
    var first := ValidateApart(g, o.additionalProperties.value, below, m.value, patch, e);
    ghost var mid := Now(patch, e);
    if first == [] {
      ThenNothing(Report([], r.adds));
    } else {
      var message := AdditionalPropertyFailed(m.key, first[0].message);
      thrown := ErrorWhen(true, ptr, inst, message, patch, e);
      Sequel(e.kind, before, Report([], r.adds), mid, ErrorIf(true, ptr, inst, message), thrown, Now(patch, e));
    }
  }

  method DefaultValue(g: Graph, id: Id, ptr: Pointer, inst: Json, patch: JsonPatch, e: ErrorHandler)
    returns (value: Json, thrown: bool)
    requires Grounded(g) && id in g.nodes
    modifies e
    ensures match DefaultOf(g, id)
      case Found(d) => value == d && !thrown && Now(patch, e) == old(Now(patch, e))
      case Dangling(name) =>
        && value == Null
        && Reported(e.kind, old(Now(patch, e)), ErrorIf(true, ptr, inst, UnresolvedReference(name)), thrown,
            Now(patch, e))
    decreases Rank(g)[id]
  {
    thrown := false;
    NodeFits(g, id);
    match g.nodes[id]
    case Boolean(_) => value := Null;
    case Type(t) => value := t.defaultValue;
    case Ref(name, target, d) =>
      value := d;
      if d == Null {
        if target.Some? {
          value, thrown := DefaultValue(g, target.value, ptr, inst, patch, e);
        } else {
          thrown := ErrorWhen(true, ptr, inst, UnresolvedReference(name), patch, e);
        }
      }
  }

  method AddDefaults(g: Graph, ps: seq<Property>, ptr: Pointer, inst: Json, patch: JsonPatch, e: ErrorHandler)
    returns (thrown: bool)
    requires Grounded(g) && PropertyIds(ps) <= g.nodes.Keys && inst.Obj?
    modifies patch, e
    ensures Reported(e.kind, old(Now(patch, e)), DefaultsFrom(g, ps, 0, ptr, inst), thrown, Now(patch, e))
  {
    hide Reported, Then, DefaultOf;
    ghost var before, whole, done := Now(patch, e), DefaultsFrom(g, ps, 0, ptr, inst), Nothing;
    Start(e.kind, before, whole);
    thrown := false;
    for j := 0 to |ps|
      invariant Reported(e.kind, before, done, false, Now(patch, e))
      invariant Then(done, DefaultsFrom(g, ps, j, ptr, inst)) == whole
    {
      assert ps[j].schema in PropertyIds(ps);
      ghost var mid, next := Now(patch, e), OneDefault(g, ps[j], ptr, inst);
      Start(e.kind, mid, Nothing);
      if FindMember(inst.members, ps[j].name).None? {
        var value;
        value, thrown := DefaultValue(g, ps[j].schema, ptr, inst, patch, e);
        if thrown {
          LoopStep(e.kind, before, done, mid, next, DefaultsFrom(g, ps, j + 1, ptr, inst), thrown, Now(patch, e));
          return;
        }
        if value != Null {
          patch.Append(ptr + [Key(ps[j].name)], value);
          AddReported(e.kind, mid, Add(ptr + [Key(ps[j].name)], value));
        }
      }
      LoopStep(e.kind, before, done, mid, next, DefaultsFrom(g, ps, j + 1, ptr, inst), thrown, Now(patch, e));
      done := Then(done, next);
    }
    ThenNothing(done);
  }

  lemma AddReported(kind: HandlerKind, before: Log, add: Add)
    ensures Reported(kind, before, Report([], [add]), false, Log(before.errors, before.adds + [add]))
  {
  }

  method ValidateDependencies(g: Graph, o: ObjectSchema, ghost bound: nat, ptr: Pointer, inst: Json,
                              patch: JsonPatch, e: ErrorHandler)
    returns (thrown: bool)
    requires Grounded(g) && ObjectFits(g, o, bound) && inst.Obj?
    modifies patch, e
    ensures Reported(e.kind, old(Now(patch, e)), DependenciesFrom(g, o, bound, 0, ptr, inst), thrown, Now(patch, e))
    decreases IsContainer(inst), inst, bound, 5, 0
  {
    hide Reported, Then, RequiredFrom, Validate;
    ghost var before, whole, done := Now(patch, e), DependenciesFrom(g, o, bound, 0, ptr, inst), Nothing;
    Start(e.kind, before, whole);
    thrown := false;
    for j := 0 to |o.dependencies|
      invariant Reported(e.kind, before, done, false, Now(patch, e))
      invariant Then(done, DependenciesFrom(g, o, bound, j, ptr, inst)) == whole
    {
      var d := o.dependencies[j];
      ghost var mid, next := Now(patch, e), DependencyReport(g, o, bound, j, ptr, inst);
      if FindMember(inst.members, d.name).None? {
        Start(e.kind, mid, Nothing);
      } else {
        match d.rule
        case Needs(names) => thrown := ValidateRequired(names, ptr + [Key(d.name)], inst, true, patch, e);
        case Satisfies(id) =>
          assert id in RuleIds(o.dependencies[j].rule);
          thrown := ValidateSchema(g, id, ptr + [Key(d.name)], inst, patch, e);
      }
      LoopStep(e.kind, before, done, mid, next, DependenciesFrom(g, o, bound, j + 1, ptr, inst), thrown, Now(patch, e));
      if thrown {
        return;
      }
      done := Then(done, next);
    }
    ThenNothing(done);
  }

  // --------------------------------------------------------------------- arrays

  method ValidateArray(g: Graph, a: ArraySchema, ghost bound: nat, ptr: Pointer, inst: Json, patch: JsonPatch,
                       e: ErrorHandler)
    returns (thrown: bool)
    requires Grounded(g) && ArrayIds(a) <= g.nodes.Keys && inst.Arr?
    modifies patch, e
    ensures Reported(e.kind, old(Now(patch, e)), ArrayReport(g, a, bound, ptr, inst), thrown, Now(patch, e))
    decreases IsContainer(inst), inst, bound, 6, 0
  {
    hide Reported, Then, ChecksFrom, UniqueFrom, ItemsFrom, TupleFrom, ContainsFrom;
    ghost var before := Now(patch, e);
    ghost var r0 := ChecksFrom(ItemCountChecks(a, |inst.items|), 0, ptr, inst);
    ghost var r1 := if a.uniqueItems then UniqueFrom(0, ptr, inst) else Nothing;
    ghost var r2 := if a.itemsSchema.Some? then ItemsFrom(g, a, bound, 0, ptr, inst)
        else TupleFrom(g, a, bound, 0, ptr, inst);
    ghost var r3 := if a.contains.Some? then ContainsFrom(g, a, bound, 0, ptr, inst) else Nothing;
    thrown := RunChecks(ItemCountChecks(a, |inst.items|), ptr, inst, patch, e);
    if thrown {
      Aborted(e.kind, before, r0, Now(patch, e), Then(r1, Then(r2, r3)));
      return;
    }
    ghost var mid := Now(patch, e);
    if a.uniqueItems {
      thrown := ValidateUnique(ptr, inst, patch, e);
    } else {
      Start(e.kind, mid, Nothing);
    }
    LoopStep(e.kind, before, r0, mid, r1, Then(r2, r3), thrown, Now(patch, e));
    if thrown {
      return;
    }
    ghost var done := Then(r0, r1);
    mid := Now(patch, e);
    if a.itemsSchema.Some? {
      thrown := ValidateItems(g, a, bound, ptr, inst, patch, e);
    } else {
      thrown := ValidateTuple(g, a, bound, ptr, inst, patch, e);
    }
    LoopStep(e.kind, before, done, mid, r2, r3, thrown, Now(patch, e));
    if thrown {
      return;
    }
    mid := Now(patch, e);
    if a.contains.Some? {
      thrown := ValidateContains(g, a, bound, ptr, inst, patch, e);
    } else {
      Start(e.kind, mid, Nothing);
    }
    Sequel(e.kind, before, Then(done, r2), mid, r3, thrown, Now(patch, e));
  }

  method ValidateUnique(ptr: Pointer, inst: Json, patch: JsonPatch, e: ErrorHandler) returns (thrown: bool)
    requires inst.Arr?
    modifies e
    ensures Reported(e.kind, old(Now(patch, e)), UniqueFrom(0, ptr, inst), thrown, Now(patch, e))
  {
    hide Reported, Then;
    ghost var before, whole, done := Now(patch, e), UniqueFrom(0, ptr, inst), Nothing;
    Start(e.kind, before, whole);
    thrown := false;
    for i := 0 to |inst.items|
      invariant Reported(e.kind, before, done, false, Now(patch, e))
      invariant Then(done, UniqueFrom(i, ptr, inst)) == whole
    {
      ghost var mid := Now(patch, e);
      var again := inst.items[i] in inst.items[i + 1..];
      thrown := ErrorWhen(again, ptr, inst, ItemsNotUnique, patch, e);
      ghost var next := ErrorIf(again, ptr, inst, ItemsNotUnique);
      LoopStep(e.kind, before, done, mid, next, UniqueFrom(i + 1, ptr, inst), thrown, Now(patch, e));
      if thrown {
        return;
      }
      done := Then(done, next);
    }
    ThenNothing(done);
  }

  method ValidateItems(g: Graph, a: ArraySchema, ghost bound: nat, ptr: Pointer, inst: Json, patch: JsonPatch,
                       e: ErrorHandler)
    returns (thrown: bool)
    requires Grounded(g) && ArrayIds(a) <= g.nodes.Keys && inst.Arr? && a.itemsSchema.Some?
    modifies patch, e
    ensures Reported(e.kind, old(Now(patch, e)), ItemsFrom(g, a, bound, 0, ptr, inst), thrown, Now(patch, e))
    decreases IsContainer(inst), inst, bound, 5, 0
  {
    hide Reported, Then, Validate;
    ghost var before, whole, done := Now(patch, e), ItemsFrom(g, a, bound, 0, ptr, inst), Nothing;
    Start(e.kind, before, whole);
    thrown := false;
    for i := 0 to |inst.items|
      invariant Reported(e.kind, before, done, false, Now(patch, e))
      invariant Then(done, ItemsFrom(g, a, bound, i, ptr, inst)) == whole
    {
      ghost var mid := Now(patch, e);
      thrown := ValidateSchema(g, a.itemsSchema.value, ptr + [Index(i)], inst.items[i], patch, e);
      ghost var next := Validate(g, a.itemsSchema.value, ptr + [Index(i)], inst.items[i]);
      LoopStep(e.kind, before, done, mid, next, ItemsFrom(g, a, bound, i + 1, ptr, inst), thrown, Now(patch, e));
      if thrown {
        return;
      }
      done := Then(done, next);
    }
    ThenNothing(done);
  }

  method ValidateTuple(g: Graph, a: ArraySchema, ghost bound: nat, ptr: Pointer, inst: Json, patch: JsonPatch,
                       e: ErrorHandler)
    returns (thrown: bool)
    requires Grounded(g) && ArrayIds(a) <= g.nodes.Keys && inst.Arr?
    modifies patch, e
    ensures Reported(e.kind, old(Now(patch, e)), TupleFrom(g, a, bound, 0, ptr, inst), thrown, Now(patch, e))
    decreases IsContainer(inst), inst, bound, 5, 0
  {
    hide Reported, Then, Validate;
    ghost var before, whole, done := Now(patch, e), TupleFrom(g, a, bound, 0, ptr, inst), Nothing;
    Start(e.kind, before, whole);
    thrown := false;
    for i := 0 to |inst.items|
      invariant Reported(e.kind, before, done, false, Now(patch, e))
      invariant Then(done, TupleFrom(g, a, bound, i, ptr, inst)) == whole
    {
      var validator := TupleValidator(a, i);
      if validator.None? {
        break;
      }
      assert validator.value in ArrayIds(a);
      ghost var mid := Now(patch, e);
      thrown := ValidateSchema(g, validator.value, ptr + [Index(0)], inst.items[i], patch, e);
      ghost var next := Validate(g, validator.value, ptr + [Index(0)], inst.items[i]);
      LoopStep(e.kind, before, done, mid, next, TupleFrom(g, a, bound, i + 1, ptr, inst), thrown, Now(patch, e));
      if thrown {
        return;
      }
      done := Then(done, next);
    }
    ThenNothing(done);
  }

  method ValidateContains(g: Graph, a: ArraySchema, ghost bound: nat, ptr: Pointer, inst: Json, patch: JsonPatch,
                          e: ErrorHandler)
    returns (thrown: bool)
    requires Grounded(g) && ArrayIds(a) <= g.nodes.Keys && inst.Arr? && a.contains.Some?
    modifies patch, e
    ensures Reported(e.kind, old(Now(patch, e)), ContainsFrom(g, a, bound, 0, ptr, inst), thrown, Now(patch, e))
    decreases IsContainer(inst), inst, bound, 5, 0
  {
    hide Reported, Then, Validate;
    ghost var before, whole, done := Now(patch, e), ContainsFrom(g, a, bound, 0, ptr, inst), Nothing;
    Start(e.kind, before, whole);
    thrown := false;
    for i := 0 to |inst.items|
      invariant Reported(e.kind, before, done, false, Now(patch, e))
      invariant Then(done, ContainsFrom(g, a, bound, i, ptr, inst)) == whole
    {
      ghost var r, mid := Validate(g, a.contains.value, ptr, inst.items[i]), Now(patch, e);
      var first := ValidateApart(g, a.contains.value, ptr, inst.items[i], patch, e);
      ghost var rest := if first == [] then Nothing else ContainsFrom(g, a, bound, i + 1, ptr, inst);
      LoopStep(e.kind, before, done, mid, Report([], r.adds), rest, false, Now(patch, e));
      done := Then(done, Report([], r.adds));
      if first == [] {
        ThenNothing(done);
        return;
      }
    }
    ghost var mid := Now(patch, e);
    thrown := ErrorWhen(true, ptr, inst, ContainsFailed, patch, e);
    Sequel(e.kind, before, done, mid, ErrorIf(true, ptr, inst, ContainsFailed), thrown, Now(patch, e));
  }

  /** The compiled schemas by location and fragment, and whether a root schema has been set. */
  datatype Schemas = Schemas(rootSet: bool, files: map<string, map<string, Id>>)

  /** All compiled schemas are nodes of the graph. */
  predicate SchemasFit(g: Graph, schemas: Schemas) {
    forall l, f :: l in schemas.files && f in schemas.files[l] ==> schemas.files[l][f] in g.nodes
  }

  /** The schema that the initial URI leads to, or why there is none. */
  datatype Entry = NoRoot | NoFile | NoSchema | Entry(schema: Id)

  function EntryAt(schemas: Schemas, location: string, fragment: string): Entry {
    if !schemas.rootSet then NoRoot
    else if location !in schemas.files then NoFile
    else if fragment !in schemas.files[location] then NoSchema
    else Entry(schemas.files[location][fragment])
  }

  ghost function EntryReport(g: Graph, entry: Entry, inst: Json): Report
    requires Grounded(g) && (entry.Entry? ==> entry.schema in g.nodes)
  {
    match entry
    case NoRoot => ErrorIf(true, [], Str(""), NoRootSchema)
    case NoFile => ErrorIf(true, [], Str(""), NoFileAtInitialUri)
    case NoSchema => ErrorIf(true, [], Str(""), NoSchemaAtInitialUri)
    case Entry(id) => Validate(g, id, [], inst)
  }

  /** A validation from an initial URI; without a schema there, the one error says what is missing. */
  method ValidateInstance(g: Graph, schemas: Schemas, location: string, fragment: string, inst: Json, e: ErrorHandler)
    returns (thrown: bool, patch: JsonPatch)
    requires Grounded(g) && SchemasFit(g, schemas)
    modifies e
    ensures fresh(patch)
    ensures Reported(e.kind, Log(old(e.errors), []), EntryReport(g, EntryAt(schemas, location, fragment), inst), thrown,
                     Now(patch, e))
  {
    patch := new JsonPatch();
    if !schemas.rootSet {
      thrown := ErrorWhen(true, [], Str(""), NoRootSchema, patch, e);
      return;
    }
    if location !in schemas.files {
      thrown := ErrorWhen(true, [], Str(""), NoFileAtInitialUri, patch, e);
      return;
    }
    var file := schemas.files[location];
    if fragment !in file {
      thrown := ErrorWhen(true, [], Str(""), NoSchemaAtInitialUri, patch, e);
      return;
    }
    thrown := ValidateSchema(g, file[fragment], [], inst, patch, e);
  }

  datatype Outcome = Valid(patch: seq<Add>) | Throws(error: Err)

  /**
   The throwing entry point, from the root of the root document: it throws the first error that a
   collecting handler would hold, and for a resolved root schema exactly when the schema rejects.
   */
  method ValidateOrThrow(g: Graph, schemas: Schemas, inst: Json) returns (outcome: Outcome)
    requires Grounded(g) && SchemasFit(g, schemas)
    ensures var r := EntryReport(g, EntryAt(schemas, "", ""), inst);
      outcome == if r.errors == [] then Valid(r.adds) else Throws(r.errors[0])
    ensures var entry := EntryAt(schemas, "", "");
      entry.Entry? && Resolved(g) ==> (outcome.Valid? <==> Semantics.Accepts(g, entry.schema, inst))
  {
    hide Validate, Semantics.Accepts, Grounded, Resolved;
    var e := new ErrorHandler(Throwing);
    var thrown, patch := ValidateInstance(g, schemas, "", "", inst, e);
    if thrown {
      outcome := Throws(e.errors[0]);
    } else {
      outcome := Valid(patch.operations);
    }
    var entry := EntryAt(schemas, "", "");
    if entry.Entry? && Resolved(g) {
      Semantics.Verdict(g, entry.schema, [], inst);
    }
  }
}
