/**
 What one validation call reports, as a value: the errors it hands to a handler
 that keeps them all, and the default values it adds to the patch, both in order.

 The functions follow the validators statement by statement, early exits
 included.  They recurse on a smaller instance, or stay on the instance and go
 down in the ranking of a grounded graph.
 */
module ValidationReport {
  import opened Wrappers
  import opened JsonValues
  import opened SchemaGraph

  datatype Message =
    | UnresolvedReference(name: string)
    | FalseSchema
    | SubschemaSucceeded
    | AllOfFailed(inner: Message)
    | NoneSucceeded
    | MoreThanOneSucceeded
    | UnexpectedType
    | NotInEnum
    | NotConst
    | AboveMaximum(exclusive: bool)
    | BelowMinimum(exclusive: bool)
    | TooShort
    | TooLong
    | ContentCheckFailed
    | PatternMismatch
    | FormatCheckFailed
    | TooManyProperties
    | TooFewProperties
    | MissingProperty(name: string)
    | MissingDependency(name: string)
    | AdditionalPropertyFailed(name: string, inner: Message)
    | TooManyItems
    | TooFewItems
    | ItemsNotUnique
    | ContainsFailed
    | NoRootSchema
    | NoFileAtInitialUri
    | NoSchemaAtInitialUri

  datatype Err = Err(ptr: Pointer, instance: Json, message: Message)

  datatype Report = Report(errors: seq<Err>, adds: seq<Add>)

  const Nothing := Report([], [])

  function Then(a: Report, b: Report): Report {
    Report(a.errors + b.errors, a.adds + b.adds)
  }

  lemma ThenNothing(r: Report)
    ensures Then(r, Nothing) == r == Then(Nothing, r)
  {
    assert r.errors + [] == r.errors && r.adds + [] == r.adds;
    assert [] + r.errors == r.errors && [] + r.adds == r.adds;
  }

  function ErrorIf(c: bool, ptr: Pointer, inst: Json, m: Message): Report {
    if c then Report([Err(ptr, inst, m)], []) else Nothing
  }

  // -------------------------------------------------- keywords without schemas

  /** One `if` of a validator: the error is reported when the check fails. */
  datatype Check = Check(fails: bool, message: Message)

  function ChecksFrom(checks: seq<Check>, i: nat, ptr: Pointer, inst: Json): Report
    requires i <= |checks|
    decreases |checks| - i
  {
    if i == |checks| then Nothing
    else Then(ErrorIf(checks[i].fails, ptr, inst, checks[i].message), ChecksFrom(checks, i + 1, ptr, inst))
  }

  function NumericChecks(k: Numeric, n: int): seq<Check> {
    var reaches := k.exclusiveMaximum && k.maximum.Some? && n >= k.maximum.value;
    var sinks := k.exclusiveMinimum && k.minimum.Some? && n <= k.minimum.value;
    [Check(k.maximum.Some? && (reaches || n > k.maximum.value), AboveMaximum(reaches)),
     Check(k.minimum.Some? && (sinks || n < k.minimum.value), BelowMinimum(sinks))]
  }

  /** The characters of a JSON string are its bytes; continuation bytes do not count. */
  function Utf8Length(s: string): nat {
    if s == [] then 0
    else (if 0x80 <= s[0] as int < 0xc0 then 0 else 1) + Utf8Length(s[1..])
  }

  function TextChecks(g: Graph, k: Text, s: string): seq<Check> {
    [Check(k.minLength.Some? && Utf8Length(s) < k.minLength.value, TooShort),
     Check(k.maxLength.Some? && Utf8Length(s) > k.maxLength.value, TooLong),
     Check(k.content.Some? && !g.contentHolds(k.content.value, s), ContentCheckFailed),
     Check(k.pattern.Some? && !g.matches(s, k.pattern.value), PatternMismatch),
     Check(k.format.Some? && !g.formatHolds(k.format.value, s), FormatCheckFailed)]
  }

  function ValueChecks(t: TypeSchema, inst: Json): seq<Check> {
    [Check(t.enumeration.Some? && inst !in t.enumeration.value, NotInEnum),
     Check(t.constant.Some? && t.constant.value != inst, NotConst)]
  }

  function PropertyCountChecks(o: ObjectSchema, size: nat): seq<Check> {
    [Check(o.maxProperties.Some? && size > o.maxProperties.value, TooManyProperties),
     Check(o.minProperties.Some? && size < o.minProperties.value, TooFewProperties)]
  }

  function ItemCountChecks(a: ArraySchema, size: nat): seq<Check> {
    [Check(a.maxItems.Some? && size > a.maxItems.value, TooManyItems),
     Check(a.minItems.Some? && size < a.minItems.value, TooFewItems)]
  }

  /** One error per absent name, from `names[i]` on. */
  function RequiredFrom(names: seq<string>, i: nat, ptr: Pointer, inst: Json, dependency: bool): Report
    requires i <= |names| && inst.Obj?
    decreases |names| - i
  {
    if i == |names| then Nothing
    else Then(
      ErrorIf(FindMember(inst.members, names[i]).None?, ptr, inst,
              if dependency then MissingDependency(names[i]) else MissingProperty(names[i])),
      RequiredFrom(names, i + 1, ptr, inst, dependency))
  }

  /** One error per item that occurs again later. */
  function UniqueFrom(i: nat, ptr: Pointer, inst: Json): Report
    requires inst.Arr? && i <= |inst.items|
    decreases |inst.items| - i
  {
    if i == |inst.items| then Nothing
    else Then(ErrorIf(inst.items[i] in inst.items[i + 1..], ptr, inst, ItemsNotUnique),
              UniqueFrom(i + 1, ptr, inst))
  }

  function FindProperty(ps: seq<Property>, name: string): (r: Option<Id>)
    ensures r.Some? ==> r.value in PropertyIds(ps)
    ensures r.Some? <==> exists i :: 0 <= i < |ps| && ps[i].name == name
    ensures r.Some? ==> exists i :: 0 <= i < |ps| && ps[i] == Property(name, r.value)
  {
    if ps == [] then None
    else if ps[0].name == name then
      assert ps[0] == Property(name, ps[0].schema);
      Some(ps[0].schema)
    else
      var r := FindProperty(ps[1..], name);
      assert r.Some? ==> exists i :: 0 <= i < |ps| && ps[i] == Property(name, r.value) by {
        if r.Some? {
          var i :| 0 <= i < |ps[1..]| && ps[1..][i] == Property(name, r.value);
          assert ps[i + 1] == Property(name, r.value);
        }
      }
      assert (exists i :: 0 <= i < |ps| && ps[i].name == name) ==> r.Some? by {
        if i :| 0 <= i < |ps| && ps[i].name == name {
          assert ps[1..][i - 1].name == name;
        }
      }
      r
  }

  predicate AnyPatternMatches(g: Graph, ps: seq<Property>, name: string) {
    exists j :: 0 <= j < |ps| && g.matches(name, ps[j].name)
  }

  // ------------------------------------------------------------------ defaults

  /** The default of a schema; a reference falls back on the default of its target. */
  datatype Default = Found(value: Json) | Dangling(name: string)

  ghost function DefaultOf(g: Graph, id: Id): Default
    requires Grounded(g) && id in g.nodes
    decreases Rank(g)[id]
  {
    match g.nodes[id]
    case Boolean(_) => Found(Null)
    case Type(t) => Found(t.defaultValue)
    case Ref(name, target, d) =>
      if d != Null then Found(d)
      else if target.Some? then
        assert target.value in InPlace(g.nodes[id]);
        DefaultOf(g, target.value)
      else Dangling(name)
  }

  /** Missing properties, from `o.properties[j]` on, get their defaults. */
  ghost function DefaultsFrom(g: Graph, ps: seq<Property>, j: nat, ptr: Pointer, inst: Json): Report
    requires Grounded(g) && PropertyIds(ps) <= g.nodes.Keys && j <= |ps| && inst.Obj?
    decreases |ps| - j
  {
    if j == |ps| then Nothing
    else Then(OneDefault(g, ps[j], ptr, inst), DefaultsFrom(g, ps, j + 1, ptr, inst))
  }

  ghost function OneDefault(g: Graph, p: Property, ptr: Pointer, inst: Json): Report
    requires Grounded(g) && p.schema in g.nodes && inst.Obj?
  {
    if FindMember(inst.members, p.name).Some? then Nothing
    else match DefaultOf(g, p.schema)
      case Dangling(name) => ErrorIf(true, ptr, inst, UnresolvedReference(name))
      case Found(d) => if d == Null then Nothing else Report([], [Add(ptr + [Key(p.name)], d)])
  }

  // ------------------------------------------------------- the schema validators

  /** `ids` are nodes that rank below `bound`. */
  ghost predicate Lower(g: Graph, ids: set<Id>, bound: nat)
    requires Grounded(g)
  {
    forall id :: id in ids ==> id in g.nodes && Rank(g)[id] < bound
  }

  /** A type schema all of whose in-place schemas rank below `bound`. */
  ghost predicate Fits(g: Graph, t: TypeSchema, bound: nat)
    requires Grounded(g)
  {
    Lower(g, InPlace(Type(t)), bound) && Below(Type(t)) <= g.nodes.Keys
  }

  lemma NodeFits(g: Graph, id: Id)
    requires Grounded(g) && id in g.nodes
    ensures g.nodes[id].Type? ==> Fits(g, g.nodes[id].schema, Rank(g)[id])
    ensures g.nodes[id].Ref? && g.nodes[id].target.Some? ==>
      g.nodes[id].target.value in g.nodes && Rank(g)[g.nodes[id].target.value] < Rank(g)[id]
  {
    var n := g.nodes[id];
    assert forall t :: t in InPlace(n) ==> t in g.nodes && Rank(g)[t] < Rank(g)[id];
    if n.Ref? && n.target.Some? {
      assert n.target.value in InPlace(n);
    }
  }

  ghost function Validate(g: Graph, id: Id, ptr: Pointer, inst: Json): Report
    requires Grounded(g) && id in g.nodes
    decreases IsContainer(inst), inst, Rank(g)[id], 9, 0
  {
    NodeFits(g, id);
    match g.nodes[id]
    case Boolean(accepting) => ErrorIf(!accepting, ptr, inst, FalseSchema)
    case Ref(name, target, _) =>
      if target.Some? then Validate(g, target.value, ptr, inst)
      else ErrorIf(true, ptr, inst, UnresolvedReference(name))
    case Type(t) => TypeReport(g, t, Rank(g)[id], ptr, inst)
  }

  ghost function TypeReport(g: Graph, t: TypeSchema, bound: nat, ptr: Pointer, inst: Json): Report
    requires Grounded(g) && Fits(g, t, bound)
    decreases IsContainer(inst), inst, bound, 8, 0
  {
    Then(KindReport(g, t, bound, ptr, inst),
    Then(ChecksFrom(ValueChecks(t, inst), 0, ptr, inst),
    Then(LogicFrom(g, t, bound, 0, ptr, inst),
         ConditionalReport(g, t, bound, ptr, inst))))
  }

  ghost function KindReport(g: Graph, t: TypeSchema, bound: nat, ptr: Pointer, inst: Json): Report
    requires Grounded(g) && Fits(g, t, bound)
    decreases IsContainer(inst), inst, bound, 7, 0
  {
    match inst
    case Null => ErrorIf(!t.nullType, ptr, inst, UnexpectedType)
    case Bool(_) => ErrorIf(!t.booleanType, ptr, inst, UnexpectedType)
    case Int(_) =>
      if t.integerType.Some? then ChecksFrom(NumericChecks(t.integerType.value, inst.n), 0, ptr, inst)
      else ErrorIf(true, ptr, inst, UnexpectedType)
    case Str(_) =>
      if t.textType.Some? then ChecksFrom(TextChecks(g, t.textType.value, inst.s), 0, ptr, inst)
      else ErrorIf(true, ptr, inst, UnexpectedType)
    case Arr(_) =>
      if t.arrayType.Some? then ArrayReport(g, t.arrayType.value, bound, ptr, inst)
      else ErrorIf(true, ptr, inst, UnexpectedType)
    case Obj(_) =>
      if t.objectType.Some? then ObjectReport(g, t.objectType.value, bound, ptr, inst)
      else ErrorIf(true, ptr, inst, UnexpectedType)
  }

  ghost function ConditionalReport(g: Graph, t: TypeSchema, bound: nat, ptr: Pointer, inst: Json): Report
    requires Grounded(g) && Fits(g, t, bound)
    decreases IsContainer(inst), inst, bound, 7, 0
  {
    if t.ifSchema.None? then Nothing
    else
      assert t.ifSchema.value in InPlace(Type(t));
      var condition := Validate(g, t.ifSchema.value, ptr, inst);
      var chosen := if condition.errors == [] then t.thenSchema else t.elseSchema;
      Then(Report([], condition.adds),
        if chosen.None? then Nothing
        else
          assert chosen.value in InPlace(Type(t));
          Validate(g, chosen.value, ptr, inst))
  }

  /** The `logic_` list from position `i` on. */
  ghost function LogicFrom(g: Graph, t: TypeSchema, bound: nat, i: nat, ptr: Pointer, inst: Json): Report
    requires Grounded(g) && Fits(g, t, bound) && i <= |t.logic|
    decreases IsContainer(inst), inst, bound, 6, |t.logic| - i
  {
    if i == |t.logic| then Nothing
    else
      LogicLower(g, t, bound, i);
      Then(LogicReport(g, t.logic[i], bound, ptr, inst), LogicFrom(g, t, bound, i + 1, ptr, inst))
  }

  lemma LogicLower(g: Graph, t: TypeSchema, bound: nat, i: nat)
    requires Grounded(g) && Fits(g, t, bound) && i < |t.logic|
    ensures Lower(g, LogicIds(t.logic[i]), bound)
  {
    forall id | id in LogicIds(t.logic[i])
      ensures id in g.nodes && Rank(g)[id] < bound
    {
      assert id in InPlace(Type(t));
    }
  }

  ghost function LogicReport(g: Graph, l: Logic, bound: nat, ptr: Pointer, inst: Json): Report
    requires Grounded(g) && Lower(g, LogicIds(l), bound)
    decreases IsContainer(inst), inst, bound, 5, 0
  {
    match l
    case Not(sub) =>
      var r := Validate(g, sub, ptr, inst);
      Then(Report([], r.adds), ErrorIf(r.errors == [], ptr, inst, SubschemaSucceeded))
    case Combination(kind, subs) => CombinationFrom(g, l, bound, 0, 0, ptr, inst)
  }

  /** What `is_validate_complete` reports after a subschema, and whether it stops the loop. */
  function CompletionErrors(kind: CombinationKind, failed: seq<Err>, count: nat, ptr: Pointer, inst: Json): seq<Err> {
    match kind
    case AllOf => if failed == [] then [] else [Err(failed[0].ptr, failed[0].instance, AllOfFailed(failed[0].message))]
    case AnyOf => []
    case OneOf => if count > 1 then [Err(ptr, inst, MoreThanOneSucceeded)] else []
  }

  predicate Completes(kind: CombinationKind, failed: bool, count: nat) {
    match kind
    case AllOf => failed
    case AnyOf => count == 1
    case OneOf => count > 1
  }

  /** The combination loop from subschema `i` on, `count` of the earlier ones having succeeded. */
  ghost function CombinationFrom(g: Graph, l: Logic, bound: nat, i: nat, count: nat, ptr: Pointer, inst: Json): Report
    requires Grounded(g) && l.Combination? && Lower(g, LogicIds(l), bound) && i <= |l.subs|
    decreases IsContainer(inst), inst, bound, 4, |l.subs| - i
  {
    if i == |l.subs| then ErrorIf(count == 0, ptr, inst, NoneSucceeded)
    else
      assert l.subs[i] in LogicIds(l);
      var r := Validate(g, l.subs[i], ptr, inst);
      var count' := if r.errors == [] then count + 1 else count;
      Then(Report(CompletionErrors(l.kind, r.errors, count', ptr, inst), r.adds),
        if Completes(l.kind, r.errors != [], count') then Nothing
        else CombinationFrom(g, l, bound, i + 1, count', ptr, inst))
  }

  /** One turn of the combination loop. */
  lemma CombinationUnfold(g: Graph, l: Logic, bound: nat, i: nat, count: nat, ptr: Pointer, inst: Json)
    requires Grounded(g) && l.Combination? && Lower(g, LogicIds(l), bound) && i < |l.subs|
    ensures l.subs[i] in LogicIds(l) && l.subs[i] in g.nodes && Rank(g)[l.subs[i]] < bound
    ensures var r := Validate(g, l.subs[i], ptr, inst);
      var count' := if r.errors == [] then count + 1 else count;
      CombinationFrom(g, l, bound, i, count, ptr, inst)
      == Then(Report(CompletionErrors(l.kind, r.errors, count', ptr, inst), r.adds),
           if Completes(l.kind, r.errors != [], count') then Nothing
           else CombinationFrom(g, l, bound, i + 1, count', ptr, inst))
  {
    hide Validate, CompletionErrors, Completes, Then;
    assert l.subs[i] in LogicIds(l);
  }

  // -------------------------------------------------------------------- objects

  ghost predicate ObjectFits(g: Graph, o: ObjectSchema, bound: nat)
    requires Grounded(g)
  {
    Lower(g, DependencyIds(o.dependencies), bound) && ObjectIds(o) <= g.nodes.Keys
  }

  ghost function ObjectReport(g: Graph, o: ObjectSchema, bound: nat, ptr: Pointer, inst: Json): Report
    requires Grounded(g) && ObjectFits(g, o, bound) && inst.Obj?
    decreases IsContainer(inst), inst, bound, 6, 0
  {
    Then(ChecksFrom(PropertyCountChecks(o, |inst.members|), 0, ptr, inst),
    Then(RequiredFrom(o.required, 0, ptr, inst, false),
    Then(MembersFrom(g, o, bound, 0, ptr, inst),
    Then(DefaultsFrom(g, o.properties, 0, ptr, inst),
         DependenciesFrom(g, o, bound, 0, ptr, inst)))))
  }

  ghost function MembersFrom(g: Graph, o: ObjectSchema, bound: nat, i: nat, ptr: Pointer, inst: Json): Report
    requires Grounded(g) && ObjectFits(g, o, bound) && inst.Obj? && i <= |inst.members|
    decreases IsContainer(inst), inst, bound, 5, |inst.members| - i
  {
    if i == |inst.members| then Nothing
    else Then(MemberReport(g, o, bound, i, ptr, inst), MembersFrom(g, o, bound, i + 1, ptr, inst))
  }

  ghost function MemberReport(g: Graph, o: ObjectSchema, bound: nat, i: nat, ptr: Pointer, inst: Json): Report
    requires Grounded(g) && ObjectFits(g, o, bound) && inst.Obj? && i < |inst.members|
    decreases IsContainer(inst), inst, bound, 4, 0
  {
    Then(NameReport(g, o, bound, i, ptr, inst),
    Then(KnownReport(g, o, bound, i, ptr, inst),
    Then(PatternsFrom(g, o, bound, i, 0, ptr, inst),
         AdditionalReport(g, o, bound, i, ptr, inst))))
  }

  ghost function NameReport(g: Graph, o: ObjectSchema, bound: nat, i: nat, ptr: Pointer, inst: Json): Report
    requires Grounded(g) && ObjectFits(g, o, bound) && inst.Obj? && i < |inst.members|
    decreases IsContainer(inst), inst, bound, 3, 0
  {
    if o.propertyNames.None? then Nothing
    else Validate(g, o.propertyNames.value, ptr, Str(inst.members[i].key))
  }

  ghost function KnownReport(g: Graph, o: ObjectSchema, bound: nat, i: nat, ptr: Pointer, inst: Json): Report
    requires Grounded(g) && ObjectFits(g, o, bound) && inst.Obj? && i < |inst.members|
    decreases IsContainer(inst), inst, bound, 3, 0
  {
    var m := inst.members[i];
    var known := FindProperty(o.properties, m.key);
    if known.None? then Nothing else Validate(g, known.value, ptr + [Key(m.key)], m.value)
  }

  predicate TakesAdditional(g: Graph, o: ObjectSchema, name: string) {
    && FindProperty(o.properties, name).None?
    && !AnyPatternMatches(g, o.patternProperties, name)
    && o.additionalProperties.Some?
  }

  ghost function AdditionalReport(g: Graph, o: ObjectSchema, bound: nat, i: nat, ptr: Pointer, inst: Json): Report
    requires Grounded(g) && ObjectFits(g, o, bound) && inst.Obj? && i < |inst.members|
    decreases IsContainer(inst), inst, bound, 3, 0
  {
    var m := inst.members[i];
    if !TakesAdditional(g, o, m.key) then Nothing
    else
      var r := Validate(g, o.additionalProperties.value, ptr + [Key(m.key)], m.value);
      Then(Report([], r.adds),
           if r.errors == [] then Nothing
           else ErrorIf(true, ptr, inst, AdditionalPropertyFailed(m.key, r.errors[0].message)))
  }

  ghost function PatternsFrom(g: Graph, o: ObjectSchema, bound: nat, i: nat, j: nat, ptr: Pointer, inst: Json): Report
    requires Grounded(g) && ObjectFits(g, o, bound) && inst.Obj? && i < |inst.members|
    requires j <= |o.patternProperties|
    decreases IsContainer(inst), inst, bound, 3, |o.patternProperties| - j
  {
    if j == |o.patternProperties| then Nothing
    else Then(PatternReport(g, o, bound, i, j, ptr, inst), PatternsFrom(g, o, bound, i, j + 1, ptr, inst))
  }

  ghost function PatternReport(g: Graph, o: ObjectSchema, bound: nat, i: nat, j: nat, ptr: Pointer, inst: Json): Report
    requires Grounded(g) && ObjectFits(g, o, bound) && inst.Obj? && i < |inst.members|
    requires j < |o.patternProperties|
    decreases IsContainer(inst), inst, bound, 2, 0
  {
    var p := o.patternProperties[j];
    assert p.schema in PropertyIds(o.patternProperties);
    if g.matches(inst.members[i].key, p.name)
    then Validate(g, p.schema, ptr + [Key(inst.members[i].key)], inst.members[i].value)
    else Nothing
  }

  ghost function DependenciesFrom(g: Graph, o: ObjectSchema, bound: nat, j: nat, ptr: Pointer, inst: Json): Report
    requires Grounded(g) && ObjectFits(g, o, bound) && inst.Obj? && j <= |o.dependencies|
    decreases IsContainer(inst), inst, bound, 5, |o.dependencies| - j
  {
    if j == |o.dependencies| then Nothing
    else Then(DependencyReport(g, o, bound, j, ptr, inst), DependenciesFrom(g, o, bound, j + 1, ptr, inst))
  }

  ghost function DependencyReport(g: Graph, o: ObjectSchema, bound: nat, j: nat, ptr: Pointer, inst: Json): Report
    requires Grounded(g) && ObjectFits(g, o, bound) && inst.Obj? && j < |o.dependencies|
    decreases IsContainer(inst), inst, bound, 4, 0
  {
    var d := o.dependencies[j];
    if FindMember(inst.members, d.name).None? then Nothing
    else match d.rule
      case Needs(names) => RequiredFrom(names, 0, ptr + [Key(d.name)], inst, true)
      case Satisfies(id) =>
        assert id in RuleIds(o.dependencies[j].rule);
        Validate(g, id, ptr + [Key(d.name)], inst)
  }

  // --------------------------------------------------------------------- arrays

  ghost function ArrayReport(g: Graph, a: ArraySchema, bound: nat, ptr: Pointer, inst: Json): Report
    requires Grounded(g) && ArrayIds(a) <= g.nodes.Keys && inst.Arr?
    decreases IsContainer(inst), inst, bound, 6, 0
  {
    Then(ChecksFrom(ItemCountChecks(a, |inst.items|), 0, ptr, inst),
    Then(if a.uniqueItems then UniqueFrom(0, ptr, inst) else Nothing,
    Then(if a.itemsSchema.Some? then ItemsFrom(g, a, bound, 0, ptr, inst) else TupleFrom(g, a, bound, 0, ptr, inst),
         if a.contains.Some? then ContainsFrom(g, a, bound, 0, ptr, inst) else Nothing)))
  }

  ghost function ItemsFrom(g: Graph, a: ArraySchema, bound: nat, i: nat, ptr: Pointer, inst: Json): Report
    requires Grounded(g) && ArrayIds(a) <= g.nodes.Keys && inst.Arr? && i <= |inst.items| && a.itemsSchema.Some?
    decreases IsContainer(inst), inst, bound, 5, |inst.items| - i
  {
    if i == |inst.items| then Nothing
    else Then(Validate(g, a.itemsSchema.value, ptr + [Index(i)], inst.items[i]),
        ItemsFrom(g, a, bound, i + 1, ptr, inst))
  }

  /** The validator of the item at position `i` of a tuple, if there is one. */
  function TupleValidator(a: ArraySchema, i: nat): Option<Id> {
    if i < |a.items| then Some(a.items[i]) else a.additionalItems
  }

  /** The first item without a validator ends the loop; the pointer stays at index 0. */
  ghost function TupleFrom(g: Graph, a: ArraySchema, bound: nat, i: nat, ptr: Pointer, inst: Json): Report
    requires Grounded(g) && ArrayIds(a) <= g.nodes.Keys && inst.Arr? && i <= |inst.items|
    decreases IsContainer(inst), inst, bound, 5, |inst.items| - i
  {
    if i == |inst.items| || TupleValidator(a, i).None? then Nothing
    else
      assert TupleValidator(a, i).value in ArrayIds(a);
      Then(Validate(g, TupleValidator(a, i).value, ptr + [Index(0)], inst.items[i]),
           TupleFrom(g, a, bound, i + 1, ptr, inst))
  }

  ghost function ContainsFrom(g: Graph, a: ArraySchema, bound: nat, i: nat, ptr: Pointer, inst: Json): Report
    requires Grounded(g) && ArrayIds(a) <= g.nodes.Keys && inst.Arr? && i <= |inst.items| && a.contains.Some?
    decreases IsContainer(inst), inst, bound, 5, |inst.items| - i
  {
    if i == |inst.items| then ErrorIf(true, ptr, inst, ContainsFailed)
    else
      var r := Validate(g, a.contains.value, ptr, inst.items[i]);
      Then(Report([], r.adds), if r.errors == [] then Nothing else ContainsFrom(g, a, bound, i + 1, ptr, inst))
  }
}
