/**
 Which instances a schema accepts, stated with quantifiers over the keywords as
 in sections 6.2 to 6.7 of draft-handrews-json-schema-validation-01, and the
 proof that the validators report an error exactly when the schema rejects.
 */
module Semantics {
  import opened Wrappers
  import opened JsonValues
  import opened SchemaGraph
  import opened ValidationReport

  ghost predicate Accepts(g: Graph, id: Id, inst: Json)
    requires Grounded(g) && id in g.nodes
    decreases IsContainer(inst), inst, Rank(g)[id], 3
  {
    NodeFits(g, id);
    match g.nodes[id]
    case Boolean(accepting) => accepting
    case Ref(_, target, _) => target.Some? && Accepts(g, target.value, inst)
    case Type(t) => AcceptsType(g, t, Rank(g)[id], inst)
  }

  ghost predicate AcceptsType(g: Graph, t: TypeSchema, bound: nat, inst: Json)
    requires Grounded(g) && Fits(g, t, bound)
    decreases IsContainer(inst), inst, bound, 2
  {
    && AcceptsKind(g, t, bound, inst)
    && (t.enumeration.Some? ==> inst in t.enumeration.value)
    && (t.constant.Some? ==> inst == t.constant.value)
    && (assert forall i :: 0 <= i < |t.logic| ==> Lower(g, LogicIds(t.logic[i]), bound) by {
          forall i | 0 <= i < |t.logic| ensures Lower(g, LogicIds(t.logic[i]), bound) { LogicLower(g, t, bound, i); }
        }
        All(seq(|t.logic|, i requires 0 <= i < |t.logic| => AcceptsLogic(g, t.logic[i], bound, inst))))
    && AcceptsConditional(g, t, bound, inst)
  }

  /** `then` binds the instances that `if` accepts, and `else` the others. */
  ghost predicate AcceptsConditional(g: Graph, t: TypeSchema, bound: nat, inst: Json)
    requires Grounded(g) && Fits(g, t, bound)
    decreases IsContainer(inst), inst, bound, 1
  {
    t.ifSchema.Some? ==>
      assert t.ifSchema.value in InPlace(Type(t));
      var chosen := if Accepts(g, t.ifSchema.value, inst) then t.thenSchema else t.elseSchema;
      chosen.Some? ==>
        assert chosen.value in InPlace(Type(t));
        Accepts(g, chosen.value, inst)
  }

  ghost predicate AcceptsKind(g: Graph, t: TypeSchema, bound: nat, inst: Json)
    requires Grounded(g) && Fits(g, t, bound)
    decreases IsContainer(inst), inst, bound, 1
  {
    match inst
    case Null => t.nullType
    case Bool(_) => t.booleanType
    case Int(n) => t.integerType.Some? && InRange(t.integerType.value, n)
    case Str(s) => t.textType.Some? && AcceptsText(g, t.textType.value, s)
    case Arr(_) => t.arrayType.Some? && AcceptsArray(g, t.arrayType.value, bound, inst)
    case Obj(_) => t.objectType.Some? && AcceptsObject(g, t.objectType.value, bound, inst)
  }

  predicate InRange(k: Numeric, n: int) {
    && (k.maximum.Some? ==> if k.exclusiveMaximum then n < k.maximum.value else n <= k.maximum.value)
    && (k.minimum.Some? ==> if k.exclusiveMinimum then n > k.minimum.value else n >= k.minimum.value)
  }

  predicate AcceptsText(g: Graph, k: Text, s: string) {
    && (k.minLength.Some? ==> k.minLength.value <= Utf8Length(s))
    && (k.maxLength.Some? ==> Utf8Length(s) <= k.maxLength.value)
    && (k.content.Some? ==> g.contentHolds(k.content.value, s))
    && (k.pattern.Some? ==> g.matches(s, k.pattern.value))
    && (k.format.Some? ==> g.formatHolds(k.format.value, s))
  }

  /** The bytes of a character, by section 3 of RFC 3629. */
  function Utf8(point: nat): string
    requires point < 0x11_0000
  {
    if point < 0x80 then [point as char]
    else if point < 0x800 then [(0xc0 + point / 0x40) as char] + Continued(point, 1)
    else if point < 0x1_0000 then [(0xe0 + point / 0x1000) as char] + Continued(point, 2)
    else [(0xf0 + point / 0x4_0000) as char] + Continued(point, 3)
  }

  /** The last `n` groups of six bits, each in a continuation byte. */
  function Continued(point: nat, n: nat): (r: string)
    ensures |r| == n && forall i :: 0 <= i < n ==> 0x80 <= r[i] as int < 0xc0
  {
    if n == 0 then "" else Continued(point / 0x40, n - 1) + [(0x80 + point % 0x40) as char]
  }

  function Utf8Text(points: seq<nat>): string
    requires forall i :: 0 <= i < |points| ==> points[i] < 0x11_0000
  {
    if points == [] then "" else Utf8(points[0]) + Utf8Text(points[1..])
  }

  /** The length of an encoded text is the number of its characters. */
  lemma {:induction false} LengthIsCharacters(points: seq<nat>)
    requires forall i :: 0 <= i < |points| ==> points[i] < 0x11_0000
    ensures Utf8Length(Utf8Text(points)) == |points|
  {
    hide Utf8, Utf8Length;
    if points == [] {
      NoCharacters();
    } else {
      var first, rest := Utf8(points[0]), Utf8Text(points[1..]);
      LengthIsCharacters(points[1..]);
      OneLeadingByte(points[0]);
      LeadingByte(first, rest);
      ContinuationsDoNotCount(first[1..], rest);
      assert first[1..] + rest == (first + rest)[1..];
    }
  }

  /** The first byte of a character is the only one that counts. */
  lemma OneLeadingByte(point: nat)
    requires point < 0x11_0000
    ensures var s := Utf8(point);
      && s != "" && !(0x80 <= s[0] as int < 0xc0)
      && forall i :: 1 <= i < |s| ==> 0x80 <= s[i] as int < 0xc0
  {
    hide Continued;
  }

  lemma NoCharacters()
    ensures Utf8Length("") == 0
  {
  }

  lemma LeadingByte(first: string, rest: string)
    requires first != ""
    ensures Utf8Length(first + rest)
      == (if 0x80 <= first[0] as int < 0xc0 then 0 else 1) + Utf8Length((first + rest)[1..])
  {
  }

  lemma {:induction false} ContinuationsDoNotCount(s: string, rest: string)
    requires forall i :: 0 <= i < |s| ==> 0x80 <= s[i] as int < 0xc0
    ensures Utf8Length(s + rest) == Utf8Length(rest)
  {
    if s == "" {
      assert s + rest == rest;
    } else {
      LeadingByte(s, rest);
      assert (s + rest)[1..] == s[1..] + rest;
      ContinuationsDoNotCount(s[1..], rest);
    }
  }

  /** An empty combination list is rejected, as the standard demands a non-empty one. */
  ghost predicate AcceptsLogic(g: Graph, l: Logic, bound: nat, inst: Json)
    requires Grounded(g) && Lower(g, LogicIds(l), bound)
    decreases IsContainer(inst), inst, bound, 0
  {
    match l
    case Not(sub) => !Accepts(g, sub, inst)
    case Combination(kind, subs) =>
      assert forall i :: 0 <= i < |subs| ==> subs[i] in LogicIds(l);
      var verdicts := seq(|subs|, i requires 0 <= i < |subs| => Accepts(g, subs[i], inst));
      match kind
      case AllOf => subs != [] && All(verdicts)
      case AnyOf => Any(verdicts)
      case OneOf => ExactlyOne(verdicts)
  }

  predicate All(verdicts: seq<bool>) {
    false !in verdicts
  }

  predicate Any(verdicts: seq<bool>) {
    true in verdicts
  }

  predicate ExactlyOne(verdicts: seq<bool>) {
    multiset(verdicts)[true] == 1
  }

  predicate HasMember(inst: Json, name: string)
    requires inst.Obj?
  {
    exists i :: 0 <= i < |inst.members| && inst.members[i].key == name
  }

  ghost predicate AcceptsObject(g: Graph, o: ObjectSchema, bound: nat, inst: Json)
    requires Grounded(g) && ObjectFits(g, o, bound) && inst.Obj?
    decreases IsContainer(inst), inst, bound, 0
  {
    && (o.maxProperties.Some? ==> |inst.members| <= o.maxProperties.value)
    && (o.minProperties.Some? ==> o.minProperties.value <= |inst.members|)
    && (forall i :: 0 <= i < |o.required| ==> HasMember(inst, o.required[i]))
    && All(seq(|inst.members|, i requires 0 <= i < |inst.members| => AcceptsMember(g, o, bound, inst, i)))
    && All(seq(|o.dependencies|, j requires 0 <= j < |o.dependencies| => AcceptsDependency(g, o, bound, inst, j)))
  }

  /**
   The schema of the member's property, if there is one, and those of all matching patterns bind; where
   no property has the name and no pattern matches it, the schema in `additionalProperties` does.
   */
  ghost predicate AcceptsMember(g: Graph, o: ObjectSchema, bound: nat, inst: Json, i: nat)
    requires Grounded(g) && ObjectIds(o) <= g.nodes.Keys && inst.Obj? && i < |inst.members|
    decreases IsContainer(inst), inst, bound, 0, 1
  {
    var m := inst.members[i];
    && (o.propertyNames.Some? ==> Accepts(g, o.propertyNames.value, Str(m.key)))
    && AcceptsProperties(g, o, bound, inst, i)
    && All(seq(|o.patternProperties|, j requires 0 <= j < |o.patternProperties| => AcceptsPattern(g, o, bound, inst,
        i, j)))
    && (o.additionalProperties.Some?
        && (forall k :: 0 <= k < |o.properties| ==> o.properties[k].name != m.key)
        && (forall j :: 0 <= j < |o.patternProperties| ==> !g.matches(m.key, o.patternProperties[j].name)) ==>
          Accepts(g, o.additionalProperties.value, m.value))
  }

  /** All properties of the member's name, of which the first counts, accept its value. */
  ghost predicate AcceptsProperties(g: Graph, o: ObjectSchema, bound: nat, inst: Json, i: nat)
    requires Grounded(g) && ObjectIds(o) <= g.nodes.Keys && inst.Obj? && i < |inst.members|
    decreases IsContainer(inst), inst, bound, 0, 0, 1
  {
    forall k :: 0 <= k < |o.properties| ==> AcceptsProperty(g, o, bound, inst, i, k)
  }

  /** The map of properties holds a name once: of several entries the first is the one. */
  ghost predicate AcceptsProperty(g: Graph, o: ObjectSchema, bound: nat, inst: Json, i: nat, k: nat)
    requires Grounded(g) && ObjectIds(o) <= g.nodes.Keys && inst.Obj? && i < |inst.members|
    requires k < |o.properties|
    decreases IsContainer(inst), inst, bound, 0, 0, 0
  {
    var p := o.properties[k];
    assert p.schema in PropertyIds(o.properties);
    p.name == inst.members[i].key && (forall l :: 0 <= l < k ==> o.properties[l].name != p.name) ==>
      Accepts(g, p.schema, inst.members[i].value)
  }

  ghost predicate AcceptsPattern(g: Graph, o: ObjectSchema, bound: nat, inst: Json, i: nat, j: nat)
    requires Grounded(g) && ObjectIds(o) <= g.nodes.Keys && inst.Obj? && i < |inst.members|
    requires j < |o.patternProperties|
    decreases IsContainer(inst), inst, bound, 0, 0, 0
  {
    var p := o.patternProperties[j];
    assert p.schema in PropertyIds(o.patternProperties);
    g.matches(inst.members[i].key, p.name) ==> Accepts(g, p.schema, inst.members[i].value)
  }

  ghost predicate AcceptsDependency(g: Graph, o: ObjectSchema, bound: nat, inst: Json, j: nat)
    requires Grounded(g) && ObjectFits(g, o, bound) && inst.Obj? && j < |o.dependencies|
    decreases IsContainer(inst), inst, bound, 0, 0
  {
    var d := o.dependencies[j];
    HasMember(inst, d.name) ==>
      match d.rule
      case Needs(names) => forall i :: 0 <= i < |names| ==> HasMember(inst, names[i])
      case Satisfies(id) =>
        assert id in RuleIds(o.dependencies[j].rule);
        Accepts(g, id, inst)
  }

  ghost predicate AcceptsArray(g: Graph, a: ArraySchema, bound: nat, inst: Json)
    requires Grounded(g) && ArrayIds(a) <= g.nodes.Keys && inst.Arr?
    decreases IsContainer(inst), inst, bound, 0
  {
    && (a.maxItems.Some? ==> |inst.items| <= a.maxItems.value)
    && (a.minItems.Some? ==> a.minItems.value <= |inst.items|)
    && (a.uniqueItems ==> forall i, k :: 0 <= i < k < |inst.items| ==> inst.items[i] != inst.items[k])
    && All(seq(|inst.items|, i requires 0 <= i < |inst.items| => AcceptsItem(g, a, bound, inst, i)))
    && (a.contains.Some? ==>
        Any(seq(|inst.items|, i requires 0 <= i < |inst.items| => Accepts(g, a.contains.value, inst.items[i]))))
  }

  /** `items` is one schema for every item, or a tuple of them, with `additionalItems` for the items after it. */
  ghost predicate AcceptsItem(g: Graph, a: ArraySchema, bound: nat, inst: Json, i: nat)
    requires Grounded(g) && ArrayIds(a) <= g.nodes.Keys && inst.Arr? && i < |inst.items|
    decreases IsContainer(inst), inst, bound, 0, 0
  {
    if a.itemsSchema.Some? then Accepts(g, a.itemsSchema.value, inst.items[i])
    else if i < |a.items| then
      assert a.items[i] in ArrayIds(a);
      Accepts(g, a.items[i], inst.items[i])
    else a.additionalItems.Some? ==> Accepts(g, a.additionalItems.value, inst.items[i])
  }

  // --------------------------------------------------------- verdict refinement

  /** The validators leave no error exactly when the schema accepts the instance. */
  lemma {:induction false} Verdict(g: Graph, id: Id, ptr: Pointer, inst: Json)
    requires Grounded(g) && Resolved(g) && id in g.nodes
    ensures Validate(g, id, ptr, inst).errors == [] <==> Accepts(g, id, inst)
    decreases IsContainer(inst), inst, Rank(g)[id], 9, 0
  {
    hide TypeReport, AcceptsType, InPlace;
    NodeFits(g, id);
    match g.nodes[id]
    case Boolean(_) =>
    case Ref(_, target, _) => Verdict(g, target.value, ptr, inst);
    case Type(t) => TypeVerdict(g, t, Rank(g)[id], ptr, inst);
  }

  lemma {:induction false} TypeVerdict(g: Graph, t: TypeSchema, bound: nat, ptr: Pointer, inst: Json)
    requires Grounded(g) && Resolved(g) && Fits(g, t, bound)
    ensures TypeReport(g, t, bound, ptr, inst).errors == [] <==> AcceptsType(g, t, bound, inst)
    decreases IsContainer(inst), inst, bound, 8, 0
  {
    hide Validate, Accepts, KindReport, ConditionalReport, LogicFrom, LogicReport, ChecksFrom, AcceptsKind,
        AcceptsLogic,
      AcceptsConditional;
    KindVerdict(g, t, bound, ptr, inst);
    ChecksVerdict(ValueChecks(t, inst), 0, ptr, inst);
    assert (forall k :: 0 <= k < 2 ==> !ValueChecks(t, inst)[k].fails)
      <==> !ValueChecks(t, inst)[0].fails && !ValueChecks(t, inst)[1].fails;
    ConditionalVerdict(g, t, bound, ptr, inst);
    forall i | 0 <= i < |t.logic|
      ensures Lower(g, LogicIds(t.logic[i]), bound)
      ensures LogicReport(g, t.logic[i], bound, ptr, inst).errors == [] <==> AcceptsLogic(g, t.logic[i], bound, inst)
    {
      LogicLower(g, t, bound, i);
      LogicVerdict(g, t.logic[i], bound, ptr, inst);
    }
    var verdicts := seq(|t.logic|, i requires 0 <= i < |t.logic| => AcceptsLogic(g, t.logic[i], bound, inst));
    LogicListVerdict(g, t, bound, 0, ptr, inst, verdicts);
  }

  lemma {:induction false} ConditionalVerdict(g: Graph, t: TypeSchema, bound: nat, ptr: Pointer, inst: Json)
    requires Grounded(g) && Resolved(g) && Fits(g, t, bound)
    ensures ConditionalReport(g, t, bound, ptr, inst).errors == [] <==> AcceptsConditional(g, t, bound, inst)
    decreases IsContainer(inst), inst, bound, 7, 0
  {
    hide Validate, Accepts;
    if t.ifSchema.Some? {
      assert t.ifSchema.value in InPlace(Type(t));
      Verdict(g, t.ifSchema.value, ptr, inst);
      var chosen := if Accepts(g, t.ifSchema.value, inst) then t.thenSchema else t.elseSchema;
      if chosen.Some? {
        assert chosen.value in InPlace(Type(t));
        Verdict(g, chosen.value, ptr, inst);
      }
    }
  }

  lemma {:induction false} KindVerdict(g: Graph, t: TypeSchema, bound: nat, ptr: Pointer, inst: Json)
    requires Grounded(g) && Resolved(g) && Fits(g, t, bound)
    ensures KindReport(g, t, bound, ptr, inst).errors == [] <==> AcceptsKind(g, t, bound, inst)
    decreases IsContainer(inst), inst, bound, 7, 0
  {
    hide Validate, Accepts, ArrayReport, ObjectReport, AcceptsArray, AcceptsObject, Utf8Length, ArrayIds, ObjectIds,
        DependencyIds;
    hide ChecksFrom;
    match inst
    case Int(n) =>
      if t.integerType.Some? {
        var checks := NumericChecks(t.integerType.value, n);
        ChecksVerdict(checks, 0, ptr, inst);
        assert (forall k :: 0 <= k < 2 ==> !checks[k].fails) <==> !checks[0].fails && !checks[1].fails;
      }
    case Str(s) =>
      if t.textType.Some? {
        var checks := TextChecks(g, t.textType.value, s);
        ChecksVerdict(checks, 0, ptr, inst);
        assert (forall k :: 0 <= k < 5 ==> !checks[k].fails) <==>
          !checks[0].fails && !checks[1].fails && !checks[2].fails && !checks[3].fails && !checks[4].fails;
      }
    case Arr(_) => if t.arrayType.Some? { ArrayVerdict(g, t.arrayType.value, bound, ptr, inst); }
    case Obj(_) => if t.objectType.Some? { ObjectVerdict(g, t.objectType.value, bound, ptr, inst); }
    case _ =>
  }

  lemma {:induction false} LogicListVerdict(g: Graph, t: TypeSchema, bound: nat, i: nat, ptr: Pointer, inst: Json,
                                            oks: seq<bool>)
    requires Grounded(g) && Fits(g, t, bound) && i <= |t.logic| == |oks|
    requires forall k :: 0 <= k < |oks| ==> Lower(g, LogicIds(t.logic[k]), bound)
    requires forall k :: 0 <= k < |oks| ==> oks[k] == (LogicReport(g, t.logic[k], bound, ptr, inst).errors == [])
    ensures LogicFrom(g, t, bound, i, ptr, inst).errors == [] <==> All(oks[i..])
    decreases |t.logic| - i
  {
    hide Validate, LogicReport, InPlace, LogicIds;
    if i < |t.logic| {
      LogicListVerdict(g, t, bound, i + 1, ptr, inst, oks);
      HeadAndRest(oks, i);
    }
  }

  /** A list of checks reports nothing exactly when no check fails. */
  lemma {:induction false} ChecksVerdict(checks: seq<Check>, i: nat, ptr: Pointer, inst: Json)
    requires i <= |checks|
    ensures ChecksFrom(checks, i, ptr, inst).errors == [] <==> forall k :: i <= k < |checks| ==> !checks[k].fails
    decreases |checks| - i
  {
    if i < |checks| {
      ChecksVerdict(checks, i + 1, ptr, inst);
    }
  }

  lemma HeadAndRest(oks: seq<bool>, i: nat)
    requires i < |oks|
    ensures All(oks[i..]) <==> oks[i] && All(oks[i + 1..])
    ensures Any(oks[i..]) <==> oks[i] || Any(oks[i + 1..])
    ensures ExactlyOne(oks[i..]) <==> if oks[i] then !Any(oks[i + 1..]) else ExactlyOne(oks[i + 1..])
  {
    assert oks[i..] == [oks[i]] + oks[i + 1..];
  }

  lemma {:induction false} LogicVerdict(g: Graph, l: Logic, bound: nat, ptr: Pointer, inst: Json)
    requires Grounded(g) && Resolved(g) && Lower(g, LogicIds(l), bound)
    ensures LogicReport(g, l, bound, ptr, inst).errors == [] <==> AcceptsLogic(g, l, bound, inst)
    decreases IsContainer(inst), inst, bound, 5, 0
  {
    hide Validate, Accepts, CombinationFrom, InPlace;
    match l
    case Not(sub) => Verdict(g, sub, ptr, inst);
    case Combination(_, subs) =>
      assert forall i :: 0 <= i < |subs| ==> subs[i] in LogicIds(l);
      var verdicts := seq(|subs|, i requires 0 <= i < |subs| => Accepts(g, subs[i], inst));
      forall i | 0 <= i < |subs|
        ensures verdicts[i] == (Validate(g, subs[i], ptr, inst).errors == [])
      {
        Verdict(g, subs[i], ptr, inst);
      }
      CombinationVerdict(g, l, bound, 0, 0, ptr, inst, verdicts);
  }

  /** The early-exit loop from subschema `i` on decides the rest of the combination. */
  lemma {:induction false} CombinationVerdict(g: Graph, l: Logic, bound: nat, i: nat, count: nat, ptr: Pointer,
                                              inst: Json, oks: seq<bool>)
    requires Grounded(g) && l.Combination? && Lower(g, LogicIds(l), bound) && i <= |l.subs| == |oks|
    requires forall k :: 0 <= k < |oks| ==> l.subs[k] in LogicIds(l)
    requires forall k :: 0 <= k < |oks| ==> oks[k] == (Validate(g, l.subs[k], ptr, inst).errors == [])
    requires l.kind.AllOf? ==> count == i
    requires l.kind.AnyOf? ==> count == 0
    requires l.kind.OneOf? ==> count <= 1
    ensures CombinationFrom(g, l, bound, i, count, ptr, inst).errors == [] <==>
      match l.kind
      case AllOf => l.subs != [] && All(oks[i..])
      case AnyOf => Any(oks[i..])
      case OneOf => if count == 0 then ExactlyOne(oks[i..]) else !Any(oks[i..])
    decreases |l.subs| - i
  {
    hide Validate, InPlace, LogicIds, CombinationFrom, All, Any, ExactlyOne, Grounded, Lower;
    if i < |l.subs| {
      HeadAndRest(oks, i);
      CombinationStep(g, l, bound, i, count, ptr, inst);
      var count' := if oks[i] then count + 1 else count;
      if !Completes(l.kind, !oks[i], count') {
        CombinationVerdict(g, l, bound, i + 1, count', ptr, inst, oks);
      }
    } else {
      CombinationEnd(g, l, bound, count, ptr, inst);
      NothingLeft(oks[i..]);
    }
  }

  lemma CombinationStep(g: Graph, l: Logic, bound: nat, i: nat, count: nat, ptr: Pointer, inst: Json)
    requires Grounded(g) && l.Combination? && Lower(g, LogicIds(l), bound) && i < |l.subs| && l.subs[i] in LogicIds(l)
    ensures l.subs[i] in g.nodes
    ensures var r := Validate(g, l.subs[i], ptr, inst);
      var count' := if r.errors == [] then count + 1 else count;
      CombinationFrom(g, l, bound, i, count, ptr, inst).errors
      == CompletionErrors(l.kind, r.errors, count', ptr, inst)
         + if Completes(l.kind, r.errors != [], count') then []
             else CombinationFrom(g, l, bound, i + 1, count', ptr, inst).errors
  {
    hide Validate, LogicIds, CompletionErrors, Completes;
  }

  lemma CombinationEnd(g: Graph, l: Logic, bound: nat, count: nat, ptr: Pointer, inst: Json)
    requires Grounded(g) && l.Combination? && Lower(g, LogicIds(l), bound)
    ensures CombinationFrom(g, l, bound, |l.subs|, count, ptr, inst).errors == [] <==> count != 0
  {
    hide LogicIds;
  }

  lemma NothingLeft(oks: seq<bool>)
    requires oks == []
    ensures All(oks) && !Any(oks) && !ExactlyOne(oks)
  {
  }

  lemma {:induction false} ObjectVerdict(g: Graph, o: ObjectSchema, bound: nat, ptr: Pointer, inst: Json)
    requires Grounded(g) && Resolved(g) && ObjectFits(g, o, bound) && inst.Obj?
    ensures ObjectReport(g, o, bound, ptr, inst).errors == [] <==> AcceptsObject(g, o, bound, inst)
    decreases IsContainer(inst), inst, bound, 6, 0
  {
    hide Validate, Accepts, MembersFrom, MemberReport, DefaultsFrom, DependenciesFrom, DependencyReport, RequiredFrom,
      AcceptsMember, AcceptsDependency, InPlace, Below;
    hide ChecksFrom;
    var counts := PropertyCountChecks(o, |inst.members|);
    ChecksVerdict(counts, 0, ptr, inst);
    assert (forall k :: 0 <= k < 2 ==> !counts[k].fails) <==> !counts[0].fails && !counts[1].fails;
    RequiredVerdict(o.required, 0, ptr, inst, false);
    NoDefaultFails(g, o.properties, 0, ptr, inst);
    var members := seq(|inst.members|, i requires 0 <= i < |inst.members| => AcceptsMember(g, o, bound, inst, i));
    forall i | 0 <= i < |members|
      ensures members[i] == (MemberReport(g, o, bound, i, ptr, inst).errors == [])
    {
      MemberVerdict(g, o, bound, i, ptr, inst);
    }
    MembersVerdict(g, o, bound, 0, ptr, inst, members);
    var dependencies := seq(|o.dependencies|, j requires 0 <= j < |o.dependencies| => AcceptsDependency(g, o, bound,
        inst, j));
    forall j | 0 <= j < |dependencies|
      ensures dependencies[j] == (DependencyReport(g, o, bound, j, ptr, inst).errors == [])
    {
      DependencyVerdict(g, o, bound, j, ptr, inst);
    }
    DependenciesVerdict(g, o, bound, 0, ptr, inst, dependencies);
  }

  lemma {:induction false} RequiredVerdict(names: seq<string>, i: nat, ptr: Pointer, inst: Json, dependency: bool)
    requires i <= |names| && inst.Obj?
    ensures RequiredFrom(names, i, ptr, inst, dependency).errors == [] <==>
      forall k :: i <= k < |names| ==> HasMember(inst, names[k])
    decreases |names| - i
  {
    if i < |names| {
      RequiredVerdict(names, i + 1, ptr, inst, dependency);
    }
  }

  lemma {:induction false} NoDefaultFails(g: Graph, ps: seq<Property>, j: nat, ptr: Pointer, inst: Json)
    requires Grounded(g) && Resolved(g) && PropertyIds(ps) <= g.nodes.Keys && j <= |ps| && inst.Obj?
    ensures DefaultsFrom(g, ps, j, ptr, inst).errors == []
    decreases |ps| - j
  {
    hide Validate, Accepts, DefaultOf, Grounded, Resolved, Rank;
    if j < |ps| {
      assert ps[j].schema in PropertyIds(ps);
      DefaultIsFound(g, ps[j].schema);
      NoDefaultFails(g, ps, j + 1, ptr, inst);
    }
  }

  lemma {:induction false} DefaultIsFound(g: Graph, id: Id)
    requires Grounded(g) && Resolved(g) && id in g.nodes
    ensures DefaultOf(g, id).Found?
    decreases Rank(g)[id]
  {
    NodeFits(g, id);
    if g.nodes[id].Ref? {
      DefaultIsFound(g, g.nodes[id].target.value);
    }
  }

  lemma {:induction false} MembersVerdict(g: Graph, o: ObjectSchema, bound: nat, i: nat, ptr: Pointer, inst: Json,
                                          oks: seq<bool>)
    requires Grounded(g) && ObjectFits(g, o, bound) && inst.Obj? && i <= |inst.members| == |oks|
    requires forall k :: 0 <= k < |oks| ==> oks[k] == (MemberReport(g, o, bound, k, ptr, inst).errors == [])
    ensures MembersFrom(g, o, bound, i, ptr, inst).errors == [] <==> All(oks[i..])
    decreases |inst.members| - i
  {
    hide Validate, MemberReport;
    if i < |inst.members| {
      MembersVerdict(g, o, bound, i + 1, ptr, inst, oks);
      HeadAndRest(oks, i);
    }
  }

  lemma {:induction false} MemberVerdict(g: Graph, o: ObjectSchema, bound: nat, i: nat, ptr: Pointer, inst: Json)
    requires Grounded(g) && Resolved(g) && ObjectFits(g, o, bound) && inst.Obj? && i < |inst.members|
    ensures MemberReport(g, o, bound, i, ptr, inst).errors == [] <==> AcceptsMember(g, o, bound, inst, i)
    decreases IsContainer(inst), inst, bound, 4, 0
  {
    hide Validate, Accepts, PatternsFrom, AcceptsPattern, AcceptsProperties, FindProperty, KnownReport, Grounded,
        AdditionalReport;
    if o.propertyNames.Some? {
      Verdict(g, o.propertyNames.value, ptr, Str(inst.members[i].key));
    }
    KnownVerdict(g, o, bound, i, ptr, inst);
    AdditionalVerdict(g, o, bound, i, ptr, inst);
    PatternListVerdict(g, o, bound, i, ptr, inst);
  }

  lemma {:induction false} AdditionalVerdict(g: Graph, o: ObjectSchema, bound: nat, i: nat, ptr: Pointer, inst: Json)
    requires Grounded(g) && Resolved(g) && ObjectFits(g, o, bound) && inst.Obj? && i < |inst.members|
    ensures AdditionalReport(g, o, bound, i, ptr, inst).errors == [] <==>
      (o.additionalProperties.Some?
       && (forall k :: 0 <= k < |o.properties| ==> o.properties[k].name != inst.members[i].key)
       && (forall j :: 0 <= j < |o.patternProperties| ==>
           !g.matches(inst.members[i].key, o.patternProperties[j].name)) ==>
         Accepts(g, o.additionalProperties.value, inst.members[i].value))
    decreases IsContainer(inst), inst, bound, 3, 0
  {
    hide Validate, Accepts, Grounded, TakesAdditional;
    var m := inst.members[i];
    TakesAdditionalMeans(g, o, m.key);
    if o.additionalProperties.Some? {
      Verdict(g, o.additionalProperties.value, ptr + [Key(m.key)], m.value);
    }
  }

  /** When `additionalProperties` binds. */
  lemma TakesAdditionalMeans(g: Graph, o: ObjectSchema, name: string)
    ensures TakesAdditional(g, o, name) <==>
      && o.additionalProperties.Some?
      && (forall k :: 0 <= k < |o.properties| ==> o.properties[k].name != name)
      && (forall j :: 0 <= j < |o.patternProperties| ==> !g.matches(name, o.patternProperties[j].name))
  {
  }

  lemma {:induction false} KnownVerdict(g: Graph, o: ObjectSchema, bound: nat, i: nat, ptr: Pointer, inst: Json)
    requires Grounded(g) && Resolved(g) && ObjectFits(g, o, bound) && inst.Obj? && i < |inst.members|
    ensures KnownReport(g, o, bound, i, ptr, inst).errors == [] <==> AcceptsProperties(g, o, bound, inst, i)
    decreases IsContainer(inst), inst, bound, 3, 0
  {
    hide Validate, Accepts, FindProperty, Grounded;
    var m := inst.members[i];
    var known := FindProperty(o.properties, m.key);
    if known.Some? {
      Verdict(g, known.value, ptr + [Key(m.key)], m.value);
      var k := PropertyAt(o.properties, m.key);
      assert AcceptsProperty(g, o, bound, inst, i, k) <==> Accepts(g, known.value, m.value);
      assert forall l :: 0 <= l < |o.properties| && l != k ==> AcceptsProperty(g, o, bound, inst, i, l);
    }
  }

  /** The first property of a name is the one that is found. */
  lemma {:induction false} PropertyAt(ps: seq<Property>, name: string) returns (k: nat)
    requires FindProperty(ps, name).Some?
    ensures k < |ps| && ps[k] == Property(name, FindProperty(ps, name).value)
    ensures forall l :: 0 <= l < k ==> ps[l].name != name
  {
    if ps[0].name == name {
      k := 0;
    } else {
      k := PropertyAt(ps[1..], name);
      k := k + 1;
    }
  }

  lemma {:induction false} PatternListVerdict(g: Graph, o: ObjectSchema, bound: nat, i: nat, ptr: Pointer, inst: Json)
    requires Grounded(g) && Resolved(g) && ObjectFits(g, o, bound) && inst.Obj? && i < |inst.members|
    ensures PatternsFrom(g, o, bound, i, 0, ptr, inst).errors == [] <==>
      All(seq(|o.patternProperties|, j requires 0 <= j < |o.patternProperties| => AcceptsPattern(g, o, bound, inst,
          i, j)))
    decreases IsContainer(inst), inst, bound, 3, 0
  {
    hide Validate, Accepts, AcceptsPattern, PatternsFrom, PatternReport, ObjectIds, PropertyIds;
    var oks := seq(|o.patternProperties|, j requires 0 <= j < |o.patternProperties| => AcceptsPattern(g, o, bound,
        inst, i, j));
    forall j | 0 <= j < |oks|
      ensures oks[j] == (PatternReport(g, o, bound, i, j, ptr, inst).errors == [])
    {
      PatternVerdict(g, o, bound, i, j, ptr, inst);
    }
    PatternsVerdict(g, o, bound, i, 0, ptr, inst, oks);
    assert oks[0..] == oks;
  }

  lemma {:induction false} PatternVerdict(g: Graph, o: ObjectSchema, bound: nat, i: nat, j: nat, ptr: Pointer,
                                          inst: Json)
    requires Grounded(g) && Resolved(g) && ObjectFits(g, o, bound) && inst.Obj? && i < |inst.members|
    requires j < |o.patternProperties|
    ensures PatternReport(g, o, bound, i, j, ptr, inst).errors == [] <==> AcceptsPattern(g, o, bound, inst, i, j)
    decreases IsContainer(inst), inst, bound, 2, 0
  {
    hide Validate, Accepts;
    var p := o.patternProperties[j];
    var m := inst.members[i];
    assert p.schema in PropertyIds(o.patternProperties);
    Verdict(g, p.schema, ptr + [Key(m.key)], m.value);
  }

  lemma {:induction false} PatternsVerdict(g: Graph, o: ObjectSchema, bound: nat, i: nat, j: nat, ptr: Pointer,
                                           inst: Json, oks: seq<bool>)
    requires Grounded(g) && ObjectFits(g, o, bound) && inst.Obj? && i < |inst.members|
    requires j <= |o.patternProperties| == |oks|
    requires forall k :: 0 <= k < |oks| ==> oks[k] == (PatternReport(g, o, bound, i, k, ptr, inst).errors == [])
    ensures PatternsFrom(g, o, bound, i, j, ptr, inst).errors == [] <==> All(oks[j..])
    decreases |o.patternProperties| - j
  {
    hide Validate, PatternReport;
    if j < |o.patternProperties| {
      PatternsVerdict(g, o, bound, i, j + 1, ptr, inst, oks);
      HeadAndRest(oks, j);
    }
  }

  lemma {:induction false} DependenciesVerdict(g: Graph, o: ObjectSchema, bound: nat, j: nat, ptr: Pointer,
                                               inst: Json, oks: seq<bool>)
    requires Grounded(g) && ObjectFits(g, o, bound) && inst.Obj? && j <= |o.dependencies| == |oks|
    requires forall k :: 0 <= k < |oks| ==> oks[k] == (DependencyReport(g, o, bound, k, ptr, inst).errors == [])
    ensures DependenciesFrom(g, o, bound, j, ptr, inst).errors == [] <==> All(oks[j..])
    decreases |o.dependencies| - j
  {
    hide Validate, DependencyReport;
    if j < |o.dependencies| {
      DependenciesVerdict(g, o, bound, j + 1, ptr, inst, oks);
      HeadAndRest(oks, j);
    }
  }

  lemma {:induction false} DependencyVerdict(g: Graph, o: ObjectSchema, bound: nat, j: nat, ptr: Pointer, inst: Json)
    requires Grounded(g) && Resolved(g) && ObjectFits(g, o, bound) && inst.Obj? && j < |o.dependencies|
    ensures DependencyReport(g, o, bound, j, ptr, inst).errors == [] <==> AcceptsDependency(g, o, bound, inst, j)
    decreases IsContainer(inst), inst, bound, 4, 0
  {
    hide Validate, Accepts, RequiredFrom;
    var d := o.dependencies[j];
    match d.rule
    case Needs(names) => RequiredVerdict(names, 0, ptr + [Key(d.name)], inst, true);
    case Satisfies(id) =>
      assert id in RuleIds(o.dependencies[j].rule);
      Verdict(g, id, ptr + [Key(d.name)], inst);
  }

  lemma {:induction false} ArrayVerdict(g: Graph, a: ArraySchema, bound: nat, ptr: Pointer, inst: Json)
    requires Grounded(g) && Resolved(g) && ArrayIds(a) <= g.nodes.Keys && inst.Arr?
    ensures ArrayReport(g, a, bound, ptr, inst).errors == [] <==> AcceptsArray(g, a, bound, inst)
    decreases IsContainer(inst), inst, bound, 6, 0
  {
    hide Validate, Accepts, AcceptsItem, UniqueFrom, ItemsFrom, TupleFrom, ContainsFrom;
    hide ChecksFrom;
    var counts := ItemCountChecks(a, |inst.items|);
    ChecksVerdict(counts, 0, ptr, inst);
    assert (forall k :: 0 <= k < 2 ==> !counts[k].fails) <==> !counts[0].fails && !counts[1].fails;
    UniqueVerdict(0, ptr, inst);
    var oks := seq(|inst.items|, i requires 0 <= i < |inst.items| => AcceptsItem(g, a, bound, inst, i));
    forall i | 0 <= i < |inst.items|
      ensures oks[i] == ItemPasses(g, a, ptr, inst, i)
    {
      ItemVerdict(g, a, bound, ptr, inst, i);
    }
    if a.itemsSchema.Some? {
      ItemsVerdict(g, a, bound, 0, ptr, inst, oks);
    } else {
      TupleVerdict(g, a, bound, 0, ptr, inst, oks);
    }
    if a.contains.Some? {
      var contained := seq(|inst.items|, i requires 0 <= i < |inst.items| => Accepts(g, a.contains.value,
          inst.items[i]));
      forall i | 0 <= i < |inst.items|
        ensures contained[i] == (Validate(g, a.contains.value, ptr, inst.items[i]).errors == [])
      {
        Verdict(g, a.contains.value, ptr, inst.items[i]);
      }
      ContainsVerdict(g, a, bound, 0, ptr, inst, contained);
    }
  }

  lemma {:induction false} UniqueVerdict(i: nat, ptr: Pointer, inst: Json)
    requires inst.Arr? && i <= |inst.items|
    ensures UniqueFrom(i, ptr, inst).errors == [] <==>
      forall m, k :: i <= m < k < |inst.items| ==> inst.items[m] != inst.items[k]
    decreases |inst.items| - i
  {
    if i < |inst.items| {
      UniqueVerdict(i + 1, ptr, inst);
      assert inst.items[i] in inst.items[i + 1..] <==>
        exists k :: i < k < |inst.items| && inst.items[k] == inst.items[i];
    }
  }

  /** The validator that the items loop runs on item `i` leaves no error. */
  ghost predicate ItemPasses(g: Graph, a: ArraySchema, ptr: Pointer, inst: Json, i: nat)
    requires Grounded(g) && ArrayIds(a) <= g.nodes.Keys && inst.Arr? && i < |inst.items|
  {
    if a.itemsSchema.Some? then Validate(g, a.itemsSchema.value, ptr + [Index(i)], inst.items[i]).errors == []
    else TupleValidator(a, i).Some? ==>
      assert TupleValidator(a, i).value in ArrayIds(a);
      Validate(g, TupleValidator(a, i).value, ptr + [Index(0)], inst.items[i]).errors == []
  }

  lemma {:induction false} ItemVerdict(g: Graph, a: ArraySchema, bound: nat, ptr: Pointer, inst: Json, i: nat)
    requires Grounded(g) && Resolved(g) && ArrayIds(a) <= g.nodes.Keys && inst.Arr? && i < |inst.items|
    ensures ItemPasses(g, a, ptr, inst, i) <==> AcceptsItem(g, a, bound, inst, i)
    decreases IsContainer(inst), inst, bound, 5, 0
  {
    hide Validate, Accepts, Grounded;
    if a.itemsSchema.Some? {
      Verdict(g, a.itemsSchema.value, ptr + [Index(i)], inst.items[i]);
    } else if i < |a.items| {
      assert a.items[i] in ArrayIds(a);
      Verdict(g, a.items[i], ptr + [Index(0)], inst.items[i]);
    } else if a.additionalItems.Some? {
      Verdict(g, a.additionalItems.value, ptr + [Index(0)], inst.items[i]);
    }
  }

  lemma {:induction false} ItemsVerdict(g: Graph, a: ArraySchema, bound: nat, i: nat, ptr: Pointer, inst: Json,
                                        oks: seq<bool>)
    requires Grounded(g) && ArrayIds(a) <= g.nodes.Keys && inst.Arr? && i <= |inst.items| == |oks|
    requires a.itemsSchema.Some?
    requires forall k :: 0 <= k < |oks| ==> oks[k] == ItemPasses(g, a, ptr, inst, k)
    ensures ItemsFrom(g, a, bound, i, ptr, inst).errors == [] <==> All(oks[i..])
    decreases |inst.items| - i
  {
    hide Validate;
    if i < |inst.items| {
      ItemsVerdict(g, a, bound, i + 1, ptr, inst, oks);
      HeadAndRest(oks, i);
    }
  }

  lemma {:induction false} TupleVerdict(g: Graph, a: ArraySchema, bound: nat, i: nat, ptr: Pointer, inst: Json,
                                        oks: seq<bool>)
    requires Grounded(g) && ArrayIds(a) <= g.nodes.Keys && inst.Arr? && i <= |inst.items| == |oks|
    requires a.itemsSchema.None?
    requires forall k :: 0 <= k < |oks| ==> oks[k] == ItemPasses(g, a, ptr, inst, k)
    ensures TupleFrom(g, a, bound, i, ptr, inst).errors == [] <==> All(oks[i..])
    decreases |inst.items| - i
  {
    hide Validate;
    if i < |inst.items| {
      if TupleValidator(a, i).None? {
        assert forall k :: i <= k < |oks| ==> oks[k];
      } else {
        TupleVerdict(g, a, bound, i + 1, ptr, inst, oks);
        HeadAndRest(oks, i);
      }
    }
  }

  lemma {:induction false} ContainsVerdict(g: Graph, a: ArraySchema, bound: nat, i: nat, ptr: Pointer, inst: Json,
                                           oks: seq<bool>)
    requires Grounded(g) && ArrayIds(a) <= g.nodes.Keys && inst.Arr? && i <= |inst.items| == |oks|
    requires a.contains.Some?
    requires forall k :: 0 <= k < |oks| ==> oks[k] == (Validate(g, a.contains.value, ptr, inst.items[k]).errors == [])
    ensures ContainsFrom(g, a, bound, i, ptr, inst).errors == [] <==> Any(oks[i..])
    decreases |inst.items| - i
  {
    hide Validate;
    if i < |inst.items| {
      HeadAndRest(oks, i);
      if !oks[i] {
        ContainsVerdict(g, a, bound, i + 1, ptr, inst, oks);
      }
    }
  }
}
