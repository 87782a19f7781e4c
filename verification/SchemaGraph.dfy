/**
 The compiled schema graph.  Every schema that `schema::make` builds is a node;
 `$ref` schemas point at other nodes, so the graph may be cyclic.

 A type schema owns its type-specific validators and its `logic_` list, which
 are therefore part of the node and not nodes of their own.
 */
module SchemaGraph {
  import opened Wrappers
  import opened JsonValues

  type Id = nat

  datatype Node =
    | Ref(name: string, target: Option<Id>, defaultValue: Json)
    | Boolean(accepting: bool)
    | Type(schema: TypeSchema)

  /** A validator that is absent from the type table is `None` (or `false`). */
  datatype TypeSchema = TypeSchema(
    nullType: bool,
    booleanType: bool,
    integerType: Option<Numeric>,
    textType: Option<Text>,
    objectType: Option<ObjectSchema>,
    arrayType: Option<ArraySchema>,
    enumeration: Option<seq<Json>>,
    constant: Option<Json>,
    logic: seq<Logic>,
    ifSchema: Option<Id>,
    thenSchema: Option<Id>,
    elseSchema: Option<Id>,
    defaultValue: Json)

  datatype Logic = Not(sub: Id) | Combination(kind: CombinationKind, subs: seq<Id>)

  datatype CombinationKind = AllOf | AnyOf | OneOf

  datatype Numeric = Numeric(
    maximum: Option<int>,
    minimum: Option<int>,
    exclusiveMaximum: bool,
    exclusiveMinimum: bool)

  datatype Text = Text(
    maxLength: Option<nat>,
    minLength: Option<nat>,
    content: Option<(string, string)>,
    pattern: Option<string>,
    format: Option<string>)

  datatype ObjectSchema = ObjectSchema(
    maxProperties: Option<nat>,
    minProperties: Option<nat>,
    required: seq<string>,
    properties: seq<Property>,
    patternProperties: seq<Property>,
    additionalProperties: Option<Id>,
    dependencies: seq<Dependency>,
    propertyNames: Option<Id>)

  /** A property name, or the pattern of a `patternProperties` entry, and its schema. */
  datatype Property = Property(name: string, schema: Id)

  datatype Dependency = Dependency(name: string, rule: DependencyRule)

  datatype DependencyRule = Needs(names: seq<string>) | Satisfies(schema: Id)

  datatype ArraySchema = ArraySchema(
    maxItems: Option<nat>,
    minItems: Option<nat>,
    uniqueItems: bool,
    itemsSchema: Option<Id>,
    items: seq<Id>,
    additionalItems: Option<Id>,
    contains: Option<Id>)

  /** Regular expressions, formats and content encodings are opaque checks. */
  datatype Graph = Graph(
    nodes: map<Id, Node>,
    matches: (string, string) -> bool,
    formatHolds: (string, string) -> bool,
    contentHolds: ((string, string), string) -> bool)

  // -------------------------------------------------------------- graph edges

  function Members(o: Option<Id>): set<Id> {
    match o case None => {} case Some(id) => {id}
  }

  function LogicIds(l: Logic): set<Id> {
    match l
    case Not(sub) => {sub}
    case Combination(_, subs) => set i | 0 <= i < |subs| :: subs[i]
  }

  function RuleIds(r: DependencyRule): set<Id> {
    match r case Needs(_) => {} case Satisfies(id) => {id}
  }

  function PropertyIds(ps: seq<Property>): set<Id> {
    set i | 0 <= i < |ps| :: ps[i].schema
  }

  function DependencyIds(ds: seq<Dependency>): set<Id> {
    set i, id | 0 <= i < |ds| && id in RuleIds(ds[i].rule) :: id
  }

  /** Schemas that are applied to the same instance as the node itself. */
  function InPlace(n: Node): set<Id> {
    match n
    case Ref(_, target, _) => Members(target)
    case Boolean(_) => {}
    case Type(t) =>
      (set i, id | 0 <= i < |t.logic| && id in LogicIds(t.logic[i]) :: id)
      + Members(t.ifSchema) + Members(t.thenSchema) + Members(t.elseSchema)
      + (if t.objectType.Some? then DependencyIds(t.objectType.value.dependencies) else {})
  }

  function ObjectIds(o: ObjectSchema): set<Id> {
    PropertyIds(o.properties) + PropertyIds(o.patternProperties)
    + Members(o.additionalProperties) + Members(o.propertyNames)
  }

  function ArrayIds(a: ArraySchema): set<Id> {
    Members(a.itemsSchema) + (set i | 0 <= i < |a.items| :: a.items[i])
    + Members(a.additionalItems) + Members(a.contains)
  }

  /** Schemas that are applied to a child of the instance, or to a member name. */
  function Below(n: Node): set<Id> {
    match n
    case Type(t) =>
      (if t.objectType.Some? then ObjectIds(t.objectType.value) else {})
      + (if t.arrayType.Some? then ArrayIds(t.arrayType.value) else {})
    case _ => {}
  }

  ghost predicate Closed(g: Graph) {
    forall id :: id in g.nodes ==> InPlace(g.nodes[id]) <= g.nodes.Keys && Below(g.nodes[id]) <= g.nodes.Keys
  }

  /** No reference is left unresolved. */
  ghost predicate Resolved(g: Graph) {
    forall id :: id in g.nodes && g.nodes[id].Ref? ==> g.nodes[id].target.Some?
  }

  // ------------------------------------------------- grounded reference cycles

  ghost predicate Ranked(g: Graph, rank: map<Id, nat>) {
    && rank.Keys == g.nodes.Keys
    && forall id, t :: id in g.nodes && t in InPlace(g.nodes[id]) && t in g.nodes ==> rank[t] < rank[id]
  }

  /** Every step that stays on the same instance goes down in some ranking. */
  ghost predicate Grounded(g: Graph) {
    Closed(g) && exists rank :: Ranked(g, rank)
  }

  ghost function Rank(g: Graph): (rank: map<Id, nat>)
    requires Grounded(g)
    ensures Ranked(g, rank)
  {
    var rank :| Ranked(g, rank);
    rank
  }

  /** A walk over the graph that never leaves the instance. */
  ghost predicate InPlaceWalk(g: Graph, walk: seq<Id>) {
    && (forall i :: 0 <= i < |walk| ==> walk[i] in g.nodes)
    && (forall i :: 0 <= i < |walk| - 1 ==> walk[i + 1] in InPlace(g.nodes[walk[i]]))
  }

  /** A reference cycle that passes through no child applicator. */
  ghost predicate InPlaceCycle(g: Graph, walk: seq<Id>) {
    InPlaceWalk(g, walk) && 2 <= |walk| && walk[0] == walk[|walk| - 1]
  }

  /** Each of the steps of a walk lowers the rank by at least one. */
  lemma {:induction false} RankFallsAlong(g: Graph, rank: map<Id, nat>, walk: seq<Id>)
    requires Ranked(g, rank) && InPlaceWalk(g, walk) && walk != []
    ensures rank[walk[|walk| - 1]] + |walk| - 1 <= rank[walk[0]]
  {
    if |walk| >= 2 {
      var prefix := walk[..|walk| - 1];
      assert rank[walk[|walk| - 1]] < rank[walk[|walk| - 2]];
      RankFallsAlong(g, rank, prefix);
    }
  }

  /** Going on from `walk` inside `s`, one either finds a dead end or a repetition. */
  lemma {:induction false} DeadEndOrCycle(g: Graph, s: set<Id>, walk: seq<Id>) returns (deadEnd: Id, cycle: seq<Id>)
    requires s <= g.nodes.Keys && InPlaceWalk(g, walk) && walk != []
    requires forall i :: 0 <= i < |walk| ==> walk[i] in s
    requires forall i, k :: 0 <= i < k < |walk| ==> walk[i] != walk[k]
    ensures InPlaceCycle(g, cycle) || (deadEnd in s && InPlace(g.nodes[deadEnd]) !! s)
    decreases |s| - |walk|
  {
    var last := walk[|walk| - 1];
    cycle := [];
    deadEnd := last;
    if next :| next in InPlace(g.nodes[last]) && next in s {
      if next in walk {
        var i :| 0 <= i < |walk| && walk[i] == next;
        cycle := walk[i..] + [next];
        assert forall k :: 0 <= k < |cycle| - 1 ==> cycle[k + 1] in InPlace(g.nodes[cycle[k]]);
      } else {
        NoRepetitionFits(s, walk + [next]);
        deadEnd, cycle := DeadEndOrCycle(g, s, walk + [next]);
      }
    }
  }

  lemma {:induction false} NoRepetitionFits(s: set<Id>, walk: seq<Id>)
    requires forall i :: 0 <= i < |walk| ==> walk[i] in s
    requires forall i, k :: 0 <= i < k < |walk| ==> walk[i] != walk[k]
    ensures |walk| <= |s|
  {
    if walk != [] {
      NoRepetitionFits(s - {walk[0]}, walk[1..]);
    }
  }

  /** Peeling off dead ends ranks any set of nodes of a cycle-free graph. */
  lemma {:induction false} RankSet(g: Graph, s: set<Id>) returns (rank: map<Id, nat>)
    requires s <= g.nodes.Keys && !exists walk :: InPlaceCycle(g, walk)
    ensures rank.Keys == s
    ensures forall id, t :: id in s && t in InPlace(g.nodes[id]) && t in s ==> rank[t] < rank[id]
    decreases s
  {
    if s == {} {
      rank := map[];
    } else {
      var first :| first in s;
      var deadEnd, cycle := DeadEndOrCycle(g, s, [first]);
      var rest := RankSet(g, s - {deadEnd});
      rank := map id | id in s :: if id == deadEnd then 0 else rest[id] + 1;
    }
  }

  /**
   A closed graph is grounded exactly when every reference cycle passes through
   a child applicator.
   */
  lemma GroundedIffNoInPlaceCycle(g: Graph)
    requires Closed(g)
    ensures Grounded(g) <==> !exists walk :: InPlaceCycle(g, walk)
  {
    if walk :| Grounded(g) && InPlaceCycle(g, walk) {
      RankFallsAlong(g, Rank(g), walk);
    }
    if !exists walk :: InPlaceCycle(g, walk) {
      var rank := RankSet(g, g.nodes.Keys);
      assert Ranked(g, rank);
    }
  }

  // ------------------------------------------------------- cycles of references

  /** Following references from a schema reaches one that is no reference, or is unresolved, within `steps` steps. */
  predicate Arrives(g: Graph, id: Id, steps: nat)
    decreases steps
  {
    id in g.nodes ==>
      g.nodes[id].Ref? && g.nodes[id].target.Some? ==> steps > 0 && Arrives(g, g.nodes[id].target.value, steps - 1)
  }

  ghost predicate NeverArrives(g: Graph, id: Id) {
    forall steps: nat :: !Arrives(g, id, steps)
  }

  /** All schemas of the set are references into the set. */
  predicate RefLoop(g: Graph, s: set<Id>) {
    s <= g.nodes.Keys && forall id :: id in s ==>
      g.nodes[id].Ref? && g.nodes[id].target.Some? && g.nodes[id].target.value in s
  }

  /** References are followed for ever, whatever the instance, exactly from the schemas of a loop of references. */
  lemma NeverArrivesIffRefLoop(g: Graph, id: Id)
    ensures NeverArrives(g, id) <==> exists s :: RefLoop(g, s) && id in s
  {
    if NeverArrives(g, id) {
      var s := set x | x in g.nodes && NeverArrives(g, x);
      forall x | NeverArrives(g, x)
        ensures x in g.nodes && g.nodes[x].Ref? && g.nodes[x].target.Some? && NeverArrives(g, g.nodes[x].target.value)
      {
        assert !Arrives(g, x, 0);
        var next := g.nodes[x].target.value;
        forall steps: nat
          ensures !Arrives(g, next, steps)
        {
          assert !Arrives(g, x, steps + 1);
        }
      }
      assert RefLoop(g, s) && id in s;
    } else {
      var steps: nat :| Arrives(g, id, steps);
      forall s | RefLoop(g, s)
        ensures id !in s
      {
        if id in s {
          LoopNeverArrives(g, s, id, steps);
        }
      }
    }
  }

  lemma {:induction false} LoopNeverArrives(g: Graph, s: set<Id>, id: Id, steps: nat)
    requires RefLoop(g, s) && id in s
    ensures !Arrives(g, id, steps)
    decreases steps
  {
    if steps > 0 {
      LoopNeverArrives(g, s, g.nodes[id].target.value, steps - 1);
    }
  }
}
