/**
 The tables of compiled schemas and unresolved references, one pair per location.

 A `schema_ref` is named by the URI it was created for; no URI ever gets a second
 one.  Compiling a document is the sequence of table operations it performs;
 unknown keywords are not part of this model.
 */
module SchemaTables {
  import opened Wrappers

  /** A location and a fragment. */
  type Address = (string, string)

  datatype Handle = Node(id: nat) | Reference(home: Address)

  datatype SchemaFile = SchemaFile(schemas: map<string, Handle>, unresolved: set<string>)

  const NewFile := SchemaFile(map[], {})

  /** `targets` holds the target of every reference created so far, if it has one. */
  datatype Registry = Registry(files: map<string, SchemaFile>, targets: map<Address, Option<Handle>>)

  const EmptyRegistry := Registry(map[], map[])

  /**
   A schema of its own is filed at an address; or what a `$ref` to another address
   is given is filed; or a reference is only asked for.
   */
  datatype Event = Own(at: Address, id: nat) | Alias(at: Address, to: Address) | Ask(at: Address)

  predicate Defines(e: Event) {
    !e.Ask?
  }

  /** The address that the operation asks a reference for. */
  function Wanted(e: Event): Option<Address> {
    match e
    case Own(_, _) => None
    case Alias(_, to) => Some(to)
    case Ask(at) => Some(at)
  }

  /** The locations that the operation names. */
  function Named(e: Event): set<string> {
    {e.at.0} + if e.Alias? then {e.to.0} else {}
  }

  function FileOf(r: Registry, location: string): SchemaFile {
    if location in r.files then r.files[location] else NewFile
  }

  function Lookup(r: Registry, at: Address): Option<Handle> {
    var schemas := FileOf(r, at.0).schemas;
    if at.1 in schemas then Some(schemas[at.1]) else None
  }

  /** What `get_or_create_ref` hands out. */
  function HandleFor(r: Registry, at: Address): Handle {
    match Lookup(r, at)
    case Some(h) => h
    case None => Reference(at)
  }

  /** `insert`; `None` is the exception for a second insertion. */
  function Filed(r: Registry, at: Address, h: Handle): Option<Registry> {
    var (location, fragment) := at;
    var file := FileOf(r, location);
    if fragment in file.schemas then None
    else Some(Registry(
      r.files[location := SchemaFile(file.schemas[fragment := h], file.unresolved - {fragment})],
      if fragment in file.unresolved then r.targets[at := Some(h)] else r.targets))
  }

  /** `get_or_create_ref` */
  function Requested(r: Registry, at: Address): Registry {
    var (location, fragment) := at;
    var file := FileOf(r, location);
    if fragment in file.schemas || fragment in file.unresolved then r.(files := r.files[location := file])
    else Registry(
      r.files[location := file.(unresolved := file.unresolved + {fragment})],
      r.targets[at := None])
  }

  function Step(r: Registry, e: Event): Option<Registry> {
    match e
    case Own(at, id) => Filed(r, at, Node(id))
    case Alias(at, to) => Filed(Requested(r, to), at, HandleFor(r, to))
    case Ask(at) => Some(Requested(r, at))
  }

  function Replay(events: seq<Event>): Option<Registry> {
    if events == [] then Some(EmptyRegistry)
    else match Replay(events[..|events| - 1])
      case None => None
      case Some(r) => Step(r, events[|events| - 1])
  }

  // ----------------------------------------------------------------- invariants

  /** No key is both compiled and unresolved, and every reference is filed or patched. */
  ghost predicate Consistent(r: Registry) {
    && (forall l :: l in r.files ==> r.files[l].schemas.Keys !! r.files[l].unresolved)
    && (forall l, f :: l in r.files && f in r.files[l].unresolved ==> (l, f) in r.targets && r.targets[(l, f)] == None)
    && (forall a :: a in r.targets ==>
      && a.0 in r.files
      && match r.targets[a]
         case None => a.1 in r.files[a.0].unresolved
         case Some(h) => Lookup(r, a) == Some(h))
  }

  ghost predicate NothingUnresolved(r: Registry) {
    forall l :: l in r.files ==> r.files[l].unresolved == {}
  }

  lemma FiledKeepsConsistent(r: Registry, at: Address, h: Handle)
    requires Consistent(r) && Filed(r, at, h).Some?
    ensures Consistent(Filed(r, at, h).value)
  {
    var r' := Filed(r, at, h).value;
    assert at == (at.0, at.1);
    forall a | a in r'.targets
      ensures a.0 in r'.files
      ensures match r'.targets[a]
        case None => a.1 in r'.files[a.0].unresolved
        case Some(h) => Lookup(r', a) == Some(h)
    {
      assert a == (a.0, a.1);
    }
  }

  lemma RequestedKeepsConsistent(r: Registry, at: Address)
    requires Consistent(r)
    ensures Consistent(Requested(r, at))
  {
    var r' := Requested(r, at);
    assert at == (at.0, at.1);
    forall a | a in r'.targets
      ensures a.0 in r'.files
      ensures match r'.targets[a]
        case None => a.1 in r'.files[a.0].unresolved
        case Some(h) => Lookup(r', a) == Some(h)
    {
      assert a == (a.0, a.1);
    }
  }

  lemma StepKeepsConsistent(r: Registry, e: Event)
    requires Consistent(r) && Step(r, e).Some?
    ensures Consistent(Step(r, e).value)
  {
    hide Consistent, Filed, Requested;
    match e
    case Own(at, id) => FiledKeepsConsistent(r, at, Node(id));
    case Alias(at, to) =>
      RequestedKeepsConsistent(r, to);
      FiledKeepsConsistent(Requested(r, to), at, HandleFor(r, to));
    case Ask(at) => RequestedKeepsConsistent(r, at);
  }

  lemma {:induction false} ReplayConsistent(events: seq<Event>)
    requires Replay(events).Some?
    ensures Consistent(Replay(events).value)
  {
    hide Consistent, Step;
    if events != [] {
      ReplayConsistent(events[..|events| - 1]);
      StepKeepsConsistent(Replay(events[..|events| - 1]).value, events[|events| - 1]);
    } else {
      NothingConsistent();
    }
  }

  lemma NothingConsistent()
    ensures Consistent(EmptyRegistry)
  {
  }

  // ------------------------------------------------------------ what is filed

  /** What the operation files at its address. */
  function Filing(r: Registry, e: Event): Handle
    requires Defines(e)
  {
    match e
    case Own(_, id) => Node(id)
    case Alias(_, to) => HandleFor(r, to)
  }

  lemma RequestedLookup(r: Registry, at: Address, a: Address)
    ensures Lookup(Requested(r, at), a) == Lookup(r, a)
  {
  }

  lemma FiledLookup(r: Registry, at: Address, h: Handle, a: Address)
    ensures Filed(r, at, h).Some? <==> Lookup(r, at) == None
    ensures Filed(r, at, h).Some? ==> Lookup(Filed(r, at, h).value, a) == if a == at then Some(h) else Lookup(r, a)
  {
    assert at == (at.0, at.1) && a == (a.0, a.1);
  }

  lemma StepLookup(r: Registry, e: Event, a: Address)
    ensures Step(r, e).Some? <==> Defines(e) ==> Lookup(r, e.at) == None
    ensures Step(r, e).Some? ==>
      Lookup(Step(r, e).value, a) == if Defines(e) && a == e.at then Some(Filing(r, e)) else Lookup(r, a)
  {
    hide Lookup, Requested, Filed;
    match e
    case Own(at, id) => FiledLookup(r, at, Node(id), a);
    case Alias(at, to) =>
      RequestedLookup(r, to, a);
      RequestedLookup(r, to, at);
      FiledLookup(Requested(r, to), at, HandleFor(r, to), a);
    case Ask(at) => RequestedLookup(r, at, a);
  }

  /** A prefix of a run has succeeded as well. */
  lemma {:induction false} PrefixReplays(events: seq<Event>, k: nat)
    requires k <= |events| && Replay(events).Some?
    ensures Replay(events[..k]).Some?
    decreases |events| - k
  {
    if k < |events| {
      PrefixReplays(events, k + 1);
      assert events[..k + 1][..k] == events[..k];
    } else {
      assert events[..k] == events;
    }
  }

  /** A lookup finds something exactly if an operation has filed something there. */
  lemma {:induction false} LookupIffDefined(events: seq<Event>, at: Address)
    requires Replay(events).Some?
    ensures Lookup(Replay(events).value, at).Some? <==>
      exists k :: 0 <= k < |events| && Defines(events[k]) && events[k].at == at
  {
    hide Step, Lookup;
    if events != [] {
      var before, last := events[..|events| - 1], events[|events| - 1];
      LookupIffDefined(before, at);
      StepLookup(Replay(before).value, last, at);
      assert forall k :: 0 <= k < |before| ==> before[k] == events[k];
    } else {
      NothingThere(at);
    }
  }

  lemma NothingThere(at: Address)
    ensures Lookup(EmptyRegistry, at) == None
  {
  }

  /** What is found stays. */
  lemma {:induction false} LookupStays(events: seq<Event>, k: nat, at: Address)
    requires k <= |events| && Replay(events).Some?
    ensures Replay(events[..k]).Some?
    ensures Lookup(Replay(events[..k]).value, at).Some? ==>
        Lookup(Replay(events).value, at) == Lookup(Replay(events[..k]).value, at)
    decreases |events|
  {
    hide Step, Lookup;
    PrefixReplays(events, k);
    if k < |events| {
      PrefixReplays(events, |events| - 1);
      var before := events[..|events| - 1];
      assert before[..k] == events[..k];
      LookupStays(before, k, at);
      StepLookup(Replay(before).value, events[|events| - 1], at);
    } else {
      assert events[..k] == events;
    }
  }

  /** Each defining operation decides what is found at its address in the end. */
  lemma DefinitionStays(events: seq<Event>, k: nat)
    requires k < |events| && Defines(events[k]) && Replay(events).Some?
    ensures Replay(events[..k]).Some?
    ensures Lookup(Replay(events).value, events[k].at) == Some(Filing(Replay(events[..k]).value, events[k]))
  {
    hide Step, Lookup;
    PrefixReplays(events, k);
    assert events[..k + 1][..k] == events[..k];
    LookupStays(events, k + 1, events[k].at);
    StepLookup(Replay(events[..k]).value, events[k], events[k].at);
  }

  /** A run succeeds exactly if no address is defined twice. */
  lemma {:induction false} SucceedsIffDistinct(events: seq<Event>)
    ensures Replay(events).Some? <==> DistinctDefinitions(events)
  {
    hide Step, Lookup;
    if events != [] {
      var n := |events| - 1;
      var before, last := events[..n], events[n];
      assert forall i :: 0 <= i < n ==> before[i] == events[i];
      SucceedsIffDistinct(before);
      if Replay(before).Some? {
        LookupIffDefined(before, last.at);
        StepLookup(Replay(before).value, last, last.at);
      }
    }
  }

  ghost predicate DistinctDefinitions(events: seq<Event>) {
    forall i, k :: 0 <= i < k < |events| && Defines(events[i]) && Defines(events[k]) ==> events[i].at != events[k].at
  }

  // ---------------------------------------------------------- back-patching

  /** The handle is the schema of the address, or its reference. */
  ghost predicate HandedOut(r: Registry, at: Address, h: Handle) {
    Lookup(r, at) == Some(h) || (h == Reference(at) && at in r.targets)
  }

  lemma StepHandsOut(r: Registry, e: Event, at: Address, h: Handle)
    requires Consistent(r) && Step(r, e).Some?
    ensures HandedOut(r, at, h) ==> HandedOut(Step(r, e).value, at, h)
    ensures Wanted(e) == Some(at) ==> HandedOut(Step(r, e).value, at, HandleFor(r, at))
  {
    StepLookup(r, e, at);
    assert at == (at.0, at.1);
  }

  /** What a request hands out at any step is in the end the schema of the address, or its one reference. */
  lemma {:induction false} HandlesKeepMeaning(events: seq<Event>, k: nat, at: Address)
    requires k < |events| && Wanted(events[k]) == Some(at) && Replay(events).Some?
    ensures Replay(events[..k]).Some?
    ensures HandedOut(Replay(events).value, at, HandleFor(Replay(events[..k]).value, at))
    decreases |events|
  {
    hide Step, Consistent, HandedOut, HandleFor;
    PrefixReplays(events, k);
    PrefixReplays(events, |events| - 1);
    var before, last := events[..|events| - 1], events[|events| - 1];
    var h := HandleFor(Replay(events[..k]).value, at);
    ReplayConsistent(before);
    StepHandsOut(Replay(before).value, last, at, h);
    if k < |before| {
      assert before[..k] == events[..k];
      HandlesKeepMeaning(before, k, at);
    } else {
      assert before == events[..k];
    }
  }

  /**
   When all references are resolved in the end, a handle given out at any time
   is what a lookup finds after all insertions, or a reference to it.
   */
  lemma BackPatching(events: seq<Event>, k: nat, at: Address)
    requires k < |events| && Wanted(events[k]) == Some(at) && Replay(events).Some?
    requires NothingUnresolved(Replay(events).value)
    ensures Replay(events[..k]).Some?
    ensures var r := Replay(events).value;
      var h := HandleFor(Replay(events[..k]).value, at);
      && Lookup(r, at).Some?
      && (h == Lookup(r, at).value || (h == Reference(at) && at in r.targets && r.targets[at] == Lookup(r, at)))
  {
    HandlesKeepMeaning(events, k, at);
    ReplayConsistent(events);
  }

  /** When nothing is left unresolved, every reference that was created has a target. */
  lemma EveryReferenceHasTarget(events: seq<Event>)
    requires Replay(events).Some? && NothingUnresolved(Replay(events).value)
    ensures var targets := Replay(events).value.targets; forall a :: a in targets ==> targets[a].Some?
  {
    hide Replay;
    ReplayConsistent(events);
  }

  // ------------------------------------------------------------- denotation

  /** Following at most `steps` references from the handle leads to the node. */
  predicate Leads(r: Registry, h: Handle, id: nat, steps: nat)
    decreases steps
  {
    match h
    case Node(n) => n == id
    case Reference(home) =>
      && steps > 0 && home in r.targets && r.targets[home].Some?
      && Leads(r, r.targets[home].value, id, steps - 1)
  }

  ghost predicate Denotes(r: Registry, h: Handle, id: nat) {
    exists steps: nat :: Leads(r, h, id, steps)
  }

  ghost predicate DenotesAt(r: Registry, at: Address, id: nat) {
    Lookup(r, at).Some? && Denotes(r, Lookup(r, at).value, id)
  }

  /** The documents themselves define the node: directly, or by at most `steps` references. */
  ghost predicate Means(events: seq<Event>, at: Address, id: nat, steps: nat)
    decreases steps
  {
    Own(at, id) in events
    || (steps > 0 && exists to :: Alias(at, to) in events && Means(events, to, id, steps - 1))
  }

  ghost predicate Meaning(events: seq<Event>, at: Address, id: nat) {
    exists steps: nat :: Means(events, at, id, steps)
  }

  /** A reference whose address is compiled is patched. */
  lemma PatchedReference(r: Registry, at: Address)
    requires Consistent(r) && at in r.targets && Lookup(r, at).Some?
    ensures r.targets[at] == Lookup(r, at)
  {
  }

  lemma {:induction false} MeansIsDenoted(events: seq<Event>, at: Address, id: nat, steps: nat)
    requires Replay(events).Some? && Means(events, at, id, steps)
    ensures DenotesAt(Replay(events).value, at, id)
    decreases steps
  {
    hide Replay, Lookup, Consistent, HandleFor;
    var r := Replay(events).value;
    if Own(at, id) in events {
      var k: nat :| k < |events| && events[k] == Own(at, id);
      DefinitionStays(events, k);
      assert Leads(r, Node(id), id, 0);
    } else {
      var to :| Alias(at, to) in events && Means(events, to, id, steps - 1);
      var k: nat :| k < |events| && events[k] == Alias(at, to);
      MeansIsDenoted(events, to, id, steps - 1);
      DefinitionStays(events, k);
      HandlesKeepMeaning(events, k, to);
      HandleLeads(events, to, HandleFor(Replay(events[..k]).value, to), id);
    }
  }

  /** A handle that was handed out for an address denotes what the address denotes. */
  lemma HandleLeads(events: seq<Event>, at: Address, h: Handle, id: nat)
    requires Replay(events).Some? && HandedOut(Replay(events).value, at, h) && DenotesAt(Replay(events).value, at, id)
    ensures Denotes(Replay(events).value, h, id)
  {
    hide Replay;
    var r := Replay(events).value;
    if Lookup(r, at) != Some(h) {
      ReplayConsistent(events);
      PatchedReference(r, at);
      var steps: nat :| Leads(r, Lookup(r, at).value, id, steps);
      assert Leads(r, h, id, steps + 1);
    }
  }

  lemma {:induction false} DenotedIsMeant(events: seq<Event>, k: nat, id: nat, steps: nat)
    requires Replay(events).Some? && k < |events| && Defines(events[k])
    requires Lookup(Replay(events).value, events[k].at).Some?
    requires Leads(Replay(events).value, Lookup(Replay(events).value, events[k].at).value, id, steps)
    ensures Meaning(events, events[k].at, id)
    decreases steps, k
  {
    hide Replay, Consistent, Lookup;
    var r, at := Replay(events).value, events[k].at;
    DefinitionStays(events, k);
    match events[k]
    case Own(_, _) => assert Means(events, at, id, 0);
    case Alias(_, to) =>
      var before := Replay(events[..k]).value;
      if Lookup(before, to).Some? {
        LookupStays(events, k, to);
        LookupIffDefined(events[..k], to);
        var i: nat :| i < k && Defines(events[..k][i]) && events[..k][i].at == to;
        assert events[i] == events[..k][i];
        DenotedIsMeant(events, i, id, steps);
      } else {
        ReplayConsistent(events);
        PatchedOrWaiting(r, to);
        LookupIffDefined(events, to);
        var i: nat :| i < |events| && Defines(events[i]) && events[i].at == to;
        DenotedIsMeant(events, i, id, steps - 1);
      }
      AliasMeans(events, at, to, id);
  }

  lemma PatchedOrWaiting(r: Registry, at: Address)
    requires Consistent(r) && at in r.targets && r.targets[at].Some?
    ensures r.targets[at] == Lookup(r, at)
  {
  }

  lemma AliasMeans(events: seq<Event>, at: Address, to: Address, id: nat)
    requires Alias(at, to) in events && Meaning(events, to, id)
    ensures Meaning(events, at, id)
  {
    var steps: nat :| Means(events, to, id, steps);
    assert Means(events, at, id, steps + 1);
  }

  /** After any successful run an address denotes exactly what the documents define it to be. */
  lemma DenotesIffMeans(events: seq<Event>, at: Address, id: nat)
    requires Replay(events).Some?
    ensures DenotesAt(Replay(events).value, at, id) <==> Meaning(events, at, id)
  {
    hide Replay, Lookup;
    var r := Replay(events).value;
    if DenotesAt(r, at, id) {
      LookupIffDefined(events, at);
      var k: nat :| k < |events| && Defines(events[k]) && events[k].at == at;
      var steps: nat :| Leads(r, Lookup(r, at).value, id, steps);
      DenotedIsMeant(events, k, id, steps);
    }
    if Meaning(events, at, id) {
      var steps: nat :| Means(events, at, id, steps);
      MeansIsDenoted(events, at, id, steps);
    }
  }

  /** A handle given out at any step denotes, in the end, exactly what the documents define. */
  lemma HandleDenotes(events: seq<Event>, k: nat, at: Address, id: nat)
    requires k < |events| && Wanted(events[k]) == Some(at) && Replay(events).Some?
    ensures Replay(events[..k]).Some?
    ensures Denotes(Replay(events).value, HandleFor(Replay(events[..k]).value, at), id) <==> Meaning(events, at, id)
  {
    hide Replay, HandleFor, Lookup;
    HandlesKeepMeaning(events, k, at);
    DenotesIffMeans(events, at, id);
    var r, h := Replay(events).value, HandleFor(Replay(events[..k]).value, at);
    if Meaning(events, at, id) {
      HandleLeads(events, at, h, id);
    }
    if Denotes(r, h, id) && Lookup(r, at) != Some(h) {
      ReplayConsistent(events);
      PatchedOrWaiting(r, at);
      var steps: nat :| Leads(r, h, id, steps);
      assert Leads(r, r.targets[at].value, id, steps - 1);
    }
  }

  lemma {:induction false} OneNode(r: Registry, h: Handle, id: nat, steps: nat, id': nat, steps': nat)
    requires Leads(r, h, id, steps) && Leads(r, h, id', steps')
    ensures id == id'
    decreases steps
  {
    if h.Reference? {
      OneNode(r, r.targets[h.home].value, id, steps - 1, id', steps' - 1);
    }
  }

  /**
   Two successful runs of the same definitions, in any order and with any requests between
   them, give every address the same denotation, although what is filed may differ.
   */
  lemma OrderIndependent(events: seq<Event>, events': seq<Event>, at: Address, id: nat)
    requires Replay(events).Some? && Replay(events').Some? && SameDefinitions(events, events')
    ensures DenotesAt(Replay(events).value, at, id) <==> DenotesAt(Replay(events').value, at, id)
  {
    hide Replay, DenotesAt;
    DenotesIffMeans(events, at, id);
    DenotesIffMeans(events', at, id);
    if steps: nat :| Means(events, at, id, steps) {
      SameMeans(events, events', at, id, steps);
    }
    if steps: nat :| Means(events', at, id, steps) {
      SameMeans(events', events, at, id, steps);
    }
  }

  ghost predicate SameDefinitions(events: seq<Event>, events': seq<Event>) {
    forall e :: Defines(e) ==> (e in events <==> e in events')
  }

  lemma {:induction false} SameMeans(events: seq<Event>, events': seq<Event>, at: Address, id: nat, steps: nat)
    requires SameDefinitions(events, events') && Means(events, at, id, steps)
    ensures Means(events', at, id, steps)
    decreases steps
  {
    assert Defines(Own(at, id));
    if Own(at, id) !in events {
      var to :| Alias(at, to) in events && Means(events, to, id, steps - 1);
      assert Defines(Alias(at, to));
      SameMeans(events, events', to, id, steps - 1);
    }
  }

  /** `a: {"$ref": b}` and `b: true`: the order decides whether a reference or the node is filed at `a`. */
  lemma FilingDependsOnOrder(a: Address, b: Address)
    requires a != b
    ensures var first, second := Replay([Alias(a, b), Own(b, 0)]), Replay([Own(b, 0), Alias(a, b)]);
      && first.Some? && Lookup(first.value, a) == Some(Reference(b))
      && second.Some? && Lookup(second.value, a) == Some(Node(0))
  {
    hide Step, Lookup;
    TwoSteps(Alias(a, b), Own(b, 0));
    TwoSteps(Own(b, 0), Alias(a, b));
    NothingThere(a);
    NothingThere(b);
    StepLookup(EmptyRegistry, Alias(a, b), a);
    StepLookup(EmptyRegistry, Alias(a, b), b);
    StepLookup(Step(EmptyRegistry, Alias(a, b)).value, Own(b, 0), a);
    StepLookup(EmptyRegistry, Own(b, 0), a);
    StepLookup(EmptyRegistry, Own(b, 0), b);
    StepLookup(Step(EmptyRegistry, Own(b, 0)).value, Alias(a, b), a);
  }

  lemma TwoSteps(e: Event, e': Event)
    ensures Replay([e, e']) ==
      match Step(EmptyRegistry, e)
      case None => None
      case Some(r) => Step(r, e')
  {
    hide Step;
    assert [e][..0] == [];
    assert Replay([e]) == Step(EmptyRegistry, e);
    assert [e, e'][..1] == [e];
  }
}
