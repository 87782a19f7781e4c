/**
 The loop that compiles the root document and loads further files, over the tables
 of `SchemaTables`.  Which table operations a document causes is a parameter.
 */
module RootSchema {
  import opened Wrappers
  import opened SchemaTables
  import opened SchemaGraph
  import JsonUri

  // ------------------------------------------------------------ loading files

  predicate HasSchemas(r: Registry, location: string) {
    FileOf(r, location).schemas != map[]
  }

  lemma FiledGrows(r: Registry, at: Address, h: Handle)
    requires Filed(r, at, h).Some?
    ensures var r' := Filed(r, at, h).value;
      && r'.files.Keys == r.files.Keys + {at.0}
      && (forall l :: HasSchemas(r, l) ==> HasSchemas(r', l))
      && HasSchemas(r', at.0)
  {
    var r' := Filed(r, at, h).value;
    forall l | HasSchemas(r, l)
      ensures HasSchemas(r', l)
    {
      var f :| f in FileOf(r, l).schemas;
      assert f in FileOf(r', l).schemas;
    }
    assert at.1 in FileOf(r', at.0).schemas;
  }

  lemma RequestedGrows(r: Registry, at: Address)
    ensures var r' := Requested(r, at);
      r'.files.Keys == r.files.Keys + {at.0} && forall l :: HasSchemas(r, l) ==> HasSchemas(r', l)
  {
  }

  lemma StepGrows(r: Registry, e: Event)
    requires Step(r, e).Some?
    ensures var r' := Step(r, e).value;
      && r'.files.Keys == r.files.Keys + Named(e)
      && (forall l :: HasSchemas(r, l) ==> HasSchemas(r', l))
      && (Defines(e) ==> HasSchemas(r', e.at.0))
  {
    hide Filed, Requested, HasSchemas;
    match e
    case Own(at, id) => FiledGrows(r, at, Node(id));
    case Alias(at, to) =>
      RequestedGrows(r, to);
      FiledGrows(Requested(r, to), at, HandleFor(r, to));
    case Ask(at) => RequestedGrows(r, at);
  }

  /** Operations never remove a file or a schema, and create no other files than they name. */
  lemma {:induction false} RunsGrow(events: seq<Event>, more: seq<Event>)
    requires Replay(events + more).Some?
    ensures Replay(events).Some?
    ensures var r, r' := Replay(events).value, Replay(events + more).value;
      && r.files.Keys <= r'.files.Keys
      && (forall l :: l in r'.files ==> l in r.files || exists i :: 0 <= i < |more| && l in Named(more[i]))
      && (forall l :: HasSchemas(r, l) ==> HasSchemas(r', l))
      && (forall i :: 0 <= i < |more| && Defines(more[i]) ==> HasSchemas(r', more[i].at.0))
    decreases |more|
  {
    hide Step, HasSchemas, Named;
    if more == [] {
      assert events + more == events;
    } else {
      var first, last := more[..|more| - 1], more[|more| - 1];
      assert (events + more)[..|events + more| - 1] == events + first;
      RunsGrow(events, first);
      StepGrows(Replay(events + first).value, last);
      assert forall i :: 0 <= i < |first| ==> first[i] == more[i];
    }
  }

  /** The table operations that compiling the document of a location performs. */
  type Compiler = string -> seq<Event>

  /** The location under which a loaded document files its root schema: that of its parsed location string. */
  ghost function Base(location: string): string {
    JsonUri.ReparseIffPrintable(location);
    JsonUri.Location(JsonUri.Relocated(JsonUri.EmptyUri, location).value)
  }

  /**
   The root document and the documents of `reachable` name no other location,
   and each of these documents files its root schema under its base.
   */
  ghost predicate Reachable(reachable: set<string>, root: seq<Event>, compile: Compiler) {
    && (forall i :: 0 <= i < |root| ==> Named(root[i]) <= reachable)
    && (forall l :: l in reachable ==> Compiles(reachable, l, compile(l)))
  }

  ghost predicate Compiles(reachable: set<string>, location: string, events: seq<Event>) {
    && (forall i :: 0 <= i < |events| ==> Named(events[i]) <= reachable)
    && (exists i :: 0 <= i < |events| && Defines(events[i]) && events[i].at == (Base(location), ""))
  }

  /** The operations of several documents, one after the other. */
  function Compiled(compile: Compiler, locations: seq<string>): seq<Event> {
    if locations == [] then []
    else Compiled(compile, locations[..|locations| - 1]) + compile(locations[|locations| - 1])
  }

  lemma {:induction false} CompiledMembers(compile: Compiler, locations: seq<string>, e: Event)
    ensures e in Compiled(compile, locations) <==> exists l :: l in locations && e in compile(l)
  {
    if locations != [] {
      var init, last := locations[..|locations| - 1], locations[|locations| - 1];
      CompiledMembers(compile, init, e);
      assert locations == init + [last];
    }
  }

  /** Loading the same locations in another order gives every address the same denotation. */
  lemma LoadingOrder(root: seq<Event>, compile: Compiler, calls: seq<string>, calls': seq<string>, at: Address, id: nat)
    requires forall l :: l in calls <==> l in calls'
    requires Replay(root + Compiled(compile, calls)).Some? && Replay(root + Compiled(compile, calls')).Some?
    ensures DenotesAt(Replay(root + Compiled(compile, calls)).value, at, id)
      <==> DenotesAt(Replay(root + Compiled(compile, calls')).value, at, id)
  {
    hide Replay, DenotesAt, Compiled;
    var events, events' := root + Compiled(compile, calls), root + Compiled(compile, calls');
    forall e
      ensures e in events <==> e in events'
    {
      CompiledMembers(compile, calls, e);
      CompiledMembers(compile, calls', e);
    }
    OrderIndependent(events, events', at, id);
  }

  /** What holds between two calls of the loader, `calls` being the earlier ones. */
  ghost predicate Progress(r: Registry, history: seq<Event>, root: seq<Event>, compile: Compiler,
                           reachable: set<string>, calls: seq<string>) {
    && Replay(history) == Some(r) && history == root + Compiled(compile, calls)
    && r.files.Keys <= reachable
    && (forall i :: 0 <= i < |calls| ==> calls[i] in reachable && Lookup(r, (Base(calls[i]), "")).Some?)
    && Distinct(calls)
  }

  predicate Distinct(calls: seq<string>) {
    forall i, k :: 0 <= i < k < |calls| ==> calls[i] != calls[k]
  }

  lemma RootProgress(r: Registry, root: seq<Event>, compile: Compiler, reachable: set<string>)
    requires Reachable(reachable, root, compile) && Replay(root) == Some(r)
    ensures Progress(r, root, root, compile, reachable, [])
  {
    hide Replay, HasSchemas, Compiles;
    assert [] + root == root == root + Compiled(compile, []);
    NothingReplayed();
    RunsGrow([], root);
  }

  lemma NothingReplayed()
    ensures Replay([]) == Some(Registry(map[], map[]))
  {
  }

  lemma CompiledSnoc(root: seq<Event>, compile: Compiler, calls: seq<string>, location: string)
    ensures root + Compiled(compile, calls) + compile(location) == root + Compiled(compile, calls + [location])
  {
    assert (calls + [location])[..|calls|] == calls;
  }

  lemma LookupOnceMore(history: seq<Event>, events: seq<Event>, at: Address)
    requires Replay(history + events).Some?
    ensures Replay(history).Some?
    ensures Lookup(Replay(history).value, at).Some? ==> Lookup(Replay(history + events).value, at).Some?
    ensures (exists i :: 0 <= i < |events| && Defines(events[i]) && events[i].at == at) ==>
      Lookup(Replay(history).value, at) == None && Lookup(Replay(history + events).value, at).Some?
  {
    hide Replay, Lookup;
    var all := history + events;
    assert all[..|history|] == history;
    LookupStays(all, |history|, at);
    LookupIffDefined(all, at);
    LookupIffDefined(history, at);
    SucceedsIffDistinct(all);
    if i: nat :| i < |events| && Defines(events[i]) && events[i].at == at {
      assert all[|history| + i] == events[i];
      assert forall k :: 0 <= k < |history| ==> all[k] == history[k];
    }
  }

  /** A location that was loaded before cannot be loaded again without an exception. */
  lemma LoadKeepsProgress(r: Registry, history: seq<Event>, root: seq<Event>, compile: Compiler, reachable: set<string>,
                          calls: seq<string>, location: string)
    requires Reachable(reachable, root, compile) && Progress(r, history, root, compile, reachable, calls)
    requires location in r.files && !HasSchemas(r, location)
    ensures location in reachable
    ensures location in calls ==> !JsonUri.Printable(location) && Replay(history + compile(location)) == None
    ensures history + compile(location) == root + Compiled(compile, calls + [location])
    ensures match Replay(history + compile(location))
      case None => true
      case Some(r') =>
        && Progress(r', history + compile(location), root, compile, reachable, calls + [location])
        && r.files.Keys <= r'.files.Keys
        && forall l :: HasSchemas(r, l) ==> HasSchemas(r', l)
  {
    hide Replay, Compiled, JsonUri.Printable, Base, Lookup, HasSchemas, Named;
    CompiledSnoc(root, compile, calls, location);
    assert Compiles(reachable, location, compile(location));
    BaseHasSchemas(r, location);
    if Replay(history + compile(location)).Some? {
      RunsGrow(history, compile(location));
      LookupOnceMore(history, compile(location), (Base(location), ""));
      forall i | 0 <= i < |calls|
        ensures Lookup(Replay(history + compile(location)).value, (Base(calls[i]), "")).Some?
      {
        LookupOnceMore(history, compile(location), (Base(calls[i]), ""));
      }
    }
  }

  /** A file is without schemas exactly if no operation has defined anything in it. */
  lemma HasSchemasIffDefined(history: seq<Event>, location: string)
    requires Replay(history).Some?
    ensures HasSchemas(Replay(history).value, location) <==> DefinedIn(history, location)
  {
    hide Replay;
    var r := Replay(history).value;
    if HasSchemas(r, location) {
      var f :| f in FileOf(r, location).schemas;
      LookupIffDefined(history, (location, f));
    }
    if i: nat :| i < |history| && Defines(history[i]) && history[i].at.0 == location {
      var at := history[i].at;
      LookupIffDefined(history, at);
      assert at.1 in FileOf(r, location).schemas;
    }
  }

  ghost predicate DefinedIn(history: seq<Event>, location: string) {
    exists i :: 0 <= i < |history| && Defines(history[i]) && history[i].at.0 == location
  }

  /**
   A location that was loaded is still without schemas, and comes up again, exactly if no operation
   so far, its own document's included, has defined anything under it; loading it again throws.
   */
  lemma ComesUpAgainIff(r: Registry, history: seq<Event>, root: seq<Event>, compile: Compiler, reachable: set<string>,
                        calls: seq<string>, location: string)
    requires Reachable(reachable, root, compile) && Progress(r, history, root, compile, reachable, calls)
    requires location in calls && location in r.files
    ensures !HasSchemas(r, location) <==> !DefinedIn(history, location)
    ensures !HasSchemas(r, location) ==> Replay(history + compile(location)) == None
  {
    hide Replay, HasSchemas, Reachable;
    HasSchemasIffDefined(history, location);
    if !HasSchemas(r, location) {
      LoadKeepsProgress(r, history, root, compile, reachable, calls, location);
    }
  }

  /**
   The root document refers to the location "h/p", whose document files its root schema under "/h/p":
   the location is still without schemas after it was loaded, and loading it again throws.
   */
  lemma LoadedTwice(compile: Compiler)
    requires compile("h/p") == [Own(("/h/p", ""), 0)] && compile("/h/p") == [Own(("/h/p", ""), 0)]
    ensures var root := [Ask(("h/p", ""))];
      && Reachable({"h/p", "/h/p"}, root, compile)
      && var once := Replay(root + compile("h/p"));
      && once.Some? && "h/p" in once.value.files && !HasSchemas(once.value, "h/p")
      && Progress(once.value, root + compile("h/p"), root, compile, {"h/p", "/h/p"}, ["h/p"])
      && Replay(root + compile("h/p") + compile("h/p")) == None
  {
    var root := [Ask(("h/p", ""))];
    var once := root + compile("h/p");
    var reachable := {"h/p", "/h/p"};
    hide Reachable, Progress, Replay, HasSchemas, Lookup, Base, JsonUri.Printable;
    BothReachable(compile);
    AskedAndFiled();
    assert once == [Ask(("h/p", "")), Own(("/h/p", ""), 0)];
    OnceProgress(compile);
    LoadKeepsProgress(Replay(once).value, once, root, compile, reachable, ["h/p"], "h/p");
  }

  lemma OnceProgress(compile: Compiler)
    requires compile("h/p") == [Own(("/h/p", ""), 0)]
    ensures var root := [Ask(("h/p", ""))];
      var once := root + compile("h/p");
      && Replay(once).Some?
      && Progress(Replay(once).value, once, root, compile, {"h/p", "/h/p"}, ["h/p"])
  {
    hide Replay, HasSchemas, Lookup, Base, Compiled;
    var root := [Ask(("h/p", ""))];
    SlashAdded();
    AskedAndFiled();
    assert root + compile("h/p") == [Ask(("h/p", "")), Own(("/h/p", ""), 0)];
    OneCompiled(root, compile, "h/p");
  }

  lemma OneCompiled(root: seq<Event>, compile: Compiler, location: string)
    ensures root + compile(location) == root + Compiled(compile, [location])
  {
    CompiledSnoc(root, compile, [], location);
    assert [] + [location] == [location] && root + Compiled(compile, []) == root;
  }

  lemma AskedAndFiled()
    ensures var events := [Ask(("h/p", "")), Own(("/h/p", ""), 0)];
      && Replay(events).Some?
      && var r := Replay(events).value;
      && r.files.Keys == {"h/p", "/h/p"} && !HasSchemas(r, "h/p") && Lookup(r, ("/h/p", "")).Some?
  {
    TwoSteps(Ask(("h/p", "")), Own(("/h/p", ""), 0));
  }

  lemma BothReachable(compile: Compiler)
    requires compile("h/p") == [Own(("/h/p", ""), 0)] && compile("/h/p") == [Own(("/h/p", ""), 0)]
    ensures Reachable({"h/p", "/h/p"}, [Ask(("h/p", ""))], compile)
  {
    hide Base;
    var reachable := {"h/p", "/h/p"};
    SlashAdded();
    assert compile("h/p")[0].at == (Base("h/p"), "") && compile("/h/p")[0].at == (Base("/h/p"), "");
    assert Compiles(reachable, "h/p", compile("h/p")) && Compiles(reachable, "/h/p", compile("/h/p"));
  }

  lemma SlashAdded()
    ensures Base("h/p") == "/h/p" == Base("/h/p")
  {
    JsonUri.ReadsPath();
  }

  /** A printable location with something filed under its base is not empty. */
  lemma BaseHasSchemas(r: Registry, location: string)
    ensures Lookup(r, (Base(location), "")).Some? && JsonUri.Printable(location) ==> HasSchemas(r, location)
  {
    JsonUri.ReparseIffPrintable(location);
  }

  // ---------------------------------------------------- the graph that is left

  /** A reference node without a target is a reference of the tables without one. */
  ghost predicate RefsOf(g: Graph, r: Registry, home: map<Id, Address>) {
    forall id :: id in g.nodes && g.nodes[id].Ref? && g.nodes[id].target.None? ==>
      id in home && home[id] in r.targets && r.targets[home[id]].None?
  }

  /** What the semantics asks of a graph: after a normal end of the loading its references are resolved. */
  lemma LoadedGraphResolved(g: Graph, history: seq<Event>, home: map<Id, Address>)
    requires Replay(history).Some? && RefsOf(g, Replay(history).value, home)
    ensures NothingUnresolved(Replay(history).value) ==> Resolved(g)
  {
    hide Replay;
    if NothingUnresolved(Replay(history).value) {
      EveryReferenceHasTarget(history);
    }
  }

  // -------------------------------------------------------------- the class

  datatype LoadResult = Loaded | AlreadyInserted | NoLoader | UndefinedReferences

  class Root {
    var files: map<string, SchemaFile>
    var targets: map<Address, Option<Handle>>
    ghost var history: seq<Event>

    function View(): Registry
      reads this
    {
      Registry(files, targets)
    }

    ghost predicate Valid()
      reads this
    {
      Replay(history) == Some(View())
    }

    constructor ()
      ensures Valid() && history == []
    {
      files, targets, history := map[], map[], [];
    }

    method GetOrCreateFile(location: string) returns (file: SchemaFile)
      modifies `files
      ensures file == FileOf(old(View()), location)
      ensures files == old(files)[location := file]
    {
      if location !in files {
        files := files[location := NewFile];
      }
      file := files[location];
      assert files == files[location := file];
    }

    /** Throws on a second insertion; patches a waiting reference. */
    method Insert(at: Address, schema: Handle) returns (thrown: bool)
      modifies `files, `targets
      ensures match Filed(old(View()), at, schema)
        case None => thrown
        case Some(r) => !thrown && View() == r
    {
      ghost var before := View();
      var file := GetOrCreateFile(at.0);
      thrown := at.1 in file.schemas;
      if thrown {
        assert files == before.files;
        return;
      }
      var waiting := at.1 in file.unresolved;
      files := files[at.0 := file.(schemas := file.schemas[at.1 := schema])];
      if waiting {
        targets := targets[at := Some(schema)];
        files := files[at.0 := SchemaFile(file.schemas[at.1 := schema], file.unresolved - {at.1})];
      } else {
        assert file.unresolved - {at.1} == file.unresolved;
      }
      assert files == before.files[at.0 := SchemaFile(file.schemas[at.1 := schema], file.unresolved - {at.1})];
    }

    /** The schema at the address, or the one reference that waits for it. */
    method GetOrCreateRef(at: Address) returns (h: Handle)
      modifies `files, `targets
      ensures h == HandleFor(old(View()), at)
      ensures View() == Requested(old(View()), at)
    {
      ghost var before := View();
      var file := GetOrCreateFile(at.0);
      if at.1 in file.schemas {
        return file.schemas[at.1];
      }
      h := Reference(at);
      if at.1 !in file.unresolved {
        files := files[at.0 := file.(unresolved := file.unresolved + {at.1})];
        targets := targets[at := None];
        assert files == before.files[at.0 := file.(unresolved := file.unresolved + {at.1})];
      }
    }

    /** One operation of a document: a `$ref` files what its own request was given. */
    method Perform(e: Event) returns (thrown: bool)
      requires Valid()
      modifies this
      ensures thrown <==> Step(old(View()), e) == None
      ensures !thrown ==> Valid() && history == old(history) + [e]
    {
      ExtendReplay(history, e);
      thrown := false;
      match e {
        case Own(at, id) => thrown := Insert(at, Node(id));
        case Alias(at, to) =>
          var h := GetOrCreateRef(to);
          thrown := Insert(at, h);
        case Ask(at) => var _ := GetOrCreateRef(at);
      }
      if !thrown {
        history := history + [e];
      }
    }

    /** Compiles one document; an exception ends it early. */
    method Compile(events: seq<Event>) returns (thrown: bool)
      requires Valid()
      modifies this
      ensures !thrown ==> Valid() && history == old(history) + events
      ensures thrown <==> Replay(old(history) + events) == None
    {
      hide Replay, Step;
      assert old(history) + events[..0] == old(history);
      for i := 0 to |events|
        invariant Valid() && history == old(history) + events[..i]
      {
        assert old(history) + events[..i + 1] == history + [events[i]];
        ExtendReplay(history, events[i]);
        thrown := Perform(events[i]);
        if thrown {
          assert (old(history) + events)[..|old(history)| + i + 1] == old(history) + events[..i + 1];
          PrefixFails(old(history) + events, |old(history)| + i + 1);
          return;
        }
      }
      assert events[..|events|] == events;
      thrown := false;
    }

    /**
     Compiles the root document and loads every location that is still without a
     schema, round after round.  Over a finite set of reachable locations the
     rounds end.  A location is loaded twice only if it does not print and parse to
     itself, and then the second time throws and ends the loading.
     */
    method SetRootSchema(root: seq<Event>, compile: Compiler, hasLoader: bool, ghost reachable: set<string>)
      returns (result: LoadResult, calls: seq<string>)
      requires Reachable(reachable, root, compile)
      modifies this
      ensures forall i :: 0 <= i < |calls| ==> calls[i] in reachable
      ensures Distinct(calls) || (result == AlreadyInserted && RepeatsLast(root, compile, calls))
      ensures result == Loaded || result == UndefinedReferences ==>
        && Valid() && history == root + Compiled(compile, calls)
        && (forall l :: l in files ==> HasSchemas(View(), l))
      ensures result == Loaded ==> NothingUnresolved(View()) && forall a :: a in targets ==> targets[a].Some?
      ensures result == UndefinedReferences ==> !NothingUnresolved(View())
      ensures result == AlreadyInserted ==> Replay(root + Compiled(compile, calls)) == None
      ensures result == NoLoader ==> !hasLoader && exists l :: l in files && !HasSchemas(View(), l)
    {
      hide Replay, HasSchemas, Reachable;
      files, targets, history, calls := map[], map[], [], [];
      NothingReplayed();
      var thrown := Compile(root);
      assert [] + root == root == root + Compiled(compile, calls);
      if thrown {
        return AlreadyInserted, calls;
      }
      RootProgress(View(), root, compile, reachable);
      var loading := true;
      while loading
        invariant Progress(View(), history, root, compile, reachable, calls)
        invariant !loading ==> forall l :: l in files ==> HasSchemas(View(), l)
        decreases loading, reachable - (set i | 0 <= i < |calls| :: calls[i])
      {
        var earlier := calls;
        var failure;
        failure, calls := LoadRound(root, compile, hasLoader, reachable, calls);
        if failure.Some? {
          return failure.value, calls;
        }
        loading := |earlier| < |calls|;
        if loading {
          MoreCalls(earlier, calls, reachable);
        }
      }
      result := if exists l :: l in files && files[l].unresolved != {} then UndefinedReferences else Loaded;
      if NothingUnresolved(View()) {
        EveryReferenceHasTarget(history);
      }
    }

    /** One pass over the locations known at its start, in any order. */
    method LoadRound(ghost root: seq<Event>, compile: Compiler, hasLoader: bool, ghost reachable: set<string>,
                     earlier: seq<string>)
      returns (failure: Option<LoadResult>, calls: seq<string>)
      requires Reachable(reachable, root, compile)
      requires Progress(View(), history, root, compile, reachable, earlier)
      modifies this
      ensures earlier <= calls
      ensures forall i :: 0 <= i < |calls| ==> calls[i] in reachable
      ensures Distinct(calls) || (failure == Some(AlreadyInserted) && RepeatsLast(root, compile, calls))
      ensures failure.None? ==> Progress(View(), history, root, compile, reachable, calls)
      ensures failure.None? && calls == earlier ==> forall l :: l in files ==> HasSchemas(View(), l)
      ensures failure.Some? ==> failure.value == AlreadyInserted || failure.value == NoLoader
      ensures failure == Some(AlreadyInserted) ==> Replay(root + Compiled(compile, calls)) == None
      ensures failure == Some(NoLoader) ==> !hasLoader && exists l :: l in files && !HasSchemas(View(), l)
    {
      hide Replay, Reachable, HasSchemas;
      failure, calls := None, earlier;
      var locations := files.Keys;
      while locations != {}
        invariant locations <= files.Keys && earlier <= calls
        invariant Progress(View(), history, root, compile, reachable, calls)
        invariant calls == earlier ==> forall l :: l in files && l !in locations ==> HasSchemas(View(), l)
        decreases locations
      {
        var location :| location in locations;
        locations := locations - {location};
        if !HasSchemas(View(), location) {
          if !hasLoader {
            return Some(NoLoader), calls;
          }
          LoadKeepsProgress(View(), history, root, compile, reachable, calls, location);
          HasSchemasIffDefined(history, location);
          assert (calls + [location])[..|calls|] == calls;
          var thrown := Compile(compile(location));
          calls := calls + [location];
          if thrown {
            return Some(AlreadyInserted), calls;
          }
        }
      }
    }
  }

  /** Only the last call repeats an earlier one: its location is one under which nothing has been defined. */
  ghost predicate RepeatsLast(root: seq<Event>, compile: Compiler, calls: seq<string>) {
    && calls != []
    && var earlier, last := calls[..|calls| - 1], calls[|calls| - 1];
    && Distinct(earlier) && last in earlier
    && !JsonUri.Printable(last) && !DefinedIn(root + Compiled(compile, earlier), last)
  }

  lemma MoreCalls(earlier: seq<string>, calls: seq<string>, reachable: set<string>)
    requires earlier <= calls && |earlier| < |calls|
    requires forall i :: 0 <= i < |calls| ==> calls[i] in reachable
    requires Distinct(calls)
    ensures reachable - (set i | 0 <= i < |calls| :: calls[i]) < reachable - (set i | 0 <= i < |earlier| :: earlier[i])
  {
    var next := calls[|earlier|];
    assert forall i :: 0 <= i < |earlier| ==> calls[i] != next;
    assert next in reachable && next in (set i | 0 <= i < |calls| :: calls[i]);
    assert forall i :: 0 <= i < |earlier| ==> earlier[i] == calls[i];
    assert next in reachable - (set i | 0 <= i < |earlier| :: earlier[i]);
  }

  lemma PrefixFails(events: seq<Event>, k: nat)
    requires k <= |events| && Replay(events[..k]) == None
    ensures Replay(events) == None
  {
    if Replay(events).Some? {
      PrefixReplays(events, k);
    }
  }

  lemma ExtendReplay(events: seq<Event>, e: Event)
    requires Replay(events).Some?
    ensures Replay(events + [e]) == Step(Replay(events).value, e)
  {
    assert (events + [e])[..|events|] == events;
  }
}
