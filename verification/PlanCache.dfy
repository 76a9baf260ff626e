/** The cache of decoded plans, keyed by graph and checked by version. */
module PlanCache {
  import opened Wrappers
  import opened History
  import opened Storage
  import opened Compiled

  /** Compiling and decoding, which may fail but always answer the same. */
  datatype Codec = Codec(compile: string -> Option<Blob>, decode: Blob -> Option<CompiledPlan>)

  /** A graph row as a lookup read it; it may be out of date by the time it is used. */
  datatype Definition = Definition(id: GraphId, version: nat, code: string)

  function Decoded(codec: Codec, code: string): Option<CompiledPlan> {
    match codec.compile(code)
    case None => None
    case Some(bytes) => codec.decode(bytes)
  }

  // ── The assumption on plans, and what the cache promises ────────

  function CodeOf(b: Book, id: GraphId, v: nat): string
    requires HasVersion(b, id, v)
  {
    b.graphs[id].versions[v - 1].code
  }

  /** Every recorded plan decodes to what the code of its own version compiles to. */
  ghost predicate PlansFixed(codec: Codec, b: Book) {
    forall id, v :: HasVersion(b, id, v) && b.graphs[id].versions[v - 1].plan.Some? ==>
      codec.decode(b.graphs[id].versions[v - 1].plan.value) == Decoded(codec, CodeOf(b, id, v))
  }

  /** Whoever saves a plan saves one that decodes to what the code of the version compiles to. */
  ghost predicate Disciplined(codec: Codec, b: Book, op: Op) {
    op.SavePlan? && HasVersion(b, op.id, op.version) ==>
      codec.decode(op.plan) == Decoded(codec, CodeOf(b, op.id, op.version))
  }

  ghost predicate Read(b: Book, g: Definition) {
    HasVersion(b, g.id, g.version) && CodeOf(b, g.id, g.version) == g.code
  }

  /** `p` is the decoded plan that the tables hold for this version. */
  ghost predicate Matches(codec: Codec, b: Book, id: GraphId, v: nat, p: CompiledPlan) {
    && PlanOf(b, id, v).Ok? && codec.decode(PlanOf(b, id, v).value) == Some(p)
    && Decoded(codec, CodeOf(b, id, v)) == Some(p)
  }

  type Cache = map<GraphId, (nat, CompiledPlan)>

  ghost predicate CacheFits(codec: Codec, b: Book, cache: Cache) {
    forall id :: id in cache ==> Matches(codec, b, id, cache[id].0, cache[id].1)
  }

  lemma DisciplineKeeps(codec: Codec, b: Book, op: Op)
    requires Sound(b) && PlansFixed(codec, b) && Disciplined(codec, b, op)
    ensures Sound(Step(b, op)) && Extends(b, Step(b, op)) && PlansFixed(codec, Step(b, op))
  {
    StepSound(b, op);
    hide Sound, Extends;
    forall id, v | HasVersion(Step(b, op), id, v) && Step(b, op).graphs[id].versions[v - 1].plan.Some? {
      OneDisciplineKeeps(codec, b, op, id, v);
    }
  }

  lemma OneDisciplineKeeps(codec: Codec, b: Book, op: Op, id: GraphId, v: nat)
    requires PlansFixed(codec, b) && Disciplined(codec, b, op)
    requires HasVersion(Step(b, op), id, v) && Step(b, op).graphs[id].versions[v - 1].plan.Some?
    ensures codec.decode(Step(b, op).graphs[id].versions[v - 1].plan.value) == Decoded(codec, CodeOf(Step(b, op), id, v))
  {
    var c := Step(b, op);
    if HasVersion(b, id, v) && c.graphs[id].versions[v - 1] == b.graphs[id].versions[v - 1] {
      assert CodeOf(c, id, v) == CodeOf(b, id, v);
    } else if op.Rollback? {
      assert HasVersion(b, id, op.version);
      assert c.graphs[id].versions[v - 1] == b.graphs[id].versions[op.version - 1];
      assert CodeOf(c, id, v) == CodeOf(b, id, op.version);
    } else {
      assert op.SavePlan? && op.id == id && op.version == v;
      assert c.graphs[id].versions[v - 1].plan == Some(op.plan);
    }
  }

  /** The discipline is what it takes: a save keeps the plans in order if and only if it follows it. */
  lemma DisciplineIff(codec: Codec, b: Book, op: Op)
    requires Sound(b) && PlansFixed(codec, b)
    ensures PlansFixed(codec, Step(b, op)) <==> Disciplined(codec, b, op)
  {
    if Disciplined(codec, b, op) {
      DisciplineKeeps(codec, b, op);
    } else {
      var c := Step(b, op);
      assert HasVersion(c, op.id, op.version) && CodeOf(c, op.id, op.version) == CodeOf(b, op.id, op.version);
      assert c.graphs[op.id].versions[op.version - 1].plan == Some(op.plan);
    }
  }

  /** What matched once matches in every later state. */
  lemma MatchStays(codec: Codec, b: Book, c: Book, id: GraphId, v: nat, p: CompiledPlan)
    requires Extends(b, c) && PlansFixed(codec, b) && PlansFixed(codec, c) && Matches(codec, b, id, v, p)
    ensures Matches(codec, c, id, v, p)
  {
    assert HasVersion(b, id, v) && HasVersion(c, id, v);
    assert GraphExtends(b.graphs[id], c.graphs[id]);
    assert CodeOf(c, id, v) == CodeOf(b, id, v);
  }

  lemma ReadStays(b: Book, c: Book, g: Definition)
    requires Extends(b, c) && Read(b, g)
    ensures Read(c, g)
  {
    assert GraphExtends(b.graphs[g.id], c.graphs[g.id]);
  }

  lemma CacheStays(codec: Codec, b: Book, c: Book, cache: Cache)
    requires Extends(b, c) && PlansFixed(codec, b) && PlansFixed(codec, c) && CacheFits(codec, b, cache)
    ensures CacheFits(codec, c, cache)
  {
    forall id | id in cache
      ensures Matches(codec, c, id, cache[id].0, cache[id].1)
    {
      MatchStays(codec, b, c, id, cache[id].0, cache[id].1);
    }
  }

  /** A recorded plan decodes to what its code compiles and decodes to. */
  lemma RecordedMatches(codec: Codec, b: Book, g: Definition)
    requires PlansFixed(codec, b) && Read(b, g) && PlanOf(b, g.id, g.version).Ok?
    ensures codec.decode(PlanOf(b, g.id, g.version).value) == Decoded(codec, g.code)
    ensures Decoded(codec, g.code).Some? ==> Matches(codec, b, g.id, g.version, Decoded(codec, g.code).value)
  {
  }

  /** Saving the compiled code makes it the recorded plan. */
  lemma HealRecords(codec: Codec, b: Book, g: Definition)
    requires Sound(b) && PlansFixed(codec, b) && Read(b, g) && codec.compile(g.code).Some?
    ensures var c := Step(b, SavePlan(g.id, g.version, codec.compile(g.code).value));
      && Sound(c) && Extends(b, c) && PlansFixed(codec, c) && Read(c, g)
      && PlanOf(c, g.id, g.version) == Ok(codec.compile(g.code).value)
  {
    var op := SavePlan(g.id, g.version, codec.compile(g.code).value);
    DisciplineKeeps(codec, b, op);
    ReadStays(b, Step(b, op), g);
  }

  // ── One lookup by itself ────────────────────────────────────────

  datatype LookupError = Recompile | PlanDecode | Lookup(error: StorageError)

  /** With or without the cache, the result is the compiled and decoded code of the version that
      was asked for, however old. A plan that was missing is recorded, and nothing else changes. */
  ghost predicate Loaded(codec: Codec, g: Definition, b: Book, c: Book, before: Cache, after: Cache,
                         r: Result<CompiledPlan, LookupError>)
  {
    && (HasVersion(c, g.id, g.version) <==> HasVersion(b, g.id, g.version))
    && (r.Ok? <==> HasVersion(b, g.id, g.version) && Decoded(codec, g.code).Some?)
    && (r.Ok? ==> Matches(codec, c, g.id, g.version, r.value) && after == before[g.id := (g.version, r.value)])
    && (r.Err? ==> after == before)
    && c == if HasVersion(b, g.id, g.version) && PlanOf(b, g.id, g.version).Err? && codec.compile(g.code).Some?
            then Step(b, SavePlan(g.id, g.version, codec.compile(g.code).value))
            else b
  }

  class CachedPlans {
    var cache: Cache

    constructor ()
      ensures cache == map[]
    {
      cache := map[];
    }

    ghost predicate Fits(codec: Codec, b: Book)
      reads this
    {
      PlansFixed(codec, b) && CacheFits(codec, b, cache)
    }

    method LoadCachedPlan(codec: Codec, store: SqliteStorage, g: Definition) returns (r: Result<CompiledPlan, LookupError>)
      requires store.Valid() && Fits(codec, store.Recorded())
      requires HasVersion(store.Recorded(), g.id, g.version) ==> Read(store.Recorded(), g)
      modifies this, store
      ensures store.Valid() && Fits(codec, store.Recorded())
      ensures Loaded(codec, g, old(store.Recorded()), store.Recorded(), old(cache), cache, r)
    {
      hide Sound, Extends, Fit, BookOf, PlansFixed, Step;
      ghost var before := store.Recorded();
      if g.id in cache && cache[g.id].0 == g.version {
        assert Matches(codec, before, g.id, g.version, cache[g.id].1);
        assert cache == cache[g.id := (g.version, cache[g.id].1)];
        return Ok(cache[g.id].1);
      }
      var stored := store.LoadPlanVersion(g.id, g.version);
      var bytes: Blob;
      if stored.Ok? {
        bytes := stored.value;
      } else if stored.error.PlanMissing? || stored.error.PlanVersionMissing? {
        var output := codec.compile(g.code);
        if output.None? {
          return Err(Recompile);
        }
        FitSound(store.State());
        HealRecords(codec, before, g);
        bytes := output.value;
        store.SavePlan(g.id, g.version, bytes);
        CacheStays(codec, before, store.Recorded(), cache);
      } else {
        return Err(Lookup(stored.error));
      }
      RecordedMatches(codec, store.Recorded(), g);
      var plan := codec.decode(bytes);
      if plan.None? {
        return Err(PlanDecode);
      }
      cache := cache[g.id := (g.version, plan.value)];
      r := Ok(plan.value);
    }
  }

  lemma FitSound(t: Tables)
    requires Fit(t)
    ensures Sound(BookOf(t))
  {
  }

  // ── Many lookups at once ────────────────────────────────────────

  /** How far one lookup has come. Between two phases anything else may happen. */
  datatype Phase = Start | Missed | Healing | Fetched(bytes: Blob) | Returned(plan: CompiledPlan) | Failed

  datatype Call = Call(graph: Definition, phase: Phase)

  datatype System = System(book: Book, cache: Cache, calls: map<nat, Call>)

  datatype Action =
    | Store(op: Op)
    | Resolve(call: nat, id: GraphId)
    | CheckCache(call: nat)
    | Fetch(call: nat)
    | Heal(call: nat)
    | Insert(call: nat)

  ghost predicate Enabled(codec: Codec, s: System, a: Action) {
    match a
    case Store(op) => Disciplined(codec, s.book, op)
    case Resolve(c, id) => c !in s.calls && id in s.book.graphs && HasVersion(s.book, id, |s.book.graphs[id].versions|)
    case CheckCache(c) => c in s.calls && s.calls[c].phase.Start?
    case Fetch(c) => c in s.calls && s.calls[c].phase.Missed?
    case Heal(c) => c in s.calls && s.calls[c].phase.Healing?
    case Insert(c) => c in s.calls && s.calls[c].phase.Fetched?
  }

  function To(s: System, c: nat, phase: Phase): System
    requires c in s.calls
  {
    s.(calls := s.calls[c := s.calls[c].(phase := phase)])
  }

  ghost function Next(codec: Codec, s: System, a: Action): System
    requires Enabled(codec, s, a)
  {
    match a
    case Store(op) => s.(book := Step(s.book, op))
    case Resolve(c, id) =>
      var v := |s.book.graphs[id].versions|;
      s.(calls := s.calls[c := Call(Definition(id, v, CodeOf(s.book, id, v)), Start)])
    case CheckCache(c) =>
      var g := s.calls[c].graph;
      To(s, c, if g.id in s.cache && s.cache[g.id].0 == g.version then Returned(s.cache[g.id].1) else Missed)
    case Fetch(c) =>
      var g := s.calls[c].graph;
      To(s, c, match PlanOf(s.book, g.id, g.version)
               case Ok(bytes) => Fetched(bytes)
               case Err(e) => if e.PlanVersionMissing? || e.PlanMissing? then Healing else Failed)
    case Heal(c) =>
      var g := s.calls[c].graph;
      (match codec.compile(g.code)
       case None => To(s, c, Failed)
       case Some(bytes) => To(s, c, Fetched(bytes)).(book := Step(s.book, SavePlan(g.id, g.version, bytes))))
    case Insert(c) =>
      var g := s.calls[c].graph;
      (match codec.decode(s.calls[c].phase.bytes)
       case None => To(s, c, Failed)
       case Some(plan) => To(s, c, Returned(plan)).(cache := s.cache[g.id := (g.version, plan)]))
  }

  ghost predicate CallFits(codec: Codec, b: Book, c: Call) {
    && Read(b, c.graph)
    && match c.phase
       case Fetched(bytes) =>
         PlanOf(b, c.graph.id, c.graph.version).Ok? && codec.decode(bytes) == Decoded(codec, c.graph.code)
       case Returned(plan) => Matches(codec, b, c.graph.id, c.graph.version, plan)
       case Failed => Decoded(codec, c.graph.code).None?
       case _ => true
  }

  ghost predicate Inv(codec: Codec, s: System) {
    && Sound(s.book) && PlansFixed(codec, s.book) && CacheFits(codec, s.book, s.cache)
    && forall c :: c in s.calls ==> CallFits(codec, s.book, s.calls[c])
  }

  lemma CallStays(codec: Codec, b: Book, c: Book, call: Call)
    requires Extends(b, c) && PlansFixed(codec, b) && PlansFixed(codec, c) && CallFits(codec, b, call)
    ensures CallFits(codec, c, call)
  {
    ReadStays(b, c, call.graph);
    match call.phase
    case Returned(plan) => MatchStays(codec, b, c, call.graph.id, call.graph.version, plan);
    case Fetched(_) =>
      assert GraphExtends(b.graphs[call.graph.id], c.graphs[call.graph.id]);
    case _ =>
  }

  /** The store changed and only gained; the cache and the calls did not. */
  lemma BookGrew(codec: Codec, s: System, b: Book)
    requires Inv(codec, s) && Sound(b) && Extends(s.book, b) && PlansFixed(codec, b)
    ensures Inv(codec, s.(book := b))
  {
    CacheStays(codec, s.book, b, s.cache);
    forall c | c in s.calls {
      CallStays(codec, s.book, b, s.calls[c]);
    }
  }

  lemma NextKeeps(codec: Codec, s: System, a: Action)
    requires Inv(codec, s) && Enabled(codec, s, a)
    ensures Inv(codec, Next(codec, s, a))
  {
    hide Sound, Extends, PlansFixed, Step;
    match a
    case Store(op) =>
      DisciplineKeeps(codec, s.book, op);
      BookGrew(codec, s, Step(s.book, op));
    case Resolve(c, id) =>
    case CheckCache(c) =>
    case Fetch(c) =>
      var g := s.calls[c].graph;
      assert CallFits(codec, s.book, s.calls[c]);
      if PlanOf(s.book, g.id, g.version).Ok? {
        RecordedMatches(codec, s.book, g);
      }
    case Heal(c) =>
      var g := s.calls[c].graph;
      assert CallFits(codec, s.book, s.calls[c]);
      if codec.compile(g.code).Some? {
        HealRecords(codec, s.book, g);
        BookGrew(codec, s, Step(s.book, SavePlan(g.id, g.version, codec.compile(g.code).value)));
      }
    case Insert(c) =>
      assert CallFits(codec, s.book, s.calls[c]);
      RecordedMatches(codec, s.book, s.calls[c].graph);
  }

  ghost predicate Reachable(codec: Codec, actions: seq<Action>, s: System)
    decreases |actions|
  {
    if actions == [] then s == System(Empty, map[], map[])
    else
      var last := actions[|actions| - 1];
      exists before ::
        Reachable(codec, actions[..|actions| - 1], before) && Enabled(codec, before, last) && s == Next(codec, before, last)
  }

  lemma {:induction false} ReachableInv(codec: Codec, actions: seq<Action>, s: System)
    requires Reachable(codec, actions, s)
    ensures Inv(codec, s)
    decreases |actions|
  {
    if actions != [] {
      var last := actions[|actions| - 1];
      var before :| Reachable(codec, actions[..|actions| - 1], before) && Enabled(codec, before, last) && s == Next(codec, before, last);
      ReachableInv(codec, actions[..|actions| - 1], before);
      NextKeeps(codec, before, last);
    }
  }

  /** In every interleaving a lookup that returned has the plan that the tables hold, then and
      ever after, for the version it had read; it fails only if that code does not compile to a
      decodable plan. */
  lemma LookupsAgree(codec: Codec, actions: seq<Action>, s: System, c: nat)
    requires Reachable(codec, actions, s) && c in s.calls
    ensures var g := s.calls[c].graph;
      && Read(s.book, g)
      && (s.calls[c].phase.Returned? ==> Matches(codec, s.book, g.id, g.version, s.calls[c].phase.plan))
      && (s.calls[c].phase.Failed? ==> Decoded(codec, g.code).None?)
  {
    ReachableInv(codec, actions, s);
  }

  /** What a lookup returns after another plan is saved for a version that is cached: it is what the tables
      then decode to if and only if the plan saved decodes to what the code compiles to. */
  lemma CachedAfterSave(codec: Codec, s: System, c: nat, bytes: Blob)
    requires Inv(codec, s) && c in s.calls && s.calls[c].phase.Start?
    requires var g := s.calls[c].graph; g.id in s.cache && s.cache[g.id].0 == g.version
    ensures var g := s.calls[c].graph;
      var u := Next(codec, s.(book := Step(s.book, SavePlan(g.id, g.version, bytes))), CheckCache(c));
      && u.calls[c].phase.Returned? && PlanOf(u.book, g.id, g.version) == Ok(bytes)
      && (codec.decode(bytes) == Some(u.calls[c].phase.plan) <==> codec.decode(bytes) == Decoded(codec, g.code))
      && (codec.decode(bytes) == Decoded(codec, g.code) <==> Disciplined(codec, s.book, SavePlan(g.id, g.version, bytes)))
  {
    assert CallFits(codec, s.book, s.calls[c]);
    var g := s.calls[c].graph;
    assert Matches(codec, s.book, g.id, s.cache[g.id].0, s.cache[g.id].1);
  }

  /** Without the discipline the cache is not refreshed: after another plan is saved for the same
      version, a lookup still returns the old one. */
  lemma RewrittenPlanIsNotSeen(codec: Codec, s: System, c: nat, bytes: Blob)
    requires Inv(codec, s) && c in s.calls && s.calls[c].phase.Start?
    requires var g := s.calls[c].graph; g.id in s.cache && s.cache[g.id].0 == g.version
    requires codec.decode(bytes) != Decoded(codec, s.calls[c].graph.code)
    ensures var g := s.calls[c].graph;
      var t := s.(book := Step(s.book, SavePlan(g.id, g.version, bytes)));
      var u := Next(codec, t, CheckCache(c));
      && PlanOf(u.book, g.id, g.version) == Ok(bytes)
      && u.calls[c].phase.Returned? && codec.decode(bytes) != Some(u.calls[c].phase.plan)
  {
    assert CallFits(codec, s.book, s.calls[c]);
    var g := s.calls[c].graph;
    assert Matches(codec, s.book, g.id, s.cache[g.id].0, s.cache[g.id].1);
  }
}
