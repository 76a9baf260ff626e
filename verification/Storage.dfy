/** The two graph tables and the statements that change them. */
module Storage {
  import opened Wrappers
  import opened History

  /** A row of `graphs`. */
  datatype Row = Row(name: string, version: nat, deployed: bool, code: string, plan: Option<Blob>,
                     activeVersion: Option<nat>, parent: Option<GraphId>, forkNode: Option<string>,
                     forkLabel: Option<string>, lastEvent: Option<Event>)

  /** `rows` lists the ids in the order of insertion; `versions` is the table `graph_versions`
      with its primary key. */
  datatype Tables = Tables(graphs: map<GraphId, Row>, rows: seq<GraphId>, versions: map<(GraphId, nat), Snapshot>)

  /** Each graph has the versions 1 to n and no others, n and the code of version n are those of
      its head row, and an active version exists. */
  ghost predicate Versioned(t: Tables) {
    && (forall k :: k in t.versions <==> k.0 in t.graphs && 1 <= k.1 <= t.graphs[k.0].version)
    && (forall id :: id in t.graphs ==> RowFits(t, id))
  }

  ghost predicate RowFits(t: Tables, id: GraphId)
    requires id in t.graphs
  {
    var row := t.graphs[id];
    && (id, row.version) in t.versions && t.versions[(id, row.version)].code == row.code
    && (row.deployed <==> row.activeVersion.Some?)
    && (row.activeVersion.Some? ==> (id, row.activeVersion.value) in t.versions)
  }

  function Log(versions: map<(GraphId, nat), Snapshot>, id: GraphId, n: nat): (r: seq<Snapshot>)
    requires forall v: nat :: 1 <= v <= n ==> (id, v) in versions
    ensures |r| == n && forall v :: 1 <= v <= n ==> r[v - 1] == versions[(id, v)]
  {
    if n == 0 then [] else Log(versions, id, n - 1) + [versions[(id, n)]]
  }

  ghost function GraphOf(t: Tables, id: GraphId): Graph
    requires Versioned(t) && id in t.graphs
  {
    var row := t.graphs[id];
    Graph(row.name, Log(t.versions, id, row.version), row.plan, row.activeVersion, row.parent, row.forkNode, row.forkLabel, row.lastEvent)
  }

  /** The history that the tables record. */
  ghost function BookOf(t: Tables): (b: Book)
    requires Versioned(t)
    ensures b.graphs.Keys == t.graphs.Keys
  {
    Book(map id | id in t.graphs :: GraphOf(t, id), t.rows)
  }

  // ── What one statement does to the tables ───────────────────────

  /** A new graph with its first version. */
  function Inserted(t: Tables, id: GraphId, row: Row): Tables {
    Tables(t.graphs[id := row], t.rows + [id], t.versions[(id, 1) := Snapshot(row.code, None)])
  }

  /** A changed head row with a new version. */
  function Appended(t: Tables, id: GraphId, row: Row, s: Snapshot): Tables {
    t.(graphs := t.graphs[id := row], versions := t.versions[(id, row.version) := s])
  }

  lemma {:induction false} LogsAgree(v: map<(GraphId, nat), Snapshot>, w: map<(GraphId, nat), Snapshot>, id: GraphId, n: nat)
    requires forall k: nat :: 1 <= k <= n ==> (id, k) in v && (id, k) in w && v[(id, k)] == w[(id, k)]
    ensures Log(v, id, n) == Log(w, id, n)
  {
    if n > 0 {
      LogsAgree(v, w, id, n - 1);
    }
  }

  lemma SameGraph(t: Tables, u: Tables, x: GraphId)
    requires Versioned(t) && Versioned(u) && x in t.graphs && x in u.graphs && u.graphs[x] == t.graphs[x]
    requires forall k :: k in t.versions && k.0 == x ==> k in u.versions && u.versions[k] == t.versions[k]
    ensures GraphOf(u, x) == GraphOf(t, x)
  {
    LogsAgree(t.versions, u.versions, x, t.graphs[x].version);
  }

  /** All but one graph is the same in both tables. */
  ghost predicate OnlyAt(t: Tables, u: Tables, id: GraphId) {
    && u.graphs.Keys == t.graphs.Keys + {id}
    && (forall x :: x in t.graphs && x != id ==> u.graphs[x] == t.graphs[x])
    && (forall k :: k in t.versions && k.0 != id ==> k in u.versions && u.versions[k] == t.versions[k])
  }

  lemma BookOnlyAt(t: Tables, u: Tables, id: GraphId)
    requires Versioned(t) && Versioned(u) && OnlyAt(t, u, id)
    ensures BookOf(u).graphs == BookOf(t).graphs[id := GraphOf(u, id)]
  {
    hide Versioned, GraphOf;
    forall x | x in t.graphs && x != id
      ensures GraphOf(u, x) == GraphOf(t, x)
    {
      SameGraph(t, u, x);
    }
    assert BookOf(u).graphs.Keys == BookOf(t).graphs[id := GraphOf(u, id)].Keys;
  }

  lemma RowsFit(t: Tables, u: Tables, id: GraphId)
    requires Versioned(t) && OnlyAt(t, u, id)
    ensures forall x :: x in t.graphs && x != id ==> RowFits(u, x)
  {
    forall x | x in t.graphs && x != id
      ensures RowFits(u, x)
    {
      assert RowFits(t, x);
    }
  }

  lemma InsertedBook(t: Tables, id: GraphId, row: Row)
    requires Versioned(t) && id !in t.graphs && row.version == 1 && !row.deployed && row.activeVersion.None?
    ensures (id, 1) !in t.versions
    ensures Versioned(Inserted(t, id, row))
    ensures BookOf(Inserted(t, id, row)) == Add(BookOf(t), id,
      Graph(row.name, [Snapshot(row.code, None)], row.plan, None, row.parent, row.forkNode, row.forkLabel, row.lastEvent))
  {
    var u := Inserted(t, id, row);
    InsertedVersioned(t, id, row);
    BookOnlyAt(t, u, id);
    InsertedLog(t.versions, id, Snapshot(row.code, None));
  }

  lemma InsertedVersioned(t: Tables, id: GraphId, row: Row)
    requires Versioned(t) && id !in t.graphs && row.version == 1 && !row.deployed && row.activeVersion.None?
    ensures (id, 1) !in t.versions && Versioned(Inserted(t, id, row)) && OnlyAt(t, Inserted(t, id, row), id)
  {
    var u := Inserted(t, id, row);
    RowsFit(t, u, id);
    assert RowFits(u, id);
  }

  lemma InsertedLog(versions: map<(GraphId, nat), Snapshot>, id: GraphId, s: Snapshot)
    ensures Log(versions[(id, 1) := s], id, 1) == [s]
  {
    assert Log(versions[(id, 1) := s], id, 0) == [];
  }

  lemma AppendedVersioned(t: Tables, id: GraphId, row: Row, s: Snapshot)
    requires Versioned(t) && id in t.graphs && row.version == t.graphs[id].version + 1 && s.code == row.code
    requires row.deployed <==> row.activeVersion.Some?
    requires row.activeVersion.Some? ==> 1 <= row.activeVersion.value <= row.version
    ensures (id, row.version) !in t.versions
    ensures Versioned(Appended(t, id, row, s)) && OnlyAt(t, Appended(t, id, row, s), id)
  {
    var u := Appended(t, id, row, s);
    AppendedFits(t, id, row, s);
    RowsFit(t, u, id);
    hide RowFits;
    forall k: (GraphId, nat)
      ensures k in u.versions <==> k.0 in u.graphs && 1 <= k.1 <= u.graphs[k.0].version
    {
      if k.0 == id {
        assert k in u.versions <==> k in t.versions || k.1 == row.version;
      } else {
        assert k in u.versions <==> k in t.versions;
      }
    }
    forall x | x in u.graphs
      ensures RowFits(u, x)
    {
    }
    assert Versioned(u) by { hide Appended; }
  }

  lemma AppendedFits(t: Tables, id: GraphId, row: Row, s: Snapshot)
    requires Versioned(t) && id in t.graphs && row.version == t.graphs[id].version + 1 && s.code == row.code
    requires row.deployed <==> row.activeVersion.Some?
    requires row.activeVersion.Some? ==> 1 <= row.activeVersion.value <= row.version
    ensures RowFits(Appended(t, id, row, s), id)
  {
  }

  lemma AllRecorded(t: Tables, id: GraphId)
    requires Versioned(t) && id in t.graphs
    ensures forall v: nat :: 1 <= v <= t.graphs[id].version ==> (id, v) in t.versions
  {
  }

  lemma AppendedLog(versions: map<(GraphId, nat), Snapshot>, id: GraphId, n: nat, s: Snapshot)
    requires forall v: nat :: 1 <= v <= n ==> (id, v) in versions
    ensures Log(versions[(id, n + 1) := s], id, n + 1) == Log(versions, id, n) + [s]
  {
    LogsAgree(versions, versions[(id, n + 1) := s], id, n);
  }

  lemma AppendedBook(t: Tables, id: GraphId, row: Row, s: Snapshot)
    requires Versioned(t) && id in t.graphs && row.version == t.graphs[id].version + 1 && s.code == row.code
    requires row.deployed <==> row.activeVersion.Some?
    requires row.activeVersion.Some? ==> 1 <= row.activeVersion.value <= row.version
    ensures (id, row.version) !in t.versions
    ensures Versioned(Appended(t, id, row, s))
    ensures BookOf(Appended(t, id, row, s)) == Set(BookOf(t), id,
      Graph(row.name, GraphOf(t, id).versions + [s], row.plan, row.activeVersion, row.parent, row.forkNode, row.forkLabel, row.lastEvent))
  {
    hide Versioned, Log;
    AppendedVersioned(t, id, row, s);
    AllRecorded(t, id);
    AppendedLog(t.versions, id, t.graphs[id].version, s);
    BookOnlyAt(t, Appended(t, id, row, s), id);
  }

  /** A statement on the head row that leaves version and code alone. */
  lemma RowBook(t: Tables, id: GraphId, row: Row)
    requires Versioned(t) && id in t.graphs && row.version == t.graphs[id].version && row.code == t.graphs[id].code
    requires row.deployed <==> row.activeVersion.Some?
    requires row.activeVersion.Some? ==> (id, row.activeVersion.value) in t.versions
    ensures var u := t.(graphs := t.graphs[id := row]);
      && Versioned(u)
      && BookOf(u) == Set(BookOf(t), id,
        Graph(row.name, GraphOf(t, id).versions, row.plan, row.activeVersion, row.parent, row.forkNode, row.forkLabel, row.lastEvent))
  {
    var u := t.(graphs := t.graphs[id := row]);
    assert RowFits(t, id);
    RowsFit(t, u, id);
    BookOnlyAt(t, u, id);
  }

  /** A statement on one version that leaves its code alone. */
  lemma PlanBook(t: Tables, id: GraphId, v: nat, plan: Option<Blob>)
    requires Versioned(t) && (id, v) in t.versions
    ensures id in t.graphs && 1 <= v <= |GraphOf(t, id).versions|
    ensures var u := t.(versions := t.versions[(id, v) := t.versions[(id, v)].(plan := plan)]);
      && Versioned(u)
      && BookOf(u) == Set(BookOf(t), id, GraphOf(t, id).(
        versions := GraphOf(t, id).versions[v - 1 := GraphOf(t, id).versions[v - 1].(plan := plan)]))
  {
    var u := t.(versions := t.versions[(id, v) := t.versions[(id, v)].(plan := plan)]);
    PlanVersioned(t, id, v, plan);
    BookOnlyAt(t, u, id);
    PlanGraph(t, id, v, plan);
    hide Versioned, GraphOf;
  }

  lemma PlanVersioned(t: Tables, id: GraphId, v: nat, plan: Option<Blob>)
    requires Versioned(t) && (id, v) in t.versions
    ensures id in t.graphs && 1 <= v <= |GraphOf(t, id).versions|
    ensures var u := t.(versions := t.versions[(id, v) := t.versions[(id, v)].(plan := plan)]);
      Versioned(u) && OnlyAt(t, u, id)
  {
    var u := t.(versions := t.versions[(id, v) := t.versions[(id, v)].(plan := plan)]);
    assert RowFits(t, id);
    RowsFit(t, u, id);
    assert RowFits(u, id);
  }

  lemma PlanGraph(t: Tables, id: GraphId, v: nat, plan: Option<Blob>)
    requires Versioned(t) && (id, v) in t.versions
    ensures id in t.graphs && 1 <= v <= |GraphOf(t, id).versions|
    ensures var u := t.(versions := t.versions[(id, v) := t.versions[(id, v)].(plan := plan)]);
      && Versioned(u)
      && GraphOf(u, id) == GraphOf(t, id).(
        versions := GraphOf(t, id).versions[v - 1 := GraphOf(t, id).versions[v - 1].(plan := plan)])
  {
    PlanVersioned(t, id, v, plan);
    PlanLog(t.versions, id, t.graphs[id].version, v, plan);
  }

  lemma PlanLog(versions: map<(GraphId, nat), Snapshot>, id: GraphId, n: nat, v: nat, plan: Option<Blob>)
    requires (forall k: nat :: 1 <= k <= n ==> (id, k) in versions) && 1 <= v <= n
    ensures Log(versions[(id, v) := versions[(id, v)].(plan := plan)], id, n)
         == Log(versions, id, n)[v - 1 := Log(versions, id, n)[v - 1].(plan := plan)]
  {
    var after := versions[(id, v) := versions[(id, v)].(plan := plan)];
    var x, y := Log(after, id, n), Log(versions, id, n);
    forall k | 0 <= k < n
      ensures x[k] == y[v - 1 := y[v - 1].(plan := plan)][k]
    {
      assert x[k] == after[(id, k + 1)] && y[k] == versions[(id, k + 1)];
    }
  }

  // ── What the statements of one operation do together ────────────

  /** The tables record a sound history. */
  ghost predicate Fit(t: Tables) {
    Versioned(t) && Sound(BookOf(t))
  }

  lemma CreateTables(t: Tables, id: GraphId, row: Row, op: Op)
    requires Fit(t) && Failure(BookOf(t), op).None? && op.id == id
    requires op.CreateGraph? || op.ForkGraph?
    requires op.CreateGraph? ==> row == Row(op.name, 1, false, op.code, None, None, None, None, None, None)
    requires op.ForkGraph? ==>
      row == Row(t.graphs[op.parent].name, 1, false, op.code, None, None, Some(op.parent), Some(op.node), op.caption, None)
    ensures id !in t.graphs && (id, 1) !in t.versions
    ensures Fit(Inserted(t, id, row)) && BookOf(Inserted(t, id, row)) == Step(BookOf(t), op)
  {
    hide Sound, Extends, Versioned, Log;
    StepSound(BookOf(t), op);
    InsertedBook(t, id, row);
  }

  /** Row and history of one graph. */
  lemma RowAndGraph(t: Tables, id: GraphId, v: nat)
    requires Versioned(t)
    ensures (id, v) in t.versions <==> HasVersion(BookOf(t), id, v)
    ensures (id, v) in t.versions ==> id in t.graphs && v > 0 && BookOf(t).graphs[id].versions[v - 1] == t.versions[(id, v)]
    ensures id in t.graphs ==>
      var row := t.graphs[id];
      && BookOf(t).graphs[id] == GraphOf(t, id) && |GraphOf(t, id).versions| == row.version
      && (row.deployed <==> row.activeVersion.Some?)
      && (row.activeVersion.Some? ==> 1 <= row.activeVersion.value <= row.version && (id, row.activeVersion.value) in t.versions)
      && (id, row.version) in t.versions
      && forall k :: (id, k) in t.versions ==> k <= row.version
  {
    if id in t.graphs {
      assert RowFits(t, id);
    }
  }

  lemma UpdateTables(t: Tables, id: GraphId, code: string)
    requires Fit(t) && id in t.graphs
    ensures var row := t.graphs[id].(code := code, version := t.graphs[id].version + 1);
      var u := Appended(t, id, row, Snapshot(code, None));
      && (id, row.version) !in t.versions
      && Fit(u) && BookOf(u) == Step(BookOf(t), UpdateGraph(id, code))
      && |BookOf(u).graphs[id].versions| == row.version
  {
    hide Sound, Extends, Versioned, Log;
    StepSound(BookOf(t), UpdateGraph(id, code));
    RowAndGraph(t, id, 0);
    AppendedBook(t, id, t.graphs[id].(code := code, version := t.graphs[id].version + 1), Snapshot(code, None));
  }

  lemma DeployTables(t: Tables, id: GraphId, v: nat)
    requires Fit(t)
    ensures (id, v) in t.versions <==> HasVersion(BookOf(t), id, v)
    ensures (id, v) in t.versions ==> id in t.graphs && v > 0
    ensures (id, v) in t.versions ==>
      var row := t.graphs[id].(activeVersion := Some(v), deployed := true, lastEvent := Some(DeployEvent(v)));
      var u := t.(graphs := t.graphs[id := row]);
      Fit(u) && BookOf(u) == Step(BookOf(t), Deploy(id, v))
  {
    hide Sound, Extends, Versioned, Log;
    RowAndGraph(t, id, v);
    if (id, v) in t.versions {
      StepSound(BookOf(t), Deploy(id, v));
      RowBook(t, id, t.graphs[id].(activeVersion := Some(v), deployed := true, lastEvent := Some(DeployEvent(v))));
    }
  }

  function RollbackRow(row: Row, v: nat, target: Snapshot, newVersion: nat): Row {
    row.(code := target.code, version := newVersion,
         plan := if target.plan.Some? then target.plan else row.plan,
         activeVersion := if row.deployed then Some(newVersion) else row.activeVersion,
         lastEvent := Some(RollbackEvent(v)))
  }

  lemma RollbackTables(t: Tables, id: GraphId, v: nat, newVersion: nat)
    requires Fit(t) && (id, v) in t.versions && id in t.graphs && newVersion > 0
    requires (id, newVersion - 1) in t.versions && forall k :: (id, k) in t.versions ==> k < newVersion
    ensures HasVersion(BookOf(t), id, v) && (id, newVersion) !in t.versions
    ensures var u := Appended(t, id, RollbackRow(t.graphs[id], v, t.versions[(id, v)], newVersion), t.versions[(id, v)]);
      Fit(u) && BookOf(u) == Step(BookOf(t), Rollback(id, v))
  {
    hide Sound, Extends, Versioned, Log;
    var target := t.versions[(id, v)];
    RowAndGraph(t, id, v);
    assert newVersion == t.graphs[id].version + 1;
    StepSound(BookOf(t), Rollback(id, v));
    AppendedBook(t, id, RollbackRow(t.graphs[id], v, target, newVersion), target);
  }

  lemma SaveTables(t: Tables, id: GraphId, v: nat, plan: Blob)
    requires Fit(t)
    ensures var h := if id in t.graphs then t.(graphs := t.graphs[id := t.graphs[id].(plan := Some(plan))]) else t;
      var u := if (id, v) in h.versions then h.(versions := h.versions[(id, v) := h.versions[(id, v)].(plan := Some(plan))]) else h;
      Fit(u) && BookOf(u) == Step(BookOf(t), SavePlan(id, v, plan))
  {
    hide Sound, Extends, Versioned, Log;
    StepSound(BookOf(t), SavePlan(id, v, plan));
    RowAndGraph(t, id, v);
    if id in t.graphs {
      var row := t.graphs[id].(plan := Some(plan));
      RowBook(t, id, row);
      var h := t.(graphs := t.graphs[id := row]);
      if (id, v) in h.versions {
        PlanBook(h, id, v, Some(plan));
        SetTwice(BookOf(t), id, GraphOf(h, id), GraphOf(h, id).(
          versions := GraphOf(h, id).versions[v - 1 := GraphOf(h, id).versions[v - 1].(plan := Some(plan))]));
      }
    }
  }

  lemma SetTwice(b: Book, id: GraphId, g: Graph, h: Graph)
    ensures Set(Set(b, id, g), id, h) == Set(b, id, h)
  {
    assert b.graphs[id := g][id := h] == b.graphs[id := h];
  }

  // ── The store ───────────────────────────────────────────────────

  class SqliteStorage {
    var graphs: map<GraphId, Row>
    var rows: seq<GraphId>
    var versions: map<(GraphId, nat), Snapshot>

    ghost function State(): Tables
      reads this
    {
      Tables(graphs, rows, versions)
    }

    ghost predicate Valid()
      reads this
    {
      Fit(State())
    }

    ghost function Recorded(): Book
      reads this
      requires Valid()
    {
      BookOf(State())
    }

    constructor ()
      ensures Valid() && Recorded() == Empty
    {
      graphs, rows, versions := map[], [], map[];
    }

    method CreateGraph(id: GraphId, name: string, code: string) returns (r: Result<GraphId, StorageError>)
      requires Valid()
      modifies this
      ensures Valid() && Recorded() == Step(old(Recorded()), Op.CreateGraph(id, name, code))
      ensures r == if id in old(Recorded()).graphs then Err(IdTaken(id)) else Ok(id)
    {
      hide Fit, BookOf;
      if id in graphs {
        return Err(IdTaken(id));
      }
      var row := Row(name, 1, false, code, None, None, None, None, None, None);
      CreateTables(State(), id, row, Op.CreateGraph(id, name, code));
      graphs, rows := graphs[id := row], rows + [id];
      versions := versions[(id, 1) := Snapshot(code, None)];
      r := Ok(id);
    }

    method UpdateGraph(id: GraphId, code: string) returns (r: Result<nat, StorageError>)
      requires Valid()
      modifies this
      ensures Valid() && Recorded() == Step(old(Recorded()), Op.UpdateGraph(id, code))
      ensures r.Err? <==> id !in old(Recorded()).graphs
      ensures r.Err? ==> r.error == GraphNotFound(id)
      ensures r.Ok? ==> id in Recorded().graphs && r.value == |Recorded().graphs[id].versions|
    {
      hide Fit, Log, Versioned;
      if id !in graphs {
        return Err(GraphNotFound(id));
      }
      UpdateTables(State(), id, code);
      var newVersion := graphs[id].version + 1;
      graphs := graphs[id := graphs[id].(code := code, version := newVersion)];
      versions := versions[(id, newVersion) := Snapshot(code, None)];
      r := Ok(newVersion);
    }

    method Deploy(id: GraphId, version: nat) returns (failure: Option<StorageError>)
      requires Valid()
      modifies this
      ensures Valid() && Recorded() == Step(old(Recorded()), Op.Deploy(id, version))
      ensures failure == if HasVersion(old(Recorded()), id, version) then None else Some(VersionNotFound(version, id))
    {
      hide Fit, BookOf;
      DeployTables(State(), id, version);
      if (id, version) !in versions {
        return Some(VersionNotFound(version, id));
      }
      graphs := graphs[id := graphs[id].(activeVersion := Some(version), deployed := true, lastEvent := Some(DeployEvent(version)))];
      failure := None;
    }

    /** The largest recorded version of a graph, 0 without one. */
    method MaxVersion(id: GraphId) returns (m: nat)
      ensures forall v :: (id, v) in versions ==> v <= m
      ensures m == 0 || (id, m) in versions
    {
      m := 0;
      var rest := versions.Keys;
      while rest != {}
        invariant rest <= versions.Keys
        invariant forall v :: (id, v) in versions.Keys - rest ==> v <= m
        invariant m == 0 || (id, m) in versions
      {
        var k: (GraphId, nat) :| k in rest;
        if k.0 == id && k.1 > m {
          m := k.1;
        }
        rest := rest - {k};
      }
    }

    method Rollback(id: GraphId, version: nat) returns (failure: Option<StorageError>)
      requires Valid()
      modifies this
      ensures Valid() && Recorded() == Step(old(Recorded()), Op.Rollback(id, version))
      ensures failure == if HasVersion(old(Recorded()), id, version) then None else Some(VersionNotFound(version, id))
    {
      hide Fit, BookOf;
      ghost var start := State();
      DeployTables(start, id, version);
      if (id, version) !in versions {
        return Some(VersionNotFound(version, id));
      }
      var target := versions[(id, version)];
      var maxVersion := MaxVersion(id);
      var newVersion := maxVersion + 1;
      RollbackTables(start, id, version, newVersion);
      graphs := graphs[id := graphs[id].(code := target.code, version := newVersion)];
      versions := versions[(id, newVersion) := target];
      if target.plan.Some? {
        graphs := graphs[id := graphs[id].(plan := target.plan)];
      }
      if graphs[id].deployed {
        graphs := graphs[id := graphs[id].(activeVersion := Some(newVersion))];
      }
      graphs := graphs[id := graphs[id].(lastEvent := Some(RollbackEvent(version)))];
      assert State() == Appended(start, id, RollbackRow(start.graphs[id], version, target, newVersion), target);
      failure := None;
    }

    /** Writes the head row whatever the version. */
    method SavePlan(id: GraphId, version: nat, plan: Blob)
      requires Valid()
      modifies this
      ensures Valid() && Recorded() == Step(old(Recorded()), Op.SavePlan(id, version, plan))
    {
      hide Fit, BookOf, Step;
      SaveTables(State(), id, version, plan);
      if id in graphs {
        graphs := graphs[id := graphs[id].(plan := Some(plan))];
      }
      if (id, version) in versions {
        versions := versions[(id, version) := versions[(id, version)].(plan := Some(plan))];
      }
    }

    method LoadPlan(id: GraphId) returns (r: Result<Blob, StorageError>)
      requires Valid()
      ensures r == var b := Recorded();
        if id !in b.graphs then Err(GraphNotFound(id))
        else if b.graphs[id].plan.None? then Err(PlanMissing(id))
        else Ok(b.graphs[id].plan.value)
    {
      r := if id !in graphs then Err(GraphNotFound(id))
           else if graphs[id].plan.None? then Err(PlanMissing(id))
           else Ok(graphs[id].plan.value);
    }

    method LoadPlanVersion(id: GraphId, version: nat) returns (r: Result<Blob, StorageError>)
      requires Valid()
      ensures r == PlanOf(Recorded(), id, version)
      ensures r == var b := Recorded();
        if id !in b.graphs || !(1 <= version <= |b.graphs[id].versions|) then Err(VersionNotFound(version, id))
        else if b.graphs[id].versions[version - 1].plan.None? then Err(PlanVersionMissing(version, id))
        else Ok(b.graphs[id].versions[version - 1].plan.value)
    {
      hide Versioned, Log;
      RowAndGraph(State(), id, version);
      r := if (id, version) !in versions then Err(VersionNotFound(version, id))
           else if versions[(id, version)].plan.None? then Err(PlanVersionMissing(version, id))
           else Ok(versions[(id, version)].plan.value);
    }

    method ForkGraph(child: GraphId, id: GraphId, node: string, code: string, caption: Option<string>)
      returns (r: Result<GraphId, StorageError>)
      requires Valid()
      modifies this
      ensures Valid() && Recorded() == Step(old(Recorded()), Op.ForkGraph(child, id, node, code, caption))
      ensures r ==
        if id !in old(Recorded()).graphs then Err(GraphNotFound(id))
        else if child in old(Recorded()).graphs then Err(IdTaken(child))
        else Ok(child)
    {
      hide Fit, BookOf;
      if id !in graphs {
        return Err(GraphNotFound(id));
      }
      if child in graphs {
        return Err(IdTaken(child));
      }
      var row := Row(graphs[id].name, 1, false, code, None, None, Some(id), Some(node), caption, None);
      CreateTables(State(), child, row, Op.ForkGraph(child, id, node, code, caption));
      graphs, rows := graphs[child := row], rows + [child];
      versions := versions[(child, 1) := Snapshot(code, None)];
      r := Ok(child);
    }

    /** Walks up the parents and reverses what it met. */
    method GraphLineage(id: GraphId) returns (r: Result<seq<GraphId>, StorageError>)
      requires Valid()
      ensures r == if id in Recorded().graphs then Ok(Lineage(Recorded(), id)) else Err(GraphNotFound(id))
    {
      hide Versioned, Log, Sound;
      ghost var b := Recorded();
      FitOrdered(State());
      var lineage: seq<GraphId> := [];
      var current := Some(id);
      while current.Some?
        invariant current.Some? && id !in b.graphs ==> current.value == id
        invariant current.None? ==> id in b.graphs && Backwards(lineage) == Lineage(b, id)
        invariant current.Some? && id in b.graphs ==>
          current.value in b.graphs && Lineage(b, current.value) + Backwards(lineage) == Lineage(b, id)
        decreases if current.None? then 0 else if current.value !in b.graphs then 1 else 2 + BirthOf(b, current.value)
      {
        var here := current.value;
        if here !in graphs {
          return Err(GraphNotFound(here));
        }
        UpNext(b, here, lineage);
        RowAndGraph(State(), here, 0);
        current := graphs[here].parent;
        lineage := lineage + [here];
      }
      r := Ok(Backwards(lineage));
    }

    /** The children in the order of creation. */
    method ListChildren(id: GraphId) returns (r: seq<GraphId>)
      requires Valid()
      ensures r == Children(Recorded(), id)
    {
      hide Fit, BookOf, ChildrenAmong, Children;
      r := [];
      ChildrenFirst(State(), id);
      for i := 0 to |rows|
        invariant ChildrenSoFar(Recorded(), rows, i, id, r)
      {
        RowParent(State(), i);
        ChildrenNext(Recorded(), rows, i, id, r);
        if graphs[rows[i]].parent == Some(id) {
          r := r + [rows[i]];
        }
      }
      ChildrenLast(Recorded(), rows, id, r);
    }

    method GraphTree(id: GraphId) returns (r: Result<Tree, StorageError>)
      requires Valid()
      ensures r == if id in Recorded().graphs then Ok(TreeOf(Recorded(), id)) else Err(GraphNotFound(id))
      decreases if id in Recorded().graphs then |Recorded().born| - BirthOf(Recorded(), id) else 0
    {
      hide Versioned, Log, Sound, Children, TreesOf;
      ghost var b := Recorded();
      FitOrdered(State());
      if id !in graphs {
        return Err(GraphNotFound(id));
      }
      var children := ListChildren(id);
      var trees: seq<Tree> := [];
      for i := 0 to |children|
        invariant trees == TreesOf(b, id, children)[..i]
      {
        TreesAt(b, id, children, i);
        var subtree := GraphTree(children[i]);
        trees := trees + [subtree.value];
      }
      assert TreesOf(b, id, children)[..|children|] == TreesOf(b, id, children);
      r := Ok(Tree(id, trees));
    }
  }

  lemma FitOrdered(t: Tables)
    requires Fit(t)
    ensures Ordered(BookOf(t)) && BookOf(t).born == t.rows && BookOf(t).graphs.Keys == t.graphs.Keys
  {
  }

  lemma UpNext(b: Book, here: GraphId, below: seq<GraphId>)
    requires Ordered(b) && here in b.graphs
    ensures match b.graphs[here].parent
      case None => Lineage(b, here) + Backwards(below) == Backwards(below + [here])
      case Some(p) =>
        p in b.graphs && BirthOf(b, p) < BirthOf(b, here) &&
        Lineage(b, here) + Backwards(below) == Lineage(b, p) + Backwards(below + [here])
  {
    BackwardsNext(below, here);
    if b.graphs[here].parent.Some? {
      ParentIsOlder(b, here);
    }
  }

  lemma RowParent(t: Tables, i: nat)
    requires Fit(t) && i < |t.rows|
    ensures t.rows[i] in t.graphs && t.rows[i] in BookOf(t).graphs && BookOf(t).graphs[t.rows[i]].parent == t.graphs[t.rows[i]].parent
  {
    hide Versioned, Log;
    assert t.rows[i] in BookOf(t).born;
  }

  ghost predicate ChildrenSoFar(b: Book, rows: seq<GraphId>, i: nat, id: GraphId, r: seq<GraphId>) {
    i <= |rows| && r + ChildrenAmong(b.graphs, rows[i..], id) == Children(b, id)
  }

  lemma ChildrenFirst(t: Tables, id: GraphId)
    requires Fit(t)
    ensures ChildrenSoFar(BookOf(t), t.rows, 0, id, [])
  {
    hide Versioned;
    assert t.rows[0..] == BookOf(t).born;
  }

  lemma ChildrenNext(b: Book, rows: seq<GraphId>, i: nat, id: GraphId, r: seq<GraphId>)
    requires i < |rows| && rows[i] in b.graphs && ChildrenSoFar(b, rows, i, id, r)
    ensures ChildrenSoFar(b, rows, i + 1, id, if b.graphs[rows[i]].parent == Some(id) then r + [rows[i]] else r)
  {
    hide Children;
    assert rows[i..][1..] == rows[i + 1..];
    var rest := ChildrenAmong(b.graphs, rows[i + 1..], id);
    assert r + ([rows[i]] + rest) == (r + [rows[i]]) + rest;
  }

  lemma ChildrenLast(b: Book, rows: seq<GraphId>, id: GraphId, r: seq<GraphId>)
    requires ChildrenSoFar(b, rows, |rows|, id, r)
    ensures r == Children(b, id)
  {
    hide Children;
    assert r + [] == r;
  }

  function Backwards(s: seq<GraphId>): seq<GraphId> {
    if s == [] then [] else Backwards(s[1..]) + [s[0]]
  }

  lemma {:induction false} BackwardsNext(s: seq<GraphId>, x: GraphId)
    ensures Backwards(s + [x]) == [x] + Backwards(s)
  {
    if s != [] {
      BackwardsNext(s[1..], x);
      assert (s + [x])[1..] == s[1..] + [x];
    }
  }
}
