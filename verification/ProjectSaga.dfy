/** Provisioning of projects (cmd/pipeline-api/admin.go): three stores changed in sequence, with
    compensations. A store call that fails changes nothing. Lakekeeper ids are positive; 0 is
    the empty id. */
module ProjectSaga {
  datatype Row = Row(name: string, lk: nat)
  datatype Relation = ProjectAdmin | Editor | Viewer
  datatype Tuple = Tuple(user: string, relation: Relation, project: nat)

  // Postgres rows, Lakekeeper projects and OpenFGA tuples; the next ids the first two hand out.
  datatype Stores = Stores(
    rows: map<nat, Row>, projects: map<nat, string>, tuples: set<Tuple>, nextRow: nat, nextLk: nat)

  // `FindProjectIDByName`: a project of that name, or 0.
  type Finder = (map<nat, string>, string) -> nat

  ghost predicate Finds(find: Finder) {
    forall projects: map<nat, string>, name: string :: 0 !in projects ==>
      if find(projects, name) == 0 then forall id :: id in projects ==> projects[id] != name
      else find(projects, name) in projects && projects[find(projects, name)] == name
  }

  // One such lookup: any project of that name.
  ghost function AnyNamed(projects: map<nat, string>, name: string): nat {
    if exists id :: id in projects && projects[id] == name
    then var id :| id in projects && projects[id] == name; id
    else 0
  }

  lemma AnyNamedFinds()
    ensures Finds(AnyNamed)
  {
  }

  predicate UniqueNames(rows: map<nat, Row>) {
    forall a, b :: a in rows && b in rows && rows[a].name == rows[b].name ==> a == b
  }

  // Ids handed out are new, and row names are unique.
  ghost predicate WellFormed(s: Stores) {
    && UniqueNames(s.rows)
    && s.nextLk > 0 && 0 !in s.projects
    && (forall id :: id in s.rows ==> id < s.nextRow && s.rows[id].lk < s.nextLk)
    && (forall id :: id in s.projects ==> id < s.nextLk)
    && (forall t :: t in s.tuples ==> t.project < s.nextLk)
  }

  // The three stores hold the same.
  predicate Same(a: Stores, b: Stores) {
    a.rows == b.rows && a.projects == b.projects && a.tuples == b.tuples
  }

  predicate Named(rows: map<nat, Row>, name: string) {
    exists id :: id in rows && rows[id].name == name
  }

  function RowNamed(rows: map<nat, Row>, name: string): (id: nat)
    requires UniqueNames(rows) && Named(rows, name)
    ensures id in rows && rows[id].name == name
  {
    var id :| id in rows && rows[id].name == name;
    id
  }

  // ------------------------------------------------------------------------- creating

  // Which calls fail. `undoTuples` is the number of tuple deletions that succeed before one fails.
  datatype CreateFaults = CreateFaults(
    insert: bool, lookup: bool, find: bool, allocate: bool, grant: bool, persist: bool, namespace: bool,
    undoTuples: nat, undoProject: bool, undoRow: bool)

  // `undone`: every compensation that was due succeeded.
  datatype Outcome = Created(row: nat, lk: nat) | Failed(undone: bool)

  datatype Step = Step(s: Stores, out: Outcome)

  // The creator's tuples for the first `n` relations, deleted one by one.
  function Revoked(tuples: set<Tuple>, user: string, lk: nat, n: nat): set<Tuple> {
    tuples
    - (if n > 0 then {Tuple(user, ProjectAdmin, lk)} else {})
    - (if n > 1 then {Tuple(user, Editor, lk)} else {})
    - (if n > 2 then {Tuple(user, Viewer, lk)} else {})
  }

  function UndoRow(s: Stores, row: nat, f: CreateFaults): Step {
    if f.undoRow || row !in s.rows then Step(s, Failed(false)) else Step(s.(rows := s.rows - {row}), Failed(true))
  }

  function UndoProject(s: Stores, row: nat, lk: nat, f: CreateFaults): Step {
    if f.undoProject then Step(s, Failed(false)) else UndoRow(s.(projects := s.projects - {lk}), row, f)
  }

  function UndoGrant(s: Stores, row: nat, lk: nat, user: string, f: CreateFaults): Step {
    var t := s.(tuples := Revoked(s.tuples, user, lk, f.undoTuples));
    if f.undoTuples < 3 then Step(t, Failed(false)) else UndoProject(t, row, lk, f)
  }

  // From the grant on.
  function CreateGrant(s: Stores, row: nat, lk: nat, user: string, withNamespace: bool, f: CreateFaults): Step
    requires row in s.rows
  {
    if f.grant then UndoProject(s, row, lk, f)
    else
      var t := s.(tuples := s.tuples + {Tuple(user, ProjectAdmin, lk)});
      if f.persist then UndoGrant(t, row, lk, user, f)
      else
        var u := t.(rows := t.rows[row := t.rows[row].(lk := lk)]);
        if withNamespace && f.namespace then UndoGrant(u, row, lk, user, f) else Step(u, Created(row, lk))
  }

  // From the Lakekeeper project on.
  function CreateLakekeeper(s: Stores, row: nat, name: string, user: string, withNamespace: bool,
                            f: CreateFaults, find: Finder): Step
    requires row in s.rows
  {
    if f.find then UndoRow(s, row, f)
    else
      var lk := find(s.projects, name);
      if lk != 0 then CreateGrant(s, row, lk, user, withNamespace, f)
      else if f.allocate then UndoRow(s, row, f)
      else
        var t := s.(projects := s.projects[s.nextLk := name], nextLk := s.nextLk + 1);
        CreateGrant(t, row, s.nextLk, user, withNamespace, f)
  }

  function Create(s: Stores, name: string, user: string, withNamespace: bool, f: CreateFaults, find: Finder): Step
    requires UniqueNames(s.rows)
  {
    if f.insert then Step(s, Failed(true))
    else if Named(s.rows, name) then
      if f.lookup then Step(s, Failed(true))
      else CreateLakekeeper(s, RowNamed(s.rows, name), name, user, withNamespace, f, find)
    else
      var t := s.(rows := s.rows[s.nextRow := Row(name, 0)], nextRow := s.nextRow + 1);
      CreateLakekeeper(t, s.nextRow, name, user, withNamespace, f, find)
  }

  // ------------------------------------------------------------------------- deleting

  datatype DeleteFaults = DeleteFaults(lookup: bool, tuples: nat, project: bool, row: bool)

  // One attempt, and whether it succeeded.
  function Delete(s: Stores, row: nat, user: string, f: DeleteFaults): (Stores, bool) {
    if f.lookup || row !in s.rows then (s, false)
    else
      var lk := s.rows[row].lk;
      var t := if lk == 0 then s else s.(tuples := Revoked(s.tuples, user, lk, f.tuples));
      if lk != 0 && f.tuples < 3 then (t, false)
      else if lk != 0 && f.project then (t, false)
      else
        var u := if lk == 0 then t else t.(projects := t.projects - {lk});
        if f.row then (u, false) else (u.(rows := u.rows - {row}), true)
  }

  // ---------------------------------------------------------------------- reconciling

  datatype RowFaults = RowFaults(probe: bool, find: bool, allocate: bool, check: bool, grant: bool, persist: bool)

  // The Lakekeeper id a row is to have, with the project it names; None if a call failed.
  datatype Located = NotLocated | Located(s: Stores, lk: nat)

  function Locate(s: Stores, p: Row, f: RowFaults, find: Finder): Located {
    if p.lk != 0 && f.probe then NotLocated
    else if p.lk != 0 && p.lk in s.projects then Located(s, p.lk)
    else if f.find then NotLocated
    else
      var byName := find(s.projects, p.name);
      if byName != 0 then Located(s, byName)
      else if f.allocate then NotLocated
      else Located(s.(projects := s.projects[s.nextLk := p.name], nextLk := s.nextLk + 1), s.nextLk)
  }

  // `p` is the row as it was listed.
  function ReconcileRow(s: Stores, row: nat, p: Row, user: string, f: RowFaults, find: Finder): (Stores, bool) {
    var at := Locate(s, p, f, find);
    if at.NotLocated? then (s, false)
    else if f.check then (at.s, false)
    else
      var grant := Tuple(user, ProjectAdmin, at.lk);
      if grant !in at.s.tuples && f.grant then (at.s, false)
      else
        var t := at.s.(tuples := at.s.tuples + {grant});
        if at.lk == p.lk then (t, true)
        else if f.persist || row !in t.rows then (t, false)
        else (t.(rows := t.rows[row := t.rows[row].(lk := at.lk)]), true)
  }

  // The rows `ids[i..]` of the listing `listed`.
  function Reconcile(s: Stores, listed: map<nat, Row>, ids: seq<nat>, i: nat, user: string,
                     fs: nat -> RowFaults, find: Finder): (Stores, bool)
    requires i <= |ids| && forall k :: 0 <= k < |ids| ==> ids[k] in listed
    decreases |ids| - i
  {
    if i == |ids| then (s, true)
    else
      var (t, ok) := ReconcileRow(s, ids[i], listed[ids[i]], user, fs(i), find);
      if !ok then (t, false) else Reconcile(t, listed, ids, i + 1, user, fs, find)
  }

  // ----------------------------------------------------------------- the commands themselves

  class Backends {
    var rows: map<nat, Row>
    var projects: map<nat, string>
    var tuples: set<Tuple>
    var nextRow: nat
    var nextLk: nat

    function View(): Stores
      reads this
    {
      Stores(rows, projects, tuples, nextRow, nextLk)
    }

    method DeleteProjectTuples(user: string, lk: nat, succeed: nat) returns (ok: bool)
      modifies this`tuples
      ensures tuples == Revoked(old(tuples), user, lk, succeed) && (ok <==> succeed >= 3)
    {
      var relations := [ProjectAdmin, Editor, Viewer];
      for i := 0 to 3
        invariant i <= succeed
        invariant tuples == Revoked(old(tuples), user, lk, i)
      {
        if i == succeed {
          return false;
        }
        tuples := tuples - {Tuple(user, relations[i], lk)};
      }
      return true;
    }

    method RollbackPostgres(row: nat, f: CreateFaults) returns (out: Outcome)
      modifies this`rows
      ensures Step(View(), out) == UndoRow(old(View()), row, f)
    {
      if f.undoRow || row !in rows {
        return Failed(false);
      }
      rows := rows - {row};
      return Failed(true);
    }

    method RollbackLakekeeper(row: nat, lk: nat, f: CreateFaults) returns (out: Outcome)
      modifies this`rows, this`projects
      ensures Step(View(), out) == UndoProject(old(View()), row, lk, f)
    {
      if f.undoProject {
        return Failed(false);
      }
      projects := projects - {lk};
      out := RollbackPostgres(row, f);
    }

    method RollbackFGA(row: nat, lk: nat, user: string, f: CreateFaults) returns (out: Outcome)
      modifies this`rows, this`projects, this`tuples
      ensures Step(View(), out) == UndoGrant(old(View()), row, lk, user, f)
    {
      var ok := DeleteProjectTuples(user, lk, f.undoTuples);
      if !ok {
        return Failed(false);
      }
      out := RollbackLakekeeper(row, lk, f);
    }

    method AdminCreateProject(name: string, user: string, withNamespace: bool, f: CreateFaults, find: Finder)
      returns (out: Outcome)
      requires UniqueNames(rows)
      modifies this
      ensures Step(View(), out) == Create(old(View()), name, user, withNamespace, f, find)
    {
      hide UndoRow, UndoProject, UndoGrant;
      if f.insert {
        return Failed(true);
      }
      var row: nat;
      if Named(rows, name) {
        if f.lookup {
          return Failed(true);
        }
        row := RowNamed(rows, name);
      } else {
        row := nextRow;
        rows, nextRow := rows[row := Row(name, 0)], nextRow + 1;
      }
      if f.find {
        out := RollbackPostgres(row, f);
        return;
      }
      var lk := find(projects, name);
      if lk == 0 {
        if f.allocate {
          out := RollbackPostgres(row, f);
          return;
        }
        lk := nextLk;
        projects, nextLk := projects[lk := name], nextLk + 1;
      }
      if f.grant {
        out := RollbackLakekeeper(row, lk, f);
        return;
      }
      tuples := tuples + {Tuple(user, ProjectAdmin, lk)};
      if f.persist {
        out := RollbackFGA(row, lk, user, f);
        return;
      }
      rows := rows[row := rows[row].(lk := lk)];
      if withNamespace && f.namespace {
        out := RollbackFGA(row, lk, user, f);
        return;
      }
      return Created(row, lk);
    }

    method AdminDeleteProject(row: nat, user: string, f: DeleteFaults) returns (ok: bool)
      modifies this
      ensures (View(), ok) == Delete(old(View()), row, user, f)
    {
      if f.lookup || row !in rows {
        return false;
      }
      var lk := rows[row].lk;
      if lk != 0 {
        ok := DeleteProjectTuples(user, lk, f.tuples);
        if !ok {
          return;
        }
        if f.project {
          return false;
        }
        projects := projects - {lk};
      }
      if f.row {
        return false;
      }
      rows := rows - {row};
      return true;
    }

    method EnsureProject(p: Row, f: RowFaults, find: Finder) returns (lk: nat, ok: bool)
      modifies this`projects, this`nextLk
      ensures (if ok then Located(View(), lk) else NotLocated) == Locate(old(View()), p, f, find)
      ensures !ok ==> View() == old(View())
    {
      lk := p.lk;
      if lk != 0 {
        if f.probe {
          return 0, false;
        }
        if lk !in projects {
          lk := 0;
        }
      }
      if lk == 0 {
        if f.find {
          return 0, false;
        }
        var byName := find(projects, p.name);
        if byName != 0 {
          lk := byName;
        } else {
          if f.allocate {
            return 0, false;
          }
          lk := nextLk;
          projects, nextLk := projects[lk := p.name], nextLk + 1;
        }
      }
      return lk, true;
    }

    method AdminEnsureProjectAuthz(ids: seq<nat>, user: string, fs: nat -> RowFaults, find: Finder) returns (ok: bool)
      requires forall k :: 0 <= k < |ids| ==> ids[k] in rows
      modifies this
      ensures (View(), ok) == Reconcile(old(View()), old(rows), ids, 0, user, fs, find)
    {
      hide Locate;
      var listed := rows;
      var i := 0;
      while i < |ids|
        invariant 0 <= i <= |ids|
        invariant Reconcile(View(), listed, ids, i, user, fs, find) == Reconcile(old(View()), listed, ids, 0, user, fs, find)
      {
        var p, f := listed[ids[i]], fs(i);
        var lk;
        lk, ok := EnsureProject(p, f, find);
        if !ok {
          return;
        }
        if f.check {
          return false;
        }
        var grant := Tuple(user, ProjectAdmin, lk);
        if grant !in tuples {
          if f.grant {
            return false;
          }
          tuples := tuples + {grant};
        }
        assert tuples == tuples + {grant};
        if lk != p.lk {
          if f.persist || ids[i] !in rows {
            return false;
          }
          rows := rows[ids[i] := rows[ids[i]].(lk := lk)];
        }
        i := i + 1;
      }
      return true;
    }
  }

  // --------------------------------------------------------------------- create restores

  // The Lakekeeper project the create works on was there before, and nothing stopped it earlier.
  ghost predicate ReusesProject(s: Stores, name: string, f: CreateFaults, find: Finder) {
    !f.find && find(s.projects, name) != 0
  }

  // Nothing that existed before is in the way of the compensations.
  ghost predicate Restorable(s: Stores, name: string, f: CreateFaults, find: Finder) {
    || f.insert
    || (Named(s.rows, name) && f.lookup)
    || (!Named(s.rows, name) && !ReusesProject(s, name, f, find))
  }

  // What a create adds before it gives up: at most this.
  ghost predicate AtMost(s: Stores, t: Stores, row: nat, lk: nat, user: string) {
    && (t.rows == s.rows || (row in t.rows && t.rows - {row} == s.rows))
    && (t.projects == s.projects || (lk in t.projects && t.projects - {lk} == s.projects))
    && s.tuples <= t.tuples <= s.tuples + {Tuple(user, ProjectAdmin, lk)}
  }

  // Compensations that fail leave the row to find the rest by, and no grant without its project.
  predicate LeftInOrder(t: Stores, row: nat, lk: nat, user: string) {
    row in t.rows && (Tuple(user, ProjectAdmin, lk) in t.tuples ==> lk in t.projects)
  }

  lemma NewTupleRevoked(s: Stores, user: string, lk: nat, n: nat)
    requires forall t :: t in s.tuples ==> t.project < lk
    ensures Revoked(s.tuples + {Tuple(user, ProjectAdmin, lk)}, user, lk, n)
      == if n > 0 then s.tuples else s.tuples + {Tuple(user, ProjectAdmin, lk)}
  {
  }

  // Compensating for a new row and a new project.
  lemma GrantUndone(s: Stores, t: Stores, row: nat, lk: nat, user: string, withNamespace: bool, f: CreateFaults)
    requires row in t.rows && row !in s.rows && t.rows - {row} == s.rows
    requires lk !in s.projects && t.projects - {lk} == s.projects && t.tuples == s.tuples
    requires lk in t.projects
    requires forall x :: x in s.tuples ==> x.project < lk
    ensures var r := CreateGrant(t, row, lk, user, withNamespace, f);
      && (r.out == Failed(true) ==> Same(r.s, s))
      && (r.out.Failed? ==> AtMost(s, r.s, row, lk, user))
      && (r.out == Failed(false) ==> LeftInOrder(r.s, row, lk, user))
  {
    NewTupleRevoked(s, user, lk, f.undoTuples);
    var rows := t.rows[row := t.rows[row].(lk := lk)];
    assert rows - {row} == t.rows - {row};
  }

  /** For a name absent from both stores, a failing create whose compensations succeed restores
      all three stores; and one whose compensations fail leaves at most what it made itself. */
  lemma FreshCreateRestores(s: Stores, name: string, user: string, withNamespace: bool, f: CreateFaults, find: Finder)
    requires WellFormed(s) && Finds(find)
    requires !Named(s.rows, name) && find(s.projects, name) == 0
    ensures var r := Create(s, name, user, withNamespace, f, find);
      && (r.out == Failed(true) ==> Same(r.s, s))
      && (r.out.Failed? ==> AtMost(s, r.s, s.nextRow, s.nextLk, user))
      && (r.out == Failed(false) ==> LeftInOrder(r.s, s.nextRow, s.nextLk, user))
  {
    hide CreateGrant, Finds;
    if !f.insert {
      var t := s.(rows := s.rows[s.nextRow := Row(name, 0)], nextRow := s.nextRow + 1);
      assert t.rows - {s.nextRow} == s.rows;
      if !f.find && !f.allocate {
        var u := t.(projects := t.projects[t.nextLk := name], nextLk := t.nextLk + 1);
        assert u.projects - {t.nextLk} == s.projects;
        GrantUndone(s, u, s.nextRow, s.nextLk, user, withNamespace, f);
      }
    }
  }

  /** In general, a failing create whose compensations succeed restores the stores exactly when
      neither the row nor the project it compensates for was there before. */
  lemma RestoresIff(s: Stores, name: string, user: string, withNamespace: bool, f: CreateFaults, find: Finder)
    requires WellFormed(s) && Finds(find)
    requires Create(s, name, user, withNamespace, f, find).out == Failed(true)
    ensures Same(Create(s, name, user, withNamespace, f, find).s, s) <==> Restorable(s, name, f, find)
  {
    hide Finds;
    if f.insert || (Named(s.rows, name) && f.lookup) {
    } else if Named(s.rows, name) {
      RowIsGone(s, RowNamed(s.rows, name), name, user, withNamespace, f, find);
    } else {
      var t := s.(rows := s.rows[s.nextRow := Row(name, 0)], nextRow := s.nextRow + 1);
      assert t.rows - {s.nextRow} == s.rows;
      if f.find {
      } else if find(s.projects, name) == 0 {
        FreshCreateRestores(s, name, user, withNamespace, f, find);
      } else {
        var lk := find(s.projects, name);
        assert lk in s.projects by { FindsIn(s.projects, name, find); }
        ProjectIsGone(t, s.nextRow, lk, user, withNamespace, f);
      }
    }
  }

  /** So a create can be relied on to restore, whatever fails, exactly when neither store has the
      name. */
  lemma RestoresWhateverFailsIff(s: Stores, name: string, user: string, withNamespace: bool, find: Finder)
    requires WellFormed(s) && Finds(find)
    ensures (forall f ::
        Create(s, name, user, withNamespace, f, find).out == Failed(true) ==>
          Same(Create(s, name, user, withNamespace, f, find).s, s)) <==>
      !Named(s.rows, name) && find(s.projects, name) == 0
  {
    hide Create, Same, Finds;
    if !Named(s.rows, name) && find(s.projects, name) == 0 {
      forall f | Create(s, name, user, withNamespace, f, find).out == Failed(true)
        ensures Same(Create(s, name, user, withNamespace, f, find).s, s)
      {
        FreshCreateRestores(s, name, user, withNamespace, f, find);
      }
    } else {
      var f := NO_FAULTS.(grant := true);
      RefusedGrantIsUndone(s, name, user, withNamespace, find);
      RestoresIff(s, name, user, withNamespace, f, find);
    }
  }

  // When only the grant fails, everything is compensated for.
  lemma RefusedGrantIsUndone(s: Stores, name: string, user: string, withNamespace: bool, find: Finder)
    requires WellFormed(s) && Finds(find)
    ensures Create(s, name, user, withNamespace, NO_FAULTS.(grant := true), find).out == Failed(true)
  {
  }

  const NO_FAULTS := CreateFaults(false, false, false, false, false, false, false, 3, false, false)

  // A second create for an existing project, in which only the grant fails, deletes the row and
  // the project that were there before.
  lemma ReusedRowIsDeleted(name: string, user: string, find: Finder)
    requires Finds(find)
    ensures var s := Stores(map[0 := Row(name, 1)], map[1 := name], {Tuple(user, ProjectAdmin, 1)}, 1, 2);
      var r := Create(s, name, user, false, NO_FAULTS.(grant := true), find);
      WellFormed(s) && r.out == Failed(true) && r.s.rows == map[] && r.s.projects == map[]
  {
    var s := Stores(map[0 := Row(name, 1)], map[1 := name], {Tuple(user, ProjectAdmin, 1)}, 1, 2);
    assert s.rows[0].name == name;
    OnlyProject(1, name, find);
  }

  // With a new row, a project that survived an earlier failure is deleted as well.
  lemma ReusedProjectIsDeleted(name: string, user: string, find: Finder)
    requires Finds(find)
    ensures var s := Stores(map[], map[1 := name], {}, 0, 2);
      var r := Create(s, name, user, false, NO_FAULTS.(grant := true), find);
      WellFormed(s) && r.out == Failed(true) && r.s.rows == s.rows && r.s.projects == map[]
  {
    var s := Stores(map[], map[1 := name], {}, 0, 2);
    OnlyProject(1, name, find);
  }

  lemma OnlyProject(id: nat, name: string, find: Finder)
    requires Finds(find) && id != 0
    ensures find(map[id := name], name) == id
  {
    var projects := map[id := name];
    assert 0 !in projects && id in projects;
  }

  lemma FindsIn(projects: map<nat, string>, name: string, find: Finder)
    requires Finds(find) && 0 !in projects && find(projects, name) != 0
    ensures find(projects, name) in projects
  {
  }

  lemma ProjectIsGone(s: Stores, row: nat, lk: nat, user: string, withNamespace: bool, f: CreateFaults)
    requires row in s.rows && CreateGrant(s, row, lk, user, withNamespace, f).out == Failed(true)
    ensures var t := CreateGrant(s, row, lk, user, withNamespace, f).s; lk !in t.projects && row !in t.rows
  {
  }

  lemma RowIsGone(s: Stores, row: nat, name: string, user: string, withNamespace: bool, f: CreateFaults, find: Finder)
    requires row in s.rows && CreateLakekeeper(s, row, name, user, withNamespace, f, find).out == Failed(true)
    ensures row !in CreateLakekeeper(s, row, name, user, withNamespace, f, find).s.rows
  {
    hide CreateGrant;
    if !f.find {
      var lk := find(s.projects, name);
      if lk != 0 {
        ProjectIsGone(s, row, lk, user, withNamespace, f);
      } else if !f.allocate {
        var t := s.(projects := s.projects[s.nextLk := name], nextLk := s.nextLk + 1);
        ProjectIsGone(t, row, s.nextLk, user, withNamespace, f);
      }
    }
  }

  lemma GrantCreated(s: Stores, row: nat, lk: nat, user: string, withNamespace: bool, f: CreateFaults)
    requires row in s.rows && CreateGrant(s, row, lk, user, withNamespace, f).out.Created?
    ensures var r := CreateGrant(s, row, lk, user, withNamespace, f);
      && r.out == Created(row, lk)
      && r.s == s.(rows := s.rows[row := Row(s.rows[row].name, lk)], tuples := s.tuples + {Tuple(user, ProjectAdmin, lk)})
  {
  }

  lemma LakekeeperCreated(s: Stores, row: nat, name: string, user: string, withNamespace: bool,
                          f: CreateFaults, find: Finder)
    requires Finds(find) && row in s.rows && s.rows[row].name == name
    requires forall id :: id in s.projects ==> id < s.nextLk
    requires s.nextLk > 0 && 0 !in s.projects
    requires CreateLakekeeper(s, row, name, user, withNamespace, f, find).out.Created?
    ensures var r := CreateLakekeeper(s, row, name, user, withNamespace, f, find);
      var lk := r.out.lk;
      && r.out.row == row && lk != 0 && (find(s.projects, name) != 0 <==> lk in s.projects)
      && r.s.rows == s.rows[row := Row(name, lk)]
      && r.s.projects == s.projects[lk := name]
      && r.s.tuples == s.tuples + {Tuple(user, ProjectAdmin, lk)}
  {
    hide CreateGrant;
    var lk := find(s.projects, name);
    if lk != 0 {
      assert s.projects[lk := name] == s.projects;
      GrantCreated(s, row, lk, user, withNamespace, f);
    } else {
      var t := s.(projects := s.projects[s.nextLk := name], nextLk := s.nextLk + 1);
      GrantCreated(t, row, s.nextLk, user, withNamespace, f);
    }
  }

  // No call that the create makes on its way fails.
  ghost predicate Unhindered(s: Stores, name: string, withNamespace: bool, f: CreateFaults, find: Finder) {
    && !f.insert && (Named(s.rows, name) ==> !f.lookup)
    && !f.find && (find(s.projects, name) == 0 ==> !f.allocate)
    && !f.grant && !f.persist && (withNamespace ==> !f.namespace)
  }

  /** A create succeeds exactly when no call on its way fails, and otherwise leaves compensations
      undone only if one of them fails. */
  lemma CreatedIff(s: Stores, name: string, user: string, withNamespace: bool, f: CreateFaults, find: Finder)
    requires WellFormed(s) && Finds(find)
    ensures var out := Create(s, name, user, withNamespace, f, find).out;
      && (out.Created? <==> Unhindered(s, name, withNamespace, f, find))
      && (out == Failed(false) ==> f.undoTuples < 3 || f.undoProject || f.undoRow)
  {
    hide Finds;
  }

  /** A create that succeeds leaves the row with its project and the creator's grant, and touches
      nothing else. */
  lemma CreatedIsComplete(s: Stores, name: string, user: string, withNamespace: bool, f: CreateFaults, find: Finder)
    requires WellFormed(s) && Finds(find)
    requires Create(s, name, user, withNamespace, f, find).out.Created?
    ensures var r := Create(s, name, user, withNamespace, f, find);
      var row, lk := r.out.row, r.out.lk;
      && r.s.rows == s.rows[row := Row(name, lk)]
      && lk != 0 && r.s.projects == s.projects[lk := name]
      && r.s.tuples == s.tuples + {Tuple(user, ProjectAdmin, lk)}
      && (Named(s.rows, name) <==> row in s.rows) && (find(s.projects, name) != 0 <==> lk in s.projects)
  {
    hide CreateLakekeeper, Finds, RowNamed;
    if Named(s.rows, name) {
      LakekeeperCreated(s, RowNamed(s.rows, name), name, user, withNamespace, f, find);
    } else {
      var t := s.(rows := s.rows[s.nextRow := Row(name, 0)], nextRow := s.nextRow + 1);
      LakekeeperCreated(t, s.nextRow, name, user, withNamespace, f, find);
    }
  }

  // ---------------------------------------------------------------------- delete converges

  function Gone(s: Stores, row: nat, user: string): Stores
    requires row in s.rows
  {
    var lk := s.rows[row].lk;
    if lk == 0 then s.(rows := s.rows - {row})
    else s.(rows := s.rows - {row}, projects := s.projects - {lk}, tuples := Revoked(s.tuples, user, lk, 3))
  }

  // The row, its project and every tuple the creator has on it are gone, and nothing else.
  ghost predicate OnlyGone(s: Stores, t: Stores, row: nat, user: string)
    requires row in s.rows
  {
    var lk := s.rows[row].lk;
    && (forall r :: r in t.rows <==> r in s.rows && r != row) && (forall r :: r in t.rows ==> t.rows[r] == s.rows[r])
    && (forall p :: p in t.projects <==> p in s.projects && !(p == lk != 0))
    && (forall p :: p in t.projects ==> t.projects[p] == s.projects[p])
    && (forall x :: x in t.tuples <==> x in s.tuples && !(x.user == user && x.project == lk != 0))
  }

  // The project goes only after every tuple the creator has on it, so none is left dangling.
  ghost predicate TuplesFirst(s: Stores, t: Stores, row: nat, user: string)
    requires row in s.rows
  {
    var lk := s.rows[row].lk;
    && (forall p :: p in s.projects && p !in t.projects ==> p == lk != 0)
    && (lk in s.projects && lk !in t.projects ==> forall x :: x in t.tuples ==> !(x.user == user && x.project == lk))
  }

  lemma TuplesFirstAtStart(s: Stores, row: nat, user: string)
    requires row in s.rows
    ensures TuplesFirst(s, s, row, user)
  {
  }

  lemma TuplesStayFirst(s: Stores, t: Stores, u: Stores, row: nat, user: string)
    requires row in s.rows && t.rows == s.rows && TuplesFirst(s, t, row, user) && TuplesFirst(t, u, row, user)
    requires u.tuples <= t.tuples
    ensures TuplesFirst(s, u, row, user)
  {
  }

  lemma GoneIsOnly(s: Stores, row: nat, user: string)
    requires row in s.rows
    ensures OnlyGone(s, Gone(s, row, user), row, user)
  {
    hide Revoked;
    AllRevoked(s.tuples, user, s.rows[row].lk);
  }

  // Three relations are all there are.
  lemma AllRevoked(tuples: set<Tuple>, user: string, lk: nat)
    ensures forall x :: x in Revoked(tuples, user, lk, 3) <==> x in tuples && !(x.user == user && x.project == lk)
  {
    forall x: Tuple
      ensures x in Revoked(tuples, user, lk, 3) <==> x in tuples && !(x.user == user && x.project == lk)
    {
      assert x == Tuple(x.user, x.relation, x.project);
      match x.relation {
        case ProjectAdmin =>
        case Editor =>
        case Viewer =>
      }
    }
  }

  // Repeated attempts, and whether one of them succeeded.
  function Attempts(s: Stores, row: nat, user: string, fs: seq<DeleteFaults>): (Stores, bool) {
    if fs == [] then (s, false)
    else
      var (t, done) := Attempts(s, row, user, fs[..|fs| - 1]);
      var (u, ok) := Delete(t, row, user, fs[|fs| - 1]);
      (u, done || ok)
  }

  // No call that the attempt makes fails.
  predicate Clean(f: DeleteFaults, lk: nat) {
    !f.lookup && !f.row && (lk != 0 ==> f.tuples >= 3 && !f.project)
  }

  lemma DeleteStep(s: Stores, row: nat, user: string, f: DeleteFaults)
    requires row in s.rows
    ensures var (t, ok) := Delete(s, row, user, f);
      && (ok <==> Clean(f, s.rows[row].lk)) && t.tuples <= s.tuples
      && (ok ==> t == Gone(s, row, user))
      && (!ok ==> t.rows == s.rows && Gone(t, row, user) == Gone(s, row, user) && TuplesFirst(s, t, row, user))
  {
    var lk := s.rows[row].lk;
    AllRevoked(s.tuples, user, lk);
    assert Revoked(Revoked(s.tuples, user, lk, f.tuples), user, lk, 3) == Revoked(s.tuples, user, lk, 3);
    assert (s.projects - {lk}) - {lk} == s.projects - {lk};
  }

  /** However often deletion fails, and wherever: until an attempt meets no failure the row is
      still there to retry with, and after that exactly the row, its project and the creator's
      tuples are gone. */
  lemma {:induction false} DeleteConverges(s: Stores, row: nat, user: string, fs: seq<DeleteFaults>)
    requires row in s.rows
    ensures var (t, done) := Attempts(s, row, user, fs);
      && (done <==> exists i :: 0 <= i < |fs| && Clean(fs[i], s.rows[row].lk))
      && (done ==> t == Gone(s, row, user) && OnlyGone(s, t, row, user))
      && (!done ==> t.rows == s.rows && Gone(t, row, user) == Gone(s, row, user) && TuplesFirst(s, t, row, user))
  {
    hide Delete, Gone, Clean, OnlyGone, TuplesFirst;
    GoneIsOnly(s, row, user);
    if fs == [] {
      TuplesFirstAtStart(s, row, user);
    } else {
      var front, f := fs[..|fs| - 1], fs[|fs| - 1];
      DeleteConverges(s, row, user, front);
      var (t, done) := Attempts(s, row, user, front);
      if done {
        GoneHasNoRow(s, row, user, f);
        var i :| 0 <= i < |front| && Clean(front[i], s.rows[row].lk);
        assert Clean(fs[i], s.rows[row].lk);
      } else {
        DeleteStep(t, row, user, f);
        if !Delete(t, row, user, f).1 {
          TuplesStayFirst(s, t, Delete(t, row, user, f).0, row, user);
        }
        assert forall i :: 0 <= i < |front| ==> front[i] == fs[i];
      }
    }
  }

  lemma GoneHasNoRow(s: Stores, row: nat, user: string, f: DeleteFaults)
    requires row in s.rows
    ensures Delete(Gone(s, row, user), row, user, f) == (Gone(s, row, user), false)
  {
  }

  // ------------------------------------------------------------------- reconcile settles

  predicate RowSettled(s: Stores, row: nat, user: string)
    requires row in s.rows
  {
    s.rows[row].lk != 0 && s.rows[row].lk in s.projects && Tuple(user, ProjectAdmin, s.rows[row].lk) in s.tuples
  }

  ghost predicate Settled(s: Stores, user: string) {
    forall row :: row in s.rows ==> RowSettled(s, row, user)
  }

  // Nothing is taken away, and only ids of rows change.
  ghost predicate Grows(s: Stores, t: Stores) {
    && t.rows.Keys == s.rows.Keys && (forall row :: row in s.rows ==> t.rows[row].name == s.rows[row].name)
    && s.projects.Keys <= t.projects.Keys && (forall id :: id in s.projects ==> t.projects[id] == s.projects[id])
    && s.tuples <= t.tuples
  }

  lemma LocateGrows(s: Stores, p: Row, f: RowFaults, find: Finder)
    requires WellFormed(s) && Finds(find) && Locate(s, p, f, find).Located?
    ensures var at := Locate(s, p, f, find);
      WellFormed(at.s) && Grows(s, at.s) && at.s.rows == s.rows && at.s.tuples == s.tuples
      && at.lk in at.s.projects && at.lk != 0
  {
  }

  lemma RowGrows(s: Stores, row: nat, p: Row, user: string, f: RowFaults, find: Finder)
    requires WellFormed(s) && Finds(find) && row in s.rows && s.rows[row] == p
    ensures var (t, ok) := ReconcileRow(s, row, p, user, f, find);
      && WellFormed(t) && Grows(s, t)
      && (forall other :: other in s.rows && other != row ==> t.rows[other] == s.rows[other])
      && (ok ==> RowSettled(t, row, user))
  {
    hide Locate, Finds;
    if Locate(s, p, f, find).Located? {
      LocateGrows(s, p, f, find);
    }
  }

  lemma SettledStays(s: Stores, t: Stores, row: nat, user: string)
    requires Grows(s, t) && row in s.rows && t.rows[row] == s.rows[row] && RowSettled(s, row, user)
    ensures RowSettled(t, row, user)
  {
  }

  // The rows before `i` are settled, the others as they were listed.
  ghost predicate Progress(s: Stores, listed: map<nat, Row>, ids: seq<nat>, i: nat, user: string) {
    && s.rows.Keys == listed.Keys
    && (forall k :: 0 <= k < |ids| ==> ids[k] in listed)
    && (forall k :: 0 <= k < i && k < |ids| ==> RowSettled(s, ids[k], user))
    && (forall k :: i <= k < |ids| ==> s.rows[ids[k]] == listed[ids[k]])
  }

  lemma {:induction false} ReconcileFrom(s: Stores, listed: map<nat, Row>, ids: seq<nat>, i: nat, user: string,
                                         fs: nat -> RowFaults, find: Finder)
    requires WellFormed(s) && Finds(find) && i <= |ids| && Progress(s, listed, ids, i, user)
    requires forall a, b :: 0 <= a < b < |ids| ==> ids[a] != ids[b]
    ensures var (t, ok) := Reconcile(s, listed, ids, i, user, fs, find);
      WellFormed(t) && Grows(s, t) && (ok ==> Progress(t, listed, ids, |ids|, user))
    decreases |ids| - i
  {
    hide WellFormed, Finds, ReconcileRow, RowSettled, Grows;
    if i < |ids| {
      var (t, ok) := ReconcileRow(s, ids[i], listed[ids[i]], user, fs(i), find);
      RowGrows(s, ids[i], listed[ids[i]], user, fs(i), find);
      if ok {
        ProgressStep(s, t, listed, ids, i, user);
        ReconcileFrom(t, listed, ids, i + 1, user, fs, find);
        var u := Reconcile(t, listed, ids, i + 1, user, fs, find).0;
        GrowsTransitive(s, t, u);
      }
    } else {
      GrowsReflexive(s);
    }
  }

  lemma GrowsReflexive(s: Stores)
    ensures Grows(s, s)
  {
  }

  lemma GrowsTransitive(s: Stores, t: Stores, u: Stores)
    requires Grows(s, t) && Grows(t, u)
    ensures Grows(s, u)
  {
  }

  lemma ProgressStep(s: Stores, t: Stores, listed: map<nat, Row>, ids: seq<nat>, i: nat, user: string)
    requires i < |ids| && Progress(s, listed, ids, i, user) && Grows(s, t)
    requires forall a, b :: 0 <= a < b < |ids| ==> ids[a] != ids[b]
    requires forall other :: other in s.rows && other != ids[i] ==> t.rows[other] == s.rows[other]
    requires RowSettled(t, ids[i], user)
    ensures Progress(t, listed, ids, i + 1, user)
  {
    hide RowSettled;
    forall k | 0 <= k < i
      ensures RowSettled(t, ids[k], user)
    {
      assert ids[k] != ids[i];
      SettledStays(s, t, ids[k], user);
    }
    forall k | i < k < |ids|
      ensures t.rows[ids[k]] == listed[ids[k]]
    {
      assert ids[i] != ids[k];
    }
  }

  ghost predicate Lists(ids: seq<nat>, rows: map<nat, Row>) {
    && (forall row :: row in ids <==> row in rows)
    && (forall a, b :: 0 <= a < b < |ids| ==> ids[a] != ids[b])
  }

  /** A reconcile that succeeds leaves every row with an existing project and the admin grant;
      whether or not it succeeds it takes nothing away, so it can be run again. */
  lemma ReconcileSettles(s: Stores, ids: seq<nat>, user: string, fs: nat -> RowFaults, find: Finder)
    requires WellFormed(s) && Finds(find) && Lists(ids, s.rows)
    ensures var (t, ok) := Reconcile(s, s.rows, ids, 0, user, fs, find);
      WellFormed(t) && Grows(s, t) && (ok ==> Settled(t, user))
  {
    hide WellFormed, Finds, RowSettled, Reconcile;
    ReconcileFrom(s, s.rows, ids, 0, user, fs, find);
    var (t, ok) := Reconcile(s, s.rows, ids, 0, user, fs, find);
    if ok {
      forall row | row in t.rows
        ensures RowSettled(t, row, user)
      {
        assert row in ids;
      }
    }
  }

  /** On settled stores a reconcile writes nothing, whatever fails; and it fails only if a probe
      or a check does. */
  lemma {:induction false} SettledWritesNothing(s: Stores, ids: seq<nat>, i: nat, user: string,
                                                fs: nat -> RowFaults, find: Finder)
    requires Settled(s, user) && i <= |ids| && forall k :: 0 <= k < |ids| ==> ids[k] in s.rows
    ensures Reconcile(s, s.rows, ids, i, user, fs, find).0 == s
    ensures Reconcile(s, s.rows, ids, i, user, fs, find).1 <==>
      forall k :: i <= k < |ids| ==> !fs(k).probe && !fs(k).check
    decreases |ids| - i
  {
    if i < |ids| {
      assert RowSettled(s, ids[i], user);
      assert s.tuples + {Tuple(user, ProjectAdmin, s.rows[ids[i]].lk)} == s.tuples;
      SettledWritesNothing(s, ids, i + 1, user, fs, find);
    }
  }

  /** A second reconcile after a successful one writes nothing. */
  lemma SecondReconcileWritesNothing(s: Stores, ids: seq<nat>, again: seq<nat>, user: string,
                                     fs: nat -> RowFaults, gs: nat -> RowFaults, find: Finder)
    requires WellFormed(s) && Finds(find) && Lists(ids, s.rows) && Lists(again, s.rows)
    requires Reconcile(s, s.rows, ids, 0, user, fs, find).1
    ensures var t := Reconcile(s, s.rows, ids, 0, user, fs, find).0;
      t.rows.Keys == s.rows.Keys && Reconcile(t, t.rows, again, 0, user, gs, find).0 == t
  {
    hide Reconcile, WellFormed, Finds, Settled;
    ReconcileSettles(s, ids, user, fs, find);
    var t := Reconcile(s, s.rows, ids, 0, user, fs, find).0;
    SettledWritesNothing(t, again, 0, user, gs, find);
  }

  // ------------------------------------------------------- which project a row ends up with

  predicate HasNamed(projects: map<nat, string>, name: string) {
    exists id :: id in projects && projects[id] == name
  }

  // The row keeps its project if that exists, else takes one of its name, else gets a new one of
  // its name.
  ghost predicate Chosen(s: Stores, t: Stores, row: nat)
    requires row in s.rows && row in t.rows
  {
    var before, after := s.rows[row], t.rows[row].lk;
    if before.lk != 0 && before.lk in s.projects then after == before.lk
    else if HasNamed(s.projects, before.name) then after in s.projects && s.projects[after] == before.name
    else after !in s.projects && after in t.projects && t.projects[after] == before.name
  }

  // Every project added since `s` is new and named after one of the rows done.
  ghost predicate Added(s: Stores, t: Stores, ids: seq<nat>, i: nat) {
    && s.nextLk <= t.nextLk
    && (forall id :: id in s.projects ==> id in t.projects)
    && (forall id :: id in t.projects ==>
          || (id in s.projects && t.projects[id] == s.projects[id])
          || (id >= s.nextLk && NamedAfter(s, ids, i, t.projects[id])))
  }

  ghost predicate NamedAfter(s: Stores, ids: seq<nat>, i: nat, name: string) {
    exists k :: 0 <= k < i && k < |ids| && ids[k] in s.rows && s.rows[ids[k]].name == name
  }

  ghost predicate ChosenSoFar(s: Stores, t: Stores, ids: seq<nat>, i: nat) {
    && t.rows.Keys == s.rows.Keys
    && (forall k :: 0 <= k < |ids| ==> ids[k] in s.rows)
    && (forall k :: 0 <= k < i && k < |ids| ==> Chosen(s, t, ids[k]))
    && Added(s, t, ids, i)
  }

  // The project chosen for one row, seen from the start of the sweep.
  lemma LocateChooses(s: Stores, t: Stores, ids: seq<nat>, i: nat, f: RowFaults, find: Finder)
    requires WellFormed(s) && WellFormed(t) && Finds(find) && ChosenSoFar(s, t, ids, i) && i < |ids|
    requires forall a, b :: 0 <= a < b < |ids| ==> ids[a] != ids[b]
    requires Locate(t, s.rows[ids[i]], f, find).Located?
    ensures var at := Locate(t, s.rows[ids[i]], f, find);
      && Chosen(s, at.s.(rows := at.s.rows[ids[i] := Row(s.rows[ids[i]].name, at.lk)]), ids[i])
      && Added(s, at.s, ids, i + 1)
  {
    hide Chosen;
    var p := s.rows[ids[i]];
    var at := Locate(t, p, f, find);
    LaterNames(s, ids, i);
    NotNamedBefore(s, ids, i);
    forall id | id in t.projects && t.projects[id] == p.name
      ensures id in s.projects && s.projects[id] == p.name
    {
      assert id in s.projects || NamedAfter(s, ids, i, p.name);
    }
    assert NamedAfter(s, ids, i + 1, p.name) by {
      assert ids[i] in s.rows && s.rows[ids[i]].name == p.name;
    }
    ChosenIs(s, at.s.(rows := at.s.rows[ids[i] := Row(p.name, at.lk)]), ids[i], at.lk);
  }

  lemma ChosenIs(s: Stores, t: Stores, row: nat, lk: nat)
    requires row in s.rows && row in t.rows && t.rows[row].lk == lk
    requires
      var p := s.rows[row];
      if p.lk != 0 && p.lk in s.projects then lk == p.lk
      else if HasNamed(s.projects, p.name) then lk in s.projects && s.projects[lk] == p.name
      else lk !in s.projects && lk in t.projects && t.projects[lk] == p.name
    ensures Chosen(s, t, row)
  {
  }

  lemma LaterNames(s: Stores, ids: seq<nat>, i: nat)
    ensures forall name :: NamedAfter(s, ids, i, name) ==> NamedAfter(s, ids, i + 1, name)
  {
    forall name | NamedAfter(s, ids, i, name)
      ensures NamedAfter(s, ids, i + 1, name)
    {
      var k :| 0 <= k < i && k < |ids| && ids[k] in s.rows && s.rows[ids[k]].name == name;
    }
  }

  lemma NotNamedBefore(s: Stores, ids: seq<nat>, i: nat)
    requires UniqueNames(s.rows) && i < |ids| && ids[i] in s.rows
    requires forall a, b :: 0 <= a < b < |ids| ==> ids[a] != ids[b]
    ensures !NamedAfter(s, ids, i, s.rows[ids[i]].name)
  {
  }

  lemma RowChooses(s: Stores, t: Stores, ids: seq<nat>, i: nat, user: string, f: RowFaults, find: Finder)
    requires WellFormed(s) && WellFormed(t) && Finds(find) && ChosenSoFar(s, t, ids, i) && i < |ids|
    requires forall a, b :: 0 <= a < b < |ids| ==> ids[a] != ids[b]
    requires t.rows[ids[i]] == s.rows[ids[i]]
    requires ReconcileRow(t, ids[i], s.rows[ids[i]], user, f, find).1
    ensures ChosenSoFar(s, ReconcileRow(t, ids[i], s.rows[ids[i]], user, f, find).0, ids, i + 1)
  {
    hide Locate, Finds, WellFormed, Added, NamedAfter;
    var row := ids[i];
    var n := ReconcileRow(t, row, s.rows[row], user, f, find).0;
    RowGrows(t, row, s.rows[row], user, f, find);
    LocateGrows(t, s.rows[row], f, find);
    LocateChooses(s, t, ids, i, f, find);
    var at := Locate(t, s.rows[row], f, find);
    AddedSame(s, at.s, n, ids, i + 1);
    forall k | 0 <= k < i + 1
      ensures Chosen(s, n, ids[k])
    {
      if k < i {
        assert ids[k] != row;
      }
    }
  }

  lemma AddedSame(s: Stores, t: Stores, n: Stores, ids: seq<nat>, i: nat)
    requires Added(s, t, ids, i) && n.projects == t.projects && n.nextLk == t.nextLk
    ensures Added(s, n, ids, i)
  {
  }

  lemma {:induction false} SweepChooses(s: Stores, t: Stores, ids: seq<nat>, i: nat, user: string,
                                        fs: nat -> RowFaults, find: Finder)
    requires WellFormed(s) && WellFormed(t) && Finds(find) && i <= |ids| && ChosenSoFar(s, t, ids, i)
    requires forall a, b :: 0 <= a < b < |ids| ==> ids[a] != ids[b]
    requires forall k :: i <= k < |ids| ==> t.rows[ids[k]] == s.rows[ids[k]]
    ensures var (u, ok) := Reconcile(t, s.rows, ids, i, user, fs, find);
      ok ==> ChosenSoFar(s, u, ids, |ids|)
    decreases |ids| - i
  {
    hide WellFormed, Finds, ReconcileRow, Chosen, Added;
    if i < |ids| {
      var (n, ok) := ReconcileRow(t, ids[i], s.rows[ids[i]], user, fs(i), find);
      RowGrows(t, ids[i], s.rows[ids[i]], user, fs(i), find);
      if ok {
        RowChooses(s, t, ids, i, user, fs(i), find);
        forall k | i < k < |ids|
          ensures n.rows[ids[k]] == s.rows[ids[k]]
        {
          assert ids[i] != ids[k];
        }
        SweepChooses(s, n, ids, i + 1, user, fs, find);
      }
    }
  }

  /** Which project each row ends up with when a reconcile succeeds: its own if that exists, else one
      that already had the row's name, else a new one of that name; and no other project is added. */
  lemma ReconcileChooses(s: Stores, ids: seq<nat>, user: string, fs: nat -> RowFaults, find: Finder)
    requires WellFormed(s) && Finds(find) && Lists(ids, s.rows)
    ensures var (t, ok) := Reconcile(s, s.rows, ids, 0, user, fs, find);
      ok ==>
        && t.rows.Keys == s.rows.Keys
        && (forall row :: row in s.rows ==> Chosen(s, t, row))
        && Added(s, t, ids, |ids|)
  {
    hide WellFormed, Finds, Chosen, Reconcile;
    assert Added(s, s, ids, 0);
    SweepChooses(s, s, ids, 0, user, fs, find);
    var (t, ok) := Reconcile(s, s.rows, ids, 0, user, fs, find);
    if ok {
      forall row | row in s.rows
        ensures Chosen(s, t, row)
      {
        assert row in ids;
      }
    }
  }

  // ------------------------------------------------------------------------ every history

  datatype Command =
    | DoCreate(user: string, name: string, withNamespace: bool, create: CreateFaults)
    | DoDelete(user: string, row: nat, delete: DeleteFaults)
    | DoReconcile(user: string, ids: seq<nat>, reconcile: nat -> RowFaults)

  // The stores after a history of commands, each for a creator of its own, whatever failed; a
  // reconcile works on a listing of the rows.
  ghost function History(cs: seq<Command>, find: Finder): (s: Stores)
    requires Finds(find)
    ensures WellFormed(s)
  {
    if cs == [] then Stores(map[], map[], {}, 0, 1)
    else
      var s := History(cs[..|cs| - 1], find);
      match cs[|cs| - 1]
      case DoCreate(user, name, ns, f) =>
        CreateKeeps(s, name, user, ns, f, find);
        Create(s, name, user, ns, f, find).s
      case DoDelete(user, row, f) => Delete(s, row, user, f).0
      case DoReconcile(user, ids, fs) =>
        if Lists(ids, s.rows) then
          ReconcileSettles(s, ids, user, fs, find);
          Reconcile(s, s.rows, ids, 0, user, fs, find).0
        else s
  }

  lemma UndoKeeps(s: Stores, row: nat, lk: nat, user: string, f: CreateFaults)
    requires WellFormed(s)
    ensures WellFormed(UndoRow(s, row, f).s) && WellFormed(UndoProject(s, row, lk, f).s)
    ensures WellFormed(UndoGrant(s, row, lk, user, f).s)
  {
  }

  lemma GrantKeeps(s: Stores, row: nat, lk: nat, user: string, withNamespace: bool, f: CreateFaults)
    requires WellFormed(s) && row in s.rows && lk < s.nextLk
    ensures WellFormed(CreateGrant(s, row, lk, user, withNamespace, f).s)
  {
    hide UndoGrant, UndoProject;
    var t := s.(tuples := s.tuples + {Tuple(user, ProjectAdmin, lk)});
    var u := t.(rows := t.rows[row := t.rows[row].(lk := lk)]);
    assert WellFormed(t) && WellFormed(u);
    UndoKeeps(s, row, lk, user, f);
    UndoKeeps(t, row, lk, user, f);
    UndoKeeps(u, row, lk, user, f);
  }

  lemma LakekeeperKeeps(s: Stores, row: nat, name: string, user: string, withNamespace: bool, f: CreateFaults, find: Finder)
    requires WellFormed(s) && Finds(find) && row in s.rows
    ensures WellFormed(CreateLakekeeper(s, row, name, user, withNamespace, f, find).s)
  {
    hide CreateGrant;
    UndoKeeps(s, row, 0, user, f);
    var lk := find(s.projects, name);
    if lk != 0 {
      GrantKeeps(s, row, lk, user, withNamespace, f);
    } else {
      var t := s.(projects := s.projects[s.nextLk := name], nextLk := s.nextLk + 1);
      GrantKeeps(t, row, s.nextLk, user, withNamespace, f);
    }
  }

  lemma CreateKeeps(s: Stores, name: string, user: string, withNamespace: bool, f: CreateFaults, find: Finder)
    requires WellFormed(s) && Finds(find)
    ensures WellFormed(Create(s, name, user, withNamespace, f, find).s)
  {
    hide CreateLakekeeper, Finds, RowNamed;
    if Named(s.rows, name) {
      LakekeeperKeeps(s, RowNamed(s.rows, name), name, user, withNamespace, f, find);
    } else {
      var t := s.(rows := s.rows[s.nextRow := Row(name, 0)], nextRow := s.nextRow + 1);
      assert WellFormed(t);
      LakekeeperKeeps(t, s.nextRow, name, user, withNamespace, f, find);
    }
  }

  /** After any history of commands for any creators, failing or not, a reconcile in which nothing
      fails settles every row for the creator it is run for. */
  lemma CleanReconcileSettles(cs: seq<Command>, ids: seq<nat>, user: string, fs: nat -> RowFaults, find: Finder)
    requires Finds(find) && Lists(ids, History(cs, find).rows)
    requires forall k :: fs(k) == RowFaults(false, false, false, false, false, false)
    ensures var s := History(cs, find);
      Reconcile(s, s.rows, ids, 0, user, fs, find).1 && Settled(Reconcile(s, s.rows, ids, 0, user, fs, find).0, user)
  {
    hide History, WellFormed, Finds, Settled;
    var s := History(cs, find);
    ReconcileSettles(s, ids, user, fs, find);
    CleanSucceeds(s, s.rows, ids, 0, user, fs, find);
  }

  lemma {:induction false} CleanSucceeds(s: Stores, listed: map<nat, Row>, ids: seq<nat>, i: nat, user: string,
                                         fs: nat -> RowFaults, find: Finder)
    requires i <= |ids| && forall k :: 0 <= k < |ids| ==> ids[k] in listed && ids[k] in s.rows
    requires forall k :: fs(k) == RowFaults(false, false, false, false, false, false)
    ensures Reconcile(s, listed, ids, i, user, fs, find).1
    decreases |ids| - i
  {
    if i < |ids| {
      var (t, ok) := ReconcileRow(s, ids[i], listed[ids[i]], user, fs(i), find);
      CleanSucceeds(t, listed, ids, i + 1, user, fs, find);
    }
  }
}
