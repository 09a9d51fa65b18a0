// The single-node state store: two vectors of records, searched front to back, that never hold an id twice.
module Store {
  import opened Common

  datatype Record<+T> = Record(id: Uuid, fields: T)

  datatype Status = Pending | Queued | Building | Running | Failed | Stopped | Cancelled

  datatype Project = Project(active: Option<Uuid>)

  datatype Deployment = Deployment(project: Uuid, status: Status, image: Option<string>, container: Option<nat>, error: Option<string>)

  ghost predicate DistinctIds<T(!new)>(rows: seq<Record<T>>) {
    forall i, j :: 0 <= i < j < |rows| ==> rows[i].id != rows[j].id
  }

  // The vector as a finite map.
  ghost function AsMap<T>(rows: seq<Record<T>>): map<Uuid, T> {
    if rows == [] then map[] else AsMap(rows[..|rows| - 1])[rows[|rows| - 1].id := rows[|rows| - 1].fields]
  }

  lemma {:induction false} AsMapIs<T(!new)>(rows: seq<Record<T>>)
    requires DistinctIds(rows)
    ensures forall i :: 0 <= i < |rows| ==> rows[i].id in AsMap(rows) && AsMap(rows)[rows[i].id] == rows[i].fields
    ensures forall id :: id in AsMap(rows) ==> exists i :: 0 <= i < |rows| && rows[i].id == id
  {
    if rows != [] {
      AsMapIs(rows[..|rows| - 1]);
      forall id | id in AsMap(rows)
        ensures exists i :: 0 <= i < |rows| && rows[i].id == id
      {
        if id == rows[|rows| - 1].id {
          assert rows[|rows| - 1].id == id;
        } else {
          var i :| 0 <= i < |rows| - 1 && rows[..|rows| - 1][i].id == id;
          assert rows[i].id == id;
        }
      }
    }
  }

  lemma AppendIs<T(!new)>(rows: seq<Record<T>>, r: Record<T>)
    requires DistinctIds(rows) && r.id !in AsMap(rows)
    ensures DistinctIds(rows + [r]) && AsMap(rows + [r]) == AsMap(rows)[r.id := r.fields]
  {
    AsMapIs(rows);
    assert (rows + [r])[..|rows|] == rows;
  }

  lemma OverwriteIs<T(!new)>(rows: seq<Record<T>>, k: nat, r: Record<T>)
    requires DistinctIds(rows) && k < |rows| && rows[k].id == r.id
    ensures DistinctIds(rows[k := r]) && AsMap(rows[k := r]) == AsMap(rows)[r.id := r.fields]
  {
    var m, m' := AsMap(rows), AsMap(rows[k := r]);
    AsMapIs(rows);
    AsMapIs(rows[k := r]);
    forall id | id in m
      ensures id in m' && m'[id] == m[r.id := r.fields][id]
    {
      var i :| 0 <= i < |rows| && rows[i].id == id;
      assert rows[k := r][i].id == id;
    }
    forall id | id in m'
      ensures id in m
    {
      var i :| 0 <= i < |rows| && rows[k := r][i].id == id;
      assert rows[i].id == id;
    }
  }

  // The first record with the id, or the end of the vector.
  method Position<T(!new)>(rows: seq<Record<T>>, id: Uuid) returns (k: nat)
    requires DistinctIds(rows)
    ensures k <= |rows| && (k < |rows| <==> id in AsMap(rows))
    ensures k < |rows| ==> rows[k].id == id && rows[k].fields == AsMap(rows)[id]
  {
    AsMapIs(rows);
    k := 0;
    while k < |rows| && rows[k].id != id
      invariant k <= |rows| && forall i :: 0 <= i < k ==> rows[i].id != id
    {
      k := k + 1;
    }
  }

  class StateStore {
    var projects: seq<Record<Project>>
    var deployments: seq<Record<Deployment>>

    ghost predicate Valid()
      reads this
    {
      DistinctIds(projects) && DistinctIds(deployments)
    }

    ghost function Projects(): map<Uuid, Project>
      reads this
    {
      AsMap(projects)
    }

    ghost function Deployments(): map<Uuid, Deployment>
      reads this
    {
      AsMap(deployments)
    }

    constructor ()
      ensures Valid() && Projects() == map[] && Deployments() == map[]
    {
      projects, deployments := [], [];
    }

    method FindProject(id: Uuid) returns (r: Result<Project>)
      requires Valid()
      ensures r == if id in Projects() then Ok(Projects()[id]) else Err
    {
      var k := Position(projects, id);
      r := if k < |projects| then Ok(projects[k].fields) else Err;
    }

    method FindDeployment(id: Uuid) returns (r: Result<Deployment>)
      requires Valid()
      ensures r == if id in Deployments() then Ok(Deployments()[id]) else Err
    {
      var k := Position(deployments, id);
      r := if k < |deployments| then Ok(deployments[k].fields) else Err;
    }

    method InsertProject(id: Uuid, p: Project) returns (ok: bool)
      requires Valid()
      modifies this
      ensures Valid() && Deployments() == old(Deployments())
      ensures ok == (id !in old(Projects()))
      ensures Projects() == if ok then old(Projects())[id := p] else old(Projects())
    {
      var k := Position(projects, id);
      ok := k == |projects|;
      if ok {
        AppendIs(projects, Record(id, p));
        projects := projects + [Record(id, p)];
      }
    }

    method InsertDeployment(id: Uuid, d: Deployment) returns (ok: bool)
      requires Valid()
      modifies this
      ensures Valid() && Projects() == old(Projects())
      ensures ok == (id !in old(Deployments()))
      ensures Deployments() == if ok then old(Deployments())[id := d] else old(Deployments())
    {
      var k := Position(deployments, id);
      ok := k == |deployments|;
      if ok {
        AppendIs(deployments, Record(id, d));
        deployments := deployments + [Record(id, d)];
      }
    }

    method UpdateProject(id: Uuid, p: Project) returns (ok: bool)
      requires Valid()
      modifies this
      ensures Valid() && Deployments() == old(Deployments())
      ensures ok == (id in old(Projects()))
      ensures Projects() == if ok then old(Projects())[id := p] else old(Projects())
    {
      var k := Position(projects, id);
      ok := k < |projects|;
      if ok {
        OverwriteIs(projects, k, Record(id, p));
        projects := projects[k := Record(id, p)];
      }
    }

    method UpdateDeployment(id: Uuid, d: Deployment) returns (ok: bool)
      requires Valid()
      modifies this
      ensures Valid() && Projects() == old(Projects())
      ensures ok == (id in old(Deployments()))
      ensures Deployments() == if ok then old(Deployments())[id := d] else old(Deployments())
    {
      var k := Position(deployments, id);
      ok := k < |deployments|;
      if ok {
        OverwriteIs(deployments, k, Record(id, d));
        deployments := deployments[k := Record(id, d)];
      }
    }
  }
}
