/** The loops of scripts/migrate_preserve_blank_lines.ts over the stored bodies. */
module BlankLinesMigration {
  import opened BlankLines
  import opened BlankLinesSettled

  function Migrated(bodies: map<nat, string>): (r: map<nat, string>) {
    map id | id in bodies :: Preserve(bodies[id])
  }

  /** The rows one run counts as changed. */
  function Changing(bodies: map<nat, string>): (r: set<nat>) {
    set id | id in bodies && Preserve(bodies[id]) != bodies[id]
  }

  lemma {:induction false} CountOne(bodies: map<nat, string>, seen: set<nat>, id: nat)
    requires id in bodies && id !in seen
    ensures |Changing(bodies) * (seen + {id})|
         == |Changing(bodies) * seen| + if Preserve(bodies[id]) == bodies[id] then 0 else 1
  {
    hide Preserve;
    var c := Changing(bodies);
    assert c * (seen + {id}) == if id in c then c * seen + {id} else c * seen;
  }

  /** The table while the rows of `todo` are still to be visited. */
  function Partway(was: map<nat, string>, todo: set<nat>, dryRun: bool): map<nat, string> {
    map id | id in was :: if dryRun || id in todo then was[id] else Preserve(was[id])
  }

  lemma {:induction false} VisitOne(was: map<nat, string>, todo: set<nat>, id: nat, dryRun: bool)
    requires id in todo && todo <= was.Keys
    ensures var t := Partway(was, todo, dryRun);
            && id in t && t[id] == was[id]
            && Partway(was, todo - {id}, dryRun) == if dryRun then t else t[id := Preserve(was[id])]
    ensures Preserve(was[id]) == was[id] ==> Partway(was, todo - {id}, dryRun) == Partway(was, todo, dryRun)
  {
    hide Preserve;
  }

  lemma {:induction false} PartwayEnds(was: map<nat, string>, dryRun: bool)
    ensures Partway(was, was.Keys, dryRun) == was
    ensures Partway(was, {}, dryRun) == if dryRun then was else Migrated(was)
    ensures Changing(was) * was.Keys == Changing(was) && Changing(was) * {} == {}
  {
    hide Preserve;
  }

  class BodyTable {
    var bodies: map<nat, string>

    constructor (rows: map<nat, string>)
      ensures bodies == rows
    {
      bodies := rows;
    }

    method Migrate(dryRun: bool) returns (scanned: nat, changed: nat, kept: nat)
      modifies this
      ensures bodies == if dryRun then old(bodies) else Migrated(old(bodies))
      ensures scanned == |old(bodies)| && changed == |Changing(old(bodies))| && changed + kept == scanned
    {
      hide Preserve, Partway, Changing;
      scanned, changed, kept := 0, 0, 0;
      ghost var was := bodies;
      ghost var seen: set<nat> := {};
      PartwayEnds(was, dryRun);
      var todo := bodies.Keys;
      while todo != {}
        invariant todo + seen == was.Keys && todo !! seen
        invariant bodies == Partway(was, todo, dryRun)
        invariant scanned == |seen| && changed + kept == scanned && changed == |Changing(was) * seen|
        decreases |todo|
      {
        var id :| id in todo;
        CountOne(was, seen, id);
        VisitOne(was, todo, id, dryRun);
        scanned := scanned + 1;
        var next := Preserve(bodies[id]);
        if next == bodies[id] {
          kept := kept + 1;
        } else {
          if !dryRun { bodies := bodies[id := next]; }
          changed := changed + 1;
        }
        todo, seen := todo - {id}, seen + {id};
      }
    }
  }

  /** Run again, the migration changes exactly the rows holding a paragraph that was not settled. */
  lemma {:induction false} RerunChanges(bodies: map<nat, string>)
    ensures Changing(Migrated(bodies)) == set id | id in bodies && !AllSettled(FillBlank(bodies[id]))
  {
    hide Preserve, AllSettled, FillBlank;
    forall id | id in bodies
      ensures Preserve(Preserve(bodies[id])) == Preserve(bodies[id]) <==> AllSettled(FillBlank(bodies[id]))
    {
      IdempotentIff(bodies[id]);
    }
  }
}
