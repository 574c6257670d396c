/**
 * Which submitted leads become rows of a campaign: createCampaign and updateCampaign of
 * src/controllers/campaignController2.ts with src/services/campaignSuppressionService.ts.
 */
module Admission {
  import opened Prelude

  /** An email as written: the address it normalises to, and a spelling; spelling 0 is the normal form. */
  datatype Email = Email(box: nat, spelling: nat) {
    function Norm(): Email { Email(box, 0) }
  }

  datatype Health = Green | Yellow | Red

  /** A submitted row; None stands for a missing email or one without an @. */
  type Submitted = Option<Email>

  datatype RowStatus = Active | Paused
  datatype Row = Row(status: RowStatus, due: bool)

  /** The provenance record of one batch. */
  datatype Import = Import(submitted: nat, added: nat, blocked: nat, duplicates: nat)

  // ---- the filters -----------------------------------------------------------------------

  function Usable(leads: seq<Submitted>): seq<Email> {
    if leads == [] then []
    else (if leads[0].Some? then [leads[0].value] else []) + Usable(leads[1..])
  }

  /** The rows whose normalised email is not in the set, and in order. */
  function Without(leads: seq<Email>, suppressed: set<nat>): seq<Email> {
    if leads == [] then []
    else (if leads[0].box in suppressed then [] else [leads[0]]) + Without(leads[1..], suppressed)
  }

  function Graded(leads: seq<Email>, health: map<Email, Health>, red: bool): seq<Email> {
    if leads == [] then []
    else (if (HealthOf(health, leads[0]) == Red) == red then [leads[0]] else []) + Graded(leads[1..], health, red)
  }

  /** The gate's verdict; a gate that fails counts as yellow. */
  function HealthOf(health: map<Email, Health>, e: Email): Health { if e in health then health[e] else Yellow }

  /** Every element passes, and only those: membership of the three filters. */
  lemma {:induction false} UsableIff(leads: seq<Submitted>, e: Email)
    ensures e in Usable(leads) <==> Some(e) in leads
  {
    if leads != [] {
      UsableIff(leads[1..], e);
      assert leads == [leads[0]] + leads[1..];
    }
  }

  lemma {:induction false} WithoutIff(leads: seq<Email>, suppressed: set<nat>, e: Email)
    ensures e in Without(leads, suppressed) <==> e in leads && e.box !in suppressed
  {
    if leads != [] {
      WithoutIff(leads[1..], suppressed, e);
      assert leads == [leads[0]] + leads[1..];
    }
  }

  lemma {:induction false} GradedIff(leads: seq<Email>, health: map<Email, Health>, red: bool, e: Email)
    ensures e in Graded(leads, health, red) <==> e in leads && (HealthOf(health, e) == Red) == red
  {
    if leads != [] {
      GradedIff(leads[1..], health, red, e);
      assert leads == [leads[0]] + leads[1..];
    }
  }

  lemma {:induction false} GradedSplits(leads: seq<Email>, health: map<Email, Health>)
    ensures |Graded(leads, health, true)| + |Graded(leads, health, false)| == |leads|
  {
    if leads != [] { GradedSplits(leads[1..], health); }
  }

  lemma {:induction false} WithoutShorter(leads: seq<Email>, suppressed: set<nat>)
    ensures |Without(leads, suppressed)| <= |leads|
    ensures suppressed == {} ==> Without(leads, suppressed) == leads
    ensures |Without(leads, suppressed)| == |leads| <==> forall e :: e in leads ==> e.box !in suppressed
  {
    if leads != [] {
      WithoutShorter(leads[1..], suppressed);
      assert leads == [leads[0]] + leads[1..];
    }
  }

  // ---- what becomes of each submitted lead ---------------------------------------------------

  datatype Fate = Unusable | Suppressed | Rejected | Accepted

  /** Of one submitted lead, on its own. */
  function FateOf(lead: Submitted, hasRules: bool, byRule: set<nat>, byReply: set<nat>, health: map<Email, Health>): Fate {
    match lead
    case None => Unusable
    case Some(e) =>
      if (hasRules && e.box in byRule) || e.box in byReply then Suppressed
      else if e in health && health[e] == Red then Rejected
      else Accepted
  }

  function Fates(leads: seq<Submitted>, hasRules: bool, byRule: set<nat>, byReply: set<nat>,
                 health: map<Email, Health>): seq<Fate> {
    seq(|leads|, i requires 0 <= i < |leads| => FateOf(leads[i], hasRules, byRule, byReply, health))
  }

  /** The leads that the filters of creation leave, before the gate. */
  function Kept(leads: seq<Submitted>, hasRules: bool, byRule: set<nat>, byReply: set<nat>): seq<Email> {
    Without(if hasRules then Without(Usable(leads), byRule) else Usable(leads), byReply)
  }

  lemma {:induction false} WithoutCons(e: Email, leads: seq<Email>, suppressed: set<nat>)
    ensures Without([e] + leads, suppressed) ==
            (if e.box in suppressed then [] else [e]) + Without(leads, suppressed)
  {
    assert ([e] + leads)[1..] == leads;
  }

  lemma {:induction false} GradedCons(e: Email, leads: seq<Email>, health: map<Email, Health>, red: bool)
    ensures Graded([e] + leads, health, red) ==
            (if (HealthOf(health, e) == Red) == red then [e] else []) + Graded(leads, health, red)
  {
    assert ([e] + leads)[1..] == leads;
  }

  lemma {:induction false} KeptFirst(leads: seq<Submitted>, hasRules: bool, byRule: set<nat>, byReply: set<nat>,
                                     health: map<Email, Health>)
    requires leads != []
    ensures var fate := FateOf(leads[0], hasRules, byRule, byReply, health);
            Kept(leads, hasRules, byRule, byReply) ==
            (if fate == Accepted || fate == Rejected then [leads[0].value] else [])
            + Kept(leads[1..], hasRules, byRule, byReply)
  {
    hide Without;
    if leads[0].Some? {
      var e, rest := leads[0].value, Usable(leads[1..]);
      WithoutCons(e, rest, byRule);
      WithoutCons(e, rest, byReply);
      WithoutCons(e, Without(rest, byRule), byReply);
    }
    assert [] + Usable(leads[1..]) == Usable(leads[1..]);
    var kept := if hasRules then Without(Usable(leads[1..]), byRule) else Usable(leads[1..]);
    assert [] + kept == kept && [] + Without(kept, byReply) == Without(kept, byReply);
  }

  /** What each stage of the filters drops: as many as the leads that fare so. */
  lemma {:induction false} StagesCount(leads: seq<Submitted>, hasRules: bool, byRule: set<nat>, byReply: set<nat>,
                                       health: map<Email, Health>)
    ensures var kept := Kept(leads, hasRules, byRule, byReply);
            var fates := Fates(leads, hasRules, byRule, byReply, health);
            && multiset(fates)[Unusable] == |leads| - |Usable(leads)|
            && multiset(fates)[Suppressed] == |Usable(leads)| - |kept|
            && multiset(fates)[Rejected] == |Graded(kept, health, true)|
            && multiset(fates)[Accepted] == |Graded(kept, health, false)|
  {
    hide Kept, FateOf, Graded;
    if leads == [] {
      NoStages(hasRules, byRule, byReply, health);
    } else {
      StagesCount(leads[1..], hasRules, byRule, byReply, health);
      var fates := Fates(leads, hasRules, byRule, byReply, health);
      assert fates[1..] == Fates(leads[1..], hasRules, byRule, byReply, health);
      assert fates == [fates[0]] + fates[1..];
      KeptFirst(leads, hasRules, byRule, byReply, health);
      OneFate(leads[0], hasRules, byRule, byReply, health);
      var kept := Kept(leads[1..], hasRules, byRule, byReply);
      assert [] + kept == kept;
      if leads[0].Some? {
        GradedCons(leads[0].value, kept, health, true);
        GradedCons(leads[0].value, kept, health, false);
      }
    }
  }

  lemma {:induction false} NoStages(hasRules: bool, byRule: set<nat>, byReply: set<nat>, health: map<Email, Health>)
    ensures Kept([], hasRules, byRule, byReply) == [] && Graded([], health, true) == Graded([], health, false) == []
    ensures Fates([], hasRules, byRule, byReply, health) == []
  {
  }

  lemma {:induction false} OneFate(lead: Submitted, hasRules: bool, byRule: set<nat>, byReply: set<nat>,
                                   health: map<Email, Health>)
    ensures var fate := FateOf(lead, hasRules, byRule, byReply, health);
            && (fate == Unusable <==> lead.None?) && (fate == Rejected ==> HealthOf(health, lead.value) == Red)
            && (fate == Accepted ==> HealthOf(health, lead.value) != Red)
  {
  }

  // ---- createMany ---------------------------------------------------------------------------

  /** One accepted lead as a row: yellow is paused; an update also makes an active row due. */
  function NewRow(h: Health, seeds: bool): Row {
    if h == Yellow then Row(Paused, false) else Row(Active, seeds)
  }

  /** Insertion in order with skipDuplicates on (campaign, email). key says how the email is stored. */
  function CreateMany(rows: map<Email, Row>, batch: seq<Email>, health: map<Email, Health>, normal: bool): map<Email, Row>
    decreases |batch|
  {
    if batch == [] then rows
    else
      var n := |batch| - 1;
      var r := CreateMany(rows, batch[..n], health, normal);
      var key := Key(batch[n], normal);
      if key in r then r else r[key := NewRow(HealthOf(health, batch[n]), normal)]
  }

  function Key(e: Email, normal: bool): Email { if normal then e.Norm() else e }

  /** The first lead of the batch that is stored under a key. */
  predicate FirstFor(batch: seq<Email>, normal: bool, key: Email, i: nat) {
    i < |batch| && Key(batch[i], normal) == key && forall j :: 0 <= j < i ==> Key(batch[j], normal) != key
  }

  /** Old rows stay as they are; every other key of the batch gets one row, from its first lead. */
  lemma {:induction false} CreateManyIff(rows: map<Email, Row>, batch: seq<Email>, health: map<Email, Health>,
                                         normal: bool, key: Email)
    ensures var r := CreateMany(rows, batch, health, normal);
            && (key in r <==> key in rows || exists e :: e in batch && Key(e, normal) == key)
            && (key in rows ==> r[key] == rows[key])
            && (key in r && key !in rows ==>
                  exists i: nat :: FirstFor(batch, normal, key, i) && r[key] == NewRow(HealthOf(health, batch[i]), normal))
    decreases |batch|
  {
    if batch != [] {
      var n := |batch| - 1;
      var r := CreateMany(rows, batch[..n], health, normal);
      CreateManyIff(rows, batch[..n], health, normal, key);
      assert batch == batch[..n] + [batch[n]];
      if key !in rows {
        if key in r {
          var i: nat :| FirstFor(batch[..n], normal, key, i) && r[key] == NewRow(HealthOf(health, batch[i]), normal);
          assert FirstFor(batch, normal, key, i);
        } else if Key(batch[n], normal) == key {
          assert forall j :: 0 <= j < n ==> batch[j] in batch[..n];
          assert FirstFor(batch, normal, key, n);
        }
      }
    }
  }

  // ---- the two handlers ------------------------------------------------------------------------

  /** The rows and the count that the campaign keeps of them. */
  class CampaignLeads {
    var rows: map<Email, Row>
    var totalLeads: nat
    var imports: seq<Import>

    /** createCampaign on its new campaign. byRule and byReply: the normalised emails each suppression source holds. */
    method CreateLeads(leads: seq<Submitted>, hasRules: bool, byRule: set<nat>, byReply: set<nat>,
                       health: map<Email, Health>)
      returns (dropped: nat, skipped: nat, added: nat, blocked: nat)
      requires rows == map[] && imports == [] && totalLeads == 0
      modifies this
      ensures dropped + skipped + added + blocked == |leads|
      ensures dropped == multiset(Fates(leads, hasRules, byRule, byReply, health))[Unusable]
      ensures skipped == multiset(Fates(leads, hasRules, byRule, byReply, health))[Suppressed]
      ensures blocked == multiset(Fates(leads, hasRules, byRule, byReply, health))[Rejected]
      ensures added == multiset(Fates(leads, hasRules, byRule, byReply, health))[Accepted]
      ensures rows == CreateMany(map[], Admitted(leads, hasRules, byRule, byReply, health), health, false)
      ensures totalLeads == |rows| <= added
      ensures totalLeads == added <==>
              forall e :: MayEnter(leads, hasRules, byRule, byReply, health, e) ==> multiset(leads)[Some(e)] == 1
      ensures forall m :: m in imports ==> m == Import(added + blocked, added, blocked, skipped)
      ensures imports == [] <==> added + blocked == 0
    {
      hide Usable, Without, Graded, CreateMany, HealthOf, Fates, MayEnter;
      StagesCount(leads, hasRules, byRule, byReply, health);
      RowsAreAddedIff(leads, hasRules, byRule, byReply, health);
      UsableShorter(leads);
      var input := Usable(leads);
      dropped, skipped, added, blocked := |leads| - |input|, 0, 0, 0;
      if |input| > 0 {
        if hasRules {
          WithoutShorter(input, byRule);
          var kept := Without(input, byRule);
          skipped := |input| - |kept|;
          input := kept;
        }
        WithoutShorter(input, byReply);
        if byReply != {} {
          var before := |input|;
          input := Without(input, byReply);
          skipped := skipped + (before - |input|);
        }
        GradedSplits(input, health);
        var accepted := Graded(input, health, false);
        var rejected := Graded(input, health, true);
        added, blocked := |accepted|, |rejected|;
        if |input| > 0 { imports := [Import(|input|, added, blocked, skipped)]; }
        InsertAll(accepted, health, false);
        totalLeads := |rows|;
      } else {
        NothingAdmitted(leads, hasRules, byRule, byReply, health);
      }
    }

    /** createMany with skipDuplicates. */
    method InsertAll(batch: seq<Email>, health: map<Email, Health>, normal: bool)
      modifies this`rows
      ensures rows == CreateMany(old(rows), batch, health, normal)
    {
      for i := 0 to |batch|
        invariant rows == CreateMany(old(rows), batch[..i], health, normal)
      {
        var key := Key(batch[i], normal);
        assert batch[..i + 1][..i] == batch[..i];
        if key !in rows { rows := rows[key := NewRow(HealthOf(health, batch[i]), normal)]; }
      }
      assert batch[..|batch|] == batch;
    }

    /** updateCampaign: removals first, then the added leads through the campaign's stored rules. */
    method UpdateLeads(addLeads: seq<Submitted>, remove: set<Email>, byRule: set<nat>, health: map<Email, Health>)
      returns (added: nat, blocked: nat)
      modifies this
      ensures rows == CreateMany(old(rows) - remove, Added(addLeads, byRule, health), health, true)
      ensures added == multiset(Fates(addLeads, true, byRule, {}, health))[Accepted]
      ensures blocked == multiset(Fates(addLeads, true, byRule, {}, health))[Rejected]
      ensures totalLeads == if Usable(addLeads) != [] || remove != {} then |rows| else old(totalLeads)
      ensures Usable(addLeads) != [] ==> imports == old(imports) + [Import(|Usable(addLeads)|, added, blocked, 0)]
      ensures Usable(addLeads) != [] ==>
                (|Usable(addLeads)| == added + blocked <==> forall e :: e in Usable(addLeads) ==> e.box !in byRule)
      ensures Usable(addLeads) == [] ==> imports == old(imports) && added == blocked == 0
    {
      hide Usable, Without, Graded, CreateMany, HealthOf;
      var addList := Usable(addLeads);
      added, blocked := 0, 0;
      rows := rows - remove;
      StagesCount(addLeads, true, byRule, {}, health);
      NoSuppression(Without(addList, byRule));
      if |addList| == 0 { NothingAdmitted(addLeads, true, byRule, {}, health); }
      if |addList| > 0 {
        WithoutShorter(addList, byRule);
        var effective := addList;
        if byRule != {} { effective := Without(addList, byRule); }
        GradedSplits(effective, health);
        var accepted := Graded(effective, health, false);
        var rejected := Graded(effective, health, true);
        added, blocked := |accepted|, |rejected|;
        imports := imports + [Import(|addList|, added, blocked, 0)];
        InsertAll(accepted, health, true);
      }
      if |addList| > 0 || remove != {} { totalLeads := |rows|; }
    }
  }

  lemma {:induction false} UsableShorter(leads: seq<Submitted>)
    ensures |Usable(leads)| <= |leads|
  {
    if leads != [] { UsableShorter(leads[1..]); }
  }

  lemma {:induction false} NoSuppression(leads: seq<Email>)
    ensures Without(leads, {}) == leads
  {
    WithoutShorter(leads, {});
  }

  /** The leads that create, and update, let through. */
  function Admitted(leads: seq<Submitted>, hasRules: bool, byRule: set<nat>, byReply: set<nat>,
                    health: map<Email, Health>): seq<Email> {
    Graded(Kept(leads, hasRules, byRule, byReply), health, false)
  }

  function Added(leads: seq<Submitted>, byRule: set<nat>, health: map<Email, Health>): seq<Email> {
    Graded(Without(Usable(leads), byRule), health, false)
  }

  lemma {:induction false} NothingAdmitted(leads: seq<Submitted>, hasRules: bool, byRule: set<nat>, byReply: set<nat>,
                                           health: map<Email, Health>)
    requires Usable(leads) == []
    ensures CreateMany(map[], Admitted(leads, hasRules, byRule, byReply, health), health, false) == map[]
    ensures Kept(leads, hasRules, byRule, byReply) == [] && forall red :: Graded([], health, red) == []
    ensures forall s :: Without([], s) == []
    ensures forall rows, normal :: CreateMany(rows, [], health, normal) == rows
  {
  }

  // ---- what became a row ---------------------------------------------------------------------

  /** A lead can be admitted on creation: usable, suppressed by neither source, not red. */
  predicate MayEnter(leads: seq<Submitted>, hasRules: bool, byRule: set<nat>, byReply: set<nat>,
                     health: map<Email, Health>, e: Email) {
    Some(e) in leads && (hasRules ==> e.box !in byRule) && e.box !in byReply && (e in health ==> health[e] != Red)
  }

  /** On creation the rows are exactly the emails that may enter, as written; yellow ones are paused, none is red. */
  lemma {:induction false} CreatedRows(leads: seq<Submitted>, hasRules: bool, byRule: set<nat>, byReply: set<nat>,
                                       health: map<Email, Health>, e: Email)
    ensures var r := CreateMany(map[], Admitted(leads, hasRules, byRule, byReply, health), health, false);
            && (e in r <==> MayEnter(leads, hasRules, byRule, byReply, health, e))
            && (e in r ==> (r[e].status == Paused <==> e !in health || health[e] == Yellow) && !r[e].due)
  {
    var kept := if hasRules then Without(Usable(leads), byRule) else Usable(leads);
    var batch := Admitted(leads, hasRules, byRule, byReply, health);
    CreateManyIff(map[], batch, health, false, e);
    UsableIff(leads, e);
    WithoutIff(Usable(leads), byRule, e);
    WithoutIff(kept, byReply, e);
    GradedIff(Without(kept, byReply), health, false, e);
  }

  /**
   * After an update the rows are the old ones less the removed, and the normal form of every added lead that no rule
   * suppresses and that is not red; a new row is paused exactly when its first spelling was yellow, otherwise due.
   */
  lemma {:induction false} UpdatedRows(before: map<Email, Row>, remove: set<Email>, leads: seq<Submitted>,
                                       byRule: set<nat>, health: map<Email, Health>, k: Email)
    ensures var batch := Added(leads, byRule, health);
            var r := CreateMany(before - remove, batch, health, true);
            && (k in r <==>
                (k in before && k !in remove) ||
                exists e :: MayEnter(leads, true, byRule, {}, health, e) && Email(e.box, 0) == k)
            && (k in before && k !in remove ==> r[k] == before[k])
            && (k in r && k !in before - remove ==>
                  exists i: nat :: FirstFor(batch, true, k, i) && (batch[i] in health ==> health[batch[i]] != Red) &&
                    (r[k].status == Paused <==> batch[i] !in health || health[batch[i]] == Yellow) &&
                    (r[k].due <==> r[k].status == Active))
  {
    var batch := Added(leads, byRule, health);
    CreateManyIff(before - remove, batch, health, true, k);
    forall e ensures e in batch <==> MayEnter(leads, true, byRule, {}, health, e) {
      UsableIff(leads, e);
      WithoutIff(Usable(leads), byRule, e);
      GradedIff(Without(Usable(leads), byRule), health, false, e);
    }
    assert forall i :: 0 <= i < |batch| ==> batch[i] in batch;
  }

  /** A batch stores at most one row a lead, and exactly one when no email of it repeats. */
  lemma {:induction false} StoredOnce(batch: seq<Email>, health: map<Email, Health>)
    ensures var r := CreateMany(map[], batch, health, false);
            |r| <= |batch| && (|r| == |batch| <==> forall e :: e in batch ==> multiset(batch)[e] == 1)
    decreases |batch|
  {
    if batch != [] {
      var n := |batch| - 1;
      var less, key := batch[..n], batch[n];
      assert batch == less + [key];
      StoredOnce(less, health);
      CreateManyIff(map[], less, health, false, key);
      hide CreateMany;
      StoredNext(batch, health);
      assert key in CreateMany(map[], less, health, false) <==> key in less by {
        assert key in less ==> Key(key, false) == key;
      }
      forall e ensures e in batch <==> e in less || e == key
               ensures multiset(batch)[e] == multiset(less)[e] + if e == key then 1 else 0
               ensures multiset(less)[e] > 0 <==> e in less
      {
        assert multiset(batch) == multiset(less) + multiset{key};
        assert e in less <==> e in multiset(less);
      }
    }
  }

  lemma {:induction false} StoredNext(batch: seq<Email>, health: map<Email, Health>)
    requires batch != []
    ensures var n := |batch| - 1;
            var r := CreateMany(map[], batch[..n], health, false);
            |CreateMany(map[], batch, health, false)| == if batch[n] in r then |r| else |r| + 1
  {
  }

  /** An admitted email is inserted as often as it was submitted. */
  lemma {:induction false} AdmittedCount(leads: seq<Submitted>, hasRules: bool, byRule: set<nat>, byReply: set<nat>,
                                         health: map<Email, Health>, e: Email)
    ensures multiset(Admitted(leads, hasRules, byRule, byReply, health))[e] ==
            if FateOf(Some(e), hasRules, byRule, byReply, health) == Accepted then multiset(leads)[Some(e)] else 0
  {
    hide Kept, FateOf, Graded;
    if leads == [] {
      NoStages(hasRules, byRule, byReply, health);
    } else {
      AdmittedCount(leads[1..], hasRules, byRule, byReply, health, e);
      KeptFirst(leads, hasRules, byRule, byReply, health);
      OneFate(leads[0], hasRules, byRule, byReply, health);
      var kept := Kept(leads[1..], hasRules, byRule, byReply);
      assert [] + kept == kept && leads == [leads[0]] + leads[1..];
      if leads[0].Some? { GradedCons(leads[0].value, kept, health, false); }
    }
  }

  /** So the new campaign has as many rows as leads were admitted exactly when no admitted email was submitted twice. */
  lemma {:induction false} RowsAreAddedIff(leads: seq<Submitted>, hasRules: bool, byRule: set<nat>, byReply: set<nat>,
                                           health: map<Email, Health>)
    ensures var r := CreateMany(map[], Admitted(leads, hasRules, byRule, byReply, health), health, false);
            var added := multiset(Fates(leads, hasRules, byRule, byReply, health))[Accepted];
            && |r| <= added
            && (|r| == added <==>
                forall e :: MayEnter(leads, hasRules, byRule, byReply, health, e) ==> multiset(leads)[Some(e)] == 1)
  {
    var batch := Admitted(leads, hasRules, byRule, byReply, health);
    StagesCount(leads, hasRules, byRule, byReply, health);
    StoredOnce(batch, health);
    hide Graded, Kept, CreateMany, Fates;
    forall e ensures e in batch ==> multiset(batch)[e] == multiset(leads)[Some(e)]
             ensures e in batch <==> MayEnter(leads, hasRules, byRule, byReply, health, e)
    {
      AdmittedCount(leads, hasRules, byRule, byReply, health, e);
      assert e in batch <==> e in multiset(batch);
      assert Some(e) in leads <==> Some(e) in multiset(leads);
    }
  }

  // ---- one row per mailbox -----------------------------------------------------------------

  ghost predicate OneRowEach(rows: map<Email, Row>) {
    forall a, b :: a in rows && b in rows && a.box == b.box ==> a == b
  }

  /**
   * The key is unique on the email as stored, and creation stores it as written: the new campaign has one row per
   * mailbox exactly when no mailbox was submitted in two admissible spellings.
   */
  lemma {:induction false} CreatedOneEachIff(leads: seq<Submitted>, hasRules: bool, byRule: set<nat>,
                                             byReply: set<nat>, health: map<Email, Health>)
    ensures OneRowEach(CreateMany(map[], Admitted(leads, hasRules, byRule, byReply, health), health, false)) <==>
            forall a, b ::
              (MayEnter(leads, hasRules, byRule, byReply, health, a) &&
               MayEnter(leads, hasRules, byRule, byReply, health, b) && a.box == b.box) ==> a == b
  {
    hide MayEnter, Admitted, CreateMany;
    var r := CreateMany(map[], Admitted(leads, hasRules, byRule, byReply, health), health, false);
    forall e ensures e in r <==> MayEnter(leads, hasRules, byRule, byReply, health, e) {
      CreatedRows(leads, hasRules, byRule, byReply, health, e);
    }
  }

  /**
   * An update stores the normal form, so it misses a row that creation stored otherwise: mailboxes stay single exactly
   * when no kept row of an added mailbox is in another spelling.
   */
  lemma {:induction false} UpdatedOneEachIff(before: map<Email, Row>, remove: set<Email>, leads: seq<Submitted>,
                                             byRule: set<nat>, health: map<Email, Health>)
    requires OneRowEach(before)
    ensures OneRowEach(CreateMany(before - remove, Added(leads, byRule, health), health, true)) <==>
            forall a, e ::
              (a in before && a !in remove && MayEnter(leads, true, byRule, {}, health, e) && a.box == e.box) ==>
                a == e.Norm()
  {
    hide MayEnter, Added, CreateMany;
    var r := CreateMany(before - remove, Added(leads, byRule, health), health, true);
    forall k ensures k in r <==> (k in before && k !in remove) ||
                                 exists e :: MayEnter(leads, true, byRule, {}, health, e) && e.Norm() == k
    {
      UpdatedRows(before, remove, leads, byRule, health, k);
    }
    if OneRowEach(r) {
      forall a, e | a in before && a !in remove && MayEnter(leads, true, byRule, {}, health, e) && a.box == e.box
        ensures a == e.Norm()
      {
        assert e.Norm() in r && a in r;
      }
    }
  }

  /**
   * Replies suppress a lead on creation only: one that any campaign may never contact again is admitted by an update
   * exactly as if it had never replied.
   */
  lemma {:induction false} UpdateAdmitsRepliers(leads: seq<Submitted>, byRule: set<nat>, byReply: set<nat>,
                                                health: map<Email, Health>, e: Email)
    requires e.box in byReply
    ensures e !in CreateMany(map[], Admitted(leads, true, byRule, byReply, health), health, false)
    ensures MayEnter(leads, true, byRule, {}, health, e) ==>
              e.Norm() in CreateMany(map[], Added(leads, byRule, health), health, true)
  {
    CreatedRows(leads, true, byRule, byReply, health, e);
    UpdatedRows(map[], {}, leads, byRule, health, e.Norm());
    var none: map<Email, Row> := map[];
    assert none - {} == none;
  }
}
