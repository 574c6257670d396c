/** src/controllers/agencyController.ts: which workspaces a user reaches, and what switching and deleting do to that. */
module Workspaces {
  import opened Prelude

  datatype Org = Org(account: Option<nat>, seed: bool)

  /** org is the active organization, which the session's token repeats; scoped locks a client to one workspace. */
  datatype User = User(org: nat, account: Option<nat>, owner: bool, scoped: Option<nat>)

  /**
   * owners: the users that an Account names as its owner. referred: users that other rows name with a key that
   * restricts deletion (the creator of an invite, the installer of an integration).
   */
  datatype State = State(orgs: map<nat, Org>, users: map<nat, User>, owners: set<nat>, referred: set<nat>)

  /** checkOrgAccess */
  predicate Admits(s: State, u: User, org: nat) {
    org in s.orgs &&
    if u.scoped.Some? then u.scoped.value == org
    else if u.account.Some? then s.orgs[org].account == u.account
    else u.org == org
  }

  /** The ids that listWorkspaces and getFleetStats load cards for; an id without an organization has no card. */
  function Ids(s: State, u: User): set<nat> {
    if u.scoped.Some? then {u.scoped.value}
    else if u.account.Some? then set id | id in s.orgs && s.orgs[id].account == u.account
    else {u.org}
  }

  function Listed(s: State, u: User): set<nat> { Ids(s, u) * s.orgs.Keys }

  datatype Op =
    | Switch(user: nat, target: nat)
    | Create(user: nat, id: nat)
    | Delete(user: nat, id: nat)
    | Refer(user: nat, refers: bool)  // such a row appears or goes

  predicate MayDelete(s: State, u: User, id: nat) { u.owner && Admits(s, u, id) && !s.orgs[id].seed }

  /** The cascade would delete a user that a restricting key still names, so the database refuses the deletion. */
  predicate Refused(s: State, id: nat) {
    exists u :: u in s.users && s.users[u].org == id && (u in s.owners || u in s.referred)
  }

  /** Deleting an organization takes with it the users who are active in it, and unscopes those scoped to it. */
  function Cascade(users: map<nat, User>, org: nat): map<nat, User> {
    map id | id in users && users[id].org != org ::
      if users[id].scoped == Some(org) then users[id].(scoped := None) else users[id]
  }

  function Apply(s: State, op: Op): State {
    if op.user !in s.users then s
    else
      var u := s.users[op.user];
      match op
      case Switch(user, target) =>
        if Admits(s, u, target) then s.(users := s.users[user := u.(org := target)]) else s
      case Create(user, id) =>
        if u.owner && u.account.Some? && id !in s.orgs then s.(orgs := s.orgs[id := Org(u.account, false)]) else s
      case Delete(user, id) =>
        if MayDelete(s, u, id) && !Refused(s, id)
        then s.(orgs := s.orgs - {id}, users := Cascade(s.users, id)) else s
      case Refer(user, refers) => s.(referred := if refers then s.referred + {user} else s.referred - {user})
  }

  function Run(s: State, ops: seq<Op>): State
    decreases |ops|
  {
    if ops == [] then s else Run(Apply(s, ops[0]), ops[1..])
  }

  // ---- who reaches what -------------------------------------------------------------------

  /** The list shows exactly the workspaces that the access check admits, in all three regimes. */
  lemma {:induction false} ListedIffAdmitted(s: State, u: User, org: nat)
    ensures org in Listed(s, u) <==> Admits(s, u, org)
  {
    if u.scoped.Some? {
    } else if u.account.Some? {
      assert org in Ids(s, u) <==> org in s.orgs && s.orgs[org].account == u.account;
    } else {
    }
  }

  /** Every user is active in a workspace that they reach. */
  predicate Inside(s: State) { forall id :: id in s.users ==> Admits(s, s.users[id], s.users[id].org) }

  lemma {:induction false} StepKeepsInside(s: State, op: Op)
    requires Inside(s)
    ensures Inside(Apply(s, op))
  {
    var t := Apply(s, op);
    forall id | id in t.users ensures Admits(t, t.users[id], t.users[id].org) {
      assert id in s.users && Admits(s, s.users[id], s.users[id].org);
    }
  }

  /** No run of switches, creations and deletions leaves a user active in a workspace outside their list. */
  lemma {:induction false} RunKeepsInside(s: State, ops: seq<Op>)
    requires Inside(s)
    ensures Inside(Run(s, ops))
    ensures forall id :: id in Run(s, ops).users ==> Run(s, ops).users[id].org in Listed(Run(s, ops), Run(s, ops).users[id])
    decreases |ops|
  {
    if ops != [] {
      StepKeepsInside(s, ops[0]);
      RunKeepsInside(Apply(s, ops[0]), ops[1..]);
    } else {
      forall id | id in s.users ensures s.users[id].org in Listed(s, s.users[id]) {
        ListedIffAdmitted(s, s.users[id], s.users[id].org);
      }
    }
  }

  /**
   * A client locked to one workspace is never unlocked: deleting that workspace would clear the lock, but it deletes
   * the client first, who can be active nowhere else.
   */
  lemma {:induction false} ClientsStayLocked(s: State, ops: seq<Op>, id: nat)
    requires Inside(s) && id in s.users && s.users[id].scoped.Some?
    ensures var e := Run(s, ops); id in e.users ==> e.users[id].scoped == s.users[id].scoped
    decreases |ops|
  {
    if ops != [] {
      var t := Apply(s, ops[0]);
      StepKeepsInside(s, ops[0]);
      assert s.users[id].scoped == Some(s.users[id].org);
      if id in t.users {
        ClientsStayLocked(t, ops[1..], id);
      } else {
        GoneStaysGone(t, ops[1..], id);
      }
    }
  }

  lemma {:induction false} GoneStaysGone(s: State, ops: seq<Op>, id: nat)
    requires id !in s.users
    ensures id !in Run(s, ops).users
    decreases |ops|
  {
    if ops != [] { GoneStaysGone(Apply(s, ops[0]), ops[1..], id); }
  }

  /** A deletion removes exactly the users active in the workspace, and is refused when a restricting key names one of them. */
  lemma {:induction false} DeletionTakesUsersIff(s: State, user: nat, id: nat, other: nat)
    requires user in s.users && MayDelete(s, s.users[user], id) && other in s.users
    ensures var t := Apply(s, Delete(user, id));
            && (id !in t.orgs <==> !Refused(s, id))
            && (other !in t.users <==> s.users[other].org == id && !Refused(s, id))
            && (Refused(s, id) ==> t == s)
  {
  }

  /** Whoever stays after a deletion is as before, except that a client locked to the deleted workspace no longer is. */
  lemma {:induction false} DeletionUnlocks(s: State, user: nat, id: nat, other: nat)
    requires user in s.users && MayDelete(s, s.users[user], id) && !Refused(s, id)
    requires other in s.users && s.users[other].org != id
    ensures var t := Apply(s, Delete(user, id));
            && other in t.users
            && t.users[other] ==
               s.users[other].(scoped := if s.users[other].scoped == Some(id) then None else s.users[other].scoped)
            && t.orgs.Keys == s.orgs.Keys - {id} && forall o :: o in t.orgs ==> t.orgs[o] == s.orgs[o]
  {
  }

  /** A restricting row keeps the workspace of the user it names from deletion until it is gone. */
  lemma {:induction false} NamedUsersKeep(s: State, user: nat, id: nat, named: nat)
    requires user in s.users && MayDelete(s, s.users[user], id) && named in s.users && s.users[named].org == id
    ensures var t := Apply(s, Refer(named, true)); Apply(t, Delete(user, id)) == t && id in t.orgs
    ensures var t := Apply(s, Refer(named, false));
            (forall u :: u in s.users && s.users[u].org == id ==> u !in s.owners && (u in s.referred ==> u == named)) ==>
              id !in Apply(t, Delete(user, id)).orgs
  {
    var t := Apply(s, Refer(named, true));
    assert Refused(t, id);
  }

  /** The agency-owner flag is set only for the owner of an account. */
  predicate FlagsAreOwners(s: State) { forall id :: id in s.users && s.users[id].owner ==> id in s.owners }

  lemma {:induction false} OwnerStep(s: State, op: Op, id: nat)
    requires id in s.users && id in s.owners
    ensures var t := Apply(s, op); id in t.users && id in t.owners
  {
    if op.Delete? && s.users[id].org == op.id { assert Refused(s, op.id); }
  }

  /** No run of switches, creations and deletions removes the owner of an account. */
  lemma {:induction false} OwnersStay(s: State, ops: seq<Op>, id: nat)
    requires id in s.users && id in s.owners
    ensures id in Run(s, ops).users
    decreases |ops|
  {
    if ops != [] {
      OwnerStep(s, ops[0], id);
      OwnersStay(Apply(s, ops[0]), ops[1..], id);
    }
  }

  /** An owner cannot delete the workspace they have switched into: the attempt leaves everything as it was. */
  lemma {:induction false} OwnWorkspaceStays(s: State, user: nat, id: nat)
    requires FlagsAreOwners(s) && user in s.users && MayDelete(s, s.users[user], id)
    ensures var t := Apply(s, Switch(user, id)); Apply(t, Delete(user, id)) == t && id in t.orgs
  {
    var t := Apply(s, Switch(user, id));
    assert t.users[user].org == id && user in t.owners;
    assert Refused(t, id);
  }

  /** A workspace that an owner creates is on their list, unless they are themselves locked to another one. */
  lemma {:induction false} CreatedIsListedIff(s: State, user: nat, id: nat)
    requires user in s.users && s.users[user].owner && s.users[user].account.Some? && id !in s.orgs
    requires Inside(s)
    ensures var t := Apply(s, Create(user, id));
            && (id in Listed(t, t.users[user]) <==> s.users[user].scoped.None?)
            && !t.orgs[id].seed && t.users == s.users
  {
    var t := Apply(s, Create(user, id));
    ListedIffAdmitted(t, t.users[user], id);
    assert Admits(s, s.users[user], s.users[user].org);
  }

  // ---- seed workspaces ---------------------------------------------------------------------

  function Seeds(s: State, account: nat): set<nat> {
    set id | id in s.orgs && s.orgs[id].account == Some(account) && s.orgs[id].seed
  }

  /** No run changes an account's seed workspaces, so one that has a seed is never left without a workspace. */
  lemma {:induction false} SeedsStay(s: State, ops: seq<Op>, account: nat)
    ensures Seeds(Run(s, ops), account) == Seeds(s, account)
    decreases |ops|
  {
    if ops != [] {
      SeedsStay(Apply(s, ops[0]), ops[1..], account);
      assert Seeds(Apply(s, ops[0]), account) == Seeds(s, account);
    }
  }

  // ---- the tables --------------------------------------------------------------------------

  class Tables {
    var orgs: map<nat, Org>
    var users: map<nat, User>
    var owners: set<nat>
    var referred: set<nat>

    ghost function View(): State
      reads this
    {
      State(orgs, users, owners, referred)
    }

    /** 200, 401 or 403 */
    method SwitchWorkspace(user: nat, target: nat) returns (code: nat)
      modifies this`users
      ensures View() == Apply(old(View()), Switch(user, target))
      ensures code == 200 <==> user in old(users) && target in Listed(old(View()), old(users)[user])
      ensures code == 200 ==> users[user].org == target
      ensures code == 401 <==> user !in old(users)
      ensures code in {200, 401, 403}
    {
      if user !in users { return 401; }
      ListedIffAdmitted(View(), users[user], target);
      if !Admits(State(orgs, users, owners, referred), users[user], target) { return 403; }
      users := users[user := users[user].(org := target)];
      code := 200;
    }

    /** 200, 400, 401, 403, 404 or 500 */
    method DeleteWorkspace(user: nat, id: nat) returns (code: nat)
      modifies this`orgs, this`users
      ensures View() == Apply(old(View()), Delete(user, id))
      ensures code == 200 <==>
              user in old(users) && MayDelete(old(View()), old(users)[user], id) && !Refused(old(View()), id)
      ensures code == 500 <==>
              user in old(users) && MayDelete(old(View()), old(users)[user], id) && Refused(old(View()), id)
      ensures code == 401 <==> user !in old(users)
      ensures code == 403 <==> user in old(users) && !old(users)[user].owner
      ensures code == 404 <==>
              user in old(users) && old(users)[user].owner && !Admits(old(View()), old(users)[user], id)
      ensures code == 400 <==> user in old(users) && old(users)[user].owner &&
                               Admits(old(View()), old(users)[user], id) && old(orgs)[id].seed
    {
      if user !in users { return 401; }
      if !users[user].owner { return 403; }
      if !Admits(State(orgs, users, owners, referred), users[user], id) { return 404; }
      if orgs[id].seed { return 400; }
      if Refused(State(orgs, users, owners, referred), id) { return 500; }
      orgs := orgs - {id};
      users := Cascade(users, id);
      code := 200;
    }
  }

  // ---- the fleet ---------------------------------------------------------------------------

  datatype Card = Card(sends: nat, bounces: nat)

  /** A card's bounce rate, 0 for a workspace that sent nothing. */
  function Rate(c: Card): real { if c.sends > 0 then c.bounces as real / c.sends as real else 0.0 }

  function Sends(cards: seq<Card>): nat { if cards == [] then 0 else Sends(cards[..|cards| - 1]) + cards[|cards| - 1].sends }

  function Bounces(cards: seq<Card>): nat {
    if cards == [] then 0 else Bounces(cards[..|cards| - 1]) + cards[|cards| - 1].bounces
  }

  /** Bounces of the workspaces that sent something. */
  function Counted(cards: seq<Card>): nat {
    if cards == [] then 0
    else
      var c := cards[|cards| - 1];
      Counted(cards[..|cards| - 1]) + if c.sends > 0 then c.bounces else 0
  }

  /** That is every bounce, and the rate is the pooled one, exactly when no silent workspace has bounces. */
  lemma {:induction false} CountedIff(cards: seq<Card>)
    ensures Counted(cards) <= Bounces(cards)
    ensures Counted(cards) == Bounces(cards) <==> forall c :: c in cards ==> c.sends > 0 || c.bounces == 0
  {
    if cards != [] {
      var n := |cards| - 1;
      CountedIff(cards[..n]);
      assert cards == cards[..n] + [cards[n]];
    }
  }

  function Weight(c: Card): real { Rate(c) * c.sends as real }

  /** The fleet's weighted bounce rate times all sends is the bounces of the workspaces that sent something. */
  method FleetBounceRate(cards: seq<Card>) returns (total: nat, rate: real)
    ensures total == Sends(cards)
    ensures total > 0 ==> rate * total as real == Counted(cards) as real
    ensures total == 0 ==> rate == 0.0
  {
    hide Rate, Weight;
    total := 0;
    var weighted := 0.0;
    for i := 0 to |cards|
      invariant total == Sends(cards[..i]) && weighted == Counted(cards[..i]) as real
    {
      var c := cards[i];
      assert cards[..i + 1][..i] == cards[..i];
      Weigh(c);
      total := total + c.sends;
      weighted := weighted + Weight(c);
    }
    assert cards[..|cards|] == cards;
    rate := 0.0;
    if total > 0 {
      rate := weighted / total as real;
      Undivide(weighted, total as real);
    }
  }

  lemma {:induction false} Undivide(w: real, t: real)
    requires t != 0.0
    ensures (w / t) * t == w
  {
  }

  lemma {:induction false} Weigh(c: Card)
    ensures Weight(c) == if c.sends > 0 then c.bounces as real else 0.0
  {
    if c.sends > 0 {
      Undivide(c.bounces as real, c.sends as real);
    }
  }
}
