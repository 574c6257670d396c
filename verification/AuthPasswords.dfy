/** src/controllers/authController.ts and userController.ts: which password logs in, and what opens an account. */
module AuthPasswords {
  import opened Prelude
  import opened Auth

  // ---- what a login answers --------------------------------------------------------------

  /** The five answers of a login, each exactly when: no password, locked, another password, unverified, or signed in. */
  lemma {:induction false} LoginAnswersIff(s: State, id: nat, password: nat, now: nat)
    requires id in s.users
    ensures var u := s.users[id];
            var a := Answer(s, Login(id, password), now);
            var open := u.password.Some? && (u.lockedUntil.None? || u.lockedUntil.value <= now);
            && (a == Done <==> open && u.password == Some(password) && (u.client || u.verified))
            && (a == Unverified <==> open && u.password == Some(password) && !u.client && !u.verified)
            && (a.WrongPassword? <==> open && u.password != Some(password))
            && (a == WrongPassword(true) <==> open && u.password != Some(password) && !u.client && u.failures >= 9)
            && (a == Locked <==> u.password.Some? && u.lockedUntil.Some? && now < u.lockedUntil.value)
            && (a == UseGoogle <==> u.password.None? && !u.client) && (a == Unknown <==> u.password.None? && u.client)
  {
  }

  /** Only a wrong password and a success are written: the one counts and may lock, the other clears and signs in. */
  lemma {:induction false} LoginWrites(s: State, id: nat, password: nat, now: nat)
    requires id in s.users
    ensures var u := s.users[id];
            var a := Answer(s, Login(id, password), now);
            var t := Next(s, Login(id, password), now);
            && t.users.Keys == s.users.Keys && (forall i :: i in s.users && i != id ==> t.users[i] == s.users[i])
            && t.log == s.log && t.marks == s.marks
            && (a.WrongPassword? ==>
                  var n := u.failures + 1;
                  t.users[id] == u.(failures := n, lockedUntil := if n >= 10 then Some(now + 900000) else None)
                  && t.sessions == s.sessions)
            && (a == Done ==>
                  t.users[id] == u.(failures := 0, lockedUntil := None)
                  && t.sessions == s.sessions + [Session(id, now, None)])
            && (!a.WrongPassword? && a != Done ==> t == s)
  {
    var t := Next(s, Login(id, password), now);
    var a := Answer(s, Login(id, password), now);
    if !a.WrongPassword? && a != Done { assert t.users == s.users; }
  }

  /** Whose row a request is about. */
  function Subject(s: State, r: Request): Option<nat> {
    match r
    case Register(id, _, _) => Some(id)
    case Login(id, _) => Some(id)
    case AskLink(_, id, _) => Some(id)
    case UseLink(found, _, _, _) => found
    case ChangePassword(i, _, _) => if i < |s.sessions| then Some(s.sessions[i].user) else None
    case _ => None
  }

  /** No request touches another user's row, removes a user, or takes back a session or an event. */
  lemma {:induction false} OnlySubjectChanges(s: State, r: Request, now: nat, id: nat)
    requires Legal(s, r) && Subject(s, r) != Some(id)
    ensures var t := Next(s, r, now);
            && (id in t.users <==> id in s.users) && (id in s.users ==> t.users[id] == s.users[id])
            && s.users.Keys <= t.users.Keys && s.sessions <= t.sessions && s.log <= t.log
  {
  }

  // ---- which password it is ----------------------------------------------------------------

  function PasswordIn(s: State, id: nat): Option<nat> { if id in s.users then s.users[id].password else None }

  /** The password that the request, if it is accepted, chooses for the account. */
  function Chosen(s: State, r: Request, now: nat, id: nat): Option<nat> {
    if !Answer(s, r, now).Done? then None
    else match r
      case Register(user, password, _) => if user == id then Some(password) else None
      case UseLink(found, kind, _, password) => if kind == Reset && found == Some(id) then Some(password) else None
      case ChangePassword(i, _, password) => if s.sessions[i].user == id then Some(password) else None
      case _ => None
  }

  lemma {:induction false} StepKeepsPassword(s: State, r: Request, now: nat, id: nat)
    requires Legal(s, r)
    ensures PasswordIn(Next(s, r, now), id) ==
            if Chosen(s, r, now, id).Some? then Chosen(s, r, now, id) else PasswordIn(s, id)
  {
  }

  /** Read off the requests: the password of the latest accepted registration, reset or change. */
  function LatestChosen(states: seq<State>, reqs: seq<Timed>, id: nat): Option<nat>
    requires |states| == |reqs| + 1
    decreases |reqs|
  {
    if reqs == [] then PasswordIn(states[0], id)
    else
      var n := |reqs| - 1;
      var c := Chosen(states[n], reqs[n].req, reqs[n].at, id);
      if c.Some? then c else LatestChosen(states[..n + 1], reqs[..n], id)
  }

  lemma {:induction false} PasswordIsLatestChosen(states: seq<State>, reqs: seq<Timed>, id: nat)
    requires IsRun(states, reqs)
    ensures PasswordIn(states[|reqs|], id) == LatestChosen(states, reqs, id)
    decreases |reqs|
  {
    hide Chosen, Next, Legal, PasswordIn;
    if reqs != [] {
      var n := |reqs| - 1;
      RunPrefix(states, reqs);
      PasswordIsLatestChosen(states[..n + 1], reqs[..n], id);
      StepKeepsPassword(states[n], reqs[n].req, reqs[n].at, id);
    }
  }

  /**
   * In every run the password a user logs in with is the one of the latest accepted registration, reset or change: no
   * other ever works, and it works whenever the account is verified, or a client's, and not locked.
   */
  lemma {:induction false} LatestChosenLogsIn(states: seq<State>, reqs: seq<Timed>, id: nat, password: nat, now: nat)
    requires IsRun(states, reqs)
    ensures var s := states[|reqs|];
            var a := Answer(s, Login(id, password), now);
            && (a == Done || a == Unverified ==> LatestChosen(states, reqs, id) == Some(password))
            && (LatestChosen(states, reqs, id) == Some(password) ==>
                  id in s.users &&
                  (a == Done <==> !IsLocked(s.users[id], now) && (s.users[id].client || s.users[id].verified)))
            && (a.WrongPassword? ==> LatestChosen(states, reqs, id) != Some(password))
  {
    PasswordIsLatestChosen(states, reqs, id);
    var s := states[|reqs|];
    if id in s.users { LoginAnswersIff(s, id, password, now); }
  }

  // ---- resets and changes ------------------------------------------------------------------

  /**
   * After an accepted reset the account is neither locked nor near it: the new password signs a verified account in at
   * any time, any other is answered as wrong; the link is gone, and every other account is as it was.
   */
  lemma {:induction false} ResetSwitches(s: State, id: nat, token: nat, password: nat, now: nat, other: nat, later: nat)
    requires Legal(s, UseLink(Some(id), Reset, token, password))
    requires Answer(s, UseLink(Some(id), Reset, token, password), now) == Done
    ensures var t := Next(s, UseLink(Some(id), Reset, token, password), now);
            var a := Answer(t, Login(id, other), later);
            && id in t.users && t.users.Keys == s.users.Keys && t.sessions == s.sessions
            && (forall i :: i in s.users && i != id ==> t.users[i] == s.users[i])
            && (other == password && (s.users[id].client || s.users[id].verified) ==> a == Done)
            && (other != password ==> a == WrongPassword(false))
            && t.users[id].failures == 0 && t.users[id].lockedUntil == None
            && t.users[id].reset == None && t.users[id].verify == s.users[id].verify
            && t.users[id].verified == s.users[id].verified && t.users[id].changedAt == Some(now)
  {
  }

  /** After an accepted change the new password is the one that is compared, under whatever lock there was. */
  lemma {:induction false} ChangeSwitches(s: State, i: nat, current: nat, password: nat, now: nat, other: nat, later: nat)
    requires Answer(s, ChangePassword(i, current, password), now) == Done
    ensures var id := s.sessions[i].user;
            var t := Next(s, ChangePassword(i, current, password), now);
            && id in s.users && t.users.Keys == s.users.Keys && t.sessions == s.sessions && t.log == s.log
            && (forall j :: j in s.users && j != id ==> t.users[j] == s.users[j])
            && s.users[id].password == Some(current)
            && t.users[id] == s.users[id].(password := Some(password), changedAt := Some(now))
            && (Answer(t, Login(id, other), later).WrongPassword? <==> !IsLocked(s.users[id], later) && other != password)
  {
  }

  /** A change is accepted exactly from a live session with the account's password; an account without one has none. */
  lemma {:induction false} ChangeAcceptedIff(s: State, i: nat, current: nat, password: nat, now: nat)
    ensures Answer(s, ChangePassword(i, current, password), now) == Done <==>
            Answer(s, Refresh(i), now) == Done && PasswordIn(s, s.sessions[i].user) == Some(current)
  {
  }

  // ---- opening an account --------------------------------------------------------------------

  /**
   * A registered account answers its own password with "verify first" until its link is used, and any other as wrong;
   * the link works for exactly a day, signs in, and from then on the password does.
   */
  lemma {:induction false} LinkOpensAccount(s: State, id: nat, password: nat, token: nat, other: nat, at: nat,
                                            now: nat, later: nat)
    requires Legal(s, Register(id, password, token)) && id !in s.users
    ensures var t := Next(s, Register(id, password, token), at);
            var use := UseLink(Some(id), Verify, token, 0);
            && id in t.users && t.users.Keys == s.users.Keys + {id} && t.sessions == s.sessions
            && t.users[id].failures == 0 && t.users[id].reset == None && t.users[id].changedAt == None
            && (forall i :: i in s.users ==> t.users[i] == s.users[i])
            && Answer(t, Login(id, other), later) == (if other == password then Unverified else WrongPassword(false))
            && (Answer(t, use, now) == if now <= at + 86400000 then Done else Expired)
            && (Answer(t, use, now) == Done ==>
                  var v := Next(t, use, now);
                  && v.sessions == s.sessions + [Session(id, now, None)] && id in v.users
                  && v.users[id].verify == None
                  && Answer(v, Login(id, other), later) == if other == password then Done else WrongPassword(false))
  {
  }

  /** A link just mailed works for exactly an hour, or a day; it replaces the one mailed before and nothing else. */
  lemma {:induction false} MailedLinkWorksIff(s: State, kind: Kind, id: nat, token: nat, at: nat, now: nat, password: nat)
    requires Legal(s, AskLink(kind, id, token)) && id in s.users
    ensures var u := s.users[id];
            var asked := Answer(s, AskLink(kind, id, token), at) == Done;
            var t := Next(s, AskLink(kind, id, token), at);
            && (asked <==> !u.client && if kind == Reset then u.password.Some? else !u.verified)
            && (!asked ==> t == s)
            && (asked ==>
                  && (Answer(t, UseLink(Some(id), kind, token, password), now) ==
                      if now <= at + (if kind == Reset then 3600000 else 86400000) then Done else Expired)
                  && t.users.Keys == s.users.Keys && t.sessions == s.sessions
                  && (forall i :: i in s.users && i != id ==> t.users[i] == s.users[i])
                  && LinkOf(t.users[id], if kind == Reset then Verify else Reset) ==
                     LinkOf(u, if kind == Reset then Verify else Reset)
                  && t.users[id].password == u.password && t.users[id].verified == u.verified
                  && t.users[id].failures == u.failures && t.users[id].lockedUntil == u.lockedUntil)
  {
  }

  /** A session lasts three days to the second, and not past a password change in a later second. */
  lemma {:induction false} SessionLastsIff(s: State, i: nat, now: nat)
    requires i < |s.sessions| && s.sessions[i].user in s.users && s.sessions[i].issuedAt >= 1000
    ensures var x, u := s.sessions[i], s.users[s.sessions[i].user];
            && (Answer(s, Refresh(i), now) == Done <==>
                now / 1000 - x.issuedAt / 1000 < 259200 &&
                (u.changedAt.Some? ==> u.changedAt.value <= x.issuedAt / 1000 * 1000))
            && Next(s, Refresh(i), now) == if Answer(s, Refresh(i), now) != Done then s
                                           else s.(sessions := s.sessions + [Session(x.user, now, Some(i))])
  {
  }
}
