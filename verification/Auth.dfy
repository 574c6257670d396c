/**
 * src/controllers/authController.ts: login lockout, emailed one-time links, and session refresh.
 * Times are milliseconds; password hashing and token hashing are taken as injective.
 */
module Auth {
  import opened Prelude

  const MAX_FAILURES: nat := 10
  const LOCK_MS: nat := 15 * 60 * 1000
  const SESSION_SECONDS: nat := 3 * 24 * 60 * 60

  datatype Kind = Reset | Verify

  function Ttl(kind: Kind): nat {
    match kind
    case Reset => 60 * 60 * 1000
    case Verify => 24 * 60 * 60 * 1000
  }

  /** A one-time link: the hashed token and its expiry columns. */
  datatype Link = Link(token: nat, expires: nat)

  datatype User = User(
    password: Option<nat>, verified: bool, client: bool,
    failures: nat, lockedUntil: Option<nat>,
    reset: Option<Link>, verify: Option<Link>,
    changedAt: Option<nat>)

  /** A signed session token: `iat` is its issue time in whole seconds (section 4.1.6 of RFC 7519). */
  datatype Session = Session(user: nat, issuedAt: nat, parent: Option<nat>) {
    function Iat(): nat { issuedAt / 1000 }
  }

  datatype Event = Issued(kind: Kind, user: nat, token: nat, at: nat) | Used(kind: Kind, user: nat, token: nat, at: nat)

  /**
   * Beside the rows: every session token signed, the history of links, and for each user how many
   * sessions there were when the password last changed.
   */
  datatype State = State(users: map<nat, User>, sessions: seq<Session>, log: seq<Event>, marks: map<nat, nat>)

  datatype Outcome =
    | Unknown | UseGoogle | Locked | WrongPassword(locked: bool) | Unverified | Done | Refused | Expired

  // ---- login -----------------------------------------------------------------

  predicate IsLocked(u: User, now: nat) { u.lockedUntil.Some? && now < u.lockedUntil.value }

  function AfterFailure(u: User, now: nat): User {
    var n := u.failures + 1;
    u.(failures := n, lockedUntil := if n >= MAX_FAILURES then Some(now + LOCK_MS) else None)
  }

  /** What `login` or, for a user of one workspace, `clientLogin` answers. */
  function LoginOutcome(u: User, password: nat, now: nat): Outcome {
    if u.password.None? then (if u.client then Unknown else UseGoogle)
    else if IsLocked(u, now) then Locked
    else if u.password.value != password then WrongPassword(!u.client && u.failures + 1 >= MAX_FAILURES)
    else if !u.client && !u.verified then Unverified
    else Done
  }

  function AfterLogin(u: User, password: nat, now: nat): User {
    match LoginOutcome(u, password, now)
    case WrongPassword(_) => AfterFailure(u, now)
    case Done => u.(failures := 0, lockedUntil := None)
    case _ => u
  }

  // ---- session tokens -----------------------------------------------------------

  /** Issued, to the second, before the password last changed. */
  predicate Outdated(u: User, s: Session) {
    u.changedAt.Some? && s.Iat() != 0 && s.Iat() * 1000 < u.changedAt.value
  }

  predicate Accepts(u: User, s: Session, now: nat) { now / 1000 < s.Iat() + SESSION_SECONDS && !Outdated(u, s) }

  // ---- links -----------------------------------------------------------------------

  function LinkOf(u: User, kind: Kind): Option<Link> { if kind == Reset then u.reset else u.verify }

  predicate Owns(s: State, kind: Kind, id: nat, token: nat) {
    id in s.users && LinkOf(s.users[id], kind).Some? && LinkOf(s.users[id], kind).value.token == token
  }

  function SetLink(u: User, kind: Kind, link: Option<Link>): User {
    if kind == Reset then u.(reset := link) else u.(verify := link)
  }

  // ---- one request ---------------------------------------------------------------

  datatype Request =
    | Register(id: nat, password: nat, token: nat)             // mails the first verification link
    | Login(id: nat, password: nat)
    | AskLink(kind: Kind, id: nat, token: nat)                 // forgotPassword, resendVerification
    | UseLink(found: Option<nat>, kind: Kind, token: nat, password: nat)  // resetPassword, verifyEmail
    | Refresh(session: nat)                                    // refreshToken, switchWorkspace
    | ChangePassword(session: nat, current: nat, password: nat)
    | Google(id: nat)                                          // a sign-in that checks no password

  /** Random tokens are new; `found` is the row that holds the token, if any. */
  predicate Legal(s: State, r: Request) {
    match r
    case Register(_, _, token) => forall e :: e in s.log ==> e.token != token
    case AskLink(_, _, token) => forall e :: e in s.log ==> e.token != token
    case UseLink(found, kind, token, _) =>
      if found.Some? then Owns(s, kind, found.value, token) else forall id :: id in s.users ==> !Owns(s, kind, id, token)
    case _ => true
  }

  function Answer(s: State, r: Request, now: nat): Outcome {
    match r
    case Register(id, _, _) => if id in s.users then Refused else Done
    case Login(id, password) => if id in s.users then LoginOutcome(s.users[id], password, now) else Unknown
    case AskLink(kind, id, _) =>
      if id in s.users && MayAsk(s.users[id], kind) then Done else Unknown
    case UseLink(found, kind, token, _) =>
      if found.None? then Unknown
      else if Owns(s, kind, found.value, token) && LinkOf(s.users[found.value], kind).value.expires < now then Expired
      else Done
    case Refresh(i) => if Admitted(s, i, now) then Done else Refused
    case ChangePassword(i, current, _) =>
      if !Admitted(s, i, now) then Refused
      else if s.users[s.sessions[i].user].password != Some(current) then Refused
      else Done
    case Google(id) => if id in s.users then Done else Unknown
  }

  /** forgotPassword answers accounts that have a password, resendVerification those not yet verified. */
  predicate MayAsk(u: User, kind: Kind) {
    if kind == Reset then u.password.Some? && !u.client else !u.verified && !u.client
  }

  predicate Admitted(s: State, i: nat, now: nat) {
    i < |s.sessions| && s.sessions[i].user in s.users && Accepts(s.users[s.sessions[i].user], s.sessions[i], now)
  }

  function Mint(s: State, id: nat, now: nat, parent: Option<nat>): State {
    s.(sessions := s.sessions + [Session(id, now, parent)])
  }

  function Put(s: State, id: nat, u: User): State { s.(users := s.users[id := u]) }

  function NewPassword(s: State, id: nat, u: User, password: nat, now: nat): State {
    var v := u.(password := Some(password), changedAt := Some(now));
    Put(s, id, v).(marks := s.marks[id := |s.sessions|])
  }

  /** A new account: unverified until its link is used. */
  function NewUser(password: nat, token: nat, now: nat): User {
    User(Some(password), false, false, 0, None, None, Some(Link(token, now + Ttl(Verify))), None)
  }

  function Next(s: State, r: Request, now: nat): State
    requires Legal(s, r)
  {
    match r
    case Register(id, password, token) =>
      if id in s.users then s
      else Put(s, id, NewUser(password, token, now)).(log := s.log + [Issued(Verify, id, token, now)])
    case Login(id, password) =>
      if id !in s.users then s
      else
        var t := Put(s, id, AfterLogin(s.users[id], password, now));
        if Answer(s, r, now).Done? then Mint(t, id, now, None) else t
    case AskLink(kind, id, token) =>
      if !Answer(s, r, now).Done? then s
      else Put(s, id, SetLink(s.users[id], kind, Some(Link(token, now + Ttl(kind)))))
             .(log := s.log + [Issued(kind, id, token, now)])
    case UseLink(found, kind, token, password) =>
      if !Answer(s, r, now).Done? then s
      else
        var u := SetLink(s.users[found.value], kind, None);
        var t := if kind == Reset
                 then NewPassword(s, found.value, u.(failures := 0, lockedUntil := None), password, now)
                 else Mint(Put(s, found.value, u.(verified := true)), found.value, now, None);
        t.(log := s.log + [Used(kind, found.value, token, now)])
    case Refresh(i) =>
      if Answer(s, r, now).Done? then Mint(s, s.sessions[i].user, now, Some(i)) else s
    case ChangePassword(i, _, password) =>
      if Answer(s, r, now).Done?
      then NewPassword(s, s.sessions[i].user, s.users[s.sessions[i].user], password, now)
      else s
    case Google(id) => if id in s.users then Mint(s, id, now, None) else s
  }

  // ---- runs --------------------------------------------------------------------------

  datatype Timed = Timed(at: nat, req: Request)

  /** Requests served one after another under a clock that never goes back. */
  ghost predicate IsRun(states: seq<State>, reqs: seq<Timed>) {
    && |states| == |reqs| + 1
    && (forall i :: 0 <= i < |reqs| ==>
         Legal(states[i], reqs[i].req) && states[i + 1] == Next(states[i], reqs[i].req, reqs[i].at))
    && (forall i, j :: 0 <= i < j < |reqs| ==> reqs[i].at <= reqs[j].at)
  }

  lemma {:induction false} RunPrefix(states: seq<State>, reqs: seq<Timed>)
    requires IsRun(states, reqs) && reqs != []
    ensures var n := |reqs| - 1;
            && IsRun(states[..n + 1], reqs[..n]) && states[..n + 1][n] == states[n] && states[..n + 1][0] == states[0]
            && Legal(states[n], reqs[n].req) && states[n + 1] == Next(states[n], reqs[n].req, reqs[n].at)
            && (n > 0 ==> reqs[n - 1].at <= reqs[n].at)
  {
  }

  // ---- lockout -------------------------------------------------------------------------

  predicate Fails(s: State, r: Request, now: nat, id: nat) {
    r.Login? && r.id == id && Answer(s, r, now).WrongPassword?
  }

  /** The request logs `id` in with its password or resets its password. */
  predicate Clears(s: State, r: Request, now: nat, id: nat) {
    && Answer(s, r, now).Done?
    && ((r.Login? && r.id == id) || (r.UseLink? && r.kind == Reset && r.found == Some(id)))
  }

  /** Failed password comparisons on one account. */
  function Failures(states: seq<State>, reqs: seq<Timed>, id: nat): nat
    requires |states| == |reqs| + 1
    decreases |reqs|
  {
    if reqs == [] then 0
    else
      var n := |reqs| - 1;
      Failures(states[..n + 1], reqs[..n], id) + if Fails(states[n], reqs[n].req, reqs[n].at, id) then 1 else 0
  }

  /** How many failures can come before one that locks the account, that one included. */
  function Allowance(u: User): nat { Max(1, 10 - u.failures) }

  /** `first` and `last` are the times of the first and last of the `n` failures so far. */
  predicate Paced(u0: User, u: User, n: nat, first: nat, last: nat) {
    && u.failures == u0.failures + n
    && (n > 0 ==>
         && first <= last
         && (u.failures >= MAX_FAILURES ==> u.lockedUntil == Some(last + LOCK_MS))
         && (n - Allowance(u0)) * LOCK_MS <= last - first)
  }

  lemma {:induction false} FailurePaces(u0: User, u: User, n: nat, first: nat, last: nat, now: nat)
    requires Paced(u0, u, n, first, last) && last <= now && !IsLocked(u, now)
    ensures Paced(u0, AfterFailure(u, now), n + 1, if n == 0 then now else first, now)
  {
    if n > 0 && u.failures >= MAX_FAILURES {
      assert (n + 1 - Allowance(u0)) * LOCK_MS == (n - Allowance(u0)) * LOCK_MS + LOCK_MS;
    }
  }

  /** A failed comparison is made on an account that is not locked, and is counted. */
  lemma {:induction false} FailureCounts(s: State, r: Request, now: nat, id: nat)
    requires Legal(s, r) && id in s.users && Fails(s, r, now, id)
    ensures !IsLocked(s.users[id], now)
    ensures id in Next(s, r, now).users && Next(s, r, now).users[id] == AfterFailure(s.users[id], now)
  {
  }

  lemma {:induction false} NoPace(u: User)
    ensures Paced(u, u, 0, 0, 0)
  {
  }

  /** Nothing that leaves the counter and the lock alone matters. */
  lemma {:induction false} PaceStays(u0: User, u: User, v: User, n: nat, first: nat, last: nat)
    requires Paced(u0, u, n, first, last) && v.failures == u.failures && v.lockedUntil == u.lockedUntil
    ensures Paced(u0, v, n, first, last)
  {
  }

  lemma {:induction false} NoneFailedYet(u0: User, u: User, first: nat, last: nat, now: nat)
    requires Paced(u0, u, 0, first, last)
    ensures Paced(u0, u, 0, now, now)
  {
  }

  lemma {:induction false} FailuresArePaced(states: seq<State>, reqs: seq<Timed>, id: nat)
    returns (first: nat, last: nat)
    requires IsRun(states, reqs) && id in states[0].users
    requires forall i :: 0 <= i < |reqs| ==> !Clears(states[i], reqs[i].req, reqs[i].at, id)
    ensures id in states[|reqs|].users
    ensures Paced(states[0].users[id], states[|reqs|].users[id], Failures(states, reqs, id), first, last)
    ensures Failures(states, reqs, id) > 0 ==> reqs != [] && reqs[0].at <= first && last <= reqs[|reqs| - 1].at
    decreases |reqs|
  {
    hide Clears, Fails, Legal, Next, AfterFailure, IsLocked, Allowance, Paced;
    first, last := 0, 0;
    if reqs == [] {
      NoPace(states[0].users[id]);
    } else {
      var n := |reqs| - 1;
      RunPrefix(states, reqs);
      var states', reqs' := states[..n + 1], reqs[..n];
      assert forall i :: 0 <= i < n ==> reqs'[i] == reqs[i] && states'[i] == states[i];
      first, last := FailuresArePaced(states', reqs', id);
      var t, r, now := states[n], reqs[n].req, reqs[n].at;
      if Fails(t, r, now, id) {
        var count := Failures(states', reqs', id);
        FailureCounts(t, r, now, id);
        if count == 0 {
          NoneFailedYet(states[0].users[id], t.users[id], first, last, now);
          first, last := now, now;
        }
        FailurePaces(states[0].users[id], t.users[id], count, first, last, now);
        last := now;
      } else {
        NoFailureKeepsLock(t, r, now, id);
        PaceStays(states[0].users[id], t.users[id], states[n + 1].users[id], Failures(states', reqs', id), first, last);
      }
    }
  }

  lemma {:induction false} NoFailureKeepsLock(s: State, r: Request, now: nat, id: nat)
    requires Legal(s, r) && id in s.users && !Fails(s, r, now, id) && !Clears(s, r, now, id)
    ensures var t := Next(s, r, now);
            id in t.users && t.users[id].failures == s.users[id].failures
            && t.users[id].lockedUntil == s.users[id].lockedUntil
  {
  }

  /**
   * With no login or reset in between, the failed comparisons on an account within any span of `ms`
   * milliseconds number at most its allowance and one for every full 15 minutes.
   */
  lemma {:induction false} LockoutBound(states: seq<State>, reqs: seq<Timed>, id: nat, ms: nat)
    requires IsRun(states, reqs) && id in states[0].users
    requires forall i :: 0 <= i < |reqs| ==> !Clears(states[i], reqs[i].req, reqs[i].at, id)
    requires reqs != [] ==> reqs[|reqs| - 1].at <= reqs[0].at + ms
    ensures Failures(states, reqs, id) <= Allowance(states[0].users[id]) + ms / 900000
  {
    var first, last := FailuresArePaced(states, reqs, id);
    var n := Failures(states, reqs, id);
    if n > 0 { DivBound(n - Allowance(states[0].users[id]), ms); }
  }

  lemma {:induction false} DivBound(k: int, ms: nat)
    requires k * LOCK_MS <= ms
    ensures k <= ms / LOCK_MS
  {
  }

  /** Ten attempts at once, then one at the end of every lock. */
  function AttemptAt(t0: nat, i: nat): nat { if i < 10 then t0 else t0 + (i - 9) * 900000 }

  function AfterAttempts(u: User, password: nat, t0: nat, n: nat): User {
    if n == 0 then u else AfterLogin(AfterAttempts(u, password, t0, n - 1), password, AttemptAt(t0, n - 1))
  }

  /** The bound is met: on that schedule every attempt with a wrong password is compared, and fails. */
  lemma {:induction false} LockoutBoundMet(u: User, password: nat, t0: nat, n: nat)
    requires u.password.Some? && u.password.value != password && u.failures == 0 && u.lockedUntil == None
    ensures var v := AfterAttempts(u, password, t0, n);
            && v.failures == n && v.password == u.password
            && v.lockedUntil == (if n < 10 then None else Some(AttemptAt(t0, n - 1) + 900000))
            && LoginOutcome(v, password, AttemptAt(t0, n)).WrongPassword?
  {
    if n > 0 { LockoutBoundMet(u, password, t0, n - 1); }
  }

  // ---- one-time links --------------------------------------------------------------------

  /** The link the history says is outstanding: the last one issued, unless it has been used. */
  function LastLink(log: seq<Event>, kind: Kind, id: nat): Option<Link>
    decreases |log|
  {
    if log == [] then None
    else
      var e := log[|log| - 1];
      if e.kind == kind && e.user == id then
        if e.Issued? then Some(Link(e.token, e.at + Ttl(kind))) else None
      else LastLink(log[..|log| - 1], kind, id)
  }

  /** Every use was of the link issued last to that user, unused since, and not past its expiry. */
  predicate WellUsed(log: seq<Event>) {
    forall i :: 0 <= i < |log| && log[i].Used? ==>
      var l := LastLink(log[..i], log[i].kind, log[i].user);
      l.Some? && l.value.token == log[i].token && log[i].at <= l.value.expires
  }

  /** No token is issued twice. */
  predicate FreshTokens(log: seq<Event>) {
    forall i, j :: 0 <= i < j < |log| && log[j].Issued? ==> log[i].token != log[j].token
  }

  /** The link columns of every row are what the history says. */
  predicate LinksMatch(s: State) {
    && WellUsed(s.log) && FreshTokens(s.log) && (forall e :: e in s.log ==> e.user in s.users)
    && forall id, kind :: id in s.users ==> LinkOf(s.users[id], kind) == LastLink(s.log, kind, id)
  }

  /** What an event makes of the outstanding link of a kind and a user. */
  function LinkAfter(e: Event, kind: Kind, id: nat, before: Option<Link>): Option<Link> {
    if e.kind != kind || e.user != id then before
    else if e.Issued? then Some(Link(e.token, e.at + Ttl(kind)))
    else None
  }

  lemma {:induction false} LogStep(s: State, e: Event, users: map<nat, User>)
    requires LinksMatch(s) && users.Keys == s.users.Keys + {e.user}
    requires forall id, kind :: id in users ==>
      LinkOf(users[id], kind) == LinkAfter(e, kind, id, if id in s.users then LinkOf(s.users[id], kind) else None)
    requires e.Issued? ==> forall d :: d in s.log ==> d.token != e.token
    requires e.Used? ==> e.user in s.users && var l := LinkOf(s.users[e.user], e.kind);
      l.Some? && l.value.token == e.token && e.at <= l.value.expires
    ensures WellUsed(s.log + [e]) && FreshTokens(s.log + [e])
    ensures forall d :: d in s.log + [e] ==> d.user in users
    ensures forall id, kind :: id in users ==> LinkOf(users[id], kind) == LastLink(s.log + [e], kind, id)
  {
    hide WellUsed, FreshTokens, LastLink;
    LogStaysWellUsed(s.log, e);
    forall id, kind | id in users
      ensures LinkOf(users[id], kind) == LastLink(s.log + [e], kind, id)
    {
      LastLinkGrows(s.log, e, kind, id);
      if id in s.users {
        assert LinkOf(s.users[id], kind) == LastLink(s.log, kind, id);
      } else {
        NoLastLink(s.log, kind, id);
      }
    }
  }

  lemma {:induction false} LastLinkGrows(log: seq<Event>, e: Event, kind: Kind, id: nat)
    ensures LastLink(log + [e], kind, id) == LinkAfter(e, kind, id, LastLink(log, kind, id))
  {
    var more := log + [e];
    assert more[..|more| - 1] == log;
  }

  lemma {:induction false} LogStaysWellUsed(log: seq<Event>, e: Event)
    requires WellUsed(log) && FreshTokens(log)
    requires e.Issued? ==> forall d :: d in log ==> d.token != e.token
    requires e.Used? ==> var l := LastLink(log, e.kind, e.user);
      l.Some? && l.value.token == e.token && e.at <= l.value.expires
    ensures WellUsed(log + [e]) && FreshTokens(log + [e])
  {
    hide LastLink;
    var more := log + [e];
    assert more[..|log|] == log;
    forall i | 0 <= i < |more| && more[i].Used?
      ensures var l := LastLink(more[..i], more[i].kind, more[i].user);
              l.Some? && l.value.token == more[i].token && more[i].at <= l.value.expires
    {
      if i < |log| { assert more[..i] == log[..i] && more[i] == log[i]; }
    }
  }

  lemma {:induction false} NoLastLink(log: seq<Event>, kind: Kind, id: nat)
    requires forall e :: e in log ==> e.user != id
    ensures LastLink(log, kind, id) == None
    decreases |log|
  {
    if log != [] {
      assert log[|log| - 1] in log;
      NoLastLink(log[..|log| - 1], kind, id);
    }
  }

  lemma {:induction false} StepMatches(s: State, r: Request, now: nat)
    requires Legal(s, r) && LinksMatch(s)
    ensures LinksMatch(Next(s, r, now))
  {
    hide WellUsed, FreshTokens, LastLink;
    var t := Next(s, r, now);
    if r.Register? && Answer(s, r, now).Done? {
      LogStep(s, Issued(Verify, r.id, r.token, now), t.users);
    } else if r.AskLink? && Answer(s, r, now).Done? {
      LogStep(s, Issued(r.kind, r.id, r.token, now), t.users);
    } else if r.UseLink? && Answer(s, r, now).Done? {
      var id := r.found.value;
      var v := t.users[id];
      assert t.users == s.users[id := v];
      assert LinkOf(v, r.kind) == None;
      assert forall k :: k != r.kind ==> LinkOf(v, k) == LinkOf(s.users[id], k);
      LogStep(s, Used(r.kind, id, r.token, now), t.users);
    }
  }

  /**
   * In every run, from an empty table on, each reset or verification used the user's latest unused link within its
   * lifetime, the one mailed at registration included.
   */
  lemma {:induction false} LinksAreWellUsed(states: seq<State>, reqs: seq<Timed>)
    requires IsRun(states, reqs) && LinksMatch(states[0])
    ensures LinksMatch(states[|reqs|])
    decreases |reqs|
  {
    if reqs != [] {
      var n := |reqs| - 1;
      RunPrefix(states, reqs);
      LinksAreWellUsed(states[..n + 1], reqs[..n]);
      StepMatches(states[n], reqs[n].req, reqs[n].at);
    }
  }

  lemma {:induction false} LastLinkIsIssued(log: seq<Event>, kind: Kind, id: nat) returns (k: nat)
    requires LastLink(log, kind, id).Some?
    ensures k < |log| && log[k] == Issued(kind, id, LastLink(log, kind, id).value.token, log[k].at)
    ensures forall m :: k < m < |log| ==> log[m].kind != kind || log[m].user != id
    decreases |log|
  {
    var n := |log| - 1;
    if log[n].kind == kind && log[n].user == id {
      k := n;
    } else {
      k := LastLinkIsIssued(log[..n], kind, id);
    }
  }

  /** So no token works twice. */
  lemma {:induction false} TokensWorkOnce(log: seq<Event>, i: nat, j: nat)
    requires WellUsed(log) && FreshTokens(log)
    requires i < j < |log| && log[i].Used? && log[j].Used?
    ensures log[i].token != log[j].token
  {
    if log[i].token == log[j].token {
      var a := LastLinkIsIssued(log[..i], log[i].kind, log[i].user);
      var b := LastLinkIsIssued(log[..j], log[j].kind, log[j].user);
      assert false;
    }
  }

  // ---- session lineage ------------------------------------------------------------------

  predicate Root(s: State) {
    && s.sessions == [] && s.marks == map[]
    && forall id :: id in s.users ==> s.users[id].changedAt == None
  }

  /** Session `j` is `a`, or was obtained from it by refreshing. */
  predicate Descends(sessions: seq<Session>, a: nat, j: nat)
    decreases j
  {
    j < |sessions| && (j == a || (
      && sessions[j].parent.Some? && sessions[j].parent.value < j
      && Descends(sessions, a, sessions[j].parent.value)))
  }

  /** A refresh keeps the user, and times do not go back. */
  predicate GrownFrom(sessions: seq<Session>, j: nat)
    requires j < |sessions|
  {
    var s := sessions[j];
    s.parent.Some? ==>
      s.parent.value < j && sessions[s.parent.value].user == s.user
      && sessions[s.parent.value].issuedAt <= s.issuedAt
  }

  /** How session `j` stands to a password change at `c` made when there were `m` sessions. */
  predicate Around(sessions: seq<Session>, j: nat, c: nat, m: nat)
    requires j < |sessions| && GrownFrom(sessions, j)
  {
    var s := sessions[j];
    if j < m then s.issuedAt <= c
    else s.issuedAt >= c && (s.parent.Some? ==> sessions[s.parent.value].Iat() * 1000 >= c)
  }

  predicate Lineage(s: State, clock: nat) {
    && (forall j :: 0 <= j < |s.sessions| ==>
         1000 <= s.sessions[j].issuedAt <= clock && s.sessions[j].user in s.users && GrownFrom(s.sessions, j))
    && (forall id :: id in s.users && s.users[id].changedAt.Some? ==>
         id in s.marks && s.marks[id] <= |s.sessions| && s.users[id].changedAt.value <= clock)
    && (forall j :: 0 <= j < |s.sessions| && s.users[s.sessions[j].user].changedAt.Some? ==>
         var id := s.sessions[j].user;
         Around(s.sessions, j, s.users[id].changedAt.value, s.marks[id]))
  }

  lemma {:induction false} MintKeepsLineage(s: State, id: nat, now: nat, parent: Option<nat>)
    requires Lineage(s, now) && id in s.users && now >= 1000
    requires parent.Some? ==> parent.value < |s.sessions| && s.sessions[parent.value].user == id
                              && !Outdated(s.users[id], s.sessions[parent.value])
    ensures Lineage(Mint(s, id, now, parent), now)
  {
    var t := Mint(s, id, now, parent);
    var n := |s.sessions|;
    forall j | 0 <= j < n ensures t.sessions[j] == s.sessions[j] {}
  }

  lemma {:induction false} ChangeKeepsLineage(s: State, id: nat, u: User, password: nat, now: nat)
    requires Lineage(s, now) && id in s.users
    ensures Lineage(NewPassword(s, id, u, password, now), now)
  {
  }

  lemma {:induction false} NewcomerKeepsLineage(s: State, id: nat, u: User, now: nat)
    requires Lineage(s, now) && id !in s.users && u.changedAt == None
    ensures Lineage(Put(s, id, u), now)
  {
  }

  lemma {:induction false} PutKeepsLineage(s: State, id: nat, u: User, now: nat)
    requires Lineage(s, now) && id in s.users && u.changedAt == s.users[id].changedAt
    ensures Lineage(Put(s, id, u), now)
  {
  }

  lemma {:induction false} StepKeepsLineage(s: State, r: Request, clock: nat, now: nat)
    requires Legal(s, r) && Lineage(s, clock) && clock <= now && now >= 1000
    ensures Lineage(Next(s, r, now), now)
  {
    assert Lineage(s, now);
    LogIsApart(s, now);
    if Answer(s, r, now).Done? || r.Login? {
      hide Lineage, LoginOutcome;
      match r
      case Register(id, password, token) =>
        NewcomerKeepsLineage(s, id, NewUser(password, token, now), now);
        LogIsApart(Put(s, id, NewUser(password, token, now)), now);
      case Login(id, password) =>
        if id in s.users {
          var u := AfterLogin(s.users[id], password, now);
          PutKeepsLineage(s, id, u, now);
          if Answer(s, r, now).Done? { MintKeepsLineage(Put(s, id, u), id, now, None); }
        }
      case AskLink(kind, id, token) =>
        var u := SetLink(s.users[id], kind, Some(Link(token, now + Ttl(kind))));
        PutKeepsLineage(s, id, u, now);
        LogIsApart(Put(s, id, u), now);
      case UseLink(found, kind, token, password) =>
        var id := found.value;
        var u := SetLink(s.users[id], kind, None);
        if kind == Reset {
          var v := u.(failures := 0, lockedUntil := None);
          ChangeKeepsLineage(s, id, v, password, now);
          LogIsApart(NewPassword(s, id, v, password, now), now);
        } else {
          var v := u.(verified := true);
          PutKeepsLineage(s, id, v, now);
          MintKeepsLineage(Put(s, id, v), id, now, None);
          LogIsApart(Mint(Put(s, id, v), id, now, None), now);
        }
      case Refresh(i) => MintKeepsLineage(s, s.sessions[i].user, now, Some(i));
      case ChangePassword(i, _, password) =>
        ChangeKeepsLineage(s, s.sessions[i].user, s.users[s.sessions[i].user], password, now);
      case Google(id) => MintKeepsLineage(s, id, now, None);
    }
  }

  lemma {:induction false} LogIsApart(s: State, now: nat)
    ensures Lineage(s, now) ==> forall log :: Lineage(s.(log := log), now)
  {
  }

  /** The clock has run for a second before the first request. */
  lemma {:induction false} RunKeepsLineage(states: seq<State>, reqs: seq<Timed>) returns (clock: nat)
    requires IsRun(states, reqs) && Root(states[0]) && forall i :: 0 <= i < |reqs| ==> reqs[i].at >= 1000
    ensures Lineage(states[|reqs|], clock)
    ensures clock == if reqs == [] then 0 else reqs[|reqs| - 1].at
    decreases |reqs|
  {
    clock := 0;
    if reqs != [] {
      var n := |reqs| - 1;
      RunPrefix(states, reqs);
      assert forall i :: 0 <= i < n ==> reqs[..n][i] == reqs[i];
      clock := RunKeepsLineage(states[..n + 1], reqs[..n]);
      StepKeepsLineage(states[n], reqs[n].req, clock, reqs[n].at);
      clock := reqs[n].at;
    }
  }

  /** A session signed before the change outlives it only if signed in the very millisecond, a whole second. */
  lemma {:induction false} SurvivorIff(s: State, clock: nat, b: nat)
    requires Lineage(s, clock) && b < |s.sessions| && s.users[s.sessions[b].user].changedAt.Some?
    requires b < s.marks[s.sessions[b].user]
    ensures var c := s.users[s.sessions[b].user].changedAt.value;
            !Outdated(s.users[s.sessions[b].user], s.sessions[b]) <==>
            s.sessions[b].issuedAt == c && c % 1000 == 0
  {
  }

  /** Whatever is refreshed from a session signed before the change is refused, unless it goes through a survivor. */
  lemma {:induction false} OldSessionsDie(s: State, clock: nat, a: nat, j: nat) returns (b: nat)
    requires Lineage(s, clock) && Descends(s.sessions, a, j)
    requires s.users[s.sessions[j].user].changedAt.Some? && a < s.marks[s.sessions[j].user]
    requires !Outdated(s.users[s.sessions[j].user], s.sessions[j])
    ensures var c := s.users[s.sessions[j].user].changedAt.value;
            && Descends(s.sessions, a, b) && Descends(s.sessions, b, j) && b < s.marks[s.sessions[j].user]
            && s.sessions[b].issuedAt == c && c % 1000 == 0
    decreases j
  {
    if j < s.marks[s.sessions[j].user] {
      b := j;
      SurvivorIff(s, clock, j);
    } else {
      var p := s.sessions[j].parent.value;
      b := OldSessionsDie(s, clock, a, p);
    }
  }

  /** A session signed after the change from a fresh sign-in is refused exactly within the same second. */
  lemma {:induction false} FreshSessionRefusedIff(s: State, clock: nat, j: nat)
    requires Lineage(s, clock) && j < |s.sessions| && s.users[s.sessions[j].user].changedAt.Some?
    requires j >= s.marks[s.sessions[j].user]
    ensures var c := s.users[s.sessions[j].user].changedAt.value;
            Outdated(s.users[s.sessions[j].user], s.sessions[j]) <==>
            s.sessions[j].issuedAt / 1000 == c / 1000 && c % 1000 != 0
  {
  }

  /**
   * In every run: once the password has changed at `c`, nothing obtained from a session signed before is ever
   * refreshed, if `c` is no whole second or no session of the user was signed in that millisecond before it.
   */
  lemma {:induction false} ChangeEndsSessions(states: seq<State>, reqs: seq<Timed>, a: nat, j: nat, now: nat)
    requires IsRun(states, reqs) && Root(states[0]) && forall i :: 0 <= i < |reqs| ==> reqs[i].at >= 1000
    requires var s := states[|reqs|]; Descends(s.sessions, a, j)
    requires var s := states[|reqs|];
             var id := s.sessions[j].user;
             id in s.users && s.users[id].changedAt.Some? && id in s.marks && a < s.marks[id] <= |s.sessions|
    requires var s := states[|reqs|];
             var id := s.sessions[j].user;
             var c := s.users[id].changedAt.value;
             c % 1000 != 0 || forall b :: 0 <= b < s.marks[id] ==> s.sessions[b].issuedAt != c
    ensures Answer(states[|reqs|], Refresh(j), now) == Refused
  {
    var s := states[|reqs|];
    var clock := RunKeepsLineage(states, reqs);
    if !Outdated(s.users[s.sessions[j].user], s.sessions[j]) {
      var b := OldSessionsDie(s, clock, a, j);
    }
  }

  // ---- the handlers ----------------------------------------------------------------------

  class Handlers {
    var users: map<nat, User>
    ghost var sessions: seq<Session>
    ghost var log: seq<Event>
    ghost var marks: map<nat, nat>

    ghost function View(): State
      reads this
    {
      State(users, sessions, log, marks)
    }

    constructor (users: map<nat, User>)
      ensures View() == State(users, [], [], map[])
    {
      this.users, sessions, log, marks := users, [], [], map[];
    }

    ghost method Sign(id: nat, now: nat, parent: Option<nat>)
      modifies this`sessions
      ensures View() == Mint(old(View()), id, now, parent)
    {
      sessions := sessions + [Session(id, now, parent)];
    }

    /** `register`, once its fields, consents and work address are accepted. */
    method Register(id: nat, password: nat, token: nat, now: nat) returns (created: bool)
      requires Legal(View(), Request.Register(id, password, token))
      modifies this
      ensures View() == Next(old(View()), Request.Register(id, password, token), now)
      ensures created <==> Answer(old(View()), Request.Register(id, password, token), now).Done?
    {
      if id in users { return false; }
      users := users[id := User(Some(password), false, false, 0, None, None,
                                Some(Link(token, now + 24 * 60 * 60 * 1000)), None)];
      log := log + [Issued(Verify, id, token, now)];
      return true;
    }

    /** `login`: the row was looked up among the agency's own users. */
    method Login(id: nat, password: nat, now: nat) returns (answer: Outcome)
      requires id in users ==> !users[id].client
      modifies this
      ensures View() == Next(old(View()), Request.Login(id, password), now)
      ensures answer == Answer(old(View()), Request.Login(id, password), now)
    {
      if id !in users { return Unknown; }
      var u := users[id];
      if u.password.None? { return UseGoogle; }
      if u.lockedUntil.Some? && u.lockedUntil.value > now { return Locked; }
      if u.password.value != password {
        var newCount := u.failures + 1;
        var lockUntil := if newCount >= 10 then Some(now + LOCK_MS) else None;
        users := users[id := u.(failures := newCount, lockedUntil := lockUntil)];
        return WrongPassword(lockUntil.Some?);
      }
      if !u.verified { return Unverified; }
      Sign(id, now, None);
      users := users[id := u.(failures := 0, lockedUntil := None)];
      return Done;
    }

    /** `clientLogin`: the row was looked up in one workspace; no verification gate, one answer for failures. */
    method ClientLogin(id: nat, password: nat, now: nat) returns (answer: Outcome)
      requires id in users ==> users[id].client
      modifies this
      ensures View() == Next(old(View()), Request.Login(id, password), now)
      ensures answer == Answer(old(View()), Request.Login(id, password), now)
    {
      if id !in users || users[id].password.None? { return Unknown; }
      var u := users[id];
      if u.lockedUntil.Some? && u.lockedUntil.value > now { return Locked; }
      if u.password.value != password {
        var newCount := u.failures + 1;
        var lockUntil := if newCount >= 10 then Some(now + LOCK_MS) else None;
        users := users[id := u.(failures := newCount, lockedUntil := lockUntil)];
        return WrongPassword(false);
      }
      Sign(id, now, None);
      users := users[id := u.(failures := 0, lockedUntil := None)];
      return Done;
    }

    method ForgotPassword(id: nat, token: nat, now: nat) returns (mailed: bool)
      requires Legal(View(), AskLink(Reset, id, token))
      modifies this
      ensures View() == Next(old(View()), AskLink(Reset, id, token), now)
      ensures mailed <==> Answer(old(View()), AskLink(Reset, id, token), now).Done?
    {
      if id !in users || users[id].client { return false; }
      if users[id].password.None? { return false; }
      users := users[id := users[id].(reset := Some(Link(token, now + 60 * 60 * 1000)))];
      log := log + [Issued(Reset, id, token, now)];
      return true;
    }

    method ResendVerification(id: nat, token: nat, now: nat) returns (mailed: bool)
      requires Legal(View(), AskLink(Verify, id, token))
      modifies this
      ensures View() == Next(old(View()), AskLink(Verify, id, token), now)
      ensures mailed <==> Answer(old(View()), AskLink(Verify, id, token), now).Done?
    {
      if id !in users || users[id].client || users[id].verified { return false; }
      users := users[id := users[id].(verify := Some(Link(token, now + 24 * 60 * 60 * 1000)))];
      log := log + [Issued(Verify, id, token, now)];
      return true;
    }

    /** findUnique on a token hash column. */
    method FindOwner(kind: Kind, token: nat) returns (found: Option<nat>)
      ensures found.Some? ==> Owns(View(), kind, found.value, token)
      ensures forall password :: Legal(View(), UseLink(found, kind, token, password))
    {
      var todo := users.Keys;
      while todo != {}
        invariant todo <= users.Keys
        invariant forall id :: id in users && id !in todo ==> !Owns(View(), kind, id, token)
        decreases |todo|
      {
        var id :| id in todo;
        var link := LinkOf(users[id], kind);
        if link.Some? && link.value.token == token { return Some(id); }
        todo := todo - {id};
      }
      return None;
    }

    method ResetPassword(token: nat, password: nat, now: nat) returns (found: Option<nat>, answer: Outcome)
      modifies this
      ensures Legal(old(View()), UseLink(found, Reset, token, password))
      ensures View() == Next(old(View()), UseLink(found, Reset, token, password), now)
      ensures answer == Answer(old(View()), UseLink(found, Reset, token, password), now)
      ensures answer != Done ==> users == old(users)
      ensures answer == Done ==>
                var id := found.value;
                && id in users && users.Keys == old(users).Keys && users[id].password == Some(password)
                && users[id].failures == 0 && users[id].lockedUntil == None && users[id].reset == None
                && forall other :: other in users && other != id ==> users[other] == old(users)[other]
    {
      found := FindOwner(Reset, token);
      if found.None? { return found, Unknown; }
      var id := found.value;
      var u := users[id];
      if u.reset.value.expires < now { return found, Expired; }
      users := users[id := u.(password := Some(password), changedAt := Some(now), reset := None,
                              failures := 0, lockedUntil := None)];
      marks := marks[id := |sessions|];
      log := log + [Used(Reset, id, token, now)];
      return found, Done;
    }

    method VerifyEmail(token: nat, now: nat) returns (found: Option<nat>, answer: Outcome)
      modifies this
      ensures Legal(old(View()), UseLink(found, Verify, token, 0))
      ensures View() == Next(old(View()), UseLink(found, Verify, token, 0), now)
      ensures answer == Answer(old(View()), UseLink(found, Verify, token, 0), now)
    {
      found := FindOwner(Verify, token);
      if found.None? { return found, Unknown; }
      var id := found.value;
      var u := users[id];
      if u.verify.value.expires < now { return found, Expired; }
      users := users[id := u.(verified := true, verify := None)];
      Sign(id, now, None);
      log := log + [Used(Verify, id, token, now)];
      return found, Done;
    }

    /** `changePassword` of userController.ts, behind the session check of the middleware. */
    method ChangePassword(session: Session, ghost i: nat, current: nat, password: nat, now: nat) returns (answer: Outcome)
      requires i < |sessions| && sessions[i] == session
      modifies this
      ensures View() == Next(old(View()), Request.ChangePassword(i, current, password), now)
      ensures answer == Answer(old(View()), Request.ChangePassword(i, current, password), now)
      ensures answer == Done ==>
                && session.user in users && old(users)[session.user].password == Some(current)
                && users[session.user].password == Some(password)
                && users.Keys == old(users).Keys
                && forall other :: other in users && other != session.user ==> users[other] == old(users)[other]
      ensures answer != Done ==> users == old(users)
    {
      if now / 1000 >= session.Iat() + SESSION_SECONDS { return Refused; }
      if session.user !in users { return Refused; }
      var u := users[session.user];
      if u.changedAt.Some? && session.Iat() != 0 && session.Iat() * 1000 < u.changedAt.value { return Refused; }
      if u.password.None? { return Refused; }
      if u.password.value != current { return Refused; }
      users := users[session.user := u.(password := Some(password), changedAt := Some(now))];
      marks := marks[session.user := |sessions|];
      return Done;
    }

    /** The presented token is genuine: it is the `i`-th that was signed. */
    method RefreshToken(session: Session, ghost i: nat, now: nat) returns (answer: Outcome)
      requires i < |sessions| && sessions[i] == session
      modifies this
      ensures View() == Next(old(View()), Refresh(i), now)
      ensures answer == Answer(old(View()), Refresh(i), now)
    {
      if now / 1000 >= session.Iat() + SESSION_SECONDS { return Refused; }
      if session.user !in users { return Refused; }
      var u := users[session.user];
      if u.changedAt.Some? && session.Iat() != 0 {
        if session.Iat() * 1000 < u.changedAt.value { return Refused; }
      }
      Sign(session.user, now, Some(i));
      return Done;
    }
  }
}
