/** Refresh-token families (api/routers/auth.py): rotation with reuse detection, as section 4.14.2 of
    RFC 9700 asks for. A token is known by the number of its row; each request is one transaction. */
module RefreshTokens {
  import opened Common

  datatype Row = Row(user: nat, family: nat, expiresAt: int, usedAt: Option<int>, revokedAt: Option<int>)

  datatype User = User(active: bool, epoch: nat)

  /** `families` is a family id that was never given out. */
  datatype State = State(rows: seq<Row>, users: map<nat, User>, families: nat, now: int)

  /** What an access token claims. */
  datatype Access = Access(user: nat, epoch: nat)

  datatype Reason = Missing | Unknown | Reused | Expired | Inactive | BadCredentials | Disabled | Unauthorised | Conflict

  datatype Response = Issued(token: nat, access: Access) | Refused(reason: Reason) | NoContent

  datatype Request =
    | Register(user: nat)
    | Login(user: nat, correct: bool)
    | Refresh(token: Option<nat>)
    | Logout(token: Option<nat>)
    | LogoutAll(claims: Access)
    | ChangePassword(claims: Access, accepted: bool)
    | SetActive(user: nat, active: bool)
    | Wait(seconds: nat)

  function Revoke(row: Row, now: int): Row {
    if row.revokedAt.None? then row.(revokedAt := Some(now)) else row
  }

  /** Whose tokens are revoked. */
  datatype Scope = Family(family: nat) | Account(user: nat)

  predicate Within(scope: Scope, row: Row) {
    match scope
    case Family(f) => row.family == f
    case Account(u) => row.user == u
  }

  function Revoked(rows: seq<Row>, scope: Scope, now: int): (r: seq<Row>)
    ensures |r| == |rows|
    ensures forall i :: 0 <= i < |rows| ==> r[i] == if Within(scope, rows[i]) then Revoke(rows[i], now) else rows[i]
  {
    seq(|rows|, i requires 0 <= i < |rows| => if Within(scope, rows[i]) then Revoke(rows[i], now) else rows[i])
  }

  /** `_issue_tokens`: one more row, in the given family or in a new one. */
  function Issue(ttl: nat, s: State, user: nat, family: Option<nat>): (State, Response)
    requires user in s.users
  {
    var row := Row(user, if family.Some? then family.value else s.families, s.now + ttl, None, None);
    (s.(rows := s.rows + [row], families := if family.Some? then s.families else s.families + 1),
     Issued(|s.rows|, Access(user, s.users[user].epoch)))
  }

  function HandleRefresh(ttl: nat, s: State, token: Option<nat>): (State, Response) {
    if token.None? then (s, Refused(Missing))
    else if token.value >= |s.rows| then (s, Refused(Unknown))
    else
      var t, row := token.value, s.rows[token.value];
      if row.usedAt.Some? || row.revokedAt.Some? then
        (s.(rows := Revoked(s.rows, Family(row.family), s.now)), Refused(Reused))
      else if row.expiresAt < s.now then (s, Refused(Expired))
      else if row.user !in s.users || !s.users[row.user].active then (s, Refused(Inactive))
      else Issue(ttl, s.(rows := s.rows[t := row.(usedAt := Some(s.now))]), row.user, Some(row.family))
  }

  /** The access token is good: its user is active and its epoch is the current one. */
  predicate Authorised(s: State, claims: Access) {
    claims.user in s.users && s.users[claims.user].active && s.users[claims.user].epoch == claims.epoch
  }

  function SignedOut(s: State, user: nat): State
    requires user in s.users
  {
    s.(rows := Revoked(s.rows, Account(user), s.now), users := s.users[user := s.users[user].(epoch := s.users[user].epoch + 1)])
  }

  function Handle(ttl: nat, s: State, r: Request): (State, Response) {
    match r
    case Register(u) =>
      if u in s.users then (s, Refused(Conflict))
      else Issue(ttl, s.(users := s.users[u := User(true, 0)]), u, None)
    case Login(u, correct) =>
      if u !in s.users || !correct then (s, Refused(BadCredentials))
      else if !s.users[u].active then (s, Refused(Disabled))
      else Issue(ttl, s, u, None)
    case Refresh(token) => HandleRefresh(ttl, s, token)
    case Logout(token) =>
      (if token.Some? && token.value < |s.rows|
       then s.(rows := Revoked(s.rows, Family(s.rows[token.value].family), s.now)) else s,
       NoContent)
    case LogoutAll(claims) =>
      if Authorised(s, claims) then (SignedOut(s, claims.user), NoContent) else (s, Refused(Unauthorised))
    case ChangePassword(claims, accepted) =>
      if !Authorised(s, claims) then (s, Refused(Unauthorised))
      else if !accepted then (s, Refused(BadCredentials))
      else (SignedOut(s, claims.user), NoContent)
    case SetActive(u, active) =>
      (if u in s.users then s.(users := s.users[u := s.users[u].(active := active)]) else s, NoContent)
    case Wait(d) => (s.(now := s.now + d), NoContent)
  }

  // ---- The endpoints ------------------------------------------------------------------

  class Sessions {
    const ttl: nat
    var rows: seq<Row>
    var users: map<nat, User>
    var families: nat
    var now: int

    function Now(): State
      reads this
    {
      State(rows, users, families, now)
    }

    constructor (ttl: nat)
      ensures Now() == EMPTY && this.ttl == ttl
    {
      this.ttl := ttl;
      rows, users, families, now := [], map[], 0, 0;
    }

    method IssueTokens(user: nat, family: Option<nat>) returns (response: Response)
      requires user in users
      modifies this`rows, this`families
      ensures (Now(), response) == Issue(ttl, old(Now()), user, family)
    {
      var id := families;
      if family.Some? {
        id := family.value;
      } else {
        families := families + 1;
      }
      rows := rows + [Row(user, id, now + ttl, None, None)];
      response := Issued(|rows| - 1, Access(user, users[user].epoch));
    }

    /** `_revoke_family`, and the loop over all tokens of a user: the first revocation stays. */
    method RevokeAll(scope: Scope)
      modifies this`rows
      ensures rows == Revoked(old(rows), scope, now)
      ensures |rows| == |old(rows)| && forall i :: 0 <= i < |rows| ==>
                var was, meant := old(rows)[i], if scope.Family? then old(rows)[i].family == scope.family
                                                else old(rows)[i].user == scope.user;
                rows[i] == was.(revokedAt := if meant && was.revokedAt.None? then Some(now) else was.revokedAt)
    {
      for i := 0 to |rows|
        invariant |rows| == |old(rows)|
        invariant rows[..i] == Revoked(old(rows), scope, now)[..i] && rows[i..] == old(rows)[i..]
      {
        assert rows[i] == rows[i..][0];
        if Within(scope, rows[i]) && rows[i].revokedAt.None? {
          rows := rows[i := rows[i].(revokedAt := Some(now))];
        }
      }
    }

    method RefreshToken(token: Option<nat>) returns (response: Response)
      modifies this`rows, this`families
      ensures (Now(), response) == Handle(ttl, old(Now()), Refresh(token))
    {
      if token.None? {
        return Refused(Missing);
      }
      if token.value >= |rows| {
        return Refused(Unknown);
      }
      var stored := rows[token.value];
      if stored.usedAt.Some? || stored.revokedAt.Some? {
        RevokeAll(Family(stored.family));
        return Refused(Reused);
      }
      if stored.expiresAt < now {
        return Refused(Expired);
      }
      if stored.user !in users || !users[stored.user].active {
        return Refused(Inactive);
      }
      rows := rows[token.value := stored.(usedAt := Some(now))];
      response := IssueTokens(stored.user, Some(stored.family));
    }

    method LogOut(token: Option<nat>)
      modifies this`rows
      ensures Now() == Handle(ttl, old(Now()), Logout(token)).0
    {
      if token.Some? && token.value < |rows| {
        RevokeAll(Family(rows[token.value].family));
      }
    }

    method LogoutEverywhere(claims: Access) returns (response: Response)
      modifies this`rows, this`users
      ensures (Now(), response) == Handle(ttl, old(Now()), LogoutAll(claims))
    {
      if !Authorised(Now(), claims) {
        return Refused(Unauthorised);
      }
      users := users[claims.user := users[claims.user].(epoch := users[claims.user].epoch + 1)];
      RevokeAll(Account(claims.user));
      return NoContent;
    }

    /** `accepted`: the current password is right and the new one meets the policy. */
    method ChangeThePassword(claims: Access, accepted: bool) returns (response: Response)
      modifies this`rows, this`users
      ensures (Now(), response) == Handle(ttl, old(Now()), ChangePassword(claims, accepted))
    {
      if !Authorised(Now(), claims) {
        return Refused(Unauthorised);
      }
      if !accepted {
        return Refused(BadCredentials);
      }
      users := users[claims.user := users[claims.user].(epoch := users[claims.user].epoch + 1)];
      RevokeAll(Account(claims.user));
      return NoContent;
    }
  }

  const EMPTY := State([], map[], 0, 0)

  function After(ttl: nat, requests: seq<Request>): State {
    if requests == [] then EMPTY
    else Handle(ttl, After(ttl, requests[..|requests| - 1]), requests[|requests| - 1]).0
  }

  // ---- What every run keeps -----------------------------------------------------------

  /** A newer token of the family exists. */
  ghost predicate Superseded(rows: seq<Row>, i: nat)
    requires i < |rows|
  {
    exists j :: i < j < |rows| && rows[j].family == rows[i].family
  }

  ghost predicate SameFate(rows: seq<Row>) {
    forall i, j :: 0 <= i < |rows| && 0 <= j < |rows| && rows[i].family == rows[j].family ==>
                     rows[i].user == rows[j].user && rows[i].revokedAt.Some? == rows[j].revokedAt.Some?
  }

  ghost predicate Rotating(rows: seq<Row>) {
    forall i :: 0 <= i < |rows| ==> (rows[i].usedAt.Some? <==> Superseded(rows, i))
  }

  /** A family belongs to one user and is revoked entirely or not at all; a token was used exactly
      when there is a newer one in its family. */
  ghost predicate Safe(s: State) {
    && SameFate(s.rows) && Rotating(s.rows)
    && forall i :: 0 <= i < |s.rows| ==> s.rows[i].family < s.families && s.rows[i].user in s.users
  }

  lemma SameUsesRotate(rows: seq<Row>, after: seq<Row>)
    requires Rotating(rows) && |after| == |rows|
    requires forall i :: 0 <= i < |rows| ==> after[i].family == rows[i].family && after[i].usedAt == rows[i].usedAt
    ensures Rotating(after)
  {
    forall i | 0 <= i < |after|
      ensures after[i].usedAt.Some? <==> Superseded(after, i)
    {
      assert Superseded(rows, i) <==> Superseded(after, i);
    }
  }

  lemma SupersededByTheNext(rows: seq<Row>, after: seq<Row>, i: nat)
    requires i < |rows| && |after| == |rows| + 1
    requires forall k :: 0 <= k < |rows| ==> after[k].family == rows[k].family
    ensures Superseded(after, i) <==> Superseded(rows, i) || after[|rows|].family == rows[i].family
  {
    if Superseded(rows, i) {
      var j :| i < j < |rows| && rows[j].family == rows[i].family;
      assert after[j].family == after[i].family;
    }
  }

  lemma IssueIsSafe(ttl: nat, s: State, user: nat)
    requires Safe(s) && user in s.users
    ensures Safe(Issue(ttl, s, user, None).0)
  {
    var rows := Issue(ttl, s, user, None).0.rows;
    forall i | 0 <= i < |rows|
      ensures rows[i].usedAt.Some? <==> Superseded(rows, i)
    {
      if i < |s.rows| {
        SupersededByTheNext(s.rows, rows, i);
      }
    }
  }

  /** The token that is exchanged is the newest of its family, so its successor is the only other
      token that was not used. */
  lemma RotationIsSafe(ttl: nat, s: State, t: nat)
    requires Safe(s) && t < |s.rows| && s.rows[t].usedAt.None? && s.rows[t].revokedAt.None?
    ensures var used := s.(rows := s.rows[t := s.rows[t].(usedAt := Some(s.now))]);
            Safe(Issue(ttl, used, s.rows[t].user, Some(s.rows[t].family)).0)
  {
    var used := s.(rows := s.rows[t := s.rows[t].(usedAt := Some(s.now))]);
    var n, family, rows := |s.rows|, s.rows[t].family, Issue(ttl, used, s.rows[t].user, Some(s.rows[t].family)).0.rows;
    forall i | 0 <= i < |rows|
      ensures rows[i].usedAt.Some? <==> Superseded(rows, i)
    {
      if i < n {
        SupersededByTheNext(s.rows, rows, i);
        if rows[i].family == family {
          OnlyTheNewest(s.rows, t, i);
        }
      }
    }
  }

  /** All tokens of a family but the live one have been used. */
  lemma OnlyTheNewest(rows: seq<Row>, t: nat, i: nat)
    requires Rotating(rows) && t < |rows| && i < |rows| && rows[i].family == rows[t].family && rows[t].usedAt.None?
    ensures i != t ==> i < t && rows[i].usedAt.Some?
  {
    assert !Superseded(rows, t);
    if i < t {
      assert Superseded(rows, i);
    }
  }

  /** Families belong to one user each, so either way whole families are revoked. */
  lemma RevokedIsSafe(s: State, scope: Scope)
    requires Safe(s)
    ensures Safe(s.(rows := Revoked(s.rows, scope, s.now)))
  {
    SameUsesRotate(s.rows, Revoked(s.rows, scope, s.now));
  }

  lemma RequestIsSafe(ttl: nat, s: State, r: Request)
    requires Safe(s)
    ensures Safe(Handle(ttl, s, r).0)
  {
    match r
    case Register(u) =>
      if u !in s.users {
        IssueIsSafe(ttl, s.(users := s.users[u := User(true, 0)]), u);
      }
    case Login(u, correct) =>
      if u in s.users {
        IssueIsSafe(ttl, s, u);
      }
    case Refresh(token) =>
      if token.Some? && token.value < |s.rows| {
        var row := s.rows[token.value];
        if row.usedAt.Some? || row.revokedAt.Some? {
          RevokedIsSafe(s, Family(row.family));
        } else {
          RotationIsSafe(ttl, s, token.value);
        }
      }
    case Logout(token) =>
      if token.Some? && token.value < |s.rows| {
        RevokedIsSafe(s, Family(s.rows[token.value].family));
      }
    case LogoutAll(claims) =>
      if Authorised(s, claims) {
        RevokedIsSafe(s, Account(claims.user));
      }
    case ChangePassword(claims, accepted) =>
      if Authorised(s, claims) {
        RevokedIsSafe(s, Account(claims.user));
      }
    case SetActive(u, active) =>
    case Wait(d) =>
  }

  lemma {:induction false} EveryRunIsSafe(ttl: nat, requests: seq<Request>)
    ensures Safe(After(ttl, requests))
  {
    if requests != [] {
      var before := requests[..|requests| - 1];
      EveryRunIsSafe(ttl, before);
      RequestIsSafe(ttl, After(ttl, before), requests[|requests| - 1]);
    }
  }

  // ---- Over whole runs ----------------------------------------------------------------

  lemma RunStep(ttl: nat, requests: seq<Request>, r: Request)
    ensures After(ttl, requests + [r]) == Handle(ttl, After(ttl, requests), r).0
  {
    assert (requests + [r])[..|requests|] == requests;
  }

  // ---- Who gets a session -------------------------------------------------------------

  /** A first session has a family of its own, an exchanged one that of the token given for it. */
  ghost predicate Founds(s: State, row: Row) {
    forall i :: 0 <= i < |s.rows| ==> s.rows[i].family != row.family
  }

  /** A session is one more row, fresh, of the user the access token names, good for `ttl` seconds.
      It takes a new user, the right password of an active one, or a token to exchange. */
  lemma SessionsAreEarned(ttl: nat, s: State, r: Request)
    requires Safe(s) && Handle(ttl, s, r).1.Issued?
    ensures var (after, session) := Handle(ttl, s, r);
            && |after.rows| == |s.rows| + 1 && session.token == |s.rows|
            && session.access.user in after.users
            && session.access.epoch == after.users[session.access.user].epoch
            && var row := after.rows[session.token];
            && row.user == session.access.user && row.usedAt.None? && row.revokedAt.None? && row.expiresAt == s.now + ttl
            && match r
               case Register(u) => u == row.user && u !in s.users && Founds(s, row)
               case Login(u, correct) => u == row.user && u in s.users && s.users[u].active && correct && Founds(s, row)
               case Refresh(token) =>
                 token.Some? && token.value < |s.rows| &&
                 row.user == s.rows[token.value].user && row.family == s.rows[token.value].family
               case _ => false
  {}

  /** The other way round: a new user and the right password get one. */
  lemma TheRightOnesGetIn(ttl: nat, s: State, u: nat)
    ensures u !in s.users ==> Handle(ttl, s, Register(u)).1.Issued?
    ensures u in s.users && s.users[u].active ==> Handle(ttl, s, Login(u, true)).1.Issued?
  {}

  /** A request that is refused changes nothing, unless it is for reuse; signing out is refused to
      nobody but strangers, and a new password takes the old one. */
  lemma RefusalsChangeNothing(ttl: nat, s: State, r: Request)
    ensures var (after, answer) := Handle(ttl, s, r);
            && (answer.Refused? && answer.reason != Reused ==> after == s)
            && (r.LogoutAll? ==> (answer == NoContent <==> Authorised(s, r.claims)))
            && (r.ChangePassword? ==> (answer == NoContent <==> Authorised(s, r.claims) && r.accepted))
  {}

  /** Revoking stays within its scope: one family for a logout or reuse, one user for signing out. */
  lemma RevocationIsLocal(ttl: nat, s: State, r: Request, i: nat, u: nat)
    requires i < |s.rows| && u in s.users
    ensures var after := Handle(ttl, s, r).0;
            && (r.Logout? && (r.token.None? || r.token.value >= |s.rows| || s.rows[i].family != s.rows[r.token.value].family) ==>
                  after.rows[i] == s.rows[i])
            && (r.Refresh? && Handle(ttl, s, r).1.Refused? && r.token.Some? && r.token.value < |s.rows| ==>
                  s.rows[i].family == s.rows[r.token.value].family || after.rows[i] == s.rows[i])
            && ((r.LogoutAll? || r.ChangePassword?) && s.rows[i].user != r.claims.user ==> after.rows[i] == s.rows[i])
            && u in after.users && (after.users[u].epoch == s.users[u].epoch || SignsOut(ttl, s, r, u))
  {}

  /** The user signs out everywhere, or changes the password. */
  predicate SignsOut(ttl: nat, s: State, r: Request, u: nat) {
    (r.LogoutAll? || r.ChangePassword?) && r.claims.user == u && Handle(ttl, s, r).1 == NoContent
  }

  /** Only an administrator changes whether a user is active. */
  lemma ActiveAsSet(ttl: nat, s: State, r: Request, u: nat)
    ensures var after := Handle(ttl, s, r).0;
            u in after.users ==>
              if r.SetActive? && r.user == u then after.users[u].active == r.active
              else if u in s.users then after.users[u].active == s.users[u].active
              else r == Register(u) && after.users[u].active
  {}

  // ---- When a token was issued --------------------------------------------------------

  /** The seconds that have passed. */
  function Clock(requests: seq<Request>): nat {
    if requests == [] then 0
    else Clock(requests[..|requests| - 1]) + if requests[|requests| - 1].Wait? then requests[|requests| - 1].seconds else 0
  }

  lemma {:induction false} ClockRuns(ttl: nat, requests: seq<Request>)
    ensures After(ttl, requests).now == Clock(requests)
  {
    if requests != [] {
      ClockRuns(ttl, requests[..|requests| - 1]);
    }
  }

  /** What the k-th request was answered. */
  function Answer(ttl: nat, requests: seq<Request>, k: nat): Response
    requires k < |requests|
  {
    Handle(ttl, After(ttl, requests[..k]), requests[k]).1
  }

  ghost predicate IssuedBy(ttl: nat, requests: seq<Request>, k: nat, t: nat) {
    k < |requests| && Answer(ttl, requests, k).Issued? && Answer(ttl, requests, k).token == t
  }

  /** Every token was issued by a request. */
  lemma {:induction false} EveryTokenWasIssued(ttl: nat, requests: seq<Request>, t: nat) returns (k: nat)
    requires t < |After(ttl, requests).rows|
    ensures IssuedBy(ttl, requests, k, t)
  {
    var n := |requests| - 1;
    var before := requests[..n];
    EveryRunIsSafe(ttl, before);
    if t < |After(ttl, before).rows| {
      k := EveryTokenWasIssued(ttl, before, t);
      assert before[..k] == requests[..k];
    } else {
      k := n;
      OneRowAtMost(ttl, After(ttl, before), requests[n]);
    }
  }

  lemma OneRowAtMost(ttl: nat, s: State, r: Request)
    requires Safe(s)
    ensures var (after, answer) := Handle(ttl, s, r);
            if answer.Issued? then |after.rows| == |s.rows| + 1 && answer.token == |s.rows| else |after.rows| == |s.rows|
  {}

  lemma ExpiryOfNew(ttl: nat, s: State, r: Request)
    requires Safe(s) && Handle(ttl, s, r).1.Issued?
    ensures var (after, session) := Handle(ttl, s, r);
            session.token < |after.rows| && after.rows[session.token].expiresAt == s.now + ttl
  {
    SessionsAreEarned(ttl, s, r);
  }

  lemma ExpiresLater(ttl: nat, requests: seq<Request>, k: nat, t: nat)
    requires k <= |requests| && t < |After(ttl, requests[..k]).rows|
    ensures t < |After(ttl, requests).rows|
    ensures After(ttl, requests).rows[t].expiresAt == After(ttl, requests[..k]).rows[t].expiresAt
  {
    RowsStay(ttl, requests[..k], requests[k..], t);
    assert requests[..k] + requests[k..] == requests;
  }

  /** A token expires `ttl` seconds after the request that was answered with it. */
  lemma ExpiresInTime(ttl: nat, requests: seq<Request>, k: nat, t: nat)
    requires IssuedBy(ttl, requests, k, t)
    ensures t < |After(ttl, requests).rows| && After(ttl, requests).rows[t].expiresAt == Clock(requests[..k]) + ttl
  {
    var before := requests[..k];
    EveryRunIsSafe(ttl, before);
    ClockRuns(ttl, before);
    ExpiryOfNew(ttl, After(ttl, before), requests[k]);
    RunStep(ttl, before, requests[k]);
    assert before + [requests[k]] == requests[..k + 1];
    ExpiresLater(ttl, requests, k + 1, t);
  }

  /** The newest token of a family is the only one that can be live; it is accepted exactly when
      nobody revoked the family, it was issued at most `ttl` seconds ago and its user is active. */
  lemma AcceptedIffNewest(ttl: nat, requests: seq<Request>, k: nat, t: nat)
    requires IssuedBy(ttl, requests, k, t)
    ensures var s := After(ttl, requests);
            && t < |s.rows|
            && var row := s.rows[t];
            Handle(ttl, s, Refresh(Some(t))).1.Issued? <==>
              && (forall j :: t < j < |s.rows| ==> s.rows[j].family != row.family)
              && (forall i :: 0 <= i < |s.rows| && s.rows[i].family == row.family ==> s.rows[i].revokedAt.None?)
              && Clock(requests) <= Clock(requests[..k]) + ttl && row.user in s.users && s.users[row.user].active
  {
    EveryRunIsSafe(ttl, requests);
    ClockRuns(ttl, requests);
    ExpiresInTime(ttl, requests, k, t);
    assert Superseded(After(ttl, requests).rows, t) <==> After(ttl, requests).rows[t].usedAt.Some?;
  }

  /** Why a token is not accepted. */
  lemma RefusedBecause(ttl: nat, requests: seq<Request>, k: nat, t: nat)
    requires IssuedBy(ttl, requests, k, t)
    ensures var s := After(ttl, requests);
            && t < |s.rows|
            && var row, answer := s.rows[t], Handle(ttl, s, Refresh(Some(t))).1;
            && (answer == Refused(Reused) <==> row.revokedAt.Some? || Superseded(s.rows, t))
            && (answer == Refused(Expired) ==> Clock(requests) > Clock(requests[..k]) + ttl)
            && (answer == Refused(Inactive) ==> row.user in s.users && !s.users[row.user].active)
            && (answer.Refused? ==> answer.reason in {Reused, Expired, Inactive})
    ensures Handle(ttl, After(ttl, requests), Refresh(None)).1 == Refused(Missing)
    ensures forall u: nat :: u >= |After(ttl, requests).rows| ==> Handle(ttl, After(ttl, requests), Refresh(Some(u))).1 == Refused(Unknown)
  {
    EveryRunIsSafe(ttl, requests);
    ClockRuns(ttl, requests);
    ExpiresInTime(ttl, requests, k, t);
    assert Superseded(After(ttl, requests).rows, t) <==> After(ttl, requests).rows[t].usedAt.Some?;
  }

  /** The family is revoked: the state before a run that goes on. */
  ghost predicate Dead(s: State, family: nat) {
    family < s.families && forall i :: 0 <= i < |s.rows| && s.rows[i].family == family ==> s.rows[i].revokedAt.Some?
  }

  lemma DeadStaysDead(ttl: nat, s: State, family: nat, r: Request)
    requires Safe(s) && Dead(s, family)
    ensures Dead(Handle(ttl, s, r).0, family)
    ensures |s.rows| <= |Handle(ttl, s, r).0.rows|
    ensures forall i :: 0 <= i < |s.rows| ==> Handle(ttl, s, r).0.rows[i].family == s.rows[i].family
  {}

  lemma {:induction false} DeadForGood(ttl: nat, requests: seq<Request>, later: seq<Request>, family: nat)
    requires Dead(After(ttl, requests), family)
    ensures Dead(After(ttl, requests + later), family)
  {
    if later == [] {
      assert requests + later == requests;
    } else {
      var n := |later| - 1;
      DeadForGood(ttl, requests, later[..n], family);
      assert requests + later == (requests + later[..n]) + [later[n]];
      RunStep(ttl, requests + later[..n], later[n]);
      EveryRunIsSafe(ttl, requests + later[..n]);
      DeadStaysDead(ttl, After(ttl, requests + later[..n]), family, later[n]);
    }
  }

  /** Once a spent or revoked token was presented, no token of its family is ever accepted again,
      however the run goes on: not those that exist, and there will be no new ones. */
  lemma ReuseEndsTheFamily(ttl: nat, requests: seq<Request>, t: nat, later: seq<Request>, u: nat)
    requires Handle(ttl, After(ttl, requests), Refresh(Some(t))).1 == Refused(Reused)
    requires var end := After(ttl, requests + [Refresh(Some(t))] + later);
             u < |end.rows| && end.rows[u].family == After(ttl, requests).rows[t].family
    ensures Handle(ttl, After(ttl, requests + [Refresh(Some(t))] + later), Refresh(Some(u))).1 == Refused(Reused)
  {
    EveryRunIsSafe(ttl, requests);
    RunStep(ttl, requests, Refresh(Some(t)));
    var family := After(ttl, requests).rows[t].family;
    assert Dead(After(ttl, requests + [Refresh(Some(t))]), family);
    DeadForGood(ttl, requests + [Refresh(Some(t))], later, family);
  }

  lemma UsesStay(ttl: nat, s: State, r: Request, i: nat)
    requires i < |s.rows|
    ensures var rows := Handle(ttl, s, r).0.rows;
            && i < |rows| && rows[i].user == s.rows[i].user && rows[i].family == s.rows[i].family
            && rows[i].expiresAt == s.rows[i].expiresAt
            && (s.rows[i].usedAt.Some? ==> rows[i].usedAt == s.rows[i].usedAt)
            && (s.rows[i].revokedAt.Some? ==> rows[i].revokedAt == s.rows[i].revokedAt)
  {}

  lemma {:induction false} RowsStay(ttl: nat, requests: seq<Request>, later: seq<Request>, i: nat)
    requires i < |After(ttl, requests).rows|
    ensures var earlier, rows := After(ttl, requests).rows, After(ttl, requests + later).rows;
            && i < |rows| && rows[i].user == earlier[i].user && rows[i].family == earlier[i].family
            && rows[i].expiresAt == earlier[i].expiresAt
            && (earlier[i].usedAt.Some? ==> rows[i].usedAt == earlier[i].usedAt)
            && (earlier[i].revokedAt.Some? ==> rows[i].revokedAt == earlier[i].revokedAt)
  {
    if later == [] {
      assert requests + later == requests;
    } else {
      var n := |later| - 1;
      RowsStay(ttl, requests, later[..n], i);
      assert requests + later == (requests + later[..n]) + [later[n]];
      RunStep(ttl, requests + later[..n], later[n]);
      UsesStay(ttl, After(ttl, requests + later[..n]), later[n], i);
    }
  }

  /** A token is exchanged at most once: the next time it is presented counts as reuse. */
  lemma ExchangedOnce(ttl: nat, requests: seq<Request>, t: nat, later: seq<Request>)
    requires Handle(ttl, After(ttl, requests), Refresh(Some(t))).1.Issued?
    ensures Handle(ttl, After(ttl, requests + [Refresh(Some(t))] + later), Refresh(Some(t))).1 == Refused(Reused)
  {
    RunStep(ttl, requests, Refresh(Some(t)));
    RowsStay(ttl, requests + [Refresh(Some(t))], later, t);
  }

  /** Logging out ends the session for good: no token of its family is ever accepted again. */
  lemma LoggedOutForGood(ttl: nat, requests: seq<Request>, t: nat, later: seq<Request>, u: nat)
    requires t < |After(ttl, requests).rows|
    requires var end := After(ttl, requests + [Logout(Some(t))] + later);
             u < |end.rows| && end.rows[u].family == After(ttl, requests).rows[t].family
    ensures Handle(ttl, After(ttl, requests + [Logout(Some(t))] + later), Refresh(Some(u))).1 == Refused(Reused)
  {
    EveryRunIsSafe(ttl, requests);
    RunStep(ttl, requests, Logout(Some(t)));
    var family := After(ttl, requests).rows[t].family;
    assert Dead(After(ttl, requests + [Logout(Some(t))]), family);
    DeadForGood(ttl, requests + [Logout(Some(t))], later, family);
  }

  /** The user signed out with request `j`. */
  predicate SignedOutAt(ttl: nat, requests: seq<Request>, j: nat, u: nat)
    requires j < |requests|
  {
    SignsOut(ttl, After(ttl, requests[..j]), requests[j], u)
  }

  lemma SignedOutBefore(ttl: nat, requests: seq<Request>, n: nat, u: nat)
    requires n < |requests|
    ensures forall j :: 0 <= j < n ==> SignedOutAt(ttl, requests[..n], j, u) == SignedOutAt(ttl, requests, j, u)
  {
    forall j | 0 <= j < n
      ensures SignedOutAt(ttl, requests[..n], j, u) == SignedOutAt(ttl, requests, j, u)
    {
      assert requests[..n][..j] == requests[..j];
    }
  }

  /** How often the user signed out from request `k` on. */
  function SignOuts(ttl: nat, requests: seq<Request>, k: nat, u: nat): nat {
    if |requests| <= k then 0
    else
      var n := |requests| - 1;
      SignOuts(ttl, requests[..n], k, u) + if SignedOutAt(ttl, requests, n, u) then 1 else 0
  }

  lemma {:induction false} NoneIff(ttl: nat, requests: seq<Request>, k: nat, u: nat)
    ensures SignOuts(ttl, requests, k, u) == 0 <==> forall j :: k <= j < |requests| ==> !SignedOutAt(ttl, requests, j, u)
  {
    if k < |requests| {
      var n := |requests| - 1;
      NoneIff(ttl, requests[..n], k, u);
      SignedOutBefore(ttl, requests, n, u);
    }
  }

  function EpochOf(s: State, u: nat): int {
    if u in s.users then s.users[u].epoch else -1
  }

  lemma {:induction false} EpochCounts(ttl: nat, requests: seq<Request>, k: nat, u: nat)
    requires k <= |requests| && EpochOf(After(ttl, requests[..k]), u) >= 0
    ensures EpochOf(After(ttl, requests), u) == EpochOf(After(ttl, requests[..k]), u) + SignOuts(ttl, requests, k, u)
  {
    if k == |requests| {
      assert requests[..k] == requests;
    } else {
      var n := |requests| - 1;
      assert requests[..n][..k] == requests[..k];
      EpochCounts(ttl, requests[..n], k, u);
      EpochStep(ttl, After(ttl, requests[..n]), requests[n], u);
    }
  }

  lemma EpochStep(ttl: nat, s: State, r: Request, u: nat)
    requires EpochOf(s, u) >= 0
    ensures EpochOf(Handle(ttl, s, r).0, u) == EpochOf(s, u) + if SignsOut(ttl, s, r, u) then 1 else 0
  {}

  /** An access token, until it expires, is good exactly as long as its user is active and has not
      signed out everywhere or changed the password since. */
  lemma AccessIsGoodIff(ttl: nat, requests: seq<Request>, k: nat)
    requires k < |requests| && Answer(ttl, requests, k).Issued?
    ensures var access, users := Answer(ttl, requests, k).access, After(ttl, requests).users;
            && access.user in users
            && (Authorised(After(ttl, requests), access) <==>
                  && users[access.user].active
                  && forall j :: k < j < |requests| ==> !SignedOutAt(ttl, requests, j, access.user))
  {
    EveryRunIsSafe(ttl, requests[..k]);
    SessionsAreEarned(ttl, After(ttl, requests[..k]), requests[k]);
    assert requests[..k + 1] == requests[..k] + [requests[k]];
    RunStep(ttl, requests[..k], requests[k]);
    EpochCounts(ttl, requests, k + 1, Answer(ttl, requests, k).access.user);
    NoneIff(ttl, requests, k + 1, Answer(ttl, requests, k).access.user);
  }

  lemma EpochRises(ttl: nat, s: State, r: Request, user: nat)
    requires user in s.users
    ensures var users := Handle(ttl, s, r).0.users; user in users && s.users[user].epoch <= users[user].epoch
  {}

  lemma {:induction false} EpochsRise(ttl: nat, requests: seq<Request>, later: seq<Request>, user: nat)
    requires user in After(ttl, requests).users
    ensures user in After(ttl, requests + later).users
    ensures After(ttl, requests).users[user].epoch <= After(ttl, requests + later).users[user].epoch
  {
    if later == [] {
      assert requests + later == requests;
    } else {
      var n := |later| - 1;
      EpochsRise(ttl, requests, later[..n], user);
      assert requests + later == (requests + later[..n]) + [later[n]];
      RunStep(ttl, requests + later[..n], later[n]);
      EpochRises(ttl, After(ttl, requests + later[..n]), later[n], user);
    }
  }

  /** Signing out everywhere, or changing the password, ends every earlier session of the user for
      good: its refresh token is never accepted again and its access token is no longer good. */
  lemma SignedOutForGood(ttl: nat, earlier: seq<Request>, q: Request, between: seq<Request>, r: Request, later: seq<Request>)
    requires Handle(ttl, After(ttl, earlier), q).1.Issued?
    requires r.LogoutAll? || r.ChangePassword?
    requires r.claims.user == Handle(ttl, After(ttl, earlier), q).1.access.user
    requires Handle(ttl, After(ttl, earlier + [q] + between), r).1 == NoContent
    ensures var session, end := Handle(ttl, After(ttl, earlier), q).1, After(ttl, earlier + [q] + between + [r] + later);
            && Handle(ttl, end, Refresh(Some(session.token))).1 == Refused(Reused)
            && !Authorised(end, session.access)
  {
    var session := Handle(ttl, After(ttl, earlier), q).1;
    var before := earlier + [q] + between;
    SessionIsOfItsUser(ttl, After(ttl, earlier), q);
    RunStep(ttl, earlier, q);
    RowsStay(ttl, earlier + [q], between, session.token);
    EpochsRise(ttl, earlier + [q], between, session.access.user);
    RunStep(ttl, before, r);
    SignOutRevokes(ttl, After(ttl, before), r, session.token);
    RowsStay(ttl, before + [r], later, session.token);
    EpochsRise(ttl, before + [r], later, session.access.user);
  }

  lemma SessionIsOfItsUser(ttl: nat, s: State, q: Request)
    requires Handle(ttl, s, q).1.Issued?
    ensures var (after, session) := Handle(ttl, s, q);
            && session.token < |after.rows| && after.rows[session.token].user == session.access.user
            && session.access.user in after.users && after.users[session.access.user].epoch == session.access.epoch
  {}

  lemma SignOutRevokes(ttl: nat, s: State, r: Request, t: nat)
    requires (r.LogoutAll? || r.ChangePassword?) && Handle(ttl, s, r).1 == NoContent
    requires t < |s.rows| && s.rows[t].user == r.claims.user
    ensures var after := Handle(ttl, s, r).0;
            && t < |after.rows| && after.rows[t].revokedAt.Some?
            && r.claims.user in s.users && r.claims.user in after.users
            && after.users[r.claims.user].epoch == s.users[r.claims.user].epoch + 1
  {}
}
