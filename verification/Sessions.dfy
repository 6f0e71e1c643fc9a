/** The browser sessions of satsa/tenancy.py: creation, resolution, revocation and activity. */
module Sessions {
  import opened Counting

  type Id = string

  /** The stored digest of a token is taken as free of collisions, so it is modelled by the token itself. */
  datatype Session = Session(user: Id, token: string, createdAt: real, expiresAt: real, lastActivityAt: real,
                             revokedAt: Option<real>)

  type Table = map<Id, Session>

  /** `active` holds the users that are active themselves and through their identity. */
  predicate Live(s: Session, active: set<Id>, at: real) {
    s.expiresAt > at && s.revokedAt.None? && s.user in active
  }

  datatype Answer =
    | Refused | Duplicate | Token(token: string) | No | Yes | NoSession | Resolved(id: Id, session: Session)

  datatype Request =
    | Create(newId: Id, newToken: string, user: Id, ttl: real)
    | Resolve(token: string)
    | Revoke(token: string)
    | Touch(token: string)

  ghost predicate TokensUnique(t: Table) {
    forall a, b :: a in t && b in t && a != b ==> t[a].token != t[b].token
  }

  /** The row `resolve` selects: the unique token makes it the only one. */
  function Lookup(t: Table, token: string, active: set<Id>, at: real): Option<Id>
    requires TokensUnique(t)
    ensures Lookup(t, token, active, at).Some? <==>
              token != "" && exists id :: id in t && t[id].token == token && Live(t[id], active, at)
    ensures Lookup(t, token, active, at).Some? ==>
              var id := Lookup(t, token, active, at).value; id in t && t[id].token == token && Live(t[id], active, at)
  {
    if token != "" && exists id :: id in t && t[id].token == token && Live(t[id], active, at) then
      var id :| id in t && t[id].token == token && Live(t[id], active, at);
      Some(id)
    else None
  }

  /** One request at one moment; `known` are the users a session may belong to. */
  function Step(t: Table, q: Request, known: set<Id>, active: set<Id>, at: real): (Table, Answer)
    requires TokensUnique(t)
  {
    match q
    case Create(id, token, user, ttl) =>
      if ttl <= 0.0 then (t, Refused)
      else if id in t || exists k :: k in t && t[k].token == token then (t, Duplicate)
      else if user !in known then (t, Refused)
      else (t[id := Session(user, token, at, at + ttl, at, None)], Token(token))
    case Resolve(token) =>
      (match Lookup(t, token, active, at)
       case None => (t, NoSession)
       case Some(id) => (t, Resolved(id, t[id])))
    case Revoke(token) =>
      (match Lookup(t, token, active, at)
       case None => (t, No)
       case Some(id) => (t[id := t[id].(revokedAt := Some(at))], Yes))
    case Touch(token) =>
      (match Lookup(t, token, active, at)
       case None => (t, No)
       case Some(id) => (t[id := t[id].(lastActivityAt := at)], Yes))
  }

  class SessionRepository {
    var sessions: Table

    constructor ()
      ensures sessions == map[]
    {
      sessions := map[];
    }

    method Create(newId: Id, newToken: string, user: Id, ttl: real, known: set<Id>, active: set<Id>, at: real)
      returns (r: Answer)
      requires TokensUnique(sessions)
      modifies this
      ensures (sessions, r) == Step(old(sessions), Request.Create(newId, newToken, user, ttl), known, active, at)
    {
      if ttl <= 0.0 {
        return Refused;
      }
      if newId in sessions || exists k :: k in sessions && sessions[k].token == newToken {
        return Duplicate;
      }
      if user !in known {
        return Refused;
      }
      sessions := sessions[newId := Session(user, newToken, at, at + ttl, at, None)];
      return Token(newToken);
    }

    method Resolve(token: string, known: set<Id>, active: set<Id>, at: real) returns (r: Answer)
      requires TokensUnique(sessions)
      ensures (sessions, r) == Step(sessions, Request.Resolve(token), known, active, at)
    {
      var found := Lookup(sessions, token, active, at);
      return if found.None? then NoSession else Resolved(found.value, sessions[found.value]);
    }

    method Revoke(token: string, known: set<Id>, active: set<Id>, at: real) returns (r: Answer)
      requires TokensUnique(sessions)
      modifies this
      ensures (sessions, r) == Step(old(sessions), Request.Revoke(token), known, active, at)
    {
      var session := Resolve(token, known, active, at);
      if session == NoSession {
        return No;
      }
      if session.Resolved? && sessions[session.id].revokedAt.None? {
        sessions := sessions[session.id := sessions[session.id].(revokedAt := Some(at))];
      }
      return Yes;
    }

    method Touch(token: string, known: set<Id>, active: set<Id>, at: real) returns (r: Answer)
      requires TokensUnique(sessions)
      modifies this
      ensures (sessions, r) == Step(old(sessions), Request.Touch(token), known, active, at)
    {
      var session := Resolve(token, known, active, at);
      if session == NoSession {
        return No;
      }
      if session.Resolved? && Live(sessions[session.id], active, at) {
        sessions := sessions[session.id := sessions[session.id].(lastActivityAt := at)];
      }
      return Yes;
    }
  }

  // ---- Runs ----

  datatype Event = Event(request: Request, known: set<Id>, active: set<Id>, at: real)

  lemma {:induction false} StepKeepsTokensUnique(t: Table, e: Event)
    requires TokensUnique(t)
    ensures TokensUnique(Step(t, e.request, e.known, e.active, e.at).0)
  {
  }

  function Next(t: Table, e: Event): (u: Table)
    requires TokensUnique(t)
    ensures TokensUnique(u)
  {
    StepKeepsTokensUnique(t, e);
    Step(t, e.request, e.known, e.active, e.at).0
  }

  function After(t: Table, es: seq<Event>): (u: Table)
    requires TokensUnique(t)
    ensures TokensUnique(u)
    decreases es
  {
    if es == [] then t else After(Next(t, es[0]), es[1..])
  }

  /** A request that would end the session if it is still open. */
  predicate Ends(s: Session, e: Event) {
    e.request == Revoke(s.token) && s.token != "" && e.at < s.expiresAt && s.user in e.active
  }

  /** A session keeps its user, token and expiry, whatever is touched. */
  ghost predicate SameSession(s: Session, u: Session) {
    u.user == s.user && u.token == s.token && u.createdAt == s.createdAt && u.expiresAt == s.expiresAt
  }

  lemma {:induction false} StepOnSession(t: Table, e: Event, id: Id)
    requires TokensUnique(t) && id in t
    ensures id in Next(t, e) && SameSession(t[id], Next(t, e)[id])
    ensures Next(t, e)[id].revokedAt.None? <==> t[id].revokedAt.None? && !Ends(t[id], e)
  {
    if e.request.Revoke? || e.request.Touch? {
      var found := Lookup(t, e.request.token, e.active, e.at);
      if found.Some? && found.value != id {
        assert t[found.value].token != t[id].token;
      }
    }
  }

  /**
   * Over any run, a session persists with its user, token and expiry, and stays unrevoked exactly when no request of
   * the run ended it: touching never prolongs it, and a revoked session never comes back.
   */
  lemma {:induction false} SessionLifetime(t: Table, es: seq<Event>, id: Id)
    requires TokensUnique(t) && id in t
    ensures id in After(t, es) && SameSession(t[id], After(t, es)[id])
    ensures After(t, es)[id].revokedAt.None? <==>
              t[id].revokedAt.None? && forall k :: 0 <= k < |es| ==> !Ends(t[id], es[k])
    decreases es
  {
    if es != [] {
      var t' := Next(t, es[0]);
      StepOnSession(t, es[0], id);
      SessionLifetime(t', es[1..], id);
      assert forall e :: Ends(t'[id], e) == Ends(t[id], e);
      assert forall k :: 0 < k < |es| ==> es[k] == es[1..][k - 1];
    }
  }

  /**
   * After a token is issued and any further requests, it resolves to its session exactly while it has not expired,
   * its user is active, and no request has ended it.
   */
  lemma {:induction false} TokenResolves(t: Table, created: Event, es: seq<Event>, active: set<Id>, at: real)
    requires TokensUnique(t) && created.request.Create? && created.request.newToken != ""
    requires Step(t, created.request, created.known, created.active, created.at).1 == Token(created.request.newToken)
    ensures var q := created.request;
            var expires := created.at + q.ttl;
            Lookup(After(Next(t, created), es), q.newToken, active, at) ==
              if at < expires && q.user in active
                 && forall k :: 0 <= k < |es| ==> !Ends(Next(t, created)[q.newId], es[k])
              then Some(q.newId) else None
  {
    var q, u := created.request, Next(t, created);
    SessionLifetime(u, es, q.newId);
    var v := After(u, es);
    assert forall id :: id in v && v[id].token == q.newToken ==> id == q.newId;
  }

  /** The session row that a token opens: issued under it, neither expired nor revoked, and of an active user. */
  predicate Opens(t: Table, id: Id, token: string, active: set<Id>, at: real) {
    && id in t && token != "" && t[id].token == token && t[id].user in active
    && at < t[id].expiresAt && t[id].revokedAt == None
  }

  /** What each request answers and changes, told from the table alone. */
  lemma {:induction false} ResolveExactly(t: Table, token: string, known: set<Id>, active: set<Id>, at: real, id: Id)
    requires TokensUnique(t)
    ensures Step(t, Resolve(token), known, active, at).0 == t
    ensures Opens(t, id, token, active, at) ==>
              Step(t, Resolve(token), known, active, at).1 == Resolved(id, t[id])
    ensures (forall k :: !Opens(t, k, token, active, at)) ==>
              Step(t, Resolve(token), known, active, at).1 == NoSession
  {
    LookupExactly(t, token, active, at, id);
  }

  lemma {:induction false} LookupExactly(t: Table, token: string, active: set<Id>, at: real, id: Id)
    requires TokensUnique(t)
    ensures Opens(t, id, token, active, at) ==> Lookup(t, token, active, at) == Some(id)
    ensures (forall k :: !Opens(t, k, token, active, at)) ==> Lookup(t, token, active, at) == None
  {
    if Lookup(t, token, active, at).Some? {
      assert Opens(t, Lookup(t, token, active, at).value, token, active, at);
    }
    if Opens(t, id, token, active, at) {
      assert t[id].token == token && Live(t[id], active, at);
    }
  }

  /** Revoking and touching change the one row that the token opens, and only its moment of revocation or activity. */
  lemma {:induction false} EndAndTouchExactly(t: Table, token: string, known: set<Id>, active: set<Id>, at: real,
                                              id: Id)
    requires TokensUnique(t)
    ensures Opens(t, id, token, active, at) ==>
              Step(t, Revoke(token), known, active, at) == (t[id := t[id].(revokedAt := Some(at))], Yes)
              && Step(t, Touch(token), known, active, at) == (t[id := t[id].(lastActivityAt := at)], Yes)
    ensures (forall k :: !Opens(t, k, token, active, at)) ==>
              Step(t, Revoke(token), known, active, at) == (t, No)
              && Step(t, Touch(token), known, active, at) == (t, No)
  {
    LookupExactly(t, token, active, at, id);
  }

  /** A session is issued exactly for a known user, a positive lifetime, and an id and a token that are new. */
  lemma {:induction false} CreateExactly(t: Table, q: Request, known: set<Id>, active: set<Id>, at: real)
    requires TokensUnique(t) && q.Create?
    ensures Step(t, q, known, active, at).1 == Token(q.newToken) <==>
              q.ttl > 0.0 && q.user in known && q.newId !in t && forall k :: k in t ==> t[k].token != q.newToken
    ensures Step(t, q, known, active, at).1 == Token(q.newToken) && q.newToken != "" && q.user in active ==>
              Opens(Step(t, q, known, active, at).0, q.newId, q.newToken, active, at)
  {
  }

  /** A refused or unsuccessful request changes nothing. */
  lemma {:induction false} FailureChangesNothing(t: Table, e: Event)
    requires TokensUnique(t)
    requires Step(t, e.request, e.known, e.active, e.at).1 in {Refused, Duplicate, No, NoSession}
    ensures Next(t, e) == t
  {
  }
}
