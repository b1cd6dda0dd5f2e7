/** The identity store itself: tables updated in place, one transaction per method, from empty
    tables on. In every state it gets into, its tables are those of a legal run of module
    Sessions, so all that is proved of runs holds of the store. `commits` says whether the
    database lets a transaction through. */
module IdentityStore {
  import opened Text
  import opened Sessions

  // ----- provisioning requests -----

  datatype ScimRequest = ScimRequest(
    id: string,
    externalId: string,
    userName: string,
    displayName: string,
    formattedName: string,
    active: Option<bool>)

  function ExternalIdOf(req: ScimRequest): string {
    FirstNonEmpty(TrimSpace(req.externalId), FirstNonEmpty(TrimSpace(req.id), TrimSpace(req.userName)))
  }

  /** The row a request asks for. */
  function RowOf(req: ScimRequest): ScimUser {
    ScimUser(
      ExternalIdOf(req),
      ToLower(TrimSpace(req.userName)),
      if TrimSpace(req.displayName) != "" then TrimSpace(req.displayName) else req.formattedName,
      req.active.None? || req.active.value)
  }

  /** The user a request is about: the one it names, or else the one with its external id, or
      else a new one. */
  ghost predicate Target(db: Db, tenant: Id, req: ScimRequest, newUser: Id, user: Id) {
    if TrimSpace(req.id) != "" then user == TrimSpace(req.id)
    else if exists u :: HasExternalId(db, tenant, u, ExternalIdOf(req))
    then HasExternalId(db, tenant, user, ExternalIdOf(req))
    else user == newUser
  }

  lemma EmailFree(db: Db, email: string, user: Id)
    ensures EmailTaken(db, email, user) <==> !(email == "" || forall u | u in db.users && u != user :: db.users[u] != email)
    ensures KeptEmail(db.users, user, email) == if email == "" && user in db.users then db.users[user] else email
  {
  }

  /** Another account has the email, or another provisioned user of the tenant the external id
      or the user name. */
  ghost predicate Conflicts(db: Db, tenant: Id, user: Id, row: ScimUser) {
    || (row.userName != "" && exists u :: u in db.users && u != user && db.users[u] == row.userName)
    || exists k :: k in db.scim && k.0 == tenant && k.1 != user
                   && (db.scim[k].externalId == row.externalId || db.scim[k].userName == row.userName)
  }

  /** A provisioning write: the account gets the user name as its email, the membership keeps
      its role, or gets "support", and is active or disabled as the row says. */
  ghost predicate Provisioned(db: Db, tenant: Id, user: Id, row: ScimUser, db': Db) {
    var key := (tenant, user);
    && db' == db.(users := db.users[user := row.userName],
                  members := db.members[key := Member(if key in db.members then db.members[key].role else "support",
                                                      if row.active then MemberActive else MemberDisabled)],
                  scim := db.scim[key := row], reenrolled := db.reenrolled - {key}, sessions := db'.sessions)
    && db'.sessions.Keys == db.sessions.Keys
    && forall h | h in db.sessions ::
         db'.sessions[h] == if !row.active && (db.sessions[h].tenant, db.sessions[h].user) == key then db.sessions[h].(state := Revoked)
                            else db.sessions[h]
  }

  lemma ProvisionedInactive(db: Db, tenant: Id, user: Id, row: ScimUser, db': Db)
    requires Provisioned(db, tenant, user, row, db')
    ensures !row.active ==> Deprovisioned(db', tenant, user) && ShutOut(db', tenant, user)
    ensures !row.active ==> forall h | h in db'.sessions && db'.sessions[h].tenant == tenant && db'.sessions[h].user == user ::
                              db'.sessions[h].state == Revoked
  {
  }

  lemma ConflictsAre(db: Db, tenant: Id, user: Id, row: ScimUser)
    ensures Conflicts(db, tenant, user, row) <==> EmailTaken(db, row.userName, user) || ScimClash(db, tenant, user, row)
  {
  }

  /** The row a provisioning request asks for. */
  ghost predicate AskedFor(req: ScimRequest, row: ScimUser) {
    && row.externalId == (if TrimSpace(req.externalId) != "" then TrimSpace(req.externalId)
                          else if TrimSpace(req.id) != "" then TrimSpace(req.id) else TrimSpace(req.userName))
    && row.userName == ToLower(TrimSpace(req.userName))
    && row.displayName == (if TrimSpace(req.displayName) != "" then TrimSpace(req.displayName) else req.formattedName)
    && row.active == (req.active != Some(false))
  }

  lemma RowAskedFor(req: ScimRequest)
    ensures AskedFor(req, RowOf(req))
  {
  }

  predicate HasExternalId(db: Db, tenant: Id, user: Id, externalId: string) {
    (tenant, user) in db.scim && db.scim[(tenant, user)].externalId == externalId
  }

  // ----- logins -----

  /** The identifiers a login draws are new. */
  predicate Unused(db: Db, tenant: Id, user: Id, identity: Id) {
    user !in db.users && (tenant, user) !in db.members && identity !in db.identities
  }

  /** The address a login goes by: its email, or one made from its subject. */
  function LoginEmail(email: string, subject: string): string {
    if TrimSpace(email) == "" then ToLower(subject + "@oidc.local") else ToLower(TrimSpace(email))
  }

  /** What a login leaves behind: the account its email belongs to or a new one, the membership
      the account has or a new one as "support", the external identity it names or a new one,
      and an active session for these. */
  ghost predicate SignedIn(db: Db, callback: nat, email: string, subject: string, user: Id, identity: Id,
                           hash: Id, sessionId: Id, expiresAt: int, db': Db)
    requires callback in db.callbacks
  {
    var c := db.callbacks[callback];
    var address := if TrimSpace(email) == "" then ToLower(subject + "@oidc.local") else ToLower(TrimSpace(email));
    && AccountFor(db, address, user) && IdentityFor(db, c.tenant, c.provider, subject, identity)
    && hash !in db.sessions && !ShutOut(db, c.tenant, user)
    && db' == db.(users := db.users[user := address],
                  members := if (c.tenant, user) in db.members then db.members
                             else db.members[(c.tenant, user) := Member("support", MemberActive)],
                  identities := db.identities[identity := Identity(c.tenant, user, c.provider, subject)],
                  callbacks := db.callbacks - {callback},
                  sessions := db.sessions[hash := Session(sessionId, c.tenant, user, identity, Active, expiresAt, c.origin)])
  }

  lemma LoginEmailIs(email: string, subject: string)
    ensures LoginEmail(email, subject) == if TrimSpace(email) == "" then ToLower(subject + "@oidc.local") else ToLower(TrimSpace(email))
  {
  }

  lemma LoginEmailNonEmpty(email: string, subject: string)
    ensures LoginEmail(email, subject) != ""
  {
    hide ToLower, TrimSpace;
    assert |subject + "@oidc.local"| > 0;
  }

  /** Who is let in, with every row there: a live session of an active member, from an active
      provider of the session's tenant. */
  predicate Admitted(db: Db, hash: Id, now: int) {
    && hash in db.sessions && db.sessions[hash].state == Active && db.sessions[hash].expiresAt > now
    && var s := db.sessions[hash];
       && (s.tenant, s.user) in db.members && db.members[(s.tenant, s.user)].state == MemberActive
       && s.identity in db.identities && db.identities[s.identity].provider in db.providers
       && db.providers[db.identities[s.identity].provider] == Provider(s.tenant, "active")
  }

  predicate Deprovisioned(db: Db, tenant: Id, user: Id) {
    (tenant, user) in db.scim && !db.scim[(tenant, user)].active && (tenant, user) !in db.reenrolled
  }

  /** In the tables of a legal run the loose joins of the query find all rows, and nobody
      deprovisioned is let in. */
  lemma LetIn(steps: seq<Step>, hash: Id, now: int)
    requires Legal(EMPTY, steps)
    ensures var db := Run(EMPTY, steps);
            && (Authenticate(db, hash, now).Some? <==> Admitted(db, hash, now))
            && (Admitted(db, hash, now) ==> !Deprovisioned(db, db.sessions[hash].tenant, db.sessions[hash].user))
  {
    Reachable(steps);
    hide Run, Legal, LoginsSpentOnce, AccountsSound;
  }

  // ----- patches -----

  /** A patch value as far as it decodes; null decodes into anything as its zero value. */
  datatype PatchValue = Flag(flag: bool) | Words(words: string) | Null | Undecodable

  datatype PatchOp = PatchOp(op: string, path: string, value: PatchValue)

  predicate OnActive(op: PatchOp) {
    ToLower(op.path) == "active"
  }

  predicate OnDisplayName(op: PatchOp) {
    ToLower(op.path) == "displayname"
  }

  predicate Supported(op: PatchOp) {
    && ToLower(op.op) in {"replace", "add"}
    && ((OnActive(op) && (op.value.Flag? || op.value.Null?)) || (OnDisplayName(op) && (op.value.Words? || op.value.Null?)))
  }

  /** Adding and replacing the flag or the display name, with a value that fits; the names of
      operations and members in any case. */
  ghost predicate Accepted(op: PatchOp) {
    && (ToLower(op.op) == "replace" || ToLower(op.op) == "add")
    && ((ToLower(op.path) == "active" && !op.value.Words? && !op.value.Undecodable?)
        || (ToLower(op.path) == "displayname" && !op.value.Flag? && !op.value.Undecodable?))
  }

  function NewActive(op: PatchOp): bool {
    op.value.Flag? && op.value.flag
  }

  function NewDisplayName(op: PatchOp): string {
    if op.value.Words? then op.value.words else ""
  }

  function PatchOne(req: ScimRequest, op: PatchOp): ScimRequest
    requires Supported(op)
  {
    if OnActive(op) then req.(active := Some(NewActive(op))) else req.(displayName := NewDisplayName(op))
  }

  /** A stored user as a request to write it again. */
  function RequestFor(user: Id, u: ScimUser): ScimRequest {
    ScimRequest(user, u.externalId, u.userName, u.displayName, "", Some(u.active))
  }

  function Patch(req: ScimRequest, ops: seq<PatchOp>): Option<ScimRequest>
    decreases |ops|
  {
    if ops == [] then Some(req)
    else if !Supported(ops[0]) then None
    else Patch(PatchOne(req, ops[0]), ops[1..])
  }

  /** What a patch leaves of a stored row: its names, the flag and the display name last set. */
  ghost predicate Patched(u: ScimUser, ops: seq<PatchOp>, row: ScimUser) {
    && row.userName == ToLower(TrimSpace(u.userName))
    && (TrimSpace(u.externalId) != "" ==> row.externalId == TrimSpace(u.externalId))
    && (forall k: nat | LastActive(ops, k) :: row.active == (ops[k].value == Flag(true)))
    && (forall k: nat | LastDisplayName(ops, k) :: row.displayName == if ops[k].value.Words? then TrimSpace(ops[k].value.words) else "")
    && ((forall k | 0 <= k < |ops| :: !OnActive(ops[k])) ==> row.active == u.active)
    && ((forall k | 0 <= k < |ops| :: !OnDisplayName(ops[k])) ==> row.displayName == TrimSpace(u.displayName))
  }

  lemma PatchLeaves(user: Id, u: ScimUser, ops: seq<PatchOp>)
    ensures Patch(RequestFor(user, u), ops).Some? ==> Patched(u, ops, RowOf(Patch(RequestFor(user, u), ops).value))
  {
    PatchLaw(RequestFor(user, u), ops);
    hide Patch, ToLower, LastActive, LastDisplayName, OnActive, OnDisplayName;
    EmptyTrims();
  }

  lemma EmptyTrims()
    ensures TrimSpace("") == ""
  {
  }

  /** The operation at k is the last one of its kind. */
  ghost predicate LastActive(ops: seq<PatchOp>, k: nat) {
    k < |ops| && OnActive(ops[k]) && forall j | k < j < |ops| :: !OnActive(ops[j])
  }

  ghost predicate LastDisplayName(ops: seq<PatchOp>, k: nat) {
    k < |ops| && OnDisplayName(ops[k]) && forall j | k < j < |ops| :: !OnDisplayName(ops[j])
  }

  /** A patch goes through exactly when each of its operations is supported; then the last
      operation on a member wins, and nothing but the two members changes. */
  lemma {:induction false} PatchLaw(req: ScimRequest, ops: seq<PatchOp>)
    ensures Patch(req, ops).Some? <==> forall k | 0 <= k < |ops| :: Supported(ops[k])
    ensures Patch(req, ops).Some? ==> Folded(req, ops, Patch(req, ops).value)
    decreases |ops|
  {
    hide Supported, Folded;
    if ops == [] {
      FoldedNone(req);
    } else if Supported(ops[0]) {
      var rest := ops[1..];
      var next := PatchOne(req, ops[0]);
      PatchLaw(next, rest);
      assert forall k | 0 <= k < |rest| :: rest[k] == ops[k + 1];
      assert forall k | 1 <= k < |ops| :: ops[k] == rest[k - 1];
      if Patch(req, ops).Some? {
        FoldedOne(req, ops, Patch(req, ops).value);
      }
    }
  }

  ghost predicate Folded(req: ScimRequest, ops: seq<PatchOp>, r: ScimRequest) {
    && r == req.(active := r.active, displayName := r.displayName)
    && (forall k: nat | LastActive(ops, k) :: r.active == Some(NewActive(ops[k])))
    && (forall k: nat | LastDisplayName(ops, k) :: r.displayName == NewDisplayName(ops[k]))
    && ((forall k | 0 <= k < |ops| :: !OnActive(ops[k])) ==> r.active == req.active)
    && ((forall k | 0 <= k < |ops| :: !OnDisplayName(ops[k])) ==> r.displayName == req.displayName)
  }

  lemma FoldedNone(req: ScimRequest)
    ensures Folded(req, [], req)
  {
  }

  lemma FoldedOne(req: ScimRequest, ops: seq<PatchOp>, r: ScimRequest)
    requires ops != [] && Supported(ops[0]) && Folded(PatchOne(req, ops[0]), ops[1..], r)
    ensures Folded(req, ops, r)
  {
    assert OnActive(ops[0]) != OnDisplayName(ops[0]);
    hide Supported, OnActive, OnDisplayName, NewActive, NewDisplayName;
    var rest := ops[1..];
    assert forall k | 0 <= k < |rest| :: rest[k] == ops[k + 1];
    assert forall k | 1 <= k < |ops| :: ops[k] == rest[k - 1];
    forall k: nat | LastActive(ops, k)
      ensures r.active == Some(NewActive(ops[k]))
    {
      assert k > 0 ==> LastActive(rest, k - 1);
    }
    forall k: nat | LastDisplayName(ops, k)
      ensures r.displayName == NewDisplayName(ops[k])
    {
      assert k > 0 ==> LastDisplayName(rest, k - 1);
    }
  }

  // ----- the store -----

  datatype Outcome = Done | Refused | NotFound | Invalid

  class Store {
    var users: map<Id, string>
    var members: map<(Id, Id), Member>
    var providers: map<Id, Provider>
    var identities: map<Id, Identity>
    var logins: map<Id, LoginState>
    var callbacks: map<nat, Callback>
    var sessions: map<Id, Session>
    var scim: map<(Id, Id), ScimUser>
    var reenrolled: set<(Id, Id)>

    /** The transactions committed so far. */
    ghost var history: seq<Step>

    function Rows(): Db
      reads this
    {
      Db(users, members, providers, identities, logins, callbacks, sessions, scim, reenrolled)
    }

    ghost predicate Valid()
      reads this
    {
      Legal(EMPTY, history) && Rows() == Run(EMPTY, history)
    }

    lemma Invariant()
      requires Valid()
      ensures Inv(Rows())
    {
      Reachable(history);
    }

    constructor ()
      ensures Valid() && history == [] && Rows() == EMPTY
    {
      users, members, providers, identities, logins := map[], map[], map[], map[], map[];
      callbacks, sessions, scim, reenrolled := map[], map[], map[], {};
      history := [];
    }

    method Rollback(saved: Db)
      modifies this
      ensures Rows() == saved && history == old(history)
    {
      users, members, providers, identities := saved.users, saved.members, saved.providers, saved.identities;
      logins, callbacks, sessions, scim := saved.logins, saved.callbacks, saved.sessions, saved.scim;
      reenrolled := saved.reenrolled;
    }

    /** The end of every transaction: the audit event and the commit. */
    method Finish(saved: Db, ghost step: Step, commits: bool) returns (ok: bool)
      requires Legal(EMPTY, history) && saved == Run(EMPTY, history) && WellChosen(saved, step) && Commit(saved, step) == Some(Rows())
      modifies this
      ensures Valid() && ok == commits
      ensures history == if ok then old(history) + [step] else old(history)
      ensures Rows() == if ok then old(Rows()) else saved
    {
      ok := commits;
      if commits {
        RunThen(EMPTY, history, step);
        hide Run, Legal, WellChosen, Commit;
        assert After(saved, step) == Rows();
        history := history + [step];
      } else {
        hide Run, Legal;
        Rollback(saved);
      }
    }

    /** Lets in exactly those whose session, membership, identity and provider are all there
        and active, and nobody who was deprovisioned; with the member's role, which is that of
        the member's latest API key, or "support". */
    method AuthenticateSession(hash: Id, now: int) returns (r: Option<Actor>)
      requires Valid()
      ensures r.Some? <==> Admitted(Rows(), hash, now)
      ensures r.Some? ==>
                && r.value.user == sessions[hash].user && r.value.tenant == sessions[hash].tenant
                && r.value.role == members[(sessions[hash].tenant, sessions[hash].user)].role
                && Entitled(history, (sessions[hash].tenant, sessions[hash].user), r.value.role)
                && !Deprovisioned(Rows(), r.value.tenant, r.value.user)
    {
      LetIn(history, hash, now);
      if hash in sessions {
        RolesAreGranted(history, (sessions[hash].tenant, sessions[hash].user));
      }
      hide Entitled, GrantedAt;
      hide Run, Legal;
      if hash !in sessions {
        return None;
      }
      var session := sessions[hash];
      var key := (session.tenant, session.user);
      if key !in members || members[key].state != MemberActive || session.state != Active || session.expiresAt <= now {
        return None;
      }
      if session.identity in identities {
        var provider := identities[session.identity].provider;
        if provider in providers && providers[provider].state != ACTIVE {
          return None;
        }
      }
      r := Some(Actor(session.user, session.tenant, members[key].role));
    }

    method CreateIdentityProvider(tenant: Id, id: Id, commits: bool) returns (ok: bool)
      requires Valid()
      modifies this
      ensures Valid() && history == if ok then old(history) + [DoCreateProvider(tenant, id)] else old(history)
      ensures ok <==> commits && id !in old(providers)
      ensures ok ==> Rows() == old(Rows()).(providers := old(providers)[id := Provider(tenant, "active")])
    {
      hide Run, Legal;
      if id in providers {
        return false;
      }
      var saved := Rows();
      providers := providers[id := Provider(tenant, ACTIVE)];
      ok := Finish(saved, DoCreateProvider(tenant, id), commits);
    }

    /** Disabling a provider revokes every session that came through it, and no other: sessions
        carry their provider's tenant in every valid state, so none escapes the tenant filter. */
    method UpdateIdentityProvider(tenant: Id, id: Id, state: Option<string>, commits: bool) returns (ok: bool)
      requires Valid()
      modifies this
      ensures Valid()
      ensures history == if !ok then old(history)
                         else old(history) + [DoUpdateProvider(tenant, id, if state.None? then None else Some(TrimSpace(state.value)))]
      ensures ok <==> commits && id in old(providers) && old(providers)[id].tenant == tenant
      ensures ok ==> id in providers && providers[id].state == if state.None? then old(providers)[id].state else TrimSpace(state.value)
      ensures ok ==> sessions.Keys == old(sessions).Keys
      ensures ok ==> forall h | h in sessions ::
                       sessions[h] == if providers[id].state == "disabled" && Through(Rows(), h, id) then old(sessions)[h].(state := Revoked)
                                      else old(sessions)[h]
    {
      Invariant();
      hide Run, Legal, LoginsSpentOnce, ProvisioningHolds, AccountsSound, LeavesLoginsAlone, LeavesMembersAlone, TrimSpace;
      if id !in providers || providers[id].tenant != tenant {
        return false;
      }
      var saved := Rows();
      var item := providers[id];
      if state.Some? {
        item := item.(state := TrimSpace(state.value));
      }
      providers := providers[id := item];
      if item.state == DISABLED {
        sessions := RevokeWhere(sessions, TiedTo(Rows(), tenant, id));
      }
      ok := Finish(saved, DoUpdateProvider(tenant, id, if state.None? then None else Some(TrimSpace(state.value))), commits);
    }

    method BeginOIDCLogin(tenant: Id, provider: Id, stateHash: Id, expiresAt: int, commits: bool) returns (ok: bool)
      requires Valid()
      modifies this
      ensures Valid() && history == if ok then old(history) + [DoBeginLogin(tenant, provider, stateHash, expiresAt)] else old(history)
      ensures ok <==> commits && provider in old(providers) && old(providers)[provider] == Provider(tenant, "active") && stateHash !in old(logins)
      ensures ok ==> Rows() == old(Rows()).(logins := old(logins)[stateHash := LoginState(tenant, provider, expiresAt, false)])
    {
      hide Run, Legal;
      if provider !in providers || providers[provider].tenant != tenant || providers[provider].state != ACTIVE || stateHash in logins {
        return false;
      }
      var saved := Rows();
      logins := logins[stateHash := LoginState(tenant, provider, expiresAt, false)];
      ok := Finish(saved, DoBeginLogin(tenant, provider, stateHash, expiresAt), commits);
    }

    /** Consuming a login state succeeds once: then the one callback it is handed to is all that
        comes from it, no session and no other callback does. */
    method ConsumeLoginState(callback: nat, stateHash: Id, commits: bool) returns (ok: bool)
      requires Valid() && callback !in callbacks
      modifies this
      ensures Valid() && history == if ok then old(history) + [DoConsumeLogin(callback, stateHash)] else old(history)
      ensures ok <==> commits && stateHash in old(logins) && !old(logins)[stateHash].consumed
      ensures ok ==>
                var login := old(logins)[stateHash];
                Rows() == old(Rows()).(
                            logins := old(logins)[stateHash := LoginState(login.tenant, login.provider, login.expiresAt, true)],
                            callbacks := old(callbacks)[callback := Callback(login.tenant, login.provider, stateHash)])
      ensures ok ==> (forall h | h in sessions :: sessions[h].origin != stateHash)
                     && (forall c | c in callbacks :: c == callback || callbacks[c].origin != stateHash)
    {
      Invariant();
      hide Run, Legal, TenantsAgree, ProvisioningHolds, AccountsSound;
      if stateHash !in logins || logins[stateHash].consumed {
        return false;
      }
      var saved := Rows();
      var login := logins[stateHash];
      logins := logins[stateHash := login.(consumed := true)];
      callbacks := callbacks[callback := Callback(login.tenant, login.provider, stateHash)];
      ok := Finish(saved, DoConsumeLogin(callback, stateHash), commits);
    }

    /** The account, membership and external identity of a login, found or made. */
    method UpsertIdentity(tenant: Id, provider: Id, email: string, subject: string, newUser: Id, newIdentity: Id)
      returns (ok: bool, user: Id, identity: Id)
      modifies this
      ensures history == old(history)
      ensures ok ==> AccountFor(old(Rows()), email, user) && IdentityFor(old(Rows()), tenant, provider, subject, identity)
      ensures ok ==> !ShutOut(old(Rows()), tenant, user)
      ensures !ok && Unused(old(Rows()), tenant, newUser, newIdentity) ==>
                AccountFor(old(Rows()), email, user) && ShutOut(old(Rows()), tenant, user)
      ensures ok ==>
                Rows() == old(Rows()).(
                            users := old(users)[user := email],
                            members := if (tenant, user) in old(members) then old(members)
                                       else old(members)[(tenant, user) := Member(SUPPORT, MemberActive)],
                            identities := old(identities)[identity := Identity(tenant, user, provider, subject)])
    {
      user, identity := newUser, newIdentity;
      if exists u :: u in users && users[u] == email {
        var found :| found in users && users[found] == email;
        user := found;
        if (tenant, user) in members && members[(tenant, user)].state == MemberDisabled {
          return false, user, identity;
        }
        assert users == users[user := email];
      } else {
        if newUser in users || (tenant, newUser) in members {
          return false, user, identity;
        }
        users := users[user := email];
      }
      if (tenant, user) !in members {
        members := members[(tenant, user) := Member(SUPPORT, MemberActive)];
      }
      if exists i :: i in identities && Names(identities[i], tenant, provider, subject) {
        var row :| row in identities && Names(identities[row], tenant, provider, subject);
        identity := row;
      } else if newIdentity in identities {
        return false, user, identity;
      }
      identities := identities[identity := Identity(tenant, user, provider, subject)];
      ok := true;
    }

    /** The step a login takes is a legal one: it works on the rows its queries find. With new
        identifiers and a new session hash, only a disabled member is refused. */
    method CreateOIDCSession(callback: nat, email: string, subject: string, newUser: Id, newIdentity: Id,
                             hash: Id, sessionId: Id, expiresAt: int, commits: bool)
      returns (ok: bool, user: Id, identity: Id)
      requires Valid() && callback in callbacks
      modifies this
      ensures Valid()
      ensures history == if !ok then old(history)
                         else old(history) + [DoCreateSession(callback, user, identity, LoginEmail(email, subject), subject, hash, sessionId, expiresAt)]
      ensures !ok && commits && hash !in old(sessions) && Unused(old(Rows()), old(callbacks)[callback].tenant, newUser, newIdentity) ==>
                AccountFor(old(Rows()), LoginEmail(email, subject), user) && ShutOut(old(Rows()), old(callbacks)[callback].tenant, user)
      ensures ok ==> commits && SignedIn(old(Rows()), callback, email, subject, user, identity, hash, sessionId, expiresAt, Rows())
    {
      hide Run, Legal, LoginEmail;
      var saved := Rows();
      var c := callbacks[callback];
      var address := LoginEmail(email, subject);
      LoginEmailNonEmpty(email, subject);
      ok, user, identity := UpsertIdentity(c.tenant, c.provider, address, subject, newUser, newIdentity);
      hide AccountFor, IdentityFor;
      if !ok || hash in sessions {
        Rollback(saved);
        return false, user, identity;
      }
      sessions := sessions[hash := Session(sessionId, c.tenant, user, identity, Active, expiresAt, c.origin)];
      callbacks := callbacks - {callback};
      assert SignedIn(saved, callback, email, subject, user, identity, hash, sessionId, expiresAt, Rows()) by {
        LoginEmailIs(email, subject);
      }
      hide SignedIn;
      ok := Finish(saved, DoCreateSession(callback, user, identity, address, subject, hash, sessionId, expiresAt), commits);
    }

    /** A callback that ends without a session. */
    method AbandonCallback(callback: nat)
      requires Valid() && callback in callbacks
      modifies this
      ensures Valid() && history == old(history) + [DoAbandonLogin(callback)]
    {
      hide Run, Legal;
      var saved := Rows();
      callbacks := callbacks - {callback};
      var ok := Finish(saved, DoAbandonLogin(callback), true);
    }

    /** A logged-out session is out for good: nothing that can happen to the tables lets it in
        again. */
    method RevokeAuthSession(tenant: Id, hash: Id, commits: bool) returns (ok: bool)
      requires Valid()
      modifies this
      ensures Valid() && history == if ok then old(history) + [DoRevokeByHash(tenant, hash)] else old(history)
      ensures ok <==> commits && hash in old(sessions) && old(sessions)[hash].tenant == tenant && old(sessions)[hash].state == Active
      ensures ok ==> forall steps, now :: Authenticate(Run(Rows(), steps), hash, now).None?
      ensures ok ==> forall h | h in old(sessions) && h != hash :: h in sessions && sessions[h] == old(sessions)[h]
    {
      hide Run, Legal, LeavesLoginsAlone, LeavesMembersAlone;
      if hash !in sessions || sessions[hash].tenant != tenant || sessions[hash].state != Active {
        return false;
      }
      var saved := Rows();
      sessions := sessions[hash := sessions[hash].(state := Revoked)];
      assert sessions == RevokeWhere(old(sessions), {hash});
      ok := Finish(saved, DoRevokeByHash(tenant, hash), commits);
      if ok {
        forall steps, now
          ensures Authenticate(Run(Rows(), steps), hash, now).None?
        {
          RevokedForever(Rows(), hash, steps, now);
        }
      }
    }

    method RevokeAuthSessionByID(tenant: Id, sessionId: Id, commits: bool) returns (ok: bool)
      requires Valid()
      modifies this
      ensures Valid() && history == if ok then old(history) + [DoRevokeById(tenant, sessionId)] else old(history)
      ensures ok <==> commits && exists h :: h in old(sessions) && old(sessions)[h].tenant == tenant && old(sessions)[h].id == sessionId
      ensures ok ==> Rows() == old(Rows()).(sessions := sessions) && sessions.Keys == old(sessions).Keys
      ensures ok ==> forall h | h in sessions ::
                       sessions[h] == if old(sessions)[h].tenant == tenant && old(sessions)[h].id == sessionId
                                      then old(sessions)[h].(state := Revoked) else old(sessions)[h]
    {
      hide Run, Legal, LeavesLoginsAlone, LeavesMembersAlone;
      var saved := Rows();
      var picked := WithSessionId(saved, tenant, sessionId);
      if picked == {} {
        assert forall h | h in sessions && sessions[h].tenant == tenant && sessions[h].id == sessionId :: h in picked;
        return false;
      }
      sessions := RevokeWhere(sessions, picked);
      ok := Finish(saved, DoRevokeById(tenant, sessionId), commits);
    }

    method PutMember(tenant: Id, user: Id, email: string, role: string)
      modifies this
      ensures history == old(history)
      ensures Rows() == old(Rows()).(
                          users := old(users)[user := email],
                          members := old(members)[(tenant, user) := Member(role, MemberActive)],
                          reenrolled := old(reenrolled) + {(tenant, user)})
    {
      users := users[user := email];
      members := members[(tenant, user) := Member(role, MemberActive)];
      reenrolled := reenrolled + {(tenant, user)};
    }

    method CreateAPIKey(tenant: Id, user: Id, email: string, role: string, commits: bool) returns (ok: bool)
      requires Valid()
      modifies this
      ensures Valid() && history == if ok then old(history) + [DoCreateApiKey(tenant, user, email, role)] else old(history)
      ensures ok ==> !ShutOut(Rows(), tenant, user) && !Deprovisioned(Rows(), tenant, user)
      ensures ok <==> commits && (email == "" || forall u | u in old(users) && u != user :: old(users)[u] != email)
      ensures ok ==> Rows() == old(Rows()).(
                                 users := old(users)[user := if email == "" && user in old(users) then old(users)[user] else email],
                                 members := old(members)[(tenant, user) := Member(role, MemberActive)],
                                 reenrolled := old(reenrolled) + {(tenant, user)})
    {
      EmailFree(Rows(), email, user);
      hide Run, Legal, LeavesLoginsAlone, EmailTaken, KeptEmail;
      var saved := Rows();
      if EmailTaken(saved, email, user) {
        return false;
      }
      PutMember(tenant, user, KeptEmail(users, user, email), role);
      ok := Finish(saved, DoCreateApiKey(tenant, user, email, role), commits);
    }

    method FindTarget(tenant: Id, req: ScimRequest, externalId: string, newUser: Id) returns (user: Id)
      requires externalId == ExternalIdOf(req)
      ensures Target(Rows(), tenant, req, newUser, user)
    {
      user := TrimSpace(req.id);
      if user == "" {
        if exists k :: k in scim && k.0 == tenant && scim[k].externalId == externalId {
          var row :| row in scim && row.0 == tenant && scim[row].externalId == externalId;
          user := row.1;
          assert HasExternalId(Rows(), tenant, user, externalId);
        } else {
          user := newUser;
        }
      }
    }

    method PutRows(tenant: Id, user: Id, row: ScimUser)
      modifies this
      ensures history == old(history)
      ensures Rows() == old(Rows()).(
                          users := old(users)[user := row.userName],
                          members := old(members)[(tenant, user) := Member(RoleOf(old(members), tenant, user), StateOf(row.active))],
                          scim := old(scim)[(tenant, user) := row],
                          reenrolled := old(reenrolled) - {(tenant, user)})
    {
      var role := RoleOf(members, tenant, user);
      users := users[user := row.userName];
      members := members[(tenant, user) := Member(role, StateOf(row.active))];
      scim := scim[(tenant, user) := row];
      reenrolled := reenrolled - {(tenant, user)};
    }

    /** Writing an inactive row leaves the user shut out of the tenant, without a live session. */
    method WriteUser(tenant: Id, user: Id, row: ScimUser, commits: bool) returns (ok: bool)
      requires Valid()
      modifies this
      ensures Valid() && history == if ok then old(history) + [DoScimWrite(tenant, user, row)] else old(history)
      ensures ok == (commits && !Conflicts(old(Rows()), tenant, user, row))
      ensures ok ==> Provisioned(old(Rows()), tenant, user, row, Rows())
      ensures ok && !row.active ==> Deprovisioned(Rows(), tenant, user) && ShutOut(Rows(), tenant, user)
      ensures ok && !row.active ==>
                forall h | h in sessions && sessions[h].tenant == tenant && sessions[h].user == user :: sessions[h].state == Revoked
    {
      ConflictsAre(Rows(), tenant, user, row);
      hide Run, Legal, EmailTaken, ScimClash, Conflicts, LeavesLoginsAlone, OnlyRevoked, ProvidersKept, OfUser, RevokeWhere;
      var saved := Rows();
      if EmailTaken(saved, row.userName, user) || ScimClash(saved, tenant, user, row) {
        return false;
      }
      PutRows(tenant, user, row);
      if !row.active {
        sessions := RevokeWhere(sessions, OfUser(saved, tenant, user));
      }
      assert Provisioned(saved, tenant, user, row, Rows());
      ProvisionedInactive(saved, tenant, user, row, Rows());
      hide Provisioned, Deprovisioned, ShutOut;
      ok := Finish(saved, DoScimWrite(tenant, user, row), commits);
    }

    method SCIMCreateOrReplaceUser(tenant: Id, req: ScimRequest, newUser: Id, commits: bool) returns (ok: bool, user: Id)
      requires Valid()
      modifies this
      ensures Valid() && history == if ok then old(history) + [DoScimWrite(tenant, user, RowOf(req))] else old(history)
      ensures Target(old(Rows()), tenant, req, newUser, user)
      ensures ok == (commits && !Conflicts(old(Rows()), tenant, user, RowOf(req)))
      ensures AskedFor(req, RowOf(req))
      ensures ok ==> Provisioned(old(Rows()), tenant, user, RowOf(req), Rows())
      ensures ok && req.active == Some(false) ==> Deprovisioned(Rows(), tenant, user) && ShutOut(Rows(), tenant, user)
    {
      RowAskedFor(req);
      hide Run, Legal, Conflicts, Provisioned, AskedFor, Target, TrimSpace, ToLower, Deprovisioned, ShutOut;
      var active := true;
      if req.active.Some? {
        active := req.active.value;
      }
      var externalId := TrimSpace(req.externalId);
      if externalId == "" {
        externalId := TrimSpace(req.id);
      }
      if externalId == "" {
        externalId := TrimSpace(req.userName);
      }
      var displayName := TrimSpace(req.displayName);
      if displayName == "" {
        displayName := req.formattedName;
      }
      user := FindTarget(tenant, req, externalId, newUser);
      var row := ScimUser(externalId, ToLower(TrimSpace(req.userName)), displayName, active);
      assert row == RowOf(req);
      ok := WriteUser(tenant, user, row, commits);
    }

    /** A patch with an unsupported operation anywhere writes nothing; otherwise the folded
        request is written as one replacement. */
    method SCIMPatchUser(tenant: Id, user: Id, ops: seq<PatchOp>, newUser: Id, commits: bool) returns (outcome: Outcome)
      requires Valid()
      modifies this
      ensures Valid()
      ensures outcome.NotFound? <==> (tenant, user) !in old(scim)
      ensures outcome.Invalid? <==> (tenant, user) in old(scim) && exists k :: 0 <= k < |ops| && !Accepted(ops[k])
      ensures !outcome.Done? ==> history == old(history)
      ensures outcome.Done? || outcome.Refused? ==>
                && Patch(RequestFor(user, old(scim)[(tenant, user)]), ops).Some?
                && var req := Patch(RequestFor(user, old(scim)[(tenant, user)]), ops).value;
                   exists target | Target(old(Rows()), tenant, req, newUser, target) ::
                     && outcome.Done? == (commits && !Conflicts(old(Rows()), tenant, target, RowOf(req)))
                     && (outcome.Done? ==>
                           && history == old(history) + [DoScimWrite(tenant, target, RowOf(req))]
                           && Provisioned(old(Rows()), tenant, target, RowOf(req), Rows())
                           && Patched(old(scim)[(tenant, user)], ops, RowOf(req)))
    {
      hide Run, Legal, Conflicts, Provisioned, AskedFor, Target, RowOf, Deprovisioned, ShutOut, Patched;
      if (tenant, user) !in scim {
        return NotFound;
      }
      var userReq := RequestFor(user, scim[(tenant, user)]);
      ghost var start := userReq;
      PatchLaw(start, ops);
      PatchLeaves(user, scim[(tenant, user)], ops);
      for k := 0 to |ops|
        invariant Rows() == old(Rows()) && history == old(history)
        invariant Patch(userReq, ops[k..]) == Patch(start, ops)
      {
        var op := ops[k];
        assert ops[k..][0] == op && ops[k..][1..] == ops[k + 1..];
        if ToLower(op.op) != "replace" && ToLower(op.op) != "add" {
          return Invalid;
        }
        if ToLower(op.path) == "active" {
          if !(op.value.Flag? || op.value.Null?) {
            return Invalid;
          }
          userReq := userReq.(active := Some(op.value.Flag? && op.value.flag));
        } else if ToLower(op.path) == "displayname" {
          if !(op.value.Words? || op.value.Null?) {
            return Invalid;
          }
          userReq := userReq.(displayName := if op.value.Words? then op.value.words else "");
        } else {
          return Invalid;
        }
      }
      assert ops[|ops|..] == [];
      var ok, target := SCIMCreateOrReplaceUser(tenant, userReq, newUser, commits);
      outcome := if ok then Done else Refused;
    }
  }
}
