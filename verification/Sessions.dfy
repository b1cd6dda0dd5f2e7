/** Sessions, logins, identity providers and provisioned users: the tables that decide who
    is signed in, the transactions that change them, and what holds over every sequence of
    transactions. Emails are kept case-folded, as every comparison folds them. */
module Sessions {
  import opened Text

  type Id = string

  datatype MemberState = MemberActive | MemberDisabled

  datatype Member = Member(role: string, state: MemberState)

  /** `state` is free text; only "active" lets anyone in. */
  datatype Provider = Provider(tenant: Id, state: string)

  datatype Identity = Identity(tenant: Id, user: Id, provider: Id, subject: string)

  datatype LoginState = LoginState(tenant: Id, provider: Id, expiresAt: int, consumed: bool)

  datatype SessionState = Active | Revoked

  /** `origin` is the login state the session came from; no transaction reads it. */
  datatype Session = Session(id: Id, tenant: Id, user: Id, identity: Id, state: SessionState, expiresAt: int, origin: Id)

  datatype ScimUser = ScimUser(externalId: string, userName: string, displayName: string, active: bool)

  /** A callback between its two transactions: the login state is consumed, the session not
      yet made. */
  datatype Callback = Callback(tenant: Id, provider: Id, origin: Id)

  /** `reenrolled` remembers, for no transaction to read, the members that got an API key
      since their latest provisioning write. */
  datatype Db = Db(
    users: map<Id, string>,
    members: map<(Id, Id), Member>,
    providers: map<Id, Provider>,
    identities: map<Id, Identity>,
    logins: map<Id, LoginState>,
    callbacks: map<nat, Callback>,
    sessions: map<Id, Session>,
    scim: map<(Id, Id), ScimUser>,
    reenrolled: set<(Id, Id)>)

  const EMPTY := Db(map[], map[], map[], map[], map[], map[], map[], map[], {})

  const ACTIVE := "active"
  const DISABLED := "disabled"
  const SUPPORT := "support"

  // ----- authentication -----

  datatype Actor = Actor(user: Id, tenant: Id, role: string)

  /** `AuthenticateSession`: the joins and filters of its query. */
  function Authenticate(db: Db, hash: Id, now: int): Option<Actor> {
    if hash !in db.sessions then None
    else
      var s := db.sessions[hash];
      if s.state != Active || s.expiresAt <= now then None
      else if (s.tenant, s.user) !in db.members || db.members[(s.tenant, s.user)].state != MemberActive then None
      else if s.identity in db.identities && db.identities[s.identity].provider in db.providers
              && db.providers[db.identities[s.identity].provider].state != ACTIVE then None
      else Some(Actor(s.user, s.tenant, db.members[(s.tenant, s.user)].role))
  }

  // ----- transactions -----

  function RevokeWhere(sessions: map<Id, Session>, picked: set<Id>): (r: map<Id, Session>)
    ensures r.Keys == sessions.Keys
    ensures forall h | h in sessions :: r[h] == if h in picked then sessions[h].(state := Revoked) else sessions[h]
  {
    map h | h in sessions :: if h in picked then sessions[h].(state := Revoked) else sessions[h]
  }

  function TiedTo(db: Db, tenant: Id, provider: Id): (tied: set<Id>)
    ensures forall h :: h in tied <==> h in db.sessions && db.sessions[h].tenant == tenant && db.sessions[h].identity in db.identities
                                       && db.identities[db.sessions[h].identity].provider == provider
  {
    set h | h in db.sessions && db.sessions[h].tenant == tenant && db.sessions[h].identity in db.identities
            && db.identities[db.sessions[h].identity].provider == provider
  }

  function OfUser(db: Db, tenant: Id, user: Id): (own: set<Id>)
    ensures forall h :: h in own <==> h in db.sessions && db.sessions[h].tenant == tenant && db.sessions[h].user == user
  {
    set h | h in db.sessions && db.sessions[h].tenant == tenant && db.sessions[h].user == user
  }

  /** The same sessions, some of them revoked. */
  ghost predicate OnlyRevoked(a: map<Id, Session>, b: map<Id, Session>) {
    a.Keys == b.Keys && forall h | h in a :: b[h] == a[h] || b[h] == a[h].(state := Revoked)
  }

  /** Providers are added or change state; they keep their tenant. */
  ghost predicate ProvidersKept(a: Db, b: Db) {
    forall p | p in a.providers :: p in b.providers && b.providers[p].tenant == a.providers[p].tenant
  }

  /** What all transactions but those of a login have in common. */
  ghost predicate LeavesLoginsAlone(a: Db, b: Db) {
    && b.logins == a.logins && b.callbacks == a.callbacks && b.identities == a.identities
    && OnlyRevoked(a.sessions, b.sessions) && ProvidersKept(a, b)
  }

  /** What all transactions but logins, provisioning writes and key creation have in common. */
  ghost predicate LeavesMembersAlone(a: Db, b: Db) {
    && b.users == a.users && b.members == a.members && b.scim == a.scim && b.reenrolled == a.reenrolled
    && OnlyRevoked(a.sessions, b.sessions)
  }

  function CreateProvider(db: Db, tenant: Id, id: Id): (r: Option<Db>)
    ensures r.Some? ==> LeavesLoginsAlone(db, r.value) && LeavesMembersAlone(db, r.value)
  {
    if id in db.providers then None else Some(db.(providers := db.providers[id := Provider(tenant, ACTIVE)]))
  }

  /** `UpdateIdentityProvider`, for the one member that matters here: setting the state to
      "disabled" also revokes the sessions tied to the provider. */
  function UpdateProvider(db: Db, tenant: Id, id: Id, state: Option<string>): (r: Option<Db>)
    ensures r.Some? ==> LeavesLoginsAlone(db, r.value) && LeavesMembersAlone(db, r.value)
  {
    if id !in db.providers || db.providers[id].tenant != tenant then None
    else
      var state' := if state.None? then db.providers[id].state else state.value;
      var db' := db.(providers := db.providers[id := Provider(tenant, state')]);
      if state' == DISABLED then Some(db'.(sessions := RevokeWhere(db'.sessions, TiedTo(db', tenant, id)))) else Some(db')
  }

  /** `BeginOIDCLogin`: refused unless the provider is active. */
  function BeginLogin(db: Db, tenant: Id, provider: Id, stateHash: Id, expiresAt: int): (r: Option<Db>)
    ensures r.Some? ==> LeavesMembersAlone(db, r.value)
  {
    if provider !in db.providers || db.providers[provider].tenant != tenant || db.providers[provider].state != ACTIVE then None
    else if stateHash in db.logins then None
    else Some(db.(logins := db.logins[stateHash := LoginState(tenant, provider, expiresAt, false)]))
  }

  /** `ConsumeOIDCLoginState`: the first transaction of a callback. The provider's state is not
      looked at again. */
  function ConsumeLogin(db: Db, callback: nat, stateHash: Id): (r: Option<Db>)
    ensures r.Some? ==> LeavesMembersAlone(db, r.value)
  {
    if stateHash !in db.logins || db.logins[stateHash].consumed || callback in db.callbacks then None
    else
      var login := db.logins[stateHash];
      Some(db.(logins := db.logins[stateHash := login.(consumed := true)],
               callbacks := db.callbacks[callback := Callback(login.tenant, login.provider, stateHash)]))
  }

  /** A callback that ends without a session: expired, or refused by the identity checks. */
  function AbandonLogin(db: Db, callback: nat): (r: Option<Db>)
    ensures r.Some? ==> LeavesMembersAlone(db, r.value)
  {
    if callback !in db.callbacks then None else Some(db.(callbacks := db.callbacks - {callback}))
  }

  predicate EmailTaken(db: Db, email: string, except: Id) {
    email != "" && exists u :: u in db.users && u != except && db.users[u] == email
  }

  /** The account an email belongs to, or a new one. */
  ghost predicate AccountFor(db: Db, email: string, user: Id) {
    if exists u :: u in db.users && db.users[u] == email then user in db.users && db.users[user] == email
    else user !in db.users
  }

  /** The external identity row for a subject, or a new one. */
  ghost predicate IdentityFor(db: Db, tenant: Id, provider: Id, subject: string, identity: Id) {
    if exists i :: i in db.identities && Names(db.identities[i], tenant, provider, subject)
    then identity in db.identities && Names(db.identities[identity], tenant, provider, subject)
    else identity !in db.identities
  }

  predicate Names(i: Identity, tenant: Id, provider: Id, subject: string) {
    i.tenant == tenant && i.provider == provider && i.subject == subject
  }

  /** `CreateOIDCSession`: the second transaction of a callback, which may run long after the
      first. A disabled membership refuses the login; otherwise account, membership and
      external identity are made or updated and a session is inserted. */
  function CreateSession(db: Db, callback: nat, user: Id, identity: Id, email: string, subject: string,
                         hash: Id, sessionId: Id, expiresAt: int): Option<Db>
  {
    if callback !in db.callbacks || hash in db.sessions then None
    else
      var c := db.callbacks[callback];
      var key := (c.tenant, user);
      if key in db.members && db.members[key].state == MemberDisabled then None
      else
        Some(db.(users := db.users[user := email],
                 members := if key in db.members then db.members else db.members[key := Member(SUPPORT, MemberActive)],
                 identities := db.identities[identity := Identity(c.tenant, user, c.provider, subject)],
                 callbacks := db.callbacks - {callback},
                 sessions := db.sessions[hash := Session(sessionId, c.tenant, user, identity, Active, expiresAt, c.origin)]))
  }

  /** `RevokeAuthSession` (logout): only an active session of the tenant. */
  function RevokeByHash(db: Db, tenant: Id, hash: Id): (r: Option<Db>)
    ensures r.Some? ==> LeavesLoginsAlone(db, r.value) && LeavesMembersAlone(db, r.value)
  {
    if hash !in db.sessions || db.sessions[hash].tenant != tenant || db.sessions[hash].state != Active then None
    else Some(db.(sessions := RevokeWhere(db.sessions, {hash})))
  }

  function WithSessionId(db: Db, tenant: Id, sessionId: Id): set<Id> {
    set h | h in db.sessions && db.sessions[h].tenant == tenant && db.sessions[h].id == sessionId
  }

  /** `RevokeAuthSessionByID`. */
  function RevokeById(db: Db, tenant: Id, sessionId: Id): (r: Option<Db>)
    ensures r.Some? ==> LeavesLoginsAlone(db, r.value) && LeavesMembersAlone(db, r.value)
  {
    var picked := WithSessionId(db, tenant, sessionId);
    if picked == {} then None else Some(db.(sessions := RevokeWhere(db.sessions, picked)))
  }

  predicate ScimClash(db: Db, tenant: Id, user: Id, u: ScimUser) {
    exists k :: k in db.scim && k.0 == tenant && k.1 != user
                && (db.scim[k].externalId == u.externalId || db.scim[k].userName == u.userName)
  }

  function RoleOf(members: map<(Id, Id), Member>, tenant: Id, user: Id): string {
    if (tenant, user) in members then members[(tenant, user)].role else SUPPORT
  }

  function StateOf(active: bool): MemberState {
    if active then MemberActive else MemberDisabled
  }

  /** `SCIMCreateOrReplaceUser`: account, membership and provisioning row are written together,
      and an inactive user loses every session in the tenant. Unique indexes refuse a taken
      email, external id or user name. */
  function ScimWrite(db: Db, tenant: Id, user: Id, u: ScimUser): (r: Option<Db>)
    ensures r.Some? ==> LeavesLoginsAlone(db, r.value)
  {
    var key := (tenant, user);
    if EmailTaken(db, u.userName, user) || ScimClash(db, tenant, user, u) then None
    else
      Some(db.(users := db.users[user := u.userName],
               members := db.members[key := Member(RoleOf(db.members, tenant, user), StateOf(u.active))],
               scim := db.scim[key := u],
               reenrolled := db.reenrolled - {key},
               sessions := if u.active then db.sessions else RevokeWhere(db.sessions, OfUser(db, tenant, user))))
  }

  /** No email leaves the one an account has. */
  function KeptEmail(users: map<Id, string>, user: Id, email: string): string {
    if email == "" && user in users then users[user] else email
  }

  /** Creating an API key for a user makes the membership active, whatever it was. */
  function CreateApiKey(db: Db, tenant: Id, user: Id, email: string, role: string): (r: Option<Db>)
    ensures r.Some? ==> LeavesLoginsAlone(db, r.value)
  {
    if EmailTaken(db, email, user) then None
    else
      Some(db.(users := db.users[user := KeptEmail(db.users, user, email)],
               members := db.members[(tenant, user) := Member(role, MemberActive)],
               reenrolled := db.reenrolled + {(tenant, user)}))
  }

  // ----- runs -----

  datatype Step =
    | DoCreateProvider(tenant: Id, id: Id)
    | DoUpdateProvider(tenant: Id, id: Id, state: Option<string>)
    | DoBeginLogin(tenant: Id, provider: Id, stateHash: Id, expiresAt: int)
    | DoConsumeLogin(callback: nat, stateHash: Id)
    | DoAbandonLogin(callback: nat)
    | DoCreateSession(callback: nat, user: Id, identity: Id, email: string, subject: string, hash: Id, sessionId: Id, expiresAt: int)
    | DoRevokeByHash(tenant: Id, hash: Id)
    | DoRevokeById(tenant: Id, sessionId: Id)
    | DoScimWrite(tenant: Id, user: Id, u: ScimUser)
    | DoCreateApiKey(tenant: Id, user: Id, email: string, role: string)

  /** A login has an email, and the rows it works on are those its queries find. */
  ghost predicate WellChosen(db: Db, step: Step) {
    step.DoCreateSession? && step.callback in db.callbacks ==>
      && step.email != ""
      && AccountFor(db, step.email, step.user)
      && IdentityFor(db, db.callbacks[step.callback].tenant, db.callbacks[step.callback].provider, step.subject, step.identity)
  }

  /** One transaction: the new tables, or nothing where it is refused and rolled back. */
  function Commit(db: Db, step: Step): Option<Db> {
    match step
    case DoCreateProvider(t, id) => CreateProvider(db, t, id)
    case DoUpdateProvider(t, id, state) => UpdateProvider(db, t, id, state)
    case DoBeginLogin(t, p, h, at) => BeginLogin(db, t, p, h, at)
    case DoConsumeLogin(c, h) => ConsumeLogin(db, c, h)
    case DoAbandonLogin(c) => AbandonLogin(db, c)
    case DoCreateSession(c, u, i, e, s, h, id, at) => CreateSession(db, c, u, i, e, s, h, id, at)
    case DoRevokeByHash(t, h) => RevokeByHash(db, t, h)
    case DoRevokeById(t, id) => RevokeById(db, t, id)
    case DoScimWrite(t, u, row) => ScimWrite(db, t, u, row)
    case DoCreateApiKey(t, u, e, r) => CreateApiKey(db, t, u, e, r)
  }

  function After(db: Db, step: Step): Db {
    var next := Commit(db, step);
    if next.None? then db else next.value
  }

  function Run(db: Db, steps: seq<Step>): Db
    decreases |steps|
  {
    if steps == [] then db else Run(After(db, steps[0]), steps[1..])
  }

  /** Every login of the run works on the rows its queries find. */
  ghost predicate Legal(db: Db, steps: seq<Step>)
    decreases |steps|
  {
    steps == [] || (WellChosen(db, steps[0]) && Legal(After(db, steps[0]), steps[1..]))
  }

  // ----- what every transaction keeps -----

  /** A login state is unused, or its callback is under way, or it has become a session, or
      neither any more: never two of these. */
  ghost predicate LoginsSpentOnce(db: Db) {
    && (forall c | c in db.callbacks :: db.callbacks[c].origin in db.logins && db.logins[db.callbacks[c].origin].consumed)
    && (forall h | h in db.sessions :: db.sessions[h].origin in db.logins && db.logins[db.sessions[h].origin].consumed)
    && (forall c, d | c in db.callbacks && d in db.callbacks && c != d :: db.callbacks[c].origin != db.callbacks[d].origin)
    && (forall c, h | c in db.callbacks && h in db.sessions :: db.callbacks[c].origin != db.sessions[h].origin)
    && (forall h, k | h in db.sessions && k in db.sessions && h != k :: db.sessions[h].origin != db.sessions[k].origin)
  }

  /** Tenants agree along the references. */
  ghost predicate TenantsAgree(db: Db) {
    && (forall l | l in db.logins :: db.logins[l].provider in db.providers && db.providers[db.logins[l].provider].tenant == db.logins[l].tenant)
    && (forall c | c in db.callbacks ::
          db.callbacks[c].provider in db.providers && db.providers[db.callbacks[c].provider].tenant == db.callbacks[c].tenant)
    && (forall i | i in db.identities ::
          db.identities[i].provider in db.providers && db.providers[db.identities[i].provider].tenant == db.identities[i].tenant)
    && (forall h | h in db.sessions ::
          db.sessions[h].identity in db.identities && db.identities[db.sessions[h].identity].tenant == db.sessions[h].tenant)
  }

  /** A deprovisioned user has a disabled membership and no live session in the tenant; one who
      got an API key since is an active member again. */
  ghost predicate ProvisioningHolds(db: Db) {
    && (forall key | key in db.scim && !db.scim[key].active && key !in db.reenrolled ::
          && key in db.members && db.members[key].state == MemberDisabled
          && forall h | h in db.sessions && (db.sessions[h].tenant, db.sessions[h].user) == key :: db.sessions[h].state == Revoked)
    && (forall key | key in db.reenrolled :: key in db.members && db.members[key].state == MemberActive)
  }

  /** An email belongs to one account, and members have accounts. */
  ghost predicate AccountsSound(db: Db) {
    && (forall u, v | u in db.users && v in db.users && u != v && db.users[u] != "" :: db.users[u] != db.users[v])
    && (forall key | key in db.members :: key.1 in db.users)
  }

  /** Within a tenant an external id, and a user name, belong to one provisioned user. */
  ghost predicate ProvisionedOnce(db: Db) {
    forall k, l | k in db.scim && l in db.scim && k != l && k.0 == l.0 ::
      db.scim[k].externalId != db.scim[l].externalId && db.scim[k].userName != db.scim[l].userName
  }

  ghost predicate Inv(db: Db) {
    LoginsSpentOnce(db) && TenantsAgree(db) && ProvisioningHolds(db) && AccountsSound(db) && ProvisionedOnce(db)
  }

  predicate Quiet(step: Step) {
    step.DoCreateProvider? || step.DoUpdateProvider? || step.DoRevokeByHash? || step.DoRevokeById?
    || step.DoScimWrite? || step.DoCreateApiKey?
  }

  lemma QuietStep(db: Db, step: Step)
    requires Quiet(step)
    ensures LeavesLoginsAlone(db, After(db, step))
  {
    hide CreateProvider, UpdateProvider, RevokeByHash, RevokeById, ScimWrite, CreateApiKey;
  }

  lemma QuietKeepsLogins(db: Db, db': Db)
    requires LoginsSpentOnce(db) && LeavesLoginsAlone(db, db')
    ensures LoginsSpentOnce(db')
  {
  }

  lemma BeginKeepsLogins(db: Db, t: Id, p: Id, h: Id, at: int)
    requires LoginsSpentOnce(db) && BeginLogin(db, t, p, h, at).Some?
    ensures LoginsSpentOnce(BeginLogin(db, t, p, h, at).value)
  {
  }

  lemma ConsumeKeepsLogins(db: Db, c: nat, h: Id)
    requires LoginsSpentOnce(db) && ConsumeLogin(db, c, h).Some?
    ensures LoginsSpentOnce(ConsumeLogin(db, c, h).value)
  {
  }

  lemma AbandonKeepsLogins(db: Db, c: nat)
    requires LoginsSpentOnce(db) && AbandonLogin(db, c).Some?
    ensures LoginsSpentOnce(AbandonLogin(db, c).value)
  {
  }

  lemma CreateKeepsLogins(db: Db, c: nat, u: Id, i: Id, e: string, s: string, h: Id, id: Id, at: int)
    requires LoginsSpentOnce(db) && CreateSession(db, c, u, i, e, s, h, id, at).Some?
    ensures LoginsSpentOnce(CreateSession(db, c, u, i, e, s, h, id, at).value)
  {
    var db' := CreateSession(db, c, u, i, e, s, h, id, at).value;
    assert db'.logins == db.logins && db'.callbacks == db.callbacks - {c};
    assert db'.sessions == db.sessions[h := db'.sessions[h]] && db'.sessions[h].origin == db.callbacks[c].origin;
    hide CreateSession;
  }

  lemma LoginsKept(db: Db, step: Step)
    requires LoginsSpentOnce(db)
    ensures LoginsSpentOnce(After(db, step))
  {
    if Quiet(step) {
      QuietStep(db, step);
      hide After;
      QuietKeepsLogins(db, After(db, step));
    } else if Commit(db, step).Some? {
      hide LoginsSpentOnce, BeginLogin, ConsumeLogin, AbandonLogin, CreateSession;
      match step
      case DoBeginLogin(t, p, h, at) => BeginKeepsLogins(db, t, p, h, at);
      case DoConsumeLogin(c, h) => ConsumeKeepsLogins(db, c, h);
      case DoAbandonLogin(c) => AbandonKeepsLogins(db, c);
      case DoCreateSession(c, u, i, e, s, h, id, at) => CreateKeepsLogins(db, c, u, i, e, s, h, id, at);
      case _ =>
    }
  }

  lemma QuietKeepsTenants(db: Db, db': Db)
    requires TenantsAgree(db) && LeavesLoginsAlone(db, db')
    ensures TenantsAgree(db')
  {
  }

  lemma LoginKeepsTenants(db: Db, step: Step)
    requires TenantsAgree(db) && Commit(db, step).Some?
    requires step.DoBeginLogin? || step.DoConsumeLogin? || step.DoAbandonLogin?
    ensures TenantsAgree(Commit(db, step).value)
  {
  }

  lemma CreateKeepsTenants(db: Db, c: nat, u: Id, i: Id, e: string, s: string, h: Id, id: Id, at: int)
    requires TenantsAgree(db) && CreateSession(db, c, u, i, e, s, h, id, at).Some?
    requires IdentityFor(db, db.callbacks[c].tenant, db.callbacks[c].provider, s, i)
    ensures TenantsAgree(CreateSession(db, c, u, i, e, s, h, id, at).value)
  {
    var db' := CreateSession(db, c, u, i, e, s, h, id, at).value;
    var cb := db.callbacks[c];
    assert db'.logins == db.logins && db'.providers == db.providers && db'.callbacks == db.callbacks - {c};
    assert db'.identities == db.identities[i := Identity(cb.tenant, u, cb.provider, s)];
    assert i in db.identities ==> db.identities[i].tenant == cb.tenant;
    assert db'.sessions == db.sessions[h := Session(id, cb.tenant, u, i, Active, at, cb.origin)];
    hide CreateSession, IdentityFor;
  }

  lemma TenantsKept(db: Db, step: Step)
    requires TenantsAgree(db) && WellChosen(db, step)
    ensures TenantsAgree(After(db, step))
  {
    if Quiet(step) {
      QuietStep(db, step);
      hide After;
      QuietKeepsTenants(db, After(db, step));
    } else if Commit(db, step).Some? {
      if step.DoCreateSession? {
        assert step.callback in db.callbacks;
        hide TenantsAgree, CreateSession, IdentityFor, AccountFor;
        CreateKeepsTenants(db, step.callback, step.user, step.identity, step.email, step.subject, step.hash, step.sessionId, step.expiresAt);
      } else {
        LoginKeepsTenants(db, step);
      }
    }
  }

  lemma CreateKeepsProvisioning(db: Db, c: nat, u: Id, i: Id, e: string, s: string, h: Id, id: Id, at: int)
    requires ProvisioningHolds(db) && CreateSession(db, c, u, i, e, s, h, id, at).Some?
    ensures ProvisioningHolds(CreateSession(db, c, u, i, e, s, h, id, at).value)
  {
    var db' := CreateSession(db, c, u, i, e, s, h, id, at).value;
    var key := (db.callbacks[c].tenant, u);
    assert db'.scim == db.scim && db'.reenrolled == db.reenrolled;
    assert key in db.members ==> db.members[key].state == MemberActive;
    assert db'.members == db.members || (key !in db.members && db'.members == db.members[key := db'.members[key]]);
    assert db'.sessions == db.sessions[h := db'.sessions[h]] && (db'.sessions[h].tenant, db'.sessions[h].user) == key;
    hide CreateSession;
  }

  lemma ScimKeepsProvisioning(db: Db, tenant: Id, user: Id, u: ScimUser)
    requires ProvisioningHolds(db) && ScimWrite(db, tenant, user, u).Some?
    ensures ProvisioningHolds(ScimWrite(db, tenant, user, u).value)
  {
    var db' := ScimWrite(db, tenant, user, u).value;
    var key := (tenant, user);
    assert db'.scim == db.scim[key := u] && db'.reenrolled == db.reenrolled - {key};
    assert db'.members == db.members[key := db'.members[key]] && (!u.active ==> db'.members[key].state == MemberDisabled);
    assert !u.active ==> forall h | h in db'.sessions && (db'.sessions[h].tenant, db'.sessions[h].user) == key ::
        db'.sessions[h].state == Revoked;
    hide ScimWrite;
  }

  lemma OthersKeepProvisioning(db: Db, db': Db)
    requires ProvisioningHolds(db) && LeavesMembersAlone(db, db')
    ensures ProvisioningHolds(db')
  {
  }

  lemma ApiKeyKeepsProvisioning(db: Db, t: Id, u: Id, e: string, r: string)
    requires ProvisioningHolds(db) && CreateApiKey(db, t, u, e, r).Some?
    ensures ProvisioningHolds(CreateApiKey(db, t, u, e, r).value)
  {
    hide EmailTaken;
  }

  lemma ProvisioningKept(db: Db, step: Step)
    requires ProvisioningHolds(db)
    ensures ProvisioningHolds(After(db, step))
  {
    hide ProvisioningHolds, LeavesMembersAlone, LeavesLoginsAlone, CreateProvider, UpdateProvider, BeginLogin, ConsumeLogin, AbandonLogin,
      CreateSession, RevokeByHash, RevokeById, ScimWrite, CreateApiKey;
    if Commit(db, step).Some? {
      match step
      case DoCreateSession(c, u, i, e, s, h, id, at) => CreateKeepsProvisioning(db, c, u, i, e, s, h, id, at);
      case DoScimWrite(t, u, row) => ScimKeepsProvisioning(db, t, u, row);
      case DoCreateApiKey(t, u, e, r) => ApiKeyKeepsProvisioning(db, t, u, e, r);
      case _ => OthersKeepProvisioning(db, After(db, step));
    }
  }

  /** One account gets an email that is its own or nobody else's, and perhaps a membership. */
  lemma AccountWritten(db: Db, db': Db, tenant: Id, user: Id, email: string)
    requires AccountsSound(db) && db'.users == db.users[user := email] && db'.members.Keys <= db.members.Keys + {(tenant, user)}
    requires email != "" ==> forall u | u in db.users && u != user :: db.users[u] != email
    ensures AccountsSound(db')
  {
  }

  lemma AccountsKept(db: Db, step: Step)
    requires AccountsSound(db) && WellChosen(db, step)
    ensures AccountsSound(After(db, step))
  {
    var db' := After(db, step);
    if Commit(db, step).Some? {
      match step
      case DoCreateSession(c, u, i, e, s, h, id, at) =>
        LoginKeepsAccounts(db, c, u, i, e, s, h, id, at);
      case DoScimWrite(t, u, row) =>
        hide AccountsSound, RevokeWhere, OfUser, ScimClash, LeavesLoginsAlone;
        AccountWritten(db, db', t, u, row.userName);
      case DoCreateApiKey(t, u, e, r) =>
        ApiKeyKeepsAccounts(db, t, u, e, r);
      case _ =>
        hide CreateProvider, UpdateProvider, BeginLogin, ConsumeLogin, AbandonLogin, RevokeByHash, RevokeById;
    }
  }

  lemma LoginKeepsAccounts(db: Db, c: nat, u: Id, i: Id, e: string, s: string, h: Id, id: Id, at: int)
    requires AccountsSound(db) && AccountFor(db, e, u) && e != "" && CreateSession(db, c, u, i, e, s, h, id, at).Some?
    ensures AccountsSound(CreateSession(db, c, u, i, e, s, h, id, at).value)
  {
    AccountWritten(db, CreateSession(db, c, u, i, e, s, h, id, at).value, db.callbacks[c].tenant, u, e);
  }

  lemma ApiKeyKeepsAccounts(db: Db, t: Id, u: Id, e: string, r: string)
    requires AccountsSound(db) && CreateApiKey(db, t, u, e, r).Some?
    ensures AccountsSound(CreateApiKey(db, t, u, e, r).value)
  {
    AccountWritten(db, CreateApiKey(db, t, u, e, r).value, t, u, KeptEmail(db.users, u, e));
  }

  lemma ScimKeepsOnce(db: Db, tenant: Id, user: Id, u: ScimUser)
    requires ProvisionedOnce(db) && ScimWrite(db, tenant, user, u).Some?
    ensures ProvisionedOnce(ScimWrite(db, tenant, user, u).value)
  {
    assert ScimWrite(db, tenant, user, u).value.scim == db.scim[(tenant, user) := u] && !ScimClash(db, tenant, user, u);
    hide ScimWrite, LeavesLoginsAlone;
  }

  lemma OnceKept(db: Db, step: Step)
    requires ProvisionedOnce(db)
    ensures ProvisionedOnce(After(db, step))
  {
    if step.DoScimWrite? {
      hide ScimWrite, ProvisionedOnce, LeavesLoginsAlone;
      if Commit(db, step).Some? {
        ScimKeepsOnce(db, step.tenant, step.user, step.u);
      }
    } else {
      assert After(db, step).scim == db.scim;
      hide After;
    }
  }

  lemma StepKeeps(db: Db, step: Step)
    requires Inv(db) && WellChosen(db, step)
    ensures Inv(After(db, step))
  {
    hide LoginsSpentOnce, TenantsAgree, ProvisioningHolds, AccountsSound, ProvisionedOnce, After, WellChosen;
    OnceKept(db, step);
    LoginsKept(db, step);
    TenantsKept(db, step);
    ProvisioningKept(db, step);
    AccountsKept(db, step);
  }

  lemma {:induction false} RunKeeps(db: Db, steps: seq<Step>)
    requires Inv(db) && Legal(db, steps)
    ensures Inv(Run(db, steps))
    decreases |steps|
  {
    hide Inv, After;
    if steps != [] {
      StepKeeps(db, steps[0]);
      RunKeeps(After(db, steps[0]), steps[1..]);
    }
  }

  lemma {:induction false} RunThen(db: Db, steps: seq<Step>, step: Step)
    ensures Run(db, steps + [step]) == After(Run(db, steps), step)
    ensures Legal(db, steps + [step]) <==> Legal(db, steps) && WellChosen(Run(db, steps), step)
    decreases |steps|
  {
    hide After, WellChosen;
    var all := steps + [step];
    if steps == [] {
      assert all[1..] == [] && all[0] == step;
    } else {
      assert all[1..] == steps[1..] + [step] && all[0] == steps[0];
      RunThen(After(db, steps[0]), steps[1..], step);
    }
  }

  lemma Reachable(steps: seq<Step>)
    requires Legal(EMPTY, steps)
    ensures Inv(Run(EMPTY, steps))
  {
    RunKeeps(EMPTY, steps);
  }

  // ----- guarantees over whole runs -----

  /** Sessions are never removed, renamed or brought back. */
  ghost predicate StillThere(a: Db, b: Db) {
    forall h | h in a.sessions ::
      h in b.sessions && b.sessions[h] == a.sessions[h].(state := b.sessions[h].state)
      && (a.sessions[h].state == Revoked ==> b.sessions[h].state == Revoked)
  }

  lemma SessionsStepForward(db: Db, step: Step)
    ensures StillThere(db, After(db, step))
  {
    if Quiet(step) {
      QuietStep(db, step);
      hide After;
    }
  }

  lemma {:induction false} SessionsRunForward(db: Db, steps: seq<Step>)
    ensures StillThere(db, Run(db, steps))
    decreases |steps|
  {
    hide After;
    if steps != [] {
      SessionsStepForward(db, steps[0]);
      SessionsRunForward(After(db, steps[0]), steps[1..]);
    }
  }

  /** A revoked session never authenticates again, whatever happens afterwards. */
  lemma RevokedForever(db: Db, hash: Id, steps: seq<Step>, now: int)
    requires hash in db.sessions && db.sessions[hash].state == Revoked
    ensures Authenticate(Run(db, steps), hash, now).None?
  {
    SessionsRunForward(db, steps);
  }

  /** One login state yields at most one session. */
  lemma OneSessionPerLogin(steps: seq<Step>, h: Id, k: Id)
    requires Legal(EMPTY, steps)
    requires h in Run(EMPTY, steps).sessions && k in Run(EMPTY, steps).sessions
    requires Run(EMPTY, steps).sessions[h].origin == Run(EMPTY, steps).sessions[k].origin
    ensures h == k
  {
    Reachable(steps);
  }

  /** The provider a session came through. */
  ghost predicate Through(db: Db, hash: Id, provider: Id) {
    hash in db.sessions && db.sessions[hash].identity in db.identities && db.identities[db.sessions[hash].identity].provider == provider
  }

  /** Whoever authenticates came through an active provider of the session's own tenant. The
      query joins the provider loosely, so a session without one would get in; no sequence of
      transactions leaves such a session. */
  lemma AuthenticatedByActiveProvider(steps: seq<Step>, hash: Id, now: int)
    requires Legal(EMPTY, steps) && Authenticate(Run(EMPTY, steps), hash, now).Some?
    ensures var db := Run(EMPTY, steps);
            && hash in db.sessions && db.sessions[hash].identity in db.identities
            && var provider := db.identities[db.sessions[hash].identity].provider;
               Through(db, hash, provider) && provider in db.providers
               && db.providers[provider] == Provider(db.sessions[hash].tenant, ACTIVE)
  {
    Reachable(steps);
  }

  /** Disabling a provider ends the sessions that came through it for good: not even enabling
      the provider again revives them. */
  lemma DisablingEndsSessions(before: seq<Step>, tenant: Id, provider: Id, hash: Id, after: seq<Step>, now: int)
    requires Legal(EMPTY, before)
    requires Through(Run(EMPTY, before), hash, provider)
    requires UpdateProvider(Run(EMPTY, before), tenant, provider, Some(DISABLED)).Some?
    ensures Authenticate(Run(UpdateProvider(Run(EMPTY, before), tenant, provider, Some(DISABLED)).value, after), hash, now).None?
  {
    Reachable(before);
    RevokedForever(UpdateProvider(Run(EMPTY, before), tenant, provider, Some(DISABLED)).value, hash, after, now);
  }

  /** A user whose latest provisioning write in a tenant was inactive, and who got no API key
      there since, has no session that authenticates. */
  lemma DeprovisionedStayOut(steps: seq<Step>, tenant: Id, user: Id, hash: Id, now: int)
    requires Legal(EMPTY, steps)
    requires (tenant, user) in Run(EMPTY, steps).scim && !Run(EMPTY, steps).scim[(tenant, user)].active
    requires (tenant, user) !in Run(EMPTY, steps).reenrolled
    requires hash in Run(EMPTY, steps).sessions
    requires Run(EMPTY, steps).sessions[hash].tenant == tenant && Run(EMPTY, steps).sessions[hash].user == user
    ensures Authenticate(Run(EMPTY, steps), hash, now).None?
  {
    Reachable(steps);
  }

  /** Nor does such an account get a new session: with a callback waiting and an unused session
      hash, a login that ends up at the account is refused if and only if no API key was created
      for it in the tenant since. */
  lemma DeprovisionedLogin(steps: seq<Step>, c: nat, user: Id, i: Id, e: string, s: string, h: Id, id: Id, at: int)
    requires Legal(EMPTY, steps)
    requires c in Run(EMPTY, steps).callbacks && h !in Run(EMPTY, steps).sessions
    requires var key := (Run(EMPTY, steps).callbacks[c].tenant, user);
             key in Run(EMPTY, steps).scim && !Run(EMPTY, steps).scim[key].active
    ensures CreateSession(Run(EMPTY, steps), c, user, i, e, s, h, id, at).None?
            <==> (Run(EMPTY, steps).callbacks[c].tenant, user) !in Run(EMPTY, steps).reenrolled
  {
    Reachable(steps);
  }

  ghost predicate ShutOut(db: Db, tenant: Id, user: Id) {
    (tenant, user) in db.members && db.members[(tenant, user)].state == MemberDisabled
  }

  /** Which account a login ends up at is decided by its email, and a provisioned account can
      get another email through a write in another tenant. So a login by the name under which an
      account was deprovisioned is refused while the account keeps that email; once it has lost
      it, exactly when the account that has the email now is shut out itself. */
  lemma DeprovisionedName(steps: seq<Step>, step: Step, user: Id)
    requires Legal(EMPTY, steps) && step.DoCreateSession? && WellChosen(Run(EMPTY, steps), step)
    requires step.callback in Run(EMPTY, steps).callbacks && step.hash !in Run(EMPTY, steps).sessions
    requires var db := Run(EMPTY, steps);
             var key := (db.callbacks[step.callback].tenant, user);
             key in db.scim && !db.scim[key].active && key !in db.reenrolled && db.scim[key].userName == step.email
    ensures var db := Run(EMPTY, steps);
            var tenant := db.callbacks[step.callback].tenant;
            if user in db.users && db.users[user] == step.email then Commit(db, step).None?
            else Commit(db, step).None? <==> exists u :: u in db.users && db.users[u] == step.email && ShutOut(db, tenant, u)
  {
    Reachable(steps);
    var db := Run(EMPTY, steps);
    var tenant := db.callbacks[step.callback].tenant;
    assert Commit(db, step).None? <==> ShutOut(db, tenant, step.user);
    assert ShutOut(db, tenant, user);
    if exists u :: u in db.users && db.users[u] == step.email {
      assert step.user in db.users && db.users[step.user] == step.email;
    }
  }

  // ----- what role a member has -----

  /** The transaction at k is an API key for the member, and it went through. */
  ghost predicate GrantedAt(steps: seq<Step>, k: nat, key: (Id, Id)) {
    && k < |steps| && steps[k].DoCreateApiKey? && (steps[k].tenant, steps[k].user) == key
    && Commit(Run(EMPTY, steps[..k]), steps[k]).Some?
  }

  ghost predicate LatestGrant(steps: seq<Step>, k: nat, key: (Id, Id)) {
    GrantedAt(steps, k, key) && forall j: nat | k < j < |steps| :: !GrantedAt(steps, j, key)
  }

  /** The role of the latest API key, or "support" where there was none. */
  ghost predicate Entitled(steps: seq<Step>, key: (Id, Id), role: string) {
    && (forall k: nat | LatestGrant(steps, k, key) :: role == steps[k].role)
    && ((forall k: nat | k < |steps| :: !GrantedAt(steps, k, key)) ==> role == "support")
  }

  /** Neither logins nor provisioning writes change a role; who becomes a member through one of
      them is "support". */
  lemma RoleKept(db: Db, step: Step, key: (Id, Id))
    requires !(step.DoCreateApiKey? && (step.tenant, step.user) == key)
    ensures key in db.members ==> key in After(db, step).members && After(db, step).members[key].role == db.members[key].role
    ensures key !in db.members && key in After(db, step).members ==> After(db, step).members[key].role == "support"
  {
    hide EmailTaken, ScimClash, RevokeWhere, KeptEmail, LeavesLoginsAlone;
  }

  lemma GrantsBefore(steps: seq<Step>, step: Step, k: nat, key: (Id, Id))
    requires k < |steps|
    ensures GrantedAt(steps + [step], k, key) <==> GrantedAt(steps, k, key)
  {
    assert (steps + [step])[..k] == steps[..k] && (steps + [step])[k] == steps[k];
  }

  lemma LatestBefore(steps: seq<Step>, step: Step, k: nat, key: (Id, Id))
    requires LatestGrant(steps + [step], k, key) && k < |steps|
    ensures LatestGrant(steps, k, key)
  {
    hide GrantedAt;
    GrantsBefore(steps, step, k, key);
    forall j: nat | k < j < |steps|
      ensures !GrantedAt(steps, j, key)
    {
      GrantsBefore(steps, step, j, key);
    }
  }

  lemma LastStep(steps: seq<Step>, step: Step, key: (Id, Id))
    ensures GrantedAt(steps + [step], |steps|, key) <==>
            step.DoCreateApiKey? && (step.tenant, step.user) == key && Commit(Run(EMPTY, steps), step).Some?
  {
    hide Run, Commit;
    assert (steps + [step])[..|steps|] == steps && (steps + [step])[|steps|] == step;
  }

  ghost predicate RoleRight(steps: seq<Step>, key: (Id, Id)) {
    && (key in Run(EMPTY, steps).members ==> Entitled(steps, key, Run(EMPTY, steps).members[key].role))
    && (forall k: nat | GrantedAt(steps, k, key) :: key in Run(EMPTY, steps).members)
  }

  lemma RoleGranted(steps: seq<Step>, step: Step, key: (Id, Id))
    requires GrantedAt(steps + [step], |steps|, key)
    ensures RoleRight(steps + [step], key)
  {
    var db, all := Run(EMPTY, steps), steps + [step];
    RunThen(EMPTY, steps, step);
    LastStep(steps, step, key);
    assert key in After(db, step).members && After(db, step).members[key].role == step.role;
    hide Run, Commit, After, GrantedAt;
    assert all[|steps|] == step;
    assert forall k: nat | LatestGrant(all, k, key) :: k >= |steps|;
    assert forall k: nat | GrantedAt(all, k, key) :: k < |all| by { GrantsInRange(all, key); }
  }

  lemma GrantsInRange(steps: seq<Step>, key: (Id, Id))
    ensures forall k: nat | GrantedAt(steps, k, key) :: k < |steps|
  {
  }

  lemma RoleNotGranted(steps: seq<Step>, step: Step, key: (Id, Id))
    requires RoleRight(steps, key) && !GrantedAt(steps + [step], |steps|, key)
    ensures RoleRight(steps + [step], key)
  {
    var db, all := Run(EMPTY, steps), steps + [step];
    RunThen(EMPTY, steps, step);
    LastStep(steps, step, key);
    if step.DoCreateApiKey? && (step.tenant, step.user) == key {
      assert After(db, step) == db;
    } else {
      RoleKept(db, step, key);
    }
    hide Run, Commit, After, GrantedAt;
    GrantsInRange(all, key);
    forall k: nat | k < |steps|
      ensures GrantedAt(all, k, key) <==> GrantedAt(steps, k, key)
    {
      GrantsBefore(steps, step, k, key);
    }
    forall k: nat | LatestGrant(all, k, key)
      ensures LatestGrant(steps, k, key) && all[k] == steps[k]
    {
      assert k < |steps|;
      LatestBefore(steps, step, k, key);
    }
  }

  /** Over every run, a member's role is that of the latest API key made for the member, and
      "support" if there was none. */
  lemma {:induction false} RolesAreGranted(steps: seq<Step>, key: (Id, Id))
    ensures RoleRight(steps, key)
    decreases |steps|
  {
    if steps != [] {
      var n := |steps| - 1;
      RolesAreGranted(steps[..n], key);
      hide RoleRight, GrantedAt;
      assert steps[..n] + [steps[n]] == steps;
      if GrantedAt(steps, n, key) {
        RoleGranted(steps[..n], steps[n], key);
      } else {
        RoleNotGranted(steps[..n], steps[n], key);
      }
    }
  }

  // ----- a deprovisioned name that gets in again -----

  const GONE := ScimUser("x", "a", "", false)
  const MOVED := ScimUser("y", "b", "", true)
  const DISABLED_SUPPORT := Member(SUPPORT, MemberDisabled)
  const ACTIVE_SUPPORT := Member(SUPPORT, MemberActive)

  const WITH_PROVIDER := EMPTY.(providers := map["P" := Provider("T", ACTIVE)])

  const DEPROVISIONED := WITH_PROVIDER.(
    users := map["X" := "a"],
    members := map[("T", "X") := DISABLED_SUPPORT],
    scim := map[("T", "X") := GONE])

  /** The account's row in tenant U, and its email with it, moved on; tenant T never heard. */
  const RENAMED := WITH_PROVIDER.(
    users := map["X" := "b"],
    members := map[("T", "X") := DISABLED_SUPPORT, ("U", "X") := ACTIVE_SUPPORT],
    scim := map[("T", "X") := GONE, ("U", "X") := MOVED])

  const LOGGING_IN := RENAMED.(
    logins := map["S" := LoginState("T", "P", 10, true)],
    callbacks := map[0 := Callback("T", "P", "S")])

  const OPENING := [
    DoCreateProvider("T", "P"), DoScimWrite("T", "X", GONE), DoScimWrite("U", "X", MOVED),
    DoBeginLogin("T", "P", "S", 10), DoConsumeLogin(0, "S")]

  const LOGIN := DoCreateSession(0, "Y", "I", "a", "sub", "H", "ID", 10)

  lemma ScimStep(db: Db, tenant: Id, user: Id, u: ScimUser)
    requires !EmailTaken(db, u.userName, user) && !ScimClash(db, tenant, user, u) && db.sessions == map[]
    ensures After(db, DoScimWrite(tenant, user, u)) ==
            db.(users := db.users[user := u.userName],
                members := db.members[(tenant, user) := Member(RoleOf(db.members, tenant, user), StateOf(u.active))],
                scim := db.scim[(tenant, user) := u],
                reenrolled := db.reenrolled - {(tenant, user)})
  {
    hide EmailTaken, ScimClash, LeavesLoginsAlone;
    assert RevokeWhere(map[], OfUser(db, tenant, user)) == map[];
  }

  lemma DeprovisioningStep()
    ensures After(WITH_PROVIDER, OPENING[1]) == DEPROVISIONED
  {
    ScimStep(WITH_PROVIDER, "T", "X", GONE);
    hide After;
    assert map[]["X" := "a"] == DEPROVISIONED.users;
    assert WITH_PROVIDER.members[("T", "X") := DISABLED_SUPPORT] == DEPROVISIONED.members;
    assert WITH_PROVIDER.scim[("T", "X") := GONE] == DEPROVISIONED.scim;
  }

  lemma RenamingStep()
    ensures After(DEPROVISIONED, OPENING[2]) == RENAMED
  {
    ScimStep(DEPROVISIONED, "U", "X", MOVED);
    hide After;
    assert DEPROVISIONED.users["X" := "b"] == RENAMED.users;
    assert DEPROVISIONED.members[("U", "X") := ACTIVE_SUPPORT] == RENAMED.members;
    assert DEPROVISIONED.scim[("U", "X") := MOVED] == RENAMED.scim;
  }

  lemma LoginSteps()
    ensures After(After(RENAMED, OPENING[3]), OPENING[4]) == LOGGING_IN
  {
    var begun := RENAMED.(logins := map["S" := LoginState("T", "P", 10, false)]);
    assert After(RENAMED, OPENING[3]) == begun;
    assert After(begun, OPENING[4]) == LOGGING_IN;
  }

  lemma ProviderStep()
    ensures After(EMPTY, OPENING[0]) == WITH_PROVIDER
  {
  }

  lemma Extend(steps: seq<Step>, step: Step, db: Db)
    requires Legal(EMPTY, steps) && Run(EMPTY, steps) == db && !step.DoCreateSession?
    ensures Legal(EMPTY, steps + [step]) && Run(EMPTY, steps + [step]) == After(db, step)
  {
    hide After, Legal, Run;
    RunThen(EMPTY, steps, step);
  }

  lemma OpeningRun()
    ensures Legal(EMPTY, OPENING) && Run(EMPTY, OPENING) == LOGGING_IN
  {
    var s := OPENING;
    ProviderStep();
    DeprovisioningStep();
    RenamingStep();
    LoginSteps();
    assert [] + [s[0]] + [s[1]] + [s[2]] + [s[3]] + [s[4]] == s;
    hide After, WellChosen;
    Extend([], s[0], EMPTY);
    hide Run, Legal;
    Extend([] + [s[0]], s[1], WITH_PROVIDER);
    Extend([] + [s[0]] + [s[1]], s[2], DEPROVISIONED);
    Extend([] + [s[0]] + [s[1]] + [s[2]], s[3], RENAMED);
    Extend([] + [s[0]] + [s[1]] + [s[2]] + [s[3]], s[4], After(RENAMED, s[3]));
  }

  /** A legal run in which the name under which an account was deprovisioned, with no API key
      ever created, logs in to the same tenant and authenticates: as another account. */
  lemma DeprovisionedNameReturns()
    ensures Legal(EMPTY, OPENING) && WellChosen(Run(EMPTY, OPENING), LOGIN)
    ensures var db := Run(EMPTY, OPENING);
            && ("T", "X") in db.scim && db.scim[("T", "X")].userName == LOGIN.email && !db.scim[("T", "X")].active && db.reenrolled == {}
            && Authenticate(After(db, LOGIN), LOGIN.hash, 0) == Some(Actor("Y", "T", SUPPORT))
  {
    OpeningRun();
    hide Run, Legal;
    assert LOGGING_IN.users == map["X" := "b"];
  }
}
