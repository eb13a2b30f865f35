// The admin console: accounts, sessions and role guards (src/auth/admins.ts,
// src/auth/admin-session.ts, src/http/middleware/admin-auth.ts, src/http/admin/routes.ts).
// Each handler runs to completion before the next.
module Admins {
  import opened Collections
  import Tenants

  datatype Role = Viewer | Manager | Owner

  datatype Admin = Admin(email: string, name: string, role: Role, passwordHash: string, disabled: bool)

  datatype Session = Session(userId: string, role: Role, expiresAt: int)

  datatype NewAdmin = NewAdmin(email: string, name: string, role: Role)

  datatype AdminPatch = AdminPatch(
    name: Option<string>,
    role: Option<Role>,
    disabled: Option<bool>,
    resetsPassword: bool)

  // `ids` and `tokens` are all the ids and session tokens ever handed out; both are random,
  // so none is handed out twice.
  datatype Console = Console(
    admins: map<string, Admin>,
    sessions: map<string, Session>,
    tenants: Tenants.Rows,
    ids: set<string>,
    tokens: set<string>)

  datatype Config = Config(normalizeEmail: string -> string, sessionTtlMs: int)

  // A body that fails validation is None, like a missing or empty cookie. Hashes, ids, tokens and
  // keys are minted per request.
  datatype Request =
    | Boot(email: string, name: string, id: string, passwordHash: string)
    | Login(address: Option<string>, passwordMatches: bool, token: string)
    | Logout(cookie: Option<string>)
    | CreateAdmin(cookie: Option<string>, admin: Option<NewAdmin>, id: string, passwordHash: string)
    | UpdateAdmin(cookie: Option<string>, id: string, patch: Option<AdminPatch>, passwordHash: string)
    | DeleteAdmin(cookie: Option<string>, id: string)
    | CreateTenant(cookie: Option<string>, tenant: Option<Tenants.Tenant>, keyHash: string)
    | UpdateTenant(cookie: Option<string>, keyHash: string, tenantPatch: Option<Tenants.Patch>)
    | DeleteTenant(cookie: Option<string>, keyHash: string)

  // One request, when it is handled, and whether the stores can be reached meanwhile.
  datatype Event = Event(request: Request, now: int, storeUp: bool)

  datatype Response = Done | Denied(status: int, code: string)

  const NOT_SIGNED_IN := Denied(401, "UNAUTHORIZED")
  const UNAVAILABLE := Denied(503, "PROVIDER_UNAVAILABLE")
  const FORBIDDEN := Denied(403, "FORBIDDEN")
  const INVALID_ARGS := Denied(400, "INVALID_ARGS")
  const NOT_FOUND := Denied(404, "NOT_FOUND")
  const LAST_OWNER := Denied(400, "LAST_OWNER")
  const CONFLICT := Denied(409, "CONFLICT")

  function Rank(r: Role): nat {
    match r
    case Viewer => 0
    case Manager => 1
    case Owner => 2
  }

  // ---- accounts ----

  // The count of the source, as a set.
  function ActiveOwners(admins: map<string, Admin>): set<string> {
    set id | id in admins && admins[id].role.Owner? && !admins[id].disabled
  }

  predicate EmailTaken(admins: map<string, Admin>, email: string) {
    exists id :: id in admins && admins[id].email == email
  }

  // Looked up by the doubly normalised address, then stored under a UNIQUE constraint.
  predicate EmailClash(c: Config, admins: map<string, Admin>, email: string) {
    var normalized := c.normalizeEmail(email);
    EmailTaken(admins, c.normalizeEmail(normalized)) || EmailTaken(admins, normalized)
  }

  function NewRecord(c: Config, a: NewAdmin, passwordHash: string): Admin {
    Admin(c.normalizeEmail(a.email), a.name, a.role, passwordHash, false)
  }

  function PatchedAdmin(a: Admin, p: AdminPatch, passwordHash: string): Admin {
    a.(name := Tenants.Coalesce(p.name, a.name),
       role := Tenants.Coalesce(p.role, a.role),
       disabled := Tenants.Coalesce(p.disabled, a.disabled),
       passwordHash := if p.resetsPassword then passwordHash else a.passwordHash)
  }

  predicate RemovesOwner(target: Admin, p: AdminPatch) {
    target.role.Owner? && ((p.role.Some? && !p.role.value.Owner?) || p.disabled == Some(true))
  }

  // ---- sessions ----

  // The caller behind a cookie, with the role stored now rather than the role at login.
  function Caller(s: Console, cookie: Option<string>, now: int): Option<(string, Role)> {
    if cookie.None? || cookie.value !in s.sessions || now >= s.sessions[cookie.value].expiresAt then None
    else
      var id := s.sessions[cookie.value].userId;
      if id !in s.admins || s.admins[id].disabled then None else Some((id, s.admins[id].role))
  }

  // An unreachable store fails closed.
  function Guard(s: Console, cookie: Option<string>, now: int, storeUp: bool, min: Role): Option<Response> {
    var caller := Caller(s, cookie, now);
    if cookie.None? then Some(NOT_SIGNED_IN)
    else if !storeUp then Some(UNAVAILABLE)
    else if caller.None? then Some(NOT_SIGNED_IN)
    else if Rank(caller.value.1) < Rank(min) then Some(FORBIDDEN)
    else None
  }

  function MinRole(r: Request): Role {
    if r.CreateAdmin? || r.UpdateAdmin? || r.DeleteAdmin? then Owner
    else if r.CreateTenant? || r.UpdateTenant? || r.DeleteTenant? then Manager
    else Viewer
  }

  // ---- handlers ----

  function Insert(c: Config, s: Console, a: NewAdmin, id: string, passwordHash: string): Console {
    s.(admins := s.admins[id := NewRecord(c, a, passwordHash)], ids := s.ids + {id})
  }

  // What a handler does once the guards have let the caller through.
  function Handle(c: Config, s: Console, r: Request, now: int): (Console, Response)
    requires !r.Boot? && !r.Login?
  {
    match r
    case Logout(cookie) => (if cookie.Some? then s.(sessions := s.sessions - {cookie.value}) else s, Done)
    case CreateAdmin(_, admin, id, passwordHash) =>
      if admin.None? then (s, INVALID_ARGS)
      else if EmailClash(c, s.admins, admin.value.email) then (s, CONFLICT)
      else (Insert(c, s, admin.value, id, passwordHash), Done)
    case UpdateAdmin(_, id, patch, passwordHash) =>
      if patch.None? then (s, INVALID_ARGS)
      else if id !in s.admins then (s, NOT_FOUND)
      else if RemovesOwner(s.admins[id], patch.value) && |ActiveOwners(s.admins)| <= 1 then (s, LAST_OWNER)
      else (s.(admins := s.admins[id := PatchedAdmin(s.admins[id], patch.value, passwordHash)]), Done)
    case DeleteAdmin(_, id) =>
      if id !in s.admins then (s, NOT_FOUND)
      else if s.admins[id].role.Owner? && |ActiveOwners(s.admins)| <= 1 then (s, LAST_OWNER)
      else (s.(admins := s.admins - {id}), Done)
    case CreateTenant(_, tenant, keyHash) =>
      if tenant.None? then (s, INVALID_ARGS)
      else
        var stamped := tenant.value.(createdAt := Some(now), disabled := None);
        (s.(tenants := s.tenants[keyHash := Tenants.RowFor(stamped, now)]), Done)
    case UpdateTenant(_, keyHash, patch) =>
      if patch.None? then (s, INVALID_ARGS)
      else if keyHash !in s.tenants then (s, NOT_FOUND)
      else (s.(tenants := s.tenants[keyHash := Tenants.Patched(s.tenants[keyHash], patch.value)]), Done)
    case DeleteTenant(_, keyHash) =>
      if keyHash !in s.tenants then (s, NOT_FOUND) else (s.(tenants := s.tenants - {keyHash}), Done)
  }

  ghost function Account(admins: map<string, Admin>, email: string): Option<string> {
    if EmailTaken(admins, email) then
      var id :| id in admins && admins[id].email == email;
      Some(id)
    else None
  }

  ghost function Step(c: Config, s: Console, e: Event): (Console, Response) {
    match e.request
    case Boot(email, name, id, passwordHash) =>
      if !e.storeUp then (s, UNAVAILABLE)
      else if s.admins != map[] then (s, Done)
      else (Insert(c, s, NewAdmin(email, name, Owner), id, passwordHash), Done)
    case Login(address, passwordMatches, token) =>
      if address.None? then (s, INVALID_ARGS)
      else if !e.storeUp then (s, UNAVAILABLE)
      else
        var account := Account(s.admins, c.normalizeEmail(address.value));
        if account.None? || s.admins[account.value].disabled || !passwordMatches then (s, NOT_SIGNED_IN)
        else
          var session := Session(account.value, s.admins[account.value].role, e.now + c.sessionTtlMs);
          (s.(sessions := s.sessions[token := session], tokens := s.tokens + {token}), Done)
    case r =>
      var denied := Guard(s, r.cookie, e.now, e.storeUp, MinRole(r));
      if denied.Some? then (s, denied.value) else Handle(c, s, r, e.now)
  }

  // Random ids and tokens have not been handed out before.
  ghost predicate Fresh(s: Console, r: Request) {
    && (r.Boot? || r.CreateAdmin? ==> r.id !in s.ids)
    && (r.Login? ==> r.token !in s.tokens)
  }

  ghost predicate UniqueEmails(admins: map<string, Admin>) {
    forall a, b :: a in admins && b in admins && admins[a].email == admins[b].email ==> a == b
  }

  ghost predicate Inv(s: Console) {
    && UniqueEmails(s.admins)
    && s.admins.Keys <= s.ids
    && s.sessions.Keys <= s.tokens
    && forall t :: t in s.sessions ==> s.sessions[t].userId in s.ids
  }

  lemma StepKeepsInv(c: Config, s: Console, e: Event)
    requires Inv(s) && Fresh(s, e.request)
    ensures Inv(Step(c, s, e).0)
  {
    var s' := Step(c, s, e).0;
    forall a, b | a in s'.admins && b in s'.admins && s'.admins[a].email == s'.admins[b].email ensures a == b {
      if a in s.admins && b in s.admins {
        assert s'.admins[a].email == s.admins[a].email && s'.admins[b].email == s.admins[b].email;
      }
    }
  }

  class AdminConsole {
    const c: Config
    var admins: map<string, Admin>
    var sessions: map<string, Session>
    var tenants: Tenants.Rows
    ghost var ids: set<string>
    ghost var tokens: set<string>

    ghost function State(): Console
      reads this
    {
      Console(admins, sessions, tenants, ids, tokens)
    }

    constructor (c: Config)
      ensures this.c == c && State() == Console(map[], map[], map[], {}, {}) && Inv(State())
    {
      this.c := c;
      admins, sessions, tenants, ids, tokens := map[], map[], map[], {}, {};
    }

    method EnsureBootstrapAdmin(email: string, name: string, id: string, passwordHash: string, ghost now: int,
                                storeUp: bool)
      requires Inv(State()) && id !in ids
      modifies this
      ensures Inv(State())
      ensures State() == Step(c, old(State()), Event(Boot(email, name, id, passwordHash), now, storeUp)).0
    {
      StepKeepsInv(c, State(), Event(Boot(email, name, id, passwordHash), now, storeUp));
      if !storeUp || |admins| > 0 {
        return;
      }
      admins, ids := admins[id := NewRecord(c, NewAdmin(email, name, Owner), passwordHash)], ids + {id};
    }

    method SignIn(address: Option<string>, passwordMatches: bool, token: string, now: int, storeUp: bool)
      returns (response: Response)
      requires Inv(State()) && token !in tokens
      modifies this
      ensures Inv(State())
      ensures (State(), response) == Step(c, old(State()), Event(Login(address, passwordMatches, token), now, storeUp))
    {
      StepKeepsInv(c, State(), Event(Login(address, passwordMatches, token), now, storeUp));
      if address.None? {
        return INVALID_ARGS;
      }
      if !storeUp {
        return UNAVAILABLE;
      }
      var normalized := c.normalizeEmail(address.value);
      if !EmailTaken(admins, normalized) {
        return NOT_SIGNED_IN;
      }
      var id :| id in admins && admins[id].email == normalized;
      assert Account(admins, normalized) == Some(id);
      if admins[id].disabled || !passwordMatches {
        return NOT_SIGNED_IN;
      }
      sessions := sessions[token := Session(id, admins[id].role, now + c.sessionTtlMs)];
      tokens := tokens + {token};
      response := Done;
    }

    // `resolveSession` behind `adminAuth`.
    method Authenticate(cookie: Option<string>, now: int) returns (caller: Option<(string, Role)>)
      ensures caller == Caller(State(), cookie, now)
    {
      if cookie.None? || cookie.value !in sessions {
        return None;
      }
      var session := sessions[cookie.value];
      if now >= session.expiresAt || session.userId !in admins || admins[session.userId].disabled {
        return None;
      }
      caller := Some((session.userId, admins[session.userId].role));
    }

    method Admit(cookie: Option<string>, now: int, storeUp: bool, min: Role) returns (denied: Option<Response>)
      ensures denied == Guard(State(), cookie, now, storeUp, min)
    {
      if cookie.None? {
        return Some(NOT_SIGNED_IN);
      }
      if !storeUp {
        return Some(UNAVAILABLE);
      }
      var caller := Authenticate(cookie, now);
      if caller.None? {
        return Some(NOT_SIGNED_IN);
      }
      denied := if Rank(caller.value.1) < Rank(min) then Some(FORBIDDEN) else None;
    }

    method SignOut(cookie: Option<string>, now: int, storeUp: bool) returns (response: Response)
      requires Inv(State())
      modifies this
      ensures Inv(State())
      ensures (State(), response) == Step(c, old(State()), Event(Logout(cookie), now, storeUp))
    {
      var denied := Admit(cookie, now, storeUp, Viewer); // any role will do
      if denied.Some? {
        return denied.value;
      }
      sessions := sessions - {cookie.value};
      response := Done;
    }

    method PostAdmin(cookie: Option<string>, admin: Option<NewAdmin>, id: string, passwordHash: string, now: int,
        storeUp: bool)
      returns (response: Response)
      requires Inv(State()) && id !in ids
      modifies this
      ensures Inv(State())
      ensures (State(), response) ==
        Step(c, old(State()), Event(CreateAdmin(cookie, admin, id, passwordHash), now, storeUp))
    {
      StepKeepsInv(c, State(), Event(CreateAdmin(cookie, admin, id, passwordHash), now, storeUp));
      var denied := Admit(cookie, now, storeUp, Owner);
      if denied.Some? {
        return denied.value;
      }
      if admin.None? {
        return INVALID_ARGS;
      }
      if EmailClash(c, admins, admin.value.email) {
        return CONFLICT;
      }
      admins, ids := admins[id := NewRecord(c, admin.value, passwordHash)], ids + {id};
      response := Done;
    }

    method PatchAdmin(cookie: Option<string>, id: string, patch: Option<AdminPatch>, passwordHash: string, now: int,
        storeUp: bool)
      returns (response: Response)
      requires Inv(State())
      modifies this
      ensures Inv(State())
      ensures (State(), response) ==
        Step(c, old(State()), Event(UpdateAdmin(cookie, id, patch, passwordHash), now, storeUp))
    {
      StepKeepsInv(c, State(), Event(UpdateAdmin(cookie, id, patch, passwordHash), now, storeUp));
      var denied := Admit(cookie, now, storeUp, Owner);
      if denied.Some? {
        return denied.value;
      }
      if patch.None? {
        return INVALID_ARGS;
      }
      if id !in admins {
        return NOT_FOUND;
      }
      var target := admins[id];
      var demotes := patch.value.role.Some? && patch.value.role.value != Owner;
      var disables := patch.value.disabled == Some(true);
      if target.role == Owner && (demotes || disables) {
        if |ActiveOwners(admins)| <= 1 {
          return LAST_OWNER;
        }
      }
      admins := admins[id := PatchedAdmin(target, patch.value, passwordHash)];
      response := Done;
    }

    method RemoveAdmin(cookie: Option<string>, id: string, now: int, storeUp: bool) returns (response: Response)
      requires Inv(State())
      modifies this
      ensures Inv(State())
      ensures (State(), response) == Step(c, old(State()), Event(DeleteAdmin(cookie, id), now, storeUp))
    {
      StepKeepsInv(c, State(), Event(DeleteAdmin(cookie, id), now, storeUp));
      var denied := Admit(cookie, now, storeUp, Owner);
      if denied.Some? {
        return denied.value;
      }
      if id !in admins {
        return NOT_FOUND;
      }
      if admins[id].role == Owner && |ActiveOwners(admins)| <= 1 {
        return LAST_OWNER;
      }
      admins := admins - {id};
      response := Done;
    }

    method PostTenant(cookie: Option<string>, tenant: Option<Tenants.Tenant>, keyHash: string, now: int,
        storeUp: bool)
      returns (response: Response)
      requires Inv(State())
      modifies this
      ensures Inv(State())
      ensures (State(), response) == Step(c, old(State()), Event(CreateTenant(cookie, tenant, keyHash), now, storeUp))
    {
      var denied := Admit(cookie, now, storeUp, Manager);
      if denied.Some? {
        return denied.value;
      }
      if tenant.None? {
        return INVALID_ARGS;
      }
      var stamped := tenant.value.(createdAt := Some(now), disabled := None);
      tenants := tenants[keyHash := Tenants.RowFor(stamped, now)];
      response := Done;
    }

    method PatchTenant(cookie: Option<string>, keyHash: string, patch: Option<Tenants.Patch>, now: int,
        storeUp: bool)
      returns (response: Response)
      requires Inv(State())
      modifies this
      ensures Inv(State())
      ensures (State(), response) == Step(c, old(State()), Event(UpdateTenant(cookie, keyHash, patch), now, storeUp))
    {
      var denied := Admit(cookie, now, storeUp, Manager);
      if denied.Some? {
        return denied.value;
      }
      if patch.None? {
        return INVALID_ARGS;
      }
      if keyHash !in tenants {
        return NOT_FOUND;
      }
      tenants := tenants[keyHash := Tenants.Patched(tenants[keyHash], patch.value)];
      response := Done;
    }

    method RemoveTenant(cookie: Option<string>, keyHash: string, now: int, storeUp: bool) returns (response: Response)
      requires Inv(State())
      modifies this
      ensures Inv(State())
      ensures (State(), response) == Step(c, old(State()), Event(DeleteTenant(cookie, keyHash), now, storeUp))
    {
      var denied := Admit(cookie, now, storeUp, Manager);
      if denied.Some? {
        return denied.value;
      }
      if keyHash !in tenants {
        return NOT_FOUND;
      }
      tenants := tenants - {keyHash};
      response := Done;
    }
  }

  // ---- whole runs ----

  // states[i] is the console before events[i]; each event carries the time it is handled.
  ghost predicate IsRun(c: Config, states: seq<Console>, events: seq<Event>) {
    && |states| == |events| + 1
    && Inv(states[0])
    && forall i :: 0 <= i < |events| ==>
         Fresh(states[i], events[i].request) && states[i + 1] == Step(c, states[i], events[i]).0
  }

  lemma {:induction false} RunKeepsInv(c: Config, states: seq<Console>, events: seq<Event>, i: nat)
    requires IsRun(c, states, events) && i < |states|
    ensures Inv(states[i])
  {
    if i > 0 {
      RunKeepsInv(c, states, events, i - 1);
      StepKeepsInv(c, states[i - 1], events[i - 1]);
    }
  }

  ghost predicate IsActiveOwner(admins: map<string, Admin>, id: string) {
    id in admins && admins[id].role == Owner && !admins[id].disabled
  }

  ghost predicate HasOwner(admins: map<string, Admin>) {
    exists id :: IsActiveOwner(admins, id)
  }

  ghost predicate AtMostOneOwner(admins: map<string, Admin>) {
    forall a, b :: IsActiveOwner(admins, a) && IsActiveOwner(admins, b) ==> a == b
  }

  lemma AnotherMember<T>(xs: set<T>, x: T) returns (other: T)
    requires |xs| > 1
    ensures other in xs && other != x
  {
    var rest := xs - {x};
    assert if x in xs then |rest| == |xs| - 1 else rest == xs;
    other :| other in rest;
  }

  lemma SubsetSize<T>(xs: set<T>, ys: set<T>)
    requires xs <= ys
    ensures |xs| <= |ys|
  {
    assert xs + (ys - xs) == ys;
  }

  lemma AtMostOneIff(admins: map<string, Admin>)
    ensures |ActiveOwners(admins)| <= 1 <==> AtMostOneOwner(admins)
  {
    var owners := ActiveOwners(admins);
    assert forall id :: id in owners <==> IsActiveOwner(admins, id);
    if |owners| > 1 {
      var a :| a in owners;
      var b := AnotherMember(owners, a);
    } else {
      forall a, b | IsActiveOwner(admins, a) && IsActiveOwner(admins, b) ensures a == b {
        if a != b { SubsetSize({a, b}, owners); }
      }
    }
  }

  // The guards refuse to demote, disable or delete an active owner who is the only one.
  lemma SoleOwnerKept(c: Config, s: Console, e: Event)
    requires e.request.UpdateAdmin? || e.request.DeleteAdmin?
    requires IsActiveOwner(s.admins, e.request.id) && AtMostOneOwner(s.admins)
    ensures IsActiveOwner(Step(c, s, e).0.admins, e.request.id)
  {
    AtMostOneIff(s.admins);
  }

  // A request touches at most the account it names, and no account ever changes its address.
  lemma OneAccountTouched(c: Config, s: Console, e: Event, id: string)
    requires Inv(s) && Fresh(s, e.request) && id in s.admins
    ensures var s' := Step(c, s, e).0;
      && (id !in s'.admins ==> e.request == DeleteAdmin(e.request.cookie, id))
      && (id in s'.admins ==> s'.admins[id].email == s.admins[id].email)
      && (id in s'.admins && s'.admins[id] != s.admins[id] ==> e.request.UpdateAdmin? && e.request.id == id)
      && (id in s'.admins && s'.admins[id].passwordHash != s.admins[id].passwordHash ==>
            e.request.patch.value.resetsPassword)
  {
  }

  lemma StepKeepsOwner(c: Config, s: Console, e: Event)
    requires Inv(s) && Fresh(s, e.request) && HasOwner(s.admins)
    ensures HasOwner(Step(c, s, e).0.admins)
  {
    var owner :| IsActiveOwner(s.admins, owner);
    var removal := e.request.UpdateAdmin? || e.request.DeleteAdmin?;
    if removal && AtMostOneOwner(s.admins) && e.request.id == owner {
      SoleOwnerKept(c, s, e);
    } else {
      if removal && !AtMostOneOwner(s.admins) {
        AtMostOneIff(s.admins);
        owner := AnotherMember(ActiveOwners(s.admins), e.request.id);
      }
      OneAccountTouched(c, s, e, owner);
    }
    assert IsActiveOwner(Step(c, s, e).0.admins, owner);
  }

  // A boot that finds an empty registry.
  ghost predicate Seeds(s: Console, e: Event) {
    e.request.Boot? && e.storeUp && s.admins == map[]
  }

  // Once there is an active owner, or a boot has seeded one, there always is one; so the registry
  // never empties and a later boot changes nothing.
  lemma {:induction false} OwnerAlwaysRemains(c: Config, states: seq<Console>, events: seq<Event>, i: nat)
    requires IsRun(c, states, events) && i < |states|
    requires HasOwner(states[0].admins) || (i > 0 && Seeds(states[0], events[0]))
    ensures HasOwner(states[i].admins)
    ensures i < |events| && events[i].request.Boot? ==> states[i + 1] == states[i]
  {
    if i == 1 && Seeds(states[0], events[0]) {
      assert IsActiveOwner(states[1].admins, events[0].request.id);
    } else if i > 0 {
      OwnerAlwaysRemains(c, states, events, i - 1);
      RunKeepsInv(c, states, events, i - 1);
      StepKeepsOwner(c, states[i - 1], events[i - 1]);
    }
    assert exists id :: id in states[i].admins;
  }

  // ---- what an accepted request leaves behind ----

  // A boot on an empty registry leaves one account, an enabled owner.
  lemma OwnerSeeded(c: Config, s: Console, e: Event)
    requires Seeds(s, e)
    ensures var r := e.request;
      Step(c, s, e).0.admins == map[r.id := Admin(c.normalizeEmail(r.email), r.name, Owner, r.passwordHash, false)]
  {
  }

  // The caller's account, if the cookie opens a live session of an enabled account.
  ghost predicate LiveCaller(s: Console, e: Event, account: Admin)
    requires !e.request.Boot? && !e.request.Login?
  {
    var cookie := e.request.cookie;
    && e.storeUp && cookie.Some? && cookie.value in s.sessions && e.now < s.sessions[cookie.value].expiresAt
    && s.sessions[cookie.value].userId in s.admins && s.admins[s.sessions[cookie.value].userId] == account
    && !account.disabled
  }

  // Who is let through: for accounts an owner, for tenants anyone but a viewer.
  lemma LetThroughIff(c: Config, s: Console, e: Event)
    requires !e.request.Boot? && !e.request.Login?
    ensures var r, response := e.request, Step(c, s, e).1;
      && (response == NOT_SIGNED_IN <==> r.cookie.None? || (e.storeUp && forall a :: !LiveCaller(s, e, a)))
      && (response == UNAVAILABLE <==> r.cookie.Some? && !e.storeUp)
      && (response == FORBIDDEN <==>
            exists a :: LiveCaller(s, e, a)
                        && ((a.role != Owner && (r.CreateAdmin? || r.UpdateAdmin? || r.DeleteAdmin?))
                            || (a.role == Viewer && (r.CreateTenant? || r.UpdateTenant? || r.DeleteTenant?))))
  {
    var caller := Caller(s, e.request.cookie, e.now);
    if caller.Some? && e.storeUp {
      assert LiveCaller(s, e, s.admins[caller.value.0]);
    }
  }

  // The address is free under both spellings it is looked up by.
  ghost predicate Free(c: Config, admins: map<string, Admin>, email: string) {
    forall id :: id in admins ==>
      admins[id].email != c.normalizeEmail(email) && admins[id].email != c.normalizeEmail(c.normalizeEmail(email))
  }

  // An accepted request to create an account adds exactly the one asked for, enabled, under the
  // minted id; an owner's request is accepted exactly if it is valid and the address is free.
  lemma AccountCreated(c: Config, s: Console, e: Event)
    requires e.request.CreateAdmin?
    ensures var r, (s', response) := e.request, Step(c, s, e);
      if response == Done then
        && r.admin.Some?
        && var a := r.admin.value;
           s' == s.(admins := s.admins[r.id := Admin(c.normalizeEmail(a.email), a.name, a.role, r.passwordHash, false)],
                    ids := s.ids + {r.id})
      else s' == s
    ensures forall owner :: LiveCaller(s, e, owner) && owner.role == Owner ==>
      && (Step(c, s, e).1 == Done <==> e.request.admin.Some? && Free(c, s.admins, e.request.admin.value.email))
      && (Step(c, s, e).1 == CONFLICT <==> e.request.admin.Some? && !Free(c, s.admins, e.request.admin.value.email))
  {
  }

  // The patch takes the account out of the owners.
  ghost predicate Demotes(a: Admin, p: AdminPatch) {
    a.role == Owner && ((p.role.Some? && p.role.value != Owner) || p.disabled == Some(true))
  }

  // An accepted update merges the patch into the one account, field by field; an owner's request is
  // refused for the last owner's sake exactly if it demotes an owner and at most one is active.
  lemma AccountUpdated(c: Config, s: Console, e: Event)
    requires e.request.UpdateAdmin?
    ensures var r, (s', response) := e.request, Step(c, s, e);
      if response == Done then
        && r.id in s.admins && r.patch.Some? && r.id in s'.admins
        && s' == s.(admins := s.admins[r.id := s'.admins[r.id]])
        && var old_, new_, p := s.admins[r.id], s'.admins[r.id], r.patch.value;
           && new_.email == old_.email
           && new_.name == (if p.name.Some? then p.name.value else old_.name)
           && new_.role == (if p.role.Some? then p.role.value else old_.role)
           && new_.disabled == (if p.disabled.Some? then p.disabled.value else old_.disabled)
           && new_.passwordHash == (if p.resetsPassword then r.passwordHash else old_.passwordHash)
      else s' == s
    ensures forall owner :: LiveCaller(s, e, owner) && owner.role == Owner && e.request.patch.Some? ==>
      && (Step(c, s, e).1 == NOT_FOUND <==> e.request.id !in s.admins)
      && (Step(c, s, e).1 == LAST_OWNER <==>
            && e.request.id in s.admins && Demotes(s.admins[e.request.id], e.request.patch.value)
            && AtMostOneOwner(s.admins))
  {
    AtMostOneIff(s.admins);
  }

  // An accepted deletion removes the one account; an owner's request is refused for the last owner's
  // sake exactly if it names an owner and at most one is active.
  lemma AccountDeleted(c: Config, s: Console, e: Event)
    requires e.request.DeleteAdmin?
    ensures var r, (s', response) := e.request, Step(c, s, e);
      if response == Done then r.id in s.admins && s' == s.(admins := s.admins - {r.id}) else s' == s
    ensures forall owner :: LiveCaller(s, e, owner) && owner.role == Owner ==>
      && (Step(c, s, e).1 == NOT_FOUND <==> e.request.id !in s.admins)
      && (Step(c, s, e).1 == LAST_OWNER <==>
            e.request.id in s.admins && s.admins[e.request.id].role == Owner && AtMostOneOwner(s.admins))
  {
    AtMostOneIff(s.admins);
  }

  // What the tenant routes write: a new row is enabled and stamped with the time, a patch is merged
  // field by field, and no other row changes.
  lemma TenantWritten(c: Config, s: Console, e: Event)
    requires e.request.CreateTenant? || e.request.UpdateTenant? || e.request.DeleteTenant?
    ensures var r, (s', response) := e.request, Step(c, s, e);
      && (response != Done ==> s' == s)
      && (response == Done && r.CreateTenant? ==>
            && r.tenant.Some?
            && var t := r.tenant.value;
               s' == s.(tenants := s.tenants[r.keyHash := Tenants.Row(t.tenantId, t.name, false, t.rateLimit,
                          t.allowedOrigins, t.allowedFunctions, e.now)]))
      && (response == Done && r.UpdateTenant? ==>
            && r.tenantPatch.Some? && r.keyHash in s.tenants && r.keyHash in s'.tenants
            && s' == s.(tenants := s.tenants[r.keyHash := s'.tenants[r.keyHash]])
            && Tenants.MergedFrom(Tenants.RowToTenant(s'.tenants[r.keyHash]), s.tenants[r.keyHash],
                                  r.tenantPatch.value))
      && (response == Done && r.DeleteTenant? ==>
            r.keyHash in s.tenants && s' == s.(tenants := s.tenants - {r.keyHash}))
  {
  }

  // A sign-in opens a session of the enabled account with that address, for the session's lifetime.
  lemma SessionOpened(c: Config, s: Console, e: Event)
    requires e.request.Login? && Inv(s)
    ensures var r, (s', response) := e.request, Step(c, s, e);
      && (response == Done <==>
            && r.address.Some? && e.storeUp && r.passwordMatches
            && exists id :: id in s.admins && s.admins[id].email == c.normalizeEmail(r.address.value)
                            && !s.admins[id].disabled)
      && (response == Done ==>
            && r.token in s'.sessions && s'.sessions[r.token].userId in s.admins
            && s.admins[s'.sessions[r.token].userId].email == c.normalizeEmail(r.address.value)
            && !s.admins[s'.sessions[r.token].userId].disabled
            && s'.sessions[r.token].expiresAt == e.now + c.sessionTtlMs
            && s' == s.(sessions := s.sessions[r.token := s'.sessions[r.token]], tokens := s.tokens + {r.token}))
      && (response != Done ==> s' == s)
  {
  }

  // ---- authorisation ----

  ghost predicate Mutates(s: Console, s': Console) {
    s'.admins != s.admins || s'.tenants != s.tenants
  }

  // A token names the account it was issued to for as long as it works.
  lemma {:induction false} TokenKeepsHolder(c: Config, states: seq<Console>, events: seq<Event>, k: nat, i: nat,
                                            token: string)
    requires IsRun(c, states, events) && k <= i < |states|
    requires token in states[k].sessions
    ensures token in states[i].tokens
    ensures token in states[i].sessions ==> states[i].sessions[token].userId == states[k].sessions[token].userId
  {
    RunKeepsInv(c, states, events, k);
    if k < i {
      TokenKeepsHolder(c, states, events, k, i - 1, token);
    }
  }

  // Every accepted mutation over HTTP, whenever its token was issued, is by an account that at
  // that very step exists, is enabled and holds a role of at least the route's minimum.
  lemma EveryMutationAuthorised(c: Config, states: seq<Console>, events: seq<Event>, k: nat, i: nat, token: string)
    requires IsRun(c, states, events) && k <= i < |events|
    requires token in states[k].sessions
    requires !events[i].request.Boot? && !events[i].request.Login? && events[i].request.cookie == Some(token)
    ensures var s, userId := states[i], states[k].sessions[token].userId;
      Mutates(s, states[i + 1]) ==>
        && userId in s.admins && !s.admins[userId].disabled
        && (states[i + 1].admins != s.admins ==> s.admins[userId].role == Owner)
        && (states[i + 1].tenants != s.tenants ==> s.admins[userId].role in {Manager, Owner})
        && events[i].now < s.sessions[token].expiresAt
  {
    TokenKeepsHolder(c, states, events, k, i, token);
  }

  // A session that has ended never comes back, because tokens are not reused.
  lemma {:induction false} EndedStaysEnded(c: Config, states: seq<Console>, events: seq<Event>, k: nat, i: nat,
                                           token: string)
    requires IsRun(c, states, events) && k <= i < |states|
    requires token in states[k].tokens && token !in states[k].sessions
    ensures token in states[i].tokens && token !in states[i].sessions
  {
    if k < i { EndedStaysEnded(c, states, events, k, i - 1, token); }
  }

  // After a sign-out the token is refused for the rest of the run, and changes nothing.
  lemma SignedOutNeverReturns(c: Config, states: seq<Console>, events: seq<Event>, k: nat, i: nat, token: string)
    requires IsRun(c, states, events) && k < i < |events|
    requires events[k].request == Logout(Some(token)) && Step(c, states[k], events[k]).1 == Done
    requires !events[i].request.Boot? && !events[i].request.Login? && events[i].request.cookie == Some(token)
    ensures Step(c, states[i], events[i]).1 in {NOT_SIGNED_IN, UNAVAILABLE}
    ensures states[i + 1] == states[i]
  {
    RunKeepsInv(c, states, events, k);
    EndedStaysEnded(c, states, events, k + 1, i, token);
  }

  lemma NoCookieNoMutation(c: Config, s: Console, e: Event)
    requires !e.request.Boot? && (e.request.Login? || e.request.cookie.None? || e.request.cookie.value !in s.sessions)
    ensures !Mutates(s, Step(c, s, e).0)
  {
  }

  // Ids are not reused, so a deleted account stays deleted.
  lemma {:induction false} DeletedStaysDeleted(c: Config, states: seq<Console>, events: seq<Event>, k: nat, i: nat,
                                               userId: string)
    requires IsRun(c, states, events) && k <= i < |states|
    requires userId in states[k].ids && userId !in states[k].admins
    ensures userId in states[i].ids && userId !in states[i].admins
  {
    if k < i {
      DeletedStaysDeleted(c, states, events, k, i - 1, userId);
    }
  }

  lemma {:induction false} IdsGrow(c: Config, states: seq<Console>, events: seq<Event>, k: nat, i: nat)
    requires IsRun(c, states, events) && k <= i < |states|
    ensures states[k].ids <= states[i].ids
  {
    if k < i { IdsGrow(c, states, events, k, i - 1); }
  }

  // No token of a deleted account changes anything ever again.
  lemma DeletedNeverMutates(c: Config, states: seq<Console>, events: seq<Event>, k: nat, m: nat, i: nat, token: string)
    requires IsRun(c, states, events) && k <= m <= i < |events|
    requires token in states[k].sessions && states[k].sessions[token].userId !in states[m].admins
    requires !events[i].request.Boot? && !events[i].request.Login? && events[i].request.cookie == Some(token)
    ensures !Mutates(states[i], states[i + 1])
  {
    var userId := states[k].sessions[token].userId;
    RunKeepsInv(c, states, events, k);
    IdsGrow(c, states, events, k, m);
    DeletedStaysDeleted(c, states, events, m, i, userId);
    EveryMutationAuthorised(c, states, events, k, i, token);
  }

  // An account seen at two moments was there all the time between.
  lemma PresentThroughout(c: Config, states: seq<Console>, events: seq<Event>, k: nat, m: nat, i: nat, id: string)
    requires IsRun(c, states, events) && k <= m <= i < |states|
    requires id in states[k].admins && id in states[i].admins
    ensures id in states[m].admins
  {
    RunKeepsInv(c, states, events, k);
    IdsGrow(c, states, events, k, m);
    if id !in states[m].admins { DeletedStaysDeleted(c, states, events, m, i, id); }
  }

  lemma AddressKept(c: Config, states: seq<Console>, events: seq<Event>, i: nat, id: string)
    requires IsRun(c, states, events) && i < |events|
    requires id in states[i].admins && id in states[i + 1].admins
    ensures states[i + 1].admins[id].email == states[i].admins[id].email
  {
    RunKeepsInv(c, states, events, i);
    OneAccountTouched(c, states[i], events[i], id);
  }

  // So an id means one address for as long as its account exists.
  lemma {:induction false} AddressNeverChanges(c: Config, states: seq<Console>, events: seq<Event>, k: nat, i: nat,
                                               id: string)
    requires IsRun(c, states, events) && k <= i < |states|
    requires id in states[k].admins && id in states[i].admins
    ensures states[i].admins[id].email == states[k].admins[id].email
  {
    if k < i {
      PresentThroughout(c, states, events, k, i - 1, i, id);
      AddressNeverChanges(c, states, events, k, i - 1, id);
      AddressKept(c, states, events, i - 1, id);
    }
  }
}
