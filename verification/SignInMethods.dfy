/** How an account can be signed in to. Registration, provisioning, invitations, linking, unlinking and
    passwords keep `authMethods`, `googleId` and `password` consistent; whether the methods listed also work
    depends on the tenant's Google switch, which founding a tenant leaves off. */
module SignInMethods {
  import opened Common

  type Id = nat

  datatype Method = Google | Password

  /** `secret` is what hashes to the stored password; the empty stored password is `None`. */
  datatype Account = Account(email: string, tenant: Option<Id>, secret: Option<string>, googleId: Option<nat>,
          methods: seq<Method>)

  type Accounts = map<Id, Account>

  datatype Profile = Profile(id: nat, email: string)

  datatype Answer = Done | SignedIn(user: Id) | Unauthorized | Forbidden | NotFound | Conflict | BadRequest | Constraint

  datatype Outcome = Outcome(accounts: Accounts, answer: Answer)

  /** A tenant's settings: Google sign-on, and whether unknown users are created on it. */
  datatype Switches = Switches(sso: bool, provision: bool)

  datatype World = World(accounts: Accounts, tenants: map<Id, Switches>)

  datatype Next = Next(world: World, answer: Answer)

  const Start := World(map[], map[])

  // ---------- lookups ----------

  predicate Taken(accounts: Accounts, email: string, tenant: Option<Id>, except: Option<Id>) {
    exists u :: u in accounts && accounts[u].email == email && accounts[u].tenant == tenant && except != Some(u)
  }

  predicate Linked(accounts: Accounts, google: nat) {
    exists u :: u in accounts && accounts[u].googleId == Some(google)
  }

  ghost function LinkedTo(accounts: Accounts, google: nat): Id
    requires Linked(accounts, google)
    ensures LinkedTo(accounts, google) in accounts && accounts[LinkedTo(accounts, google)].googleId == Some(google)
  {
    var u :| u in accounts && accounts[u].googleId == Some(google);
    u
  }

  ghost function Addressed(accounts: Accounts, email: string, tenant: Option<Id>): Id
    requires Taken(accounts, email, tenant, None)
    ensures var u := Addressed(accounts, email, tenant);
      u in accounts && accounts[u].email == email && accounts[u].tenant == tenant
  {
    var u :| u in accounts && accounts[u].email == email && accounts[u].tenant == tenant;
    u
  }

  // ---------- the operations ----------

  /** A row insert, refused by the unique indexes on (email, tenant) and on Google identifiers. */
  function Insert(accounts: Accounts, u: Id, row: Account): Outcome {
    if Taken(accounts, row.email, row.tenant, None) then Outcome(accounts, Conflict)
    else if row.googleId.Some? && Linked(accounts, row.googleId.value) then Outcome(accounts, Constraint)
    else Outcome(accounts[u := row], Done)
  }

  function WithPassword(email: string, tenant: Option<Id>, secret: string): Account {
    Account(email, tenant, Some(secret), None, [Password])
  }

  function WithGoogle(profile: Profile, tenant: Option<Id>): Account {
    Account(profile.email, tenant, None, Some(profile.id), [Google])
  }

  function Register(accounts: Accounts, u: Id, email: string, secret: string): Outcome {
    if exists v :: v in accounts && accounts[v].email == email then Outcome(accounts, Conflict)
    else Insert(accounts, u, WithPassword(email, None, secret))
  }

  function Including(methods: seq<Method>, m: Method): seq<Method> {
    if m in methods then methods else methods + [m]
  }

  function WithoutGoogle(methods: seq<Method>): seq<Method> {
    if methods == [] then []
    else if methods[0] == Google then WithoutGoogle(methods[1..])
    else [methods[0]] + WithoutGoogle(methods[1..])
  }

  function LinkRow(row: Account, google: nat): Account {
    row.(googleId := Some(google), methods := Including(row.methods, Google))
  }

  predicate HeldByOther(accounts: Accounts, u: Id, google: nat) {
    exists v :: v in accounts && accounts[v].googleId == Some(google) && v != u
  }

  function Link(accounts: Accounts, u: Id, profile: Profile): Outcome {
    if u !in accounts then Outcome(accounts, NotFound)
    else if accounts[u].email != profile.email then Outcome(accounts, BadRequest)
    else if HeldByOther(accounts, u, profile.id) then Outcome(accounts, Conflict)
    else Outcome(accounts[u := LinkRow(accounts[u], profile.id)], Done)
  }

  function Unlink(accounts: Accounts, u: Id): Outcome {
    if u !in accounts then Outcome(accounts, NotFound)
    else if accounts[u].googleId == None then Outcome(accounts, BadRequest)
    else if WithoutGoogle(accounts[u].methods) == [] then Outcome(accounts, BadRequest)
    else Outcome(accounts[u := accounts[u].(googleId := None, methods := WithoutGoogle(accounts[u].methods))], Done)
  }

  function PasswordRow(row: Account, secret: string): Account {
    row.(secret := Some(secret), methods := Including(row.methods, Password))
  }

  function SetPassword(accounts: Accounts, u: Id, secret: string): Outcome {
    if u !in accounts then Outcome(accounts, Unauthorized)
    else if accounts[u].secret.Some? then Outcome(accounts, Conflict)
    else Outcome(accounts[u := PasswordRow(accounts[u], secret)], Done)
  }

  /** The lookup by email may, without a tenant, find any account of that email: `u` is the one found. */
  function Reset(accounts: Accounts, u: Id, verified: bool, secret: string): Outcome {
    if u !in accounts || !verified then Outcome(accounts, BadRequest)
    else Outcome(accounts[u := PasswordRow(accounts[u], secret)], Done)
  }

  /** `provision` says whether unknown users are created, `member` whether the tenant has its default role. */
  ghost function SignInToTenant(accounts: Accounts, profile: Profile, t: Id, provision: bool, member: bool, u: Id)
    : Outcome
  {
    if Linked(accounts, profile.id) then
      var v := LinkedTo(accounts, profile.id);
      if accounts[v].tenant == Some(t) then Outcome(accounts, SignedIn(v)) else Outcome(accounts, Unauthorized)
    else if Taken(accounts, profile.email, Some(t), None) then
      AutoLink(accounts, Addressed(accounts, profile.email, Some(t)), profile)
    else if !provision then Outcome(accounts, Unauthorized)
    else if !member then Outcome(accounts, NotFound)
    else Outcome(accounts[u := WithGoogle(profile, Some(t))], SignedIn(u))
  }

  function AutoLink(accounts: Accounts, v: Id, profile: Profile): Outcome
    requires v in accounts
  {
    Outcome(accounts[v := LinkRow(accounts[v], profile.id)], SignedIn(v))
  }

  ghost function SignInTenantless(accounts: Accounts, profile: Profile, u: Id): Outcome {
    if Linked(accounts, profile.id) then
      var v := LinkedTo(accounts, profile.id);
      if accounts[v].tenant == None then Outcome(accounts, SignedIn(v)) else Outcome(accounts, BadRequest)
    else if Taken(accounts, profile.email, None, None) then
      AutoLink(accounts, Addressed(accounts, profile.email, None), profile)
    else Outcome(accounts[u := WithGoogle(profile, None)], SignedIn(u))
  }

  /** Password sign-in looks at the stored password alone. */
  ghost function Login(accounts: Accounts, email: string, tenant: Option<Id>, secret: string): Answer {
    if !Taken(accounts, email, tenant, None) then Unauthorized
    else
      var u := Addressed(accounts, email, tenant);
      if accounts[u].secret == Some(secret) then SignedIn(u) else Unauthorized
  }

  /** Creating or joining a tenant. */
  function EnterTenant(accounts: Accounts, u: Id, t: Id): Outcome {
    if u !in accounts then Outcome(accounts, NotFound)
    else if accounts[u].tenant != None then Outcome(accounts, Conflict)
    else if Taken(accounts, accounts[u].email, Some(t), Some(u)) then Outcome(accounts, Constraint)
    else Outcome(accounts[u := accounts[u].(tenant := Some(t))], Done)
  }

  function ChangeEmail(accounts: Accounts, u: Id, t: Id, email: string): Outcome {
    if u !in accounts || accounts[u].tenant != Some(t) then Outcome(accounts, NotFound)
    else if Taken(accounts, email, Some(t), Some(u)) then Outcome(accounts, Conflict)
    else Outcome(accounts[u := accounts[u].(email := email)], Done)
  }

  function Delete(accounts: Accounts, u: Id, t: Id): Outcome {
    if u !in accounts || accounts[u].tenant != Some(t) then Outcome(accounts, NotFound)
    else Outcome(accounts - {u}, Done)
  }

  // ---------- tenants and their switches ----------

  predicate Open(w: World, t: Id) {
    t in w.tenants && w.tenants[t].sso
  }

  function Put(w: World, o: Outcome): Next {
    Next(w.(accounts := o.accounts), o.answer)
  }

  /** A write that comes with a new tenant, whose switches are off. */
  function Found(w: World, o: Outcome, t: Id): Next {
    if o.answer == Done then Next(World(o.accounts, w.tenants[t := Switches(false, false)]), Done)
    else Next(w, o.answer)
  }

  /** The tenant must exist and have Google sign-on enabled. */
  ghost function TenantFlow(w: World, profile: Profile, t: Id, member: bool, u: Id): Next {
    if t !in w.tenants then Next(w, NotFound)
    else if !w.tenants[t].sso then Next(w, Forbidden)
    else Put(w, SignInToTenant(w.accounts, profile, t, w.tenants[t].provision, member, u))
  }

  function UpdateSettings(w: World, t: Id, sso: Option<bool>, provision: Option<bool>): Next {
    if t !in w.tenants then Next(w, NotFound)
    else
      var now := w.tenants[t];
      Next(w.(tenants := w.tenants[t := Switches(if sso.Some? then sso.value else now.sso,
                                                 if provision.Some? then provision.value else now.provision)]), Done)
  }

  // ---------- runs ----------

  /** `OpCreate` adds a user with a password, by an administrator or by accepting an invitation. */
  datatype Op =
    | OpRegister(u: Id, email: string, secret: string)
    | OpCreate(u: Id, t: Id, email: string, secret: string)
    | OpFoundWithAdmin(u: Id, t: Id, email: string, secret: string)
    | OpFound(u: Id, t: Id)
    | OpJoin(u: Id, t: Id)
    | OpSettings(t: Id, sso: Option<bool>, provision: Option<bool>)
    | OpAcceptByGoogle(u: Id, t: Id, profile: Profile)
    | OpSignInToTenant(u: Id, t: Id, profile: Profile, member: bool)
    | OpSignInTenantless(u: Id, profile: Profile)
    | OpLink(u: Id, profile: Profile)
    | OpUnlink(u: Id)
    | OpSetPassword(u: Id, secret: string)
    | OpReset(u: Id, verified: bool, secret: string)
    | OpChangeEmail(u: Id, t: Id, email: string)
    | OpDelete(u: Id, t: Id)

  ghost function Step(w: World, op: Op): Next {
    match op
    case OpRegister(u, email, secret) => Put(w, Register(w.accounts, u, email, secret))
    case OpCreate(u, t, email, secret) =>
      if t !in w.tenants then Next(w, Constraint)
      else Put(w, Insert(w.accounts, u, WithPassword(email, Some(t), secret)))
    case OpFoundWithAdmin(u, t, email, secret) =>
      Found(w, Insert(w.accounts, u, WithPassword(email, Some(t), secret)), t)
    case OpFound(u, t) => Found(w, EnterTenant(w.accounts, u, t), t)
    case OpJoin(u, t) => if t !in w.tenants then Next(w, Constraint) else Put(w, EnterTenant(w.accounts, u, t))
    case OpSettings(t, sso, provision) => UpdateSettings(w, t, sso, provision)
    case OpAcceptByGoogle(u, t, profile) =>
      if !Open(w, t) then Next(w, BadRequest) else Put(w, Insert(w.accounts, u, WithGoogle(profile, Some(t))))
    case OpSignInToTenant(u, t, profile, member) => TenantFlow(w, profile, t, member, u)
    case OpSignInTenantless(u, profile) => Put(w, SignInTenantless(w.accounts, profile, u))
    case OpLink(u, profile) => Put(w, Link(w.accounts, u, profile))
    case OpUnlink(u) => Put(w, Unlink(w.accounts, u))
    case OpSetPassword(u, secret) => Put(w, SetPassword(w.accounts, u, secret))
    case OpReset(u, verified, secret) => Put(w, Reset(w.accounts, u, verified, secret))
    case OpChangeEmail(u, t, email) => Put(w, ChangeEmail(w.accounts, u, t, email))
    case OpDelete(u, t) => Put(w, Delete(w.accounts, u, t))
  }

  predicate Creates(op: Op) {
    op.OpRegister? || op.OpCreate? || op.OpFoundWithAdmin? || op.OpAcceptByGoogle? || op.OpSignInToTenant?
      || op.OpSignInTenantless?
  }

  /** New accounts and tenants get identifiers not in use. */
  predicate Possible(w: World, op: Op) {
    && (Creates(op) ==> op.u !in w.accounts)
    && (op.OpFoundWithAdmin? || op.OpFound? ==> op.t !in w.tenants)
  }

  ghost function Run(w: World, ops: seq<Op>): World
    decreases ops
  {
    if ops == [] then w else Run(Step(w, ops[0]).world, ops[1..])
  }

  ghost predicate PossibleRun(w: World, ops: seq<Op>)
    decreases ops
  {
    ops == [] || (Possible(w, ops[0]) && PossibleRun(Step(w, ops[0]).world, ops[1..]))
  }

  // ---------- the invariant ----------

  ghost predicate Consistent(row: Account) {
    && row.methods != []
    && Distinct(row.methods)
    && (Google in row.methods <==> row.googleId.Some?)
    && (Password in row.methods <==> row.secret.Some?)
  }

  predicate SameIdentity(a: Account, b: Account) {
    a.googleId.Some? && a.googleId == b.googleId
  }

  predicate SameAddress(a: Account, b: Account) {
    a.email == b.email && a.tenant == b.tenant
  }

  ghost predicate Sane(accounts: Accounts) {
    && (forall u :: u in accounts ==> Consistent(accounts[u]))
    && (forall u, v :: u in accounts && v in accounts && SameIdentity(accounts[u], accounts[v]) ==> u == v)
    && (forall u, v :: u in accounts && v in accounts && SameAddress(accounts[u], accounts[v]) ==> u == v)
  }

  /** Writing one consistent row whose Google identifier and address nobody else has. */
  lemma WriteKeepsSane(accounts: Accounts, u: Id, row: Account)
    requires Sane(accounts) && Consistent(row)
    requires forall v :: v in accounts && v != u && row.googleId.Some? ==> accounts[v].googleId != row.googleId
    requires forall v :: v in accounts && v != u ==> accounts[v].email != row.email || accounts[v].tenant != row.tenant
    ensures Sane(accounts[u := row])
  {
  }

  lemma LinkRowConsistent(row: Account, google: nat)
    requires Consistent(row)
    ensures Consistent(LinkRow(row, google))
  {
  }

  lemma PasswordRowConsistent(row: Account, secret: string)
    requires Consistent(row)
    ensures Consistent(PasswordRow(row, secret))
  {
  }

  lemma {:induction false} WithoutGoogleExactly(methods: seq<Method>)
    ensures Google !in WithoutGoogle(methods) && (Password in WithoutGoogle(methods) <==> Password in methods)
    ensures Distinct(methods) ==> Distinct(WithoutGoogle(methods))
    ensures WithoutGoogle(methods) == [] <==> Password !in methods
  {
    if methods != [] {
      WithoutGoogleExactly(methods[1..]);
      if Distinct(methods) {
        assert Distinct(methods[1..]);
        assert forall m :: m in WithoutGoogle(methods[1..]) ==> m in methods[1..];
      }
    }
  }

  lemma InsertKeepsSane(accounts: Accounts, u: Id, row: Account)
    requires Sane(accounts) && Consistent(row) && u !in accounts
    ensures Sane(Insert(accounts, u, row).accounts)
  {
    if Insert(accounts, u, row).answer == Done {
      WriteKeepsSane(accounts, u, row);
    }
  }

  lemma LinkKeepsSane(accounts: Accounts, u: Id, profile: Profile)
    requires Sane(accounts)
    ensures Sane(Link(accounts, u, profile).accounts)
    ensures u in accounts && !Linked(accounts, profile.id) ==> Sane(AutoLink(accounts, u, profile).accounts)
  {
    if u in accounts {
      LinkRowConsistent(accounts[u], profile.id);
      if Link(accounts, u, profile).answer == Done || !Linked(accounts, profile.id) {
        WriteKeepsSane(accounts, u, LinkRow(accounts[u], profile.id));
      }
    }
  }

  lemma UnlinkKeepsSane(accounts: Accounts, u: Id)
    requires Sane(accounts)
    ensures Sane(Unlink(accounts, u).accounts)
  {
    var o := Unlink(accounts, u);
    if o.answer == Done {
      WithoutGoogleExactly(accounts[u].methods);
      WriteKeepsSane(accounts, u, o.accounts[u]);
    }
  }

  lemma PasswordKeepsSane(accounts: Accounts, u: Id, verified: bool, secret: string)
    requires Sane(accounts)
    ensures Sane(SetPassword(accounts, u, secret).accounts) && Sane(Reset(accounts, u, verified, secret).accounts)
  {
    if u in accounts {
      PasswordRowConsistent(accounts[u], secret);
      WriteKeepsSane(accounts, u, PasswordRow(accounts[u], secret));
    }
  }

  lemma SignInKeepsSane(accounts: Accounts, profile: Profile, t: Id, provision: bool, member: bool, u: Id)
    requires Sane(accounts) && u !in accounts
    ensures Sane(SignInToTenant(accounts, profile, t, provision, member, u).accounts)
    ensures Sane(SignInTenantless(accounts, profile, u).accounts)
  {
    if !Linked(accounts, profile.id) {
      ProvisionKeepsSane(accounts, profile, Some(t), u);
      ProvisionKeepsSane(accounts, profile, None, u);
    }
  }

  lemma ProvisionKeepsSane(accounts: Accounts, profile: Profile, tenant: Option<Id>, u: Id)
    requires Sane(accounts) && u !in accounts && !Linked(accounts, profile.id)
    ensures Taken(accounts, profile.email, tenant, None) ==>
      Sane(AutoLink(accounts, Addressed(accounts, profile.email, tenant), profile).accounts)
    ensures !Taken(accounts, profile.email, tenant, None) ==> Sane(accounts[u := WithGoogle(profile, tenant)])
  {
  }

  lemma MovesKeepSane(accounts: Accounts, u: Id, t: Id, email: string)
    requires Sane(accounts)
    ensures Sane(EnterTenant(accounts, u, t).accounts) && Sane(ChangeEmail(accounts, u, t, email).accounts)
    ensures Sane(Delete(accounts, u, t).accounts)
  {
    var a, b := EnterTenant(accounts, u, t), ChangeEmail(accounts, u, t, email);
    if a.answer == Done {
      WriteKeepsSane(accounts, u, a.accounts[u]);
    }
    if b.answer == Done {
      WriteKeepsSane(accounts, u, b.accounts[u]);
    }
  }

  lemma StepKeepsSane(w: World, op: Op)
    requires Sane(w.accounts) && Possible(w, op)
    ensures Sane(Step(w, op).world.accounts)
  {
    var accounts := w.accounts;
    match op
    case OpRegister(u, email, secret) => InsertKeepsSane(accounts, u, WithPassword(email, None, secret));
    case OpCreate(u, t, email, secret) => InsertKeepsSane(accounts, u, WithPassword(email, Some(t), secret));
    case OpFoundWithAdmin(u, t, email, secret) => InsertKeepsSane(accounts, u, WithPassword(email, Some(t), secret));
    case OpFound(u, t) => MovesKeepSane(accounts, u, t, "");
    case OpJoin(u, t) => MovesKeepSane(accounts, u, t, "");
    case OpSettings(_, _, _) =>
    case OpAcceptByGoogle(u, t, profile) => InsertKeepsSane(accounts, u, WithGoogle(profile, Some(t)));
    case OpSignInToTenant(u, t, profile, member) =>
      if Open(w, t) {
        SignInKeepsSane(accounts, profile, t, w.tenants[t].provision, member, u);
      }
    case OpSignInTenantless(u, profile) => SignInKeepsSane(accounts, profile, 0, false, false, u);
    case OpLink(u, profile) => LinkKeepsSane(accounts, u, profile);
    case OpUnlink(u) => UnlinkKeepsSane(accounts, u);
    case OpSetPassword(u, secret) => PasswordKeepsSane(accounts, u, false, secret);
    case OpReset(u, verified, secret) => PasswordKeepsSane(accounts, u, verified, secret);
    case OpChangeEmail(u, t, email) => MovesKeepSane(accounts, u, t, email);
    case OpDelete(u, t) => MovesKeepSane(accounts, u, t, "");
  }

  lemma {:induction false} RunKeepsSane(w: World, ops: seq<Op>)
    requires Sane(w.accounts) && PossibleRun(w, ops)
    ensures Sane(Run(w, ops).accounts)
    decreases ops
  {
    if ops != [] {
      StepKeepsSane(w, ops[0]);
      RunKeepsSane(Step(w, ops[0]).world, ops[1..]);
    }
  }

  // ---------- who can sign in ----------

  /** Some password signs the account in. */
  ghost predicate PasswordWorks(w: World, u: Id)
    requires u in w.accounts
  {
    exists secret :: Login(w.accounts, w.accounts[u].email, w.accounts[u].tenant, secret) == SignedIn(u)
  }

  /** The flow a Google user of this tenant, or of none, goes through. */
  ghost function GoogleFlow(w: World, profile: Profile, tenant: Option<Id>, member: bool, spare: Id): Next {
    match tenant
    case Some(t) => TenantFlow(w, profile, t, member, spare)
    case None => Put(w, SignInTenantless(w.accounts, profile, spare))
  }

  /** The linked Google identity signs the account in and changes nothing. */
  ghost predicate GoogleWorks(w: World, u: Id)
    requires u in w.accounts
  {
    var row := w.accounts[u];
    exists id: nat :: row.googleId == Some(id) && forall member, spare ::
      GoogleFlow(w, Profile(id, row.email), row.tenant, member, spare) == Next(w, SignedIn(u))
  }

  /** No password, and no Google identity through any flow, linked or not, signs the account in. */
  ghost predicate LockedOut(w: World, u: Id)
    requires u in w.accounts
  {
    && (forall email, tenant, secret :: Login(w.accounts, email, tenant, secret) != SignedIn(u))
    && (forall profile, tenant, member, spare :: spare != u ==>
      GoogleFlow(w, profile, tenant, member, spare).answer != SignedIn(u))
  }

  /** The account has no tenant, or one with Google sign-on enabled. */
  predicate GoogleOpen(w: World, u: Id)
    requires u in w.accounts
  {
    w.accounts[u].tenant.Some? ==> Open(w, w.accounts[u].tenant.value)
  }

  lemma PasswordWorksExactly(w: World, u: Id)
    requires Sane(w.accounts) && u in w.accounts
    ensures Password in w.accounts[u].methods <==> PasswordWorks(w, u)
  {
    var row := w.accounts[u];
    assert Taken(w.accounts, row.email, row.tenant, None) && Addressed(w.accounts, row.email, row.tenant) == u;
    if Password in row.methods {
      assert Login(w.accounts, row.email, row.tenant, row.secret.value) == SignedIn(u);
    }
  }

  lemma GoogleWorksExactly(w: World, u: Id)
    requires Sane(w.accounts) && u in w.accounts
    ensures Google in w.accounts[u].methods && GoogleOpen(w, u) <==> GoogleWorks(w, u)
  {
    var row := w.accounts[u];
    if row.googleId.Some? {
      var id := row.googleId.value;
      assert Linked(w.accounts, id) && LinkedTo(w.accounts, id) == u;
      assert GoogleFlow(w, Profile(id, row.email), row.tenant, true, u + 1).answer == SignedIn(u) ==> GoogleOpen(w, u);
    }
  }

  lemma LoginIsOwn(w: World, u: Id, email: string, tenant: Option<Id>, secret: string)
    requires u in w.accounts && Login(w.accounts, email, tenant, secret) == SignedIn(u)
    ensures w.accounts[u].secret.Some?
  {
  }

  lemma FlowIsOwn(w: World, u: Id, profile: Profile, tenant: Option<Id>, member: bool, spare: Id)
    requires u in w.accounts && spare != u && GoogleFlow(w, profile, tenant, member, spare).answer == SignedIn(u)
    ensures w.accounts[u].tenant == tenant && GoogleOpen(w, u)
  {
  }

  /** After any run, an account can sign in, by its own password or its own Google identity, exactly when
      `password` is listed, or `google` is and the account has no tenant or one with the switch on; each of
      the two ways works exactly under its own part of that; and otherwise no way at all signs it in. */
  lemma SignsInExactly(ops: seq<Op>, u: Id)
    requires PossibleRun(Start, ops) && u in Run(Start, ops).accounts
    ensures var w := Run(Start, ops); var methods := w.accounts[u].methods;
      && (PasswordWorks(w, u) <==> Password in methods)
      && (GoogleWorks(w, u) <==> Google in methods && GoogleOpen(w, u))
      && (Password in methods || Google in methods)
      && (LockedOut(w, u) <==> !(Password in methods || (Google in methods && GoogleOpen(w, u))))
  {
    RunKeepsSane(Start, ops);
    LockedOutExactly(Run(Start, ops), u);
  }

  lemma LockedOutExactly(w: World, u: Id)
    requires Sane(w.accounts) && u in w.accounts
    ensures var methods := w.accounts[u].methods;
      && (PasswordWorks(w, u) <==> Password in methods)
      && (GoogleWorks(w, u) <==> Google in methods && GoogleOpen(w, u))
      && (Password in methods || Google in methods)
      && (LockedOut(w, u) <==> !(Password in methods || (Google in methods && GoogleOpen(w, u))))
  {
    var methods := w.accounts[u].methods;
    PasswordWorksExactly(w, u);
    GoogleWorksExactly(w, u);
    assert methods[0] in methods && (methods[0].Google? || methods[0].Password?);
    if !(Password in methods || (Google in methods && GoogleOpen(w, u))) {
      NoWayIn(w, u);
    } else if LockedOut(w, u) {
      WayIn(w, u);
    }
  }

  lemma NoWayIn(w: World, u: Id)
    requires u in w.accounts && w.accounts[u].secret == None && !GoogleOpen(w, u)
    ensures LockedOut(w, u)
  {
    forall email, tenant, secret ensures Login(w.accounts, email, tenant, secret) != SignedIn(u) {
      if Login(w.accounts, email, tenant, secret) == SignedIn(u) {
        LoginIsOwn(w, u, email, tenant, secret);
      }
    }
    forall profile, tenant, member, spare | spare != u
      ensures GoogleFlow(w, profile, tenant, member, spare).answer != SignedIn(u)
    {
      if GoogleFlow(w, profile, tenant, member, spare).answer == SignedIn(u) {
        FlowIsOwn(w, u, profile, tenant, member, spare);
      }
    }
  }

  lemma WayIn(w: World, u: Id)
    requires u in w.accounts && (PasswordWorks(w, u) || GoogleWorks(w, u))
    ensures !LockedOut(w, u)
  {
    var row := w.accounts[u];
    if PasswordWorks(w, u) {
      var secret :| Login(w.accounts, row.email, row.tenant, secret) == SignedIn(u);
    } else {
      var id: nat :| row.googleId == Some(id) && forall member, spare ::
        GoogleFlow(w, Profile(id, row.email), row.tenant, member, spare) == Next(w, SignedIn(u));
      assert GoogleFlow(w, Profile(id, row.email), row.tenant, true, u + 1).answer == SignedIn(u);
    }
  }

  // ---------- the founder ----------

  /** Founding a tenant locks its founder out exactly when it has no password. */
  lemma FoundingLocksOutExactly(w: World, u: Id, t: Id)
    requires Sane(w.accounts) && t !in w.tenants && Step(w, OpFound(u, t)).answer == Done
    ensures var next := Step(w, OpFound(u, t)).world;
      u in next.accounts && next.accounts[u].methods == w.accounts[u].methods
      && (LockedOut(next, u) <==> Password !in w.accounts[u].methods)
  {
    StepKeepsSane(w, OpFound(u, t));
    LockedOutExactly(Step(w, OpFound(u, t)).world, u);
  }

  /** It does happen: sign up with Google without a tenant, found one, and nothing signs you in any more. */
  lemma GoogleFounderIsLockedOut(u: Id, t: Id, profile: Profile)
    ensures var ops := [OpSignInTenantless(u, profile), OpFound(u, t)];
      && PossibleRun(Start, ops) && u in Run(Start, ops).accounts
      && Run(Start, ops).accounts[u].methods == [Google] && LockedOut(Run(Start, ops), u)
  {
    var ops := [OpSignInTenantless(u, profile), OpFound(u, t)];
    var one := Step(Start, ops[0]).world;
    assert one == World(map[u := WithGoogle(profile, None)], map[]);
    assert Sane(one.accounts) && Step(one, ops[1]).answer == Done;
    FoundingLocksOutExactly(one, u, t);
    var two := Step(one, ops[1]).world;
    assert ops[1..] == [ops[1]] && ops[1..][1..] == [];
    assert Run(one, ops[1..]) == Run(two, []) == two;
    assert PossibleRun(one, ops[1..]);
  }

  /** A verified reset gets any account back in, and so does switching Google sign-on on for a linked one. */
  lemma WaysBack(w: World, u: Id, secret: string, provision: Option<bool>)
    requires Sane(w.accounts) && u in w.accounts
    ensures PasswordWorks(Step(w, OpReset(u, true, secret)).world, u)
    ensures w.accounts[u].tenant.Some? && w.accounts[u].tenant.value in w.tenants && Google in w.accounts[u].methods ==>
      GoogleWorks(Step(w, OpSettings(w.accounts[u].tenant.value, Some(true), provision)).world, u)
  {
    var reset := Step(w, OpReset(u, true, secret)).world;
    StepKeepsSane(w, OpReset(u, true, secret));
    PasswordWorksExactly(reset, u);
    if w.accounts[u].tenant.Some? {
      GoogleWorksExactly(Step(w, OpSettings(w.accounts[u].tenant.value, Some(true), provision)).world, u);
    }
  }

  // ---------- linking and unlinking ----------

  /** Unlinking works just when the account is linked and has a password besides. */
  lemma UnlinkExactly(accounts: Accounts, u: Id)
    requires Sane(accounts) && u in accounts
    ensures Unlink(accounts, u).answer == Done <==> accounts[u].googleId.Some? && accounts[u].secret.Some?
    ensures Unlink(accounts, u).answer == Done ==>
      Unlink(accounts, u).accounts[u] == accounts[u].(googleId := None, methods := [Password])
  {
    WithoutGoogleExactly(accounts[u].methods);
    if Unlink(accounts, u).answer == Done {
      OnlyPassword(WithoutGoogle(accounts[u].methods));
    }
  }

  lemma OnlyPassword(methods: seq<Method>)
    requires methods != [] && Google !in methods && Distinct(methods)
    ensures methods == [Password]
  {
    forall m | m in Elements(methods) ensures m == Password {
      assert m.Google? || m.Password?;
    }
    PigeonHole(methods);
    SubsetSize(Elements(methods), {Password});
    assert methods[0] in methods;
  }

  /** Unlinking undoes linking: an account that was not linked is as before. */
  lemma UnlinkUndoesLink(accounts: Accounts, u: Id, profile: Profile)
    requires Sane(accounts) && u in accounts && accounts[u].googleId == None
      && Link(accounts, u, profile).answer == Done
    ensures Unlink(Link(accounts, u, profile).accounts, u) == Outcome(accounts, Done)
  {
    var mid := Link(accounts, u, profile).accounts;
    LinkKeepsSane(accounts, u, profile);
    UnlinkExactly(mid, u);
    OnlyPassword(accounts[u].methods);
    assert mid[u].secret == accounts[u].secret;
  }

  /** Setting a password and unlinking turns a Google-only account into a password-only one, and never
      without a password set in between. */
  lemma GoogleOnlyNeedsPasswordFirst(accounts: Accounts, u: Id, secret: string)
    requires Sane(accounts) && u in accounts && accounts[u].methods == [Google]
    ensures Unlink(accounts, u) == Outcome(accounts, BadRequest)
    ensures var mid := SetPassword(accounts, u, secret);
      mid.answer == Done && Unlink(mid.accounts, u).answer == Done
      && Unlink(mid.accounts, u).accounts[u] ==
        accounts[u].(googleId := None, secret := Some(secret), methods := [Password])
  {
    assert accounts[u].secret == None;
    var mid := SetPassword(accounts, u, secret).accounts;
    PasswordKeepsSane(accounts, u, false, secret);
    UnlinkExactly(accounts, u);
    UnlinkExactly(mid, u);
  }

  ghost predicate SignsInWithOnly(w: World, next: World, u: Id, secret: string) {
    && u in w.accounts && u in next.accounts && next.accounts[u].googleId == w.accounts[u].googleId
    && forall other ::
      Login(next.accounts, w.accounts[u].email, w.accounts[u].tenant, other) == SignedIn(u) <==> other == secret
  }

  /** A first password can be set just when there is none; it then signs the account in, and no other does,
      while a linked Google identity stays. */
  lemma SetPasswordExactly(w: World, u: Id, secret: string)
    requires Sane(w.accounts) && u in w.accounts
    ensures Step(w, OpSetPassword(u, secret)).answer == Done <==> Password !in w.accounts[u].methods
    ensures Step(w, OpSetPassword(u, secret)).answer == Done ==>
      SignsInWithOnly(w, Step(w, OpSetPassword(u, secret)).world, u, secret)
  {
    var next := Step(w, OpSetPassword(u, secret)).world.accounts;
    StepKeepsSane(w, OpSetPassword(u, secret));
    assert Taken(next, next[u].email, next[u].tenant, None) && Addressed(next, next[u].email, next[u].tenant) == u;
  }

  // ---------- one account at a time ----------

  /** The account an operation works on, if any. */
  ghost function Target(w: World, op: Op): Option<Id> {
    match op
    case OpSettings(_, _, _) => None
    case OpSignInToTenant(u, t, profile, _) => Some(SignInTarget(w.accounts, profile, Some(t), u))
    case OpSignInTenantless(u, profile) => Some(SignInTarget(w.accounts, profile, None, u))
    case _ => Some(op.u)
  }

  ghost function SignInTarget(accounts: Accounts, profile: Profile, tenant: Option<Id>, u: Id): Id {
    if Linked(accounts, profile.id) then LinkedTo(accounts, profile.id)
    else if Taken(accounts, profile.email, tenant, None) then Addressed(accounts, profile.email, tenant)
    else u
  }

  lemma StepIsLocal(w: World, op: Op, v: Id)
    requires v in w.accounts && Target(w, op) != Some(v)
    ensures v in Step(w, op).world.accounts && Step(w, op).world.accounts[v] == w.accounts[v]
  {
  }

  ghost predicate Untouched(w: World, ops: seq<Op>, v: Id)
    decreases ops
  {
    ops == [] || (Target(w, ops[0]) != Some(v) && Untouched(Step(w, ops[0]).world, ops[1..], v))
  }

  /** No run of operations on other accounts, or on settings, changes an account's row. */
  lemma {:induction false} OthersChangeNothing(w: World, ops: seq<Op>, v: Id)
    requires v in w.accounts && Untouched(w, ops, v)
    ensures v in Run(w, ops).accounts && Run(w, ops).accounts[v] == w.accounts[v]
    decreases ops
  {
    if ops != [] {
      StepIsLocal(w, ops[0], v);
      OthersChangeNothing(Step(w, ops[0]).world, ops[1..], v);
    }
  }

  // ---------- when an identity stops finding its account ----------

  /** Unlinking, deletion, linking another identity, or a sign-in by an unlinked identity of the same email,
      with the account's tenant when that is open, or without one when it has none. */
  ghost predicate Loses(w: World, op: Op, u: Id)
    requires u in w.accounts
  {
    var row := w.accounts[u];
    match op
    case OpUnlink(v) => v == u && Password in row.methods
    case OpDelete(v, t) => v == u && row.tenant == Some(t)
    case OpLink(v, profile) => v == u && row.email == profile.email && !Linked(w.accounts, profile.id)
    case OpSignInToTenant(_, t, profile, _) =>
      Open(w, t) && row.tenant == Some(t) && row.email == profile.email && !Linked(w.accounts, profile.id)
    case OpSignInTenantless(_, profile) =>
      row.tenant == None && row.email == profile.email && !Linked(w.accounts, profile.id)
    case _ => false
  }

  lemma LinkedElsewhere(accounts: Accounts, next: Accounts, u: Id, former: nat)
    requires Sane(accounts) && u in accounts && accounts[u].googleId == Some(former)
    requires forall v :: v in next && v != u ==> next[v].googleId != Some(former)
    ensures Linked(next, former) <==> u in next && next[u].googleId == Some(former)
  {
  }

  lemma SignInLoses(accounts: Accounts, profile: Profile, tenant: Option<Id>, u: Id, former: nat)
    requires Sane(accounts) && u in accounts && accounts[u].googleId == Some(former) && !Linked(accounts, profile.id)
    requires Taken(accounts, profile.email, tenant, None)
    ensures var v := Addressed(accounts, profile.email, tenant);
      (v == u <==> accounts[u].email == profile.email && accounts[u].tenant == tenant)
      && (Linked(AutoLink(accounts, v, profile).accounts, former) <==> v != u)
  {
    var v := Addressed(accounts, profile.email, tenant);
    var next := AutoLink(accounts, v, profile).accounts;
    assert v != u ==> next[u].googleId == Some(former);
    assert profile.id != former by { assert accounts[u].googleId == Some(former); }
  }

  lemma FlowLosesExactly(w: World, profile: Profile, tenant: Option<Id>, member: bool, spare: Id, u: Id, former: nat)
    requires Sane(w.accounts) && u in w.accounts && w.accounts[u].googleId == Some(former) && spare !in w.accounts
    ensures !Linked(GoogleFlow(w, profile, tenant, member, spare).world.accounts, former) <==>
      && (tenant.Some? ==> Open(w, tenant.value)) && !Linked(w.accounts, profile.id)
      && w.accounts[u].tenant == tenant && w.accounts[u].email == profile.email
  {
    var next := GoogleFlow(w, profile, tenant, member, spare).world.accounts;
    if (tenant.Some? && !Open(w, tenant.value)) || Linked(w.accounts, profile.id) {
      assert next == w.accounts;
    } else if Taken(w.accounts, profile.email, tenant, None) {
      SignInLoses(w.accounts, profile, tenant, u, former);
    } else {
      assert u in next && next[u] == w.accounts[u];
    }
  }

  lemma UnlinkLosesExactly(accounts: Accounts, v: Id, u: Id, former: nat)
    requires Sane(accounts) && u in accounts && accounts[u].googleId == Some(former)
    ensures !Linked(Unlink(accounts, v).accounts, former) <==> v == u && Password in accounts[u].methods
  {
    var next := Unlink(accounts, v).accounts;
    if v in accounts {
      UnlinkExactly(accounts, v);
    }
    LinkedElsewhere(accounts, next, u, former);
  }

  lemma DeletionLosesExactly(accounts: Accounts, v: Id, t: Id, u: Id, former: nat)
    requires Sane(accounts) && u in accounts && accounts[u].googleId == Some(former)
    ensures !Linked(Delete(accounts, v, t).accounts, former) <==> v == u && accounts[u].tenant == Some(t)
  {
    LinkedElsewhere(accounts, Delete(accounts, v, t).accounts, u, former);
  }

  lemma LinkLosesExactly(accounts: Accounts, v: Id, profile: Profile, u: Id, former: nat)
    requires Sane(accounts) && u in accounts && accounts[u].googleId == Some(former)
    ensures !Linked(Link(accounts, v, profile).accounts, former) <==>
      v == u && accounts[u].email == profile.email && !Linked(accounts, profile.id)
  {
    if profile.id != former {
      LinkedElsewhere(accounts, Link(accounts, v, profile).accounts, u, former);
    } else {
      assert Link(accounts, v, profile).accounts[u].googleId == Some(former);
    }
  }

  lemma OthersKeepIdentity(w: World, op: Op, u: Id)
    requires Possible(w, op) && u in w.accounts
    requires !op.OpUnlink? && !op.OpDelete? && !op.OpLink? && !op.OpSignInToTenant? && !op.OpSignInTenantless?
    ensures u in Step(w, op).world.accounts && Step(w, op).world.accounts[u].googleId == w.accounts[u].googleId
  {
  }

  /** One operation makes a linked identity stop finding its account exactly when it is one of those. */
  lemma IdentityLostExactly(w: World, op: Op, u: Id, former: nat)
    requires Sane(w.accounts) && Possible(w, op) && u in w.accounts && w.accounts[u].googleId == Some(former)
    ensures LinkedTo(w.accounts, former) == u
    ensures !Linked(Step(w, op).world.accounts, former) <==> Loses(w, op, u)
  {
    if op.OpUnlink? {
      UnlinkLosesExactly(w.accounts, op.u, u, former);
    } else if op.OpDelete? {
      DeletionLosesExactly(w.accounts, op.u, op.t, u, former);
    } else if op.OpLink? {
      LinkLosesExactly(w.accounts, op.u, op.profile, u, former);
    } else if op.OpSignInToTenant? {
      FlowLosesExactly(w, op.profile, Some(op.t), op.member, op.u, u, former);
    } else if op.OpSignInTenantless? {
      FlowLosesExactly(w, op.profile, None, false, op.u, u, former);
    } else {
      OthersKeepIdentity(w, op, u);
    }
  }

  // ---------- the services over the user table ----------

  class AccountStore {
    var accounts: Accounts
    var tenants: map<Id, Switches>

    constructor ()
      ensures State() == Start
    {
      accounts, tenants := map[], map[];
    }

    ghost function State(): World
      reads this
    {
      World(accounts, tenants)
    }

    method FindByGoogleId(google: nat) returns (found: Option<Id>)
      requires Sane(accounts)
      ensures found == if Linked(accounts, google) then Some(LinkedTo(accounts, google)) else None
    {
      if exists u :: u in accounts && accounts[u].googleId == Some(google) {
        var u :| u in accounts && accounts[u].googleId == Some(google);
        return Some(u);
      }
      return None;
    }

    method FindByEmail(email: string, tenant: Option<Id>) returns (found: Option<Id>)
      requires Sane(accounts)
      ensures found == if Taken(accounts, email, tenant, None) then Some(Addressed(accounts, email, tenant)) else None
    {
      if exists u :: u in accounts && accounts[u].email == email && accounts[u].tenant == tenant {
        var u :| u in accounts && accounts[u].email == email && accounts[u].tenant == tenant;
        return Some(u);
      }
      return None;
    }

    method LinkInternal(u: Id, profile: Profile)
      requires u in accounts
      modifies this`accounts
      ensures accounts == AutoLink(old(accounts), u, profile).accounts
    {
      var methods := accounts[u].methods;
      if Google !in methods {
        methods := methods + [Google];
      }
      accounts := accounts[u := accounts[u].(googleId := Some(profile.id), methods := methods)];
    }

    method LinkGoogleAccount(u: Id, profile: Profile) returns (answer: Answer)
      requires Sane(accounts)
      modifies this`accounts
      ensures Outcome(accounts, answer) == Link(old(accounts), u, profile)
    {
      if u !in accounts { return NotFound; }
      if accounts[u].email != profile.email { return BadRequest; }
      var holder := FindByGoogleId(profile.id);
      if holder.Some? && holder.value != u { return Conflict; }
      LinkInternal(u, profile);
      return Done;
    }

    method UnlinkGoogleAccount(u: Id) returns (answer: Answer)
      modifies this`accounts
      ensures Outcome(accounts, answer) == Unlink(old(accounts), u)
    {
      if u !in accounts { return NotFound; }
      if accounts[u].googleId == None { return BadRequest; }
      var others := WithoutGoogle(accounts[u].methods);
      if |others| == 0 { return BadRequest; }
      accounts := accounts[u := accounts[u].(googleId := None, methods := others)];
      return Done;
    }

    method SetUserPassword(u: Id, secret: string) returns (answer: Answer)
      modifies this`accounts
      ensures Outcome(accounts, answer) == SetPassword(old(accounts), u, secret)
    {
      if u !in accounts { return Unauthorized; }
      if accounts[u].secret.Some? { return Conflict; }
      var methods := accounts[u].methods;
      if Password !in methods {
        methods := methods + [Password];
      }
      accounts := accounts[u := accounts[u].(secret := Some(secret), methods := methods)];
      return Done;
    }

    /** `email` and `tenant` find the account; the code check answers `verified`. */
    method ResetPasswordWithOtp(email: string, tenant: Option<Id>, verified: bool, secret: string)
      returns (answer: Answer, ghost found: Option<Id>)
      modifies this`accounts
      ensures found.Some? ==> Matches(old(accounts), found.value, email, tenant)
      ensures found.Some? ==> Outcome(accounts, answer) == Reset(old(accounts), found.value, verified, secret)
      ensures found.None? ==> forall v :: !Matches(old(accounts), v, email, tenant)
      ensures found.None? ==> accounts == old(accounts) && answer == BadRequest
    {
      if !exists v :: v in accounts && Matches(accounts, v, email, tenant) { return BadRequest, None; }
      var u :| u in accounts && Matches(accounts, u, email, tenant);
      if !verified { return BadRequest, Some(u); }
      var methods := accounts[u].methods;
      if Password !in methods {
        methods := methods + [Password];
      }
      accounts := accounts[u := accounts[u].(secret := Some(secret), methods := methods)];
      return Done, Some(u);
    }

    static predicate Matches(accounts: Accounts, u: Id, email: string, tenant: Option<Id>) {
      u in accounts && accounts[u].email == email && (tenant.Some? ==> accounts[u].tenant == tenant)
    }

    method AuthenticateWithGoogle(profile: Profile, t: Id, member: bool, u: Id) returns (answer: Answer)
      requires Sane(accounts) && u !in accounts
      modifies this`accounts
      ensures Next(State(), answer) == TenantFlow(old(State()), profile, t, member, u)
    {
      if t !in tenants { return NotFound; }
      if !tenants[t].sso { return Forbidden; }
      var found := FindByGoogleId(profile.id);
      if found.Some? {
        if accounts[found.value].tenant != Some(t) { return Unauthorized; }
        return SignedIn(found.value);
      }
      found := FindByEmail(profile.email, Some(t));
      if found.Some? {
        LinkInternal(found.value, profile);
        return SignedIn(found.value);
      }
      if !tenants[t].provision { return Unauthorized; }
      if !member { return NotFound; }
      accounts := accounts[u := Account(profile.email, Some(t), None, Some(profile.id), [Google])];
      return SignedIn(u);
    }

    method AuthenticateTenantless(profile: Profile, u: Id) returns (answer: Answer)
      requires Sane(accounts) && u !in accounts
      modifies this`accounts
      ensures Outcome(accounts, answer) == SignInTenantless(old(accounts), profile, u)
    {
      var found := FindByGoogleId(profile.id);
      if found.Some? {
        if accounts[found.value].tenant != None { return BadRequest; }
        return SignedIn(found.value);
      }
      found := FindByEmail(profile.email, None);
      if found.Some? {
        LinkInternal(found.value, profile);
        return SignedIn(found.value);
      }
      accounts := accounts[u := Account(profile.email, None, None, Some(profile.id), [Google])];
      return SignedIn(u);
    }

    method LoginWithPassword(email: string, tenant: Option<Id>, secret: string) returns (answer: Answer)
      requires Sane(accounts)
      ensures answer == Login(accounts, email, tenant, secret)
    {
      var found := FindByEmail(email, tenant);
      if found == None { return Unauthorized; }
      if accounts[found.value].secret != Some(secret) { return Unauthorized; }
      return SignedIn(found.value);
    }

    /** A tenant-less user becomes the member of a new tenant, whose Google switches are written as off. */
    method CreateTenantForUser(u: Id, t: Id) returns (answer: Answer)
      modifies this
      ensures Next(State(), answer) == Found(old(State()), EnterTenant(old(accounts), u, t), t)
    {
      if u !in accounts { return NotFound; }
      if accounts[u].tenant != None { return Conflict; }
      var email := accounts[u].email;
      if exists v :: v in accounts && v != u && accounts[v].email == email && accounts[v].tenant == Some(t) {
        return Constraint;
      }
      tenants := tenants[t := Switches(false, false)];
      accounts := accounts[u := accounts[u].(tenant := Some(t))];
      return Done;
    }

    /** Only the settings given are written. */
    method UpdateGoogleSettings(t: Id, sso: Option<bool>, provision: Option<bool>) returns (answer: Answer)
      modifies this`tenants
      ensures Next(State(), answer) == UpdateSettings(old(State()), t, sso, provision)
    {
      if t !in tenants { return NotFound; }
      if sso.Some? { tenants := tenants[t := tenants[t].(sso := sso.value)]; }
      if provision.Some? { tenants := tenants[t := tenants[t].(provision := provision.value)]; }
      return Done;
    }
  }
}
