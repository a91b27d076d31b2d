/** Where an account's password comes from, and how accounts come to be: over every run the password that signs
    an account in is the last one that setting or a verified reset stored, and nothing else touches it. */
module AccountChanges {
  import opened Common
  import opened SignInMethods

  // ---------- one operation ----------

  /** A reset works just when the account is there and its code was verified. Refused, it changes nothing;
      otherwise only that account, whose password is then the new one. */
  lemma ResetExactly(accounts: Accounts, u: Id, verified: bool, secret: string)
    ensures Reset(accounts, u, verified, secret).answer == Done <==> u in accounts && verified
    ensures !(u in accounts && verified) ==> Reset(accounts, u, verified, secret) == Outcome(accounts, BadRequest)
    ensures u in accounts && verified ==> OnlySecret(accounts, Reset(accounts, u, verified, secret).accounts, u, secret)
  {
  }

  /** Only the password of account `u` has changed, and the method been added if it was missing. */
  predicate OnlySecret(accounts: Accounts, next: Accounts, u: Id, secret: string) {
    && u in accounts && u in next && next == accounts[u := next[u]]
    && next[u] == accounts[u].(secret := Some(secret), methods := next[u].methods)
    && (if Password in accounts[u].methods then next[u].methods == accounts[u].methods
        else next[u].methods == accounts[u].methods + [Password])
  }

  /** What an operation stores as the password of account `u`, if it stores one. */
  function Stores(op: Op, u: Id, current: Option<string>): Option<string> {
    if op.OpSetPassword? && op.u == u && current == None then Some(op.secret)
    else if op.OpReset? && op.u == u && op.verified then Some(op.secret)
    else current
  }

  lemma StepStores(w: World, op: Op, u: Id)
    requires Possible(w, op) && u in w.accounts && !(op.OpDelete? && op.u == u)
    ensures u in Step(w, op).world.accounts
    ensures Step(w, op).world.accounts[u].secret == Stores(op, u, w.accounts[u].secret)
  {
  }

  /** A password changes only where none was and one is set, or by a verified reset. */
  lemma SecretChangesExactly(w: World, op: Op, u: Id)
    requires Possible(w, op) && u in w.accounts && u in Step(w, op).world.accounts
    ensures var before, now := w.accounts[u].secret, Step(w, op).world.accounts[u].secret;
      before != now <==>
        || (op.OpSetPassword? && op.u == u && before == None)
        || (op.OpReset? && op.u == u && op.verified && before != Some(op.secret))
  {
  }

  // ---------- over runs ----------

  /** The last password that the operations store for account `u`. */
  function LastStored(ops: seq<Op>, u: Id, current: Option<string>): Option<string>
    decreases ops
  {
    if ops == [] then current else LastStored(ops[1..], u, Stores(ops[0], u, current))
  }

  predicate Spares(ops: seq<Op>, u: Id) {
    forall op :: op in ops ==> !(op.OpDelete? && op.u == u)
  }

  lemma {:induction false} RunStores(w: World, ops: seq<Op>, u: Id)
    requires PossibleRun(w, ops) && u in w.accounts && Spares(ops, u)
    ensures u in Run(w, ops).accounts
    ensures Run(w, ops).accounts[u].secret == LastStored(ops, u, w.accounts[u].secret)
    decreases ops
  {
    if ops != [] {
      StepStores(w, ops[0], u);
      RunStores(Step(w, ops[0]).world, ops[1..], u);
    }
  }

  /** Over any run that does not delete the account, a password signs it in exactly when it is the one last
      set, where there was none, or last reset, verified. */
  lemma SignsInWithLastStored(w: World, ops: seq<Op>, u: Id, secret: string)
    requires Sane(w.accounts) && PossibleRun(w, ops) && u in w.accounts && Spares(ops, u)
    ensures u in Run(w, ops).accounts
    ensures var row := Run(w, ops).accounts[u];
      Login(Run(w, ops).accounts, row.email, row.tenant, secret) == SignedIn(u) <==>
        LastStored(ops, u, w.accounts[u].secret) == Some(secret)
  {
    RunStores(w, ops, u);
    RunKeepsSane(w, ops);
    LoginExactly(Run(w, ops).accounts, u, secret);
  }

  lemma LoginExactly(accounts: Accounts, u: Id, secret: string)
    requires Sane(accounts) && u in accounts
    ensures Login(accounts, accounts[u].email, accounts[u].tenant, secret) == SignedIn(u) <==>
      accounts[u].secret == Some(secret)
  {
    assert Taken(accounts, accounts[u].email, accounts[u].tenant, None);
    assert SameAddress(accounts[Addressed(accounts, accounts[u].email, accounts[u].tenant)], accounts[u]);
  }

  // ---------- whom Google signs in, and how accounts come to be ----------

  predicate AddressFree(accounts: Accounts, email: string, tenant: Option<Id>) {
    forall v :: v in accounts ==> accounts[v].email != email || accounts[v].tenant != tenant
  }

  predicate IdentityFree(accounts: Accounts, google: nat) {
    forall v :: v in accounts ==> accounts[v].googleId != Some(google)
  }

  /** Registering needs an email nobody has in any tenant; adding a user, a free address in a tenant; being
      invited with Google, or signing in with it where nobody is known yet, a free address and identity,
      the tenant's switch and, for signing in, provisioning switched on and a default role; signing in
      without a tenant, a free address and identity. */
  predicate Admits(w: World, op: Op) {
    match op
    case OpRegister(_, email, _) => forall v :: v in w.accounts ==> w.accounts[v].email != email
    case OpCreate(_, t, email, _) => t in w.tenants && AddressFree(w.accounts, email, Some(t))
    case OpFoundWithAdmin(_, t, email, _) => AddressFree(w.accounts, email, Some(t))
    case OpAcceptByGoogle(_, t, profile) =>
      && t in w.tenants && w.tenants[t].sso
      && AddressFree(w.accounts, profile.email, Some(t)) && IdentityFree(w.accounts, profile.id)
    case OpSignInToTenant(_, t, profile, member) =>
      && t in w.tenants && w.tenants[t].sso && w.tenants[t].provision && member
      && AddressFree(w.accounts, profile.email, Some(t)) && IdentityFree(w.accounts, profile.id)
    case OpSignInTenantless(_, profile) =>
      AddressFree(w.accounts, profile.email, None) && IdentityFree(w.accounts, profile.id)
    case _ => false
  }

  /** The account an admitted operation creates. */
  function Newcomer(op: Op): Account
    requires Creates(op)
  {
    match op
    case OpRegister(_, email, secret) => Account(email, None, Some(secret), None, [Password])
    case OpCreate(_, t, email, secret) => Account(email, Some(t), Some(secret), None, [Password])
    case OpFoundWithAdmin(_, t, email, secret) => Account(email, Some(t), Some(secret), None, [Password])
    case OpAcceptByGoogle(_, t, profile) => Account(profile.email, Some(t), None, Some(profile.id), [Google])
    case OpSignInToTenant(_, t, profile, _) => Account(profile.email, Some(t), None, Some(profile.id), [Google])
    case OpSignInTenantless(_, profile) => Account(profile.email, None, None, Some(profile.id), [Google])
  }

  /** An account appears exactly when an operation creates it and is admitted, and then with the password or the
      Google identity it came with, which is its one method. */
  lemma AppearsExactly(w: World, op: Op, u: Id)
    requires Possible(w, op) && u !in w.accounts
    ensures u in Step(w, op).world.accounts <==> Creates(op) && op.u == u && Admits(w, op)
    ensures u in Step(w, op).world.accounts ==> Step(w, op).world.accounts[u] == Newcomer(op)
  {
  }

  /** Google signs in to the account its identity is linked to, or else to the one with its email in the very
      tenant asked for, which it then links, or else to a new one; a tenant must have its switch on. */
  lemma FlowSignsInExactly(w: World, profile: Profile, tenant: Option<Id>, member: bool, spare: Id, v: Id)
    requires Sane(w.accounts) && spare !in w.accounts
    ensures GoogleFlow(w, profile, tenant, member, spare).answer == SignedIn(v) <==>
      && (tenant.Some? ==> tenant.value in w.tenants && w.tenants[tenant.value].sso)
      && if v in w.accounts then FoundBy(w.accounts, profile, tenant, v)
         else v == spare && AddressFree(w.accounts, profile.email, tenant) && IdentityFree(w.accounts, profile.id)
              && (tenant.Some? ==> w.tenants[tenant.value].provision && member)
  {
  }

  predicate FoundBy(accounts: Accounts, profile: Profile, tenant: Option<Id>, v: Id)
    requires v in accounts
  {
    && accounts[v].tenant == tenant
    && (accounts[v].googleId == Some(profile.id)
        || (accounts[v].email == profile.email && IdentityFree(accounts, profile.id)))
  }

  /** An account moves exactly when its email is changed within its tenant, or when it has none and founds or
      joins one, and in either case only to an address nobody else has. */
  lemma MovesExactly(w: World, op: Op, u: Id)
    requires Possible(w, op) && u in w.accounts && u in Step(w, op).world.accounts
    ensures var row, now := w.accounts[u], Step(w, op).world.accounts[u];
      && now.tenant == (if Enters(w, op, u) then Some(op.t) else row.tenant)
      && now.email == (if Renames(w, op, u) then op.email else row.email)
  {
  }

  predicate AddressFreeFor(accounts: Accounts, email: string, tenant: Option<Id>, u: Id) {
    forall v :: v in accounts && v != u ==> accounts[v].email != email || accounts[v].tenant != tenant
  }

  predicate Enters(w: World, op: Op, u: Id)
    requires u in w.accounts
  {
    && (op.OpFound? || op.OpJoin?) && op.u == u && (op.OpJoin? ==> op.t in w.tenants)
    && w.accounts[u].tenant == None && AddressFreeFor(w.accounts, w.accounts[u].email, Some(op.t), u)
  }

  predicate Renames(w: World, op: Op, u: Id)
    requires u in w.accounts
  {
    && op.OpChangeEmail? && op.u == u && w.accounts[u].tenant == Some(op.t)
    && AddressFreeFor(w.accounts, op.email, Some(op.t), u)
  }

  ghost predicate Founds(w: World, op: Op, t: Id) {
    (op.OpFound? || op.OpFoundWithAdmin?) && op.t == t && Step(w, op).answer == Done
  }

  /** Settings change as asked, for that tenant only, and nothing else does; a founded tenant starts with both
      switches off. */
  lemma SwitchesExactly(w: World, op: Op, t: Id)
    requires Possible(w, op)
    ensures var now := Step(w, op).world.tenants;
      && (t in now <==> t in w.tenants || Founds(w, op, t))
      && (t in now && t !in w.tenants ==> now[t] == Switches(false, false))
      && (t in w.tenants && !(op.OpSettings? && op.t == t) ==> now[t] == w.tenants[t])
      && (t in w.tenants && op.OpSettings? && op.t == t ==>
          && now[t].sso == (if op.sso.Some? then op.sso.value else w.tenants[t].sso)
          && now[t].provision == (if op.provision.Some? then op.provision.value else w.tenants[t].provision))
  {
  }
}
