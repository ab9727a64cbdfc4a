/**
 * `ensureUserAndOrg`: resolve the signed-in identity to an application
 * user, linking it to the organization that already lists its email on
 * the roster, or provisioning a new organization it owns. `Reconcile` is
 * the whole operation as a function of the store's state; the method
 * `EnsureUserAndOrg` performs it on a `Store` and is proved equal to it.
 *
 * The identity provider's answer is the `Session` argument, the random
 * registration number is `n`, and a lost connection on the one write the
 * operation may make is `outage`.
 */
module Identity {
  import opened Wrappers
  import opened Text
  import opened Tables
  import opened TenantStore

  /** What the identity provider reports for the current request. */
  datatype Session = SessionError | NoSession | Authenticated(id: string, email: string)

  /** The user the operation yields (null is `None`), or the store error it rethrows. */
  type Resolution = Result<Option<User>, StoreError>

  /** `Math.floor(100000 + Math.random() * 900000)` lies in this range. */
  predicate IsRegistrationNumber(n: int) {
    100000 <= n < 1000000
  }

  function OrgName(n: nat): string {
    "ERP " + Decimal(n)
  }

  function OrgSlug(n: nat): string {
    "erp-" + Decimal(n)
  }

  /** The roster lists the email: create an EMPLOYEE user in that organization. */
  function LinkEmployee(db: Db, id: string, email: string, org: OrgId, outage: bool): (Resolution, Db) {
    var u := User(id, email, org, EMPLOYEE);
    match UserWrite(db, u, outage)
    case Done => (Ok(Some(u)), AddUser(db, u))
    case Refused(UniqueViolation) => (Ok(UserById(db.users, id)), db)
    case Refused(e) => (Err(e), db)
  }

  /** Nobody knows the email: create organization `ERP n` with the identity as its OWNER, then re-read it. */
  function Provision(db: Db, id: string, email: string, n: nat, outage: bool): (Resolution, Db) {
    match OrgWrite(db, OrgSlug(n), id, email, outage)
    case Done =>
      var db' := AddOrgWithOwner(db, OrgName(n), OrgSlug(n), id, email);
      (Ok(UserById(db'.users, id)), db')
    case Refused(UniqueViolation) => (Ok(UserById(db.users, id)), db)
    case Refused(e) => (Err(e), db)
  }

  function Reconcile(db: Db, s: Session, n: nat, outage: bool): (out: (Resolution, Db))
    requires IsRegistrationNumber(n)
    // No identity, or the provider failed: null, and nothing is written.
    ensures !s.Authenticated? ==> out == (Ok(None), db)
    // A user with the session's email already exists: it is returned and nothing is written.
    ensures s.Authenticated? && UserByEmail(db.users, s.email).Some? ==>
      out == (Ok(UserByEmail(db.users, s.email)), db)
    // A returned user is stored and carries the session's email or id.
    ensures out.0.Ok? && out.0.value.Some? ==>
      && out.0.value.value in out.1.users
      && s.Authenticated?
      && (out.0.value.value.email == s.email || out.0.value.value.id == s.id)
    // A thrown error is a failed write, and the store is as it was.
    ensures out.0.Err? ==> out.1 == db && (outage || out.0.error == ForeignKeyViolation)
    // Rows are only appended: at most one user and one organization, nothing else.
    ensures db.users <= out.1.users && |out.1.users| <= |db.users| + 1
    ensures db.orgs <= out.1.orgs && |out.1.orgs| <= |db.orgs| + 1
    ensures out.1.employees == db.employees && out.1.products == db.products
    ensures out.1.transactions == db.transactions
    // A new user is the session's identity, and it is what is returned.
    ensures |out.1.users| == |db.users| + 1 ==>
      && s.Authenticated?
      && out.1.users[|db.users|].id == s.id && out.1.users[|db.users|].email == s.email
      && out.0 == Ok(Some(out.1.users[|db.users|]))
    // A new organization comes with its OWNER user, in the same write.
    ensures |out.1.orgs| == |db.orgs| + 1 ==>
      && |out.1.users| == |db.users| + 1
      && out.1.users[|db.users|].organizationId == out.1.orgs[|db.orgs|].id
      && out.1.users[|db.users|].role == OWNER
  {
    match s
    case SessionError => (Ok(None), db)
    case NoSession => (Ok(None), db)
    case Authenticated(id, email) =>
      match UserByEmail(db.users, email)
      case Some(u) => (Ok(Some(u)), db)
      case None =>
        match EmployeeByEmail(db.employees, email)
        case Some(e) => LinkEmployee(db, id, email, e.organizationId, outage)
        case None =>
          var owner := User(id, email, db.nextId, OWNER);
          // A provisioning write that is accepted makes the re-read by id find the new owner.
          assert OrgWrite(db, OrgSlug(n), id, email, outage).Done? ==> UserById(db.users + [owner], id) == Some(owner) by {
            if OrgWrite(db, OrgSlug(n), id, email, outage).Done? {
              UserByIdAppend(db.users, owner);
            }
          }
          Provision(db, id, email, n, outage)
  }

  method EnsureUserAndOrg(store: Store, s: Session, n: nat, outage: bool) returns (r: Resolution)
    requires IsRegistrationNumber(n)
    modifies store
    ensures (r, store.Snapshot()) == Reconcile(old(store.Snapshot()), s, n, outage)
    ensures old(store.Valid()) ==> store.Valid()
  {
    if !s.Authenticated? {
      return Ok(None);
    }
    var existing := UserByEmail(store.users, s.email);
    if existing.Some? {
      return Ok(existing);
    }
    var employee := EmployeeByEmail(store.employees, s.email);
    if employee.Some? {
      var u := User(s.id, s.email, employee.value.organizationId, EMPLOYEE);
      var o := store.CreateUser(u, outage);
      match o {
        case Done => r := Ok(Some(u));
        case Refused(UniqueViolation) => r := Ok(UserById(store.users, s.id));
        case Refused(e) => r := Err(e);
      }
      return;
    }
    var o := store.CreateOrganizationWithOwner(OrgName(n), OrgSlug(n), s.id, s.email, outage);
    match o {
      case Done => r := Ok(UserById(store.users, s.id));
      case Refused(UniqueViolation) => r := Ok(UserById(store.users, s.id));
      case Refused(e) => r := Err(e);
    }
  }

  // -----------------------------------------------------------------------
  // Properties of the reconciliation
  // -----------------------------------------------------------------------

  lemma ReconcileKeepsValid(db: Db, s: Session, n: nat, outage: bool)
    requires Valid(db) && IsRegistrationNumber(n)
    ensures Valid(Reconcile(db, s, n, outage).1)
  {
    if s.Authenticated? && UserByEmail(db.users, s.email).None? {
      var e := EmployeeByEmail(db.employees, s.email);
      if e.Some? {
        LinkEmployeeKeepsValid(db, s.id, s.email, e.value.organizationId, outage);
      } else {
        ProvisionKeepsValid(db, s.id, s.email, n, outage);
      }
    }
  }

  lemma LinkEmployeeKeepsValid(db: Db, id: string, email: string, org: OrgId, outage: bool)
    requires Valid(db)
    ensures Valid(LinkEmployee(db, id, email, org, outage).1)
  {
    var u := User(id, email, org, EMPLOYEE);
    if UserWrite(db, u, outage).Done? {
      AddUserValid(db, u);
    }
  }

  lemma ProvisionKeepsValid(db: Db, id: string, email: string, n: nat, outage: bool)
    requires Valid(db)
    ensures Valid(Provision(db, id, email, n, outage).1)
  {
    if OrgWrite(db, OrgSlug(n), id, email, outage).Done? {
      AddOrgWithOwnerValid(db, OrgName(n), OrgSlug(n), id, email);
    }
  }

  /**
   * An email on some organization's roster and unknown as a user: the
   * identity joins that organization as an EMPLOYEE, and no organization is
   * created.
   */
  lemma ReconcileLinksEmployee(db: Db, s: Session, n: nat, e: Employee)
    requires Valid(db) && IsRegistrationNumber(n) && s.Authenticated?
    requires UserByEmail(db.users, s.email).None? && UserById(db.users, s.id).None?
    requires EmployeeByEmail(db.employees, s.email) == Some(e)
    ensures var u := User(s.id, s.email, e.organizationId, EMPLOYEE);
      Reconcile(db, s, n, false) == (Ok(Some(u)), AddUser(db, u))
  {
    assert e in db.employees;
  }

  /**
   * An identity nobody knows: organization `ERP n` (slug `erp-n`, n written
   * with six digits) is created under the next id, with the identity as its
   * OWNER, and that user is returned.
   */
  lemma ReconcileProvisions(db: Db, s: Session, n: nat)
    requires IsRegistrationNumber(n) && s.Authenticated?
    requires UserByEmail(db.users, s.email).None? && UserById(db.users, s.id).None?
    requires EmployeeByEmail(db.employees, s.email).None?
    requires !SlugTaken(db.orgs, OrgSlug(n))
    ensures Reconcile(db, s, n, false) ==
      (Ok(Some(User(s.id, s.email, db.nextId, OWNER))),
       AddOrgWithOwner(db, OrgName(n), OrgSlug(n), s.id, s.email))
    ensures |Decimal(n)| == 6 && ValueIn(Decimal(n), 10) == n
    ensures OrgName(n) == "ERP " + Decimal(n) && OrgSlug(n) == "erp-" + Decimal(n)
  {
    UserByIdAppend(db.users, User(s.id, s.email, db.nextId, OWNER));
    assert Pow10(5) == 100000 && Pow10(6) == 1000000;
    DecimalLength(n, 5);
  }

  /**
   * The generated slug is already taken and the identity has no user: the
   * create is refused as a uniqueness violation, the re-read by id finds
   * nothing, and the operation yields null without writing anything.
   */
  lemma ReconcileSlugCollision(db: Db, s: Session, n: nat)
    requires IsRegistrationNumber(n) && s.Authenticated?
    requires UserByEmail(db.users, s.email).None? && UserById(db.users, s.id).None?
    requires EmployeeByEmail(db.employees, s.email).None?
    requires SlugTaken(db.orgs, OrgSlug(n))
    ensures Reconcile(db, s, n, false) == (Ok(None), db)
  {
  }

  /** A write that fails for any reason other than uniqueness is rethrown and nothing changes. */
  lemma ReconcileRethrows(db: Db, s: Session, n: nat)
    requires IsRegistrationNumber(n) && s.Authenticated?
    requires UserByEmail(db.users, s.email).None?
    ensures Reconcile(db, s, n, true) == (Err(Unavailable), db)
  {
  }

  /**
   * Once the operation has yielded a user, running it again for the same
   * identity, with any registration number, writes nothing and yields the
   * same user; the only exception is a user found by id under another
   * email, where the repeated attempt to create one can itself fail.
   */
  lemma {:induction false} ReconcileIdempotent(db: Db, s: Session, n: nat, outage: bool, n2: nat, outage2: bool)
    requires Valid(db) && IsRegistrationNumber(n) && IsRegistrationNumber(n2)
    requires Reconcile(db, s, n, outage).0.Ok? && Reconcile(db, s, n, outage).0.value.Some?
    ensures
      var (r, db1) := Reconcile(db, s, n, outage);
      var (r2, db2) := Reconcile(db1, s, n2, outage2);
      && db2 == db1
      && (r2 == r || (r.value.value.email != s.email && outage2 && r2 == Err(Unavailable)))
  {
    var out := Reconcile(db, s, n, outage);
    var db1 := out.1;
    var u := out.0.value.value;
    ReconcileKeepsValid(db, s, n, outage);
    UserLookupsUnique(db1.users, u);
    if u.email != s.email {
      ReconcileKnownId(db1, s, n2, outage2, u);
    }
  }

  /**
   * The identity's id already has a user, stored under another email: every
   * attempt to create one is refused as a duplicate and that user is
   * returned, unless the write fails first.
   */
  lemma ReconcileKnownId(db: Db, s: Session, n: nat, outage: bool, u: User)
    requires Valid(db) && IsRegistrationNumber(n) && s.Authenticated?
    requires u in db.users && u.id == s.id && UserByEmail(db.users, s.email).None?
    ensures Reconcile(db, s, n, outage) == (if outage then Err(Unavailable) else Ok(Some(u)), db)
  {
    UserLookupsUnique(db.users, u);
    var e := EmployeeByEmail(db.employees, s.email);
    if e.Some? {
      assert Reconcile(db, s, n, outage) == LinkEmployee(db, s.id, s.email, e.value.organizationId, outage);
    } else {
      assert Reconcile(db, s, n, outage) == Provision(db, s.id, s.email, n, outage);
    }
  }
}
