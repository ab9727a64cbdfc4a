/**
 * The tenant store as a value: the rows of each table, the constraints the
 * database enforces (unique User.id, User.email and Organization.slug,
 * unique generated ids, every row's organization exists), the lookups the
 * core performs and the effect of each write. Generated ids are drawn from
 * a counter, `nextId`.
 */
module Tables {
  import opened Wrappers

  type OrgId = nat

  /** The user roles of the schema; the core assigns OWNER and EMPLOYEE. */
  datatype Role = OWNER | MANAGER | EMPLOYEE

  datatype Organization = Organization(
    id: OrgId, name: string, slug: string, brandSymbol: Option<string>, currency: Option<string>)

  /** An application account; `id` is the identity provider's user id. */
  datatype User = User(id: string, email: string, organizationId: OrgId, role: Role)

  /** A roster record; `role` is a free-text job title. */
  datatype Employee = Employee(
    id: nat, firstName: string, lastName: string, email: string, role: string,
    department: string, organizationId: OrgId)

  datatype Product = Product(id: nat, name: string, sku: string, quantity: int, organizationId: OrgId)

  datatype TransactionKind = INCOME | EXPENSE

  datatype Transaction = Transaction(
    id: nat, kind: TransactionKind, category: string, description: string, organizationId: OrgId)

  /** Every table, in insertion order, and the next generated id. */
  datatype Db = Db(
    orgs: seq<Organization>, users: seq<User>, employees: seq<Employee>,
    products: seq<Product>, transactions: seq<Transaction>, nextId: nat)

  /** Why the store refuses a write (Prisma's P2002, P2003, P2025, a validation error, a lost connection). */
  datatype StoreError = UniqueViolation | ForeignKeyViolation | RecordNotFound | InvalidValue | Unavailable

  /** The outcome of one write: it happened, or the store refused it and changed nothing. */
  datatype Outcome = Done | Refused(error: StoreError)

  // ---------------------------------------------------------------------
  // Lookups
  // ---------------------------------------------------------------------

  /** `findUnique({ where: { email } })` on User. */
  function UserByEmail(users: seq<User>, email: string): (r: Option<User>)
    ensures r.Some? ==> r.value in users && r.value.email == email
    ensures r.None? <==> forall u | u in users :: u.email != email
  {
    if users == [] then None
    else if users[0].email == email then Some(users[0])
    else UserByEmail(users[1..], email)
  }

  /** `findUnique({ where: { id } })` on User. */
  function UserById(users: seq<User>, id: string): (r: Option<User>)
    ensures r.Some? ==> r.value in users && r.value.id == id
    ensures r.None? <==> forall u | u in users :: u.id != id
  {
    if users == [] then None
    else if users[0].id == id then Some(users[0])
    else UserById(users[1..], id)
  }

  /**
   * `findFirst({ where: { email } })` on Employee: some matching row (with no
   * `orderBy` the store promises no particular one); the model takes the
   * first in insertion order.
   */
  function EmployeeByEmail(employees: seq<Employee>, email: string): (r: Option<Employee>)
    ensures r.Some? ==> r.value in employees && r.value.email == email
    ensures r.None? <==> forall e | e in employees :: e.email != email
  {
    if employees == [] then None
    else if employees[0].email == email then Some(employees[0])
    else EmployeeByEmail(employees[1..], email)
  }

  function OrgById(orgs: seq<Organization>, id: OrgId): (r: Option<Organization>)
    ensures r.Some? ==> r.value in orgs && r.value.id == id
    ensures r.None? <==> forall o | o in orgs :: o.id != id
  {
    if orgs == [] then None
    else if orgs[0].id == id then Some(orgs[0])
    else OrgById(orgs[1..], id)
  }

  predicate SlugTaken(orgs: seq<Organization>, slug: string) {
    exists o | o in orgs :: o.slug == slug
  }

  /** `findUnique({ where: { id } })` on Product. */
  function ProductById(products: seq<Product>, id: nat): (r: Option<Product>)
    ensures r.Some? ==> r.value in products && r.value.id == id
    ensures r.None? <==> forall p | p in products :: p.id != id
  {
    if products == [] then None
    else if products[0].id == id then Some(products[0])
    else ProductById(products[1..], id)
  }

  /** `findFirst({ where: { organizationId, sku } })` on Product found a row. */
  predicate HasSku(products: seq<Product>, org: OrgId, sku: string) {
    exists p | p in products :: p.organizationId == org && p.sku == sku
  }

  /** A user appended under an id nobody holds is what a lookup of that id finds. */
  lemma {:induction false} UserByIdAppend(users: seq<User>, u: User)
    requires UserById(users, u.id).None?
    ensures UserById(users + [u], u.id) == Some(u)
  {
    if users != [] {
      assert (users + [u])[1..] == users[1..] + [u];
      UserByIdAppend(users[1..], u);
    }
  }

  // ---------------------------------------------------------------------
  // The constraints the database enforces
  // ---------------------------------------------------------------------

  ghost predicate UniqueUsers(users: seq<User>) {
    forall i, j | 0 <= i < j < |users| :: users[i].id != users[j].id && users[i].email != users[j].email
  }

  ghost predicate UniqueOrgs(orgs: seq<Organization>) {
    forall i, j | 0 <= i < j < |orgs| :: orgs[i].id != orgs[j].id && orgs[i].slug != orgs[j].slug
  }

  ghost predicate UniqueProducts(products: seq<Product>) {
    forall i, j | 0 <= i < j < |products| :: products[i].id != products[j].id
  }

  ghost predicate Valid(db: Db) {
    && UniqueUsers(db.users)
    && UniqueOrgs(db.orgs)
    && UniqueProducts(db.products)
    && (forall o | o in db.orgs :: o.id < db.nextId)
    && (forall p | p in db.products :: p.id < db.nextId)
    && (forall u | u in db.users :: OrgById(db.orgs, u.organizationId).Some?)
    && (forall e | e in db.employees :: OrgById(db.orgs, e.organizationId).Some?)
    && (forall p | p in db.products :: OrgById(db.orgs, p.organizationId).Some?)
    && (forall t | t in db.transactions :: OrgById(db.orgs, t.organizationId).Some?)
  }

  /** In a table with unique ids and emails, each user is what both lookups find. */
  lemma UserLookupsUnique(users: seq<User>, u: User)
    requires UniqueUsers(users) && u in users
    ensures UserByEmail(users, u.email) == Some(u)
    ensures UserById(users, u.id) == Some(u)
  {
    var j :| 0 <= j < |users| && users[j] == u;
    var v := UserByEmail(users, u.email).value;
    var i :| 0 <= i < |users| && users[i] == v;
    assert i == j;
    var w := UserById(users, u.id).value;
    var k :| 0 <= k < |users| && users[k] == w;
    assert k == j;
  }

  // ---------------------------------------------------------------------
  // Writes: whether the store accepts each one, and its effect
  // ---------------------------------------------------------------------

  /** `user.create`: refused on a lost connection, a taken id or email, or an unknown organization. */
  function UserWrite(db: Db, u: User, outage: bool): Outcome {
    if outage then Refused(Unavailable)
    else if UserById(db.users, u.id).Some? || UserByEmail(db.users, u.email).Some? then Refused(UniqueViolation)
    else if OrgById(db.orgs, u.organizationId).None? then Refused(ForeignKeyViolation)
    else Done
  }

  function AddUser(db: Db, u: User): Db {
    db.(users := db.users + [u])
  }

  /**
   * `organization.create` with a nested OWNER user, one atomic write:
   * refused on a lost connection or when the slug, the user id or the email is taken.
   */
  function OrgWrite(db: Db, slug: string, userId: string, email: string, outage: bool): Outcome {
    if outage then Refused(Unavailable)
    else if SlugTaken(db.orgs, slug) || UserById(db.users, userId).Some? || UserByEmail(db.users, email).Some? then
      Refused(UniqueViolation)
    else Done
  }

  /** The new organization takes the next generated id; brand symbol and currency are unset. */
  function AddOrgWithOwner(db: Db, name: string, slug: string, userId: string, email: string): Db {
    db.(orgs := db.orgs + [Organization(db.nextId, name, slug, None, None)],
        users := db.users + [User(userId, email, db.nextId, OWNER)],
        nextId := db.nextId + 1)
  }

  /** `organization.update({ where: { id } })`: refused when no organization has that id. */
  function OrgUpdateWrite(db: Db, id: OrgId): Outcome {
    if OrgById(db.orgs, id).None? then Refused(RecordNotFound) else Done
  }

  function SetOrgSettings(db: Db, id: OrgId, name: string, brandSymbol: string, currency: string): (r: Db)
    ensures |r.orgs| == |db.orgs|
    ensures forall i | 0 <= i < |db.orgs| && db.orgs[i].id != id :: r.orgs[i] == db.orgs[i]
    ensures forall i | 0 <= i < |db.orgs| && db.orgs[i].id == id ::
      r.orgs[i] == Organization(id, name, db.orgs[i].slug, Some(brandSymbol), Some(currency))
    ensures r.(orgs := db.orgs) == db
  {
    db.(orgs := seq(|db.orgs|, i requires 0 <= i < |db.orgs| =>
      if db.orgs[i].id == id then db.orgs[i].(name := name, brandSymbol := Some(brandSymbol), currency := Some(currency))
      else db.orgs[i]))
  }

  /** `product.create`: refused when the quantity is not a number or the organization is unknown. */
  function ProductWrite(db: Db, quantity: Option<int>, org: OrgId): Outcome {
    if quantity.None? then Refused(InvalidValue)
    else if OrgById(db.orgs, org).None? then Refused(ForeignKeyViolation)
    else Done
  }

  function AddProduct(db: Db, name: string, sku: string, quantity: int, org: OrgId): Db {
    db.(products := db.products + [Product(db.nextId, name, sku, quantity, org)], nextId := db.nextId + 1)
  }

  /** `product.delete({ where: { id } })`: refused when no product has that id. */
  function ProductDeleteWrite(db: Db, id: nat): Outcome {
    if ProductById(db.products, id).None? then Refused(RecordNotFound) else Done
  }

  /** The products other than the one with id `id`, in order. */
  function WithoutProduct(products: seq<Product>, id: nat): (r: seq<Product>)
    ensures forall p :: p in r <==> p in products && p.id != id
    ensures |r| <= |products|
  {
    if products == [] then []
    else if products[0].id == id then WithoutProduct(products[1..], id)
    else [products[0]] + WithoutProduct(products[1..], id)
  }

  function RemoveProduct(db: Db, id: nat): Db {
    db.(products := WithoutProduct(db.products, id))
  }

  /** `employee.create`: refused when the organization is unknown. */
  function EmployeeWrite(db: Db, org: OrgId): Outcome {
    if OrgById(db.orgs, org).None? then Refused(ForeignKeyViolation) else Done
  }

  function AddEmployee(
    db: Db, firstName: string, lastName: string, email: string, role: string, department: string, org: OrgId): Db
  {
    db.(employees := db.employees + [Employee(db.nextId, firstName, lastName, email, role, department, org)],
        nextId := db.nextId + 1)
  }

  /** `financeTransaction.create`: refused when the type is not an enum value or the organization is unknown. */
  function TransactionWrite(db: Db, kind: Option<TransactionKind>, org: OrgId): Outcome {
    if kind.None? then Refused(InvalidValue)
    else if OrgById(db.orgs, org).None? then Refused(ForeignKeyViolation)
    else Done
  }

  function AddTransaction(
    db: Db, kind: TransactionKind, category: string, description: string, org: OrgId): Db
  {
    db.(transactions := db.transactions + [Transaction(db.nextId, kind, category, description, org)],
        nextId := db.nextId + 1)
  }

  // ---------------------------------------------------------------------
  // Each accepted write keeps the constraints
  // ---------------------------------------------------------------------

  lemma AddUserValid(db: Db, u: User)
    requires Valid(db) && UserWrite(db, u, false) == Done
    ensures Valid(AddUser(db, u))
  {
    var users := db.users + [u];
    forall i, j | 0 <= i < j < |users| ensures users[i].id != users[j].id && users[i].email != users[j].email {
      if j == |db.users| { assert users[i] in db.users; }
    }
  }

  lemma AddOrgWithOwnerValid(db: Db, name: string, slug: string, userId: string, email: string)
    requires Valid(db) && OrgWrite(db, slug, userId, email, false) == Done
    ensures Valid(AddOrgWithOwner(db, name, slug, userId, email))
  {
    var r := AddOrgWithOwner(db, name, slug, userId, email);
    var org := Organization(db.nextId, name, slug, None, None);
    assert UniqueOrgs(r.orgs) by {
      forall i, j | 0 <= i < j < |r.orgs| ensures r.orgs[i].id != r.orgs[j].id && r.orgs[i].slug != r.orgs[j].slug {
        if j == |db.orgs| { assert r.orgs[i] in db.orgs; }
      }
    }
    assert UniqueUsers(r.users) by {
      forall i, j | 0 <= i < j < |r.users| ensures r.users[i].id != r.users[j].id && r.users[i].email != r.users[j].email {
        if j == |db.users| { assert r.users[i] in db.users; }
      }
    }
    OrgsGrow(db.orgs, org);
    assert OrgById(r.orgs, db.nextId).Some? by { assert org in r.orgs; }
  }

  /** An organization that exists still exists once another is appended. */
  lemma OrgsGrow(orgs: seq<Organization>, o: Organization)
    ensures forall id | OrgById(orgs, id).Some? :: OrgById(orgs + [o], id).Some?
  {
    forall id | OrgById(orgs, id).Some? ensures OrgById(orgs + [o], id).Some? {
      assert OrgById(orgs, id).value in orgs + [o];
    }
  }

  lemma SetOrgSettingsValid(db: Db, id: OrgId, name: string, brandSymbol: string, currency: string)
    requires Valid(db)
    ensures Valid(SetOrgSettings(db, id, name, brandSymbol, currency))
  {
    var r := SetOrgSettings(db, id, name, brandSymbol, currency);
    assert forall i | 0 <= i < |db.orgs| :: r.orgs[i].id == db.orgs[i].id && r.orgs[i].slug == db.orgs[i].slug;
    forall x | OrgById(db.orgs, x).Some? ensures OrgById(r.orgs, x).Some? {
      var o := OrgById(db.orgs, x).value;
      var i :| 0 <= i < |db.orgs| && db.orgs[i] == o;
      assert r.orgs[i] in r.orgs;
    }
  }

  lemma AddProductValid(db: Db, name: string, sku: string, quantity: int, org: OrgId)
    requires Valid(db) && ProductWrite(db, Some(quantity), org) == Done
    ensures Valid(AddProduct(db, name, sku, quantity, org))
  {
    var r := AddProduct(db, name, sku, quantity, org);
    forall i, j | 0 <= i < j < |r.products| ensures r.products[i].id != r.products[j].id {
      if j == |db.products| { assert r.products[i] in db.products; }
    }
  }

  lemma RemoveProductValid(db: Db, id: nat)
    requires Valid(db)
    ensures Valid(RemoveProduct(db, id))
  {
    WithoutProductUnique(db.products, id);
  }

  lemma {:induction false} WithoutProductUnique(products: seq<Product>, id: nat)
    requires UniqueProducts(products)
    ensures UniqueProducts(WithoutProduct(products, id))
  {
    if products != [] {
      WithoutProductUnique(products[1..], id);
      var rest := WithoutProduct(products[1..], id);
      if products[0].id != id {
        var r := [products[0]] + rest;
        forall i, j | 0 <= i < j < |r| ensures r[i].id != r[j].id {
          if i == 0 {
            assert r[j] in rest;
            assert r[j] in products[1..];
          }
        }
      }
    }
  }

  lemma AddEmployeeValid(
    db: Db, firstName: string, lastName: string, email: string, role: string, department: string, org: OrgId)
    requires Valid(db) && EmployeeWrite(db, org) == Done
    ensures Valid(AddEmployee(db, firstName, lastName, email, role, department, org))
  {
  }

  lemma AddTransactionValid(db: Db, kind: TransactionKind, category: string, description: string, org: OrgId)
    requires Valid(db) && TransactionWrite(db, Some(kind), org) == Done
    ensures Valid(AddTransaction(db, kind, category, description, org))
  {
  }

  // ---------------------------------------------------------------------
  // Tenant scoping: the rows of one organization
  // ---------------------------------------------------------------------

  function ProductsOf(products: seq<Product>, org: OrgId): (r: seq<Product>)
    ensures |r| <= |products|
    ensures forall p :: p in r <==> p in products && p.organizationId == org
  {
    if products == [] then []
    else if products[0].organizationId == org then [products[0]] + ProductsOf(products[1..], org)
    else ProductsOf(products[1..], org)
  }

  function EmployeesOf(employees: seq<Employee>, org: OrgId): (r: seq<Employee>)
    ensures |r| <= |employees|
    ensures forall e :: e in r <==> e in employees && e.organizationId == org
  {
    if employees == [] then []
    else if employees[0].organizationId == org then [employees[0]] + EmployeesOf(employees[1..], org)
    else EmployeesOf(employees[1..], org)
  }

  function TransactionsOf(transactions: seq<Transaction>, org: OrgId): (r: seq<Transaction>)
    ensures |r| <= |transactions|
    ensures forall t :: t in r <==> t in transactions && t.organizationId == org
  {
    if transactions == [] then []
    else if transactions[0].organizationId == org then [transactions[0]] + TransactionsOf(transactions[1..], org)
    else TransactionsOf(transactions[1..], org)
  }

  function UsersOf(users: seq<User>, org: OrgId): (r: seq<User>)
    ensures |r| <= |users|
    ensures forall u :: u in r <==> u in users && u.organizationId == org
  {
    if users == [] then []
    else if users[0].organizationId == org then [users[0]] + UsersOf(users[1..], org)
    else UsersOf(users[1..], org)
  }

  /**
   * A roster row added at the end is listed last for its own organization
   * and not at all for any other: the filter keeps every row of the
   * organization once, in insertion order.
   */
  lemma {:induction false} EmployeesOfAppend(employees: seq<Employee>, e: Employee, org: OrgId)
    ensures EmployeesOf(employees + [e], org) ==
      EmployeesOf(employees, org) + (if e.organizationId == org then [e] else [])
  {
    if employees != [] {
      assert (employees + [e])[1..] == employees[1..] + [e];
      EmployeesOfAppend(employees[1..], e, org);
    }
  }

  /** A transaction added at the end is listed last for its own organization and not at all for any other. */
  lemma {:induction false} TransactionsOfAppend(transactions: seq<Transaction>, t: Transaction, org: OrgId)
    ensures TransactionsOf(transactions + [t], org) ==
      TransactionsOf(transactions, org) + (if t.organizationId == org then [t] else [])
  {
    if transactions != [] {
      assert (transactions + [t])[1..] == transactions[1..] + [t];
      TransactionsOfAppend(transactions[1..], t, org);
    }
  }

  /** A user added at the end is listed last for its own organization and not at all for any other. */
  lemma {:induction false} UsersOfAppend(users: seq<User>, u: User, org: OrgId)
    ensures UsersOf(users + [u], org) == UsersOf(users, org) + (if u.organizationId == org then [u] else [])
  {
    if users != [] {
      assert (users + [u])[1..] == users[1..] + [u];
      UsersOfAppend(users[1..], u, org);
    }
  }

  /** Newest first: the reverse of insertion order. */
  function Reverse<T(!new)>(s: seq<T>): (r: seq<T>)
    ensures |r| == |s|
    ensures forall i | 0 <= i < |s| :: r[i] == s[|s| - 1 - i]
    ensures forall x :: x in r <==> x in s
  {
    if s == [] then [] else Reverse(s[1..]) + [s[0]]
  }
}
