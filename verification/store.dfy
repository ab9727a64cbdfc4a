/**
 * The database client the server actions share: one mutable table per
 * entity. Each write either happens or is refused and leaves every table
 * as it was; `Snapshot()` is the store's state as a `Tables.Db` value, and
 * each method's effect is stated as the matching `Tables` function of the
 * old snapshot. A lost connection is modelled on the two creates the
 * identity reconciliation makes, as the `outage` argument; the other
 * writes are refused only for the values the store rejects.
 */
module TenantStore {
  import opened Wrappers
  import opened Tables

  class Store {
    var orgs: seq<Organization>
    var users: seq<User>
    var employees: seq<Employee>
    var products: seq<Product>
    var transactions: seq<Transaction>
    var nextId: nat

    function Snapshot(): Db
      reads this
    {
      Db(orgs, users, employees, products, transactions, nextId)
    }

    ghost predicate Valid()
      reads this
    {
      Tables.Valid(Snapshot())
    }

    /** An empty database. */
    constructor ()
      ensures Snapshot() == Db([], [], [], [], [], 0)
      ensures Valid()
    {
      orgs, users, employees, products, transactions, nextId := [], [], [], [], [], 0;
    }

    method CreateUser(u: User, outage: bool) returns (o: Outcome)
      modifies this
      ensures o == UserWrite(old(Snapshot()), u, outage)
      ensures Snapshot() == if o.Done? then AddUser(old(Snapshot()), u) else old(Snapshot())
      ensures old(Valid()) ==> Valid()
    {
      ghost var db := Snapshot();
      if outage {
        o := Refused(Unavailable);
      } else if UserById(users, u.id).Some? || UserByEmail(users, u.email).Some? {
        o := Refused(UniqueViolation);
      } else if OrgById(orgs, u.organizationId).None? {
        o := Refused(ForeignKeyViolation);
      } else {
        users := users + [u];
        o := Done;
      }
      if Tables.Valid(db) && o.Done? {
        AddUserValid(db, u);
      }
    }

    /** Creates an organization and its OWNER user in one write; neither exists unless both do. */
    method CreateOrganizationWithOwner(name: string, slug: string, userId: string, email: string, outage: bool)
      returns (o: Outcome)
      modifies this
      ensures o == OrgWrite(old(Snapshot()), slug, userId, email, outage)
      ensures Snapshot() ==
        if o.Done? then AddOrgWithOwner(old(Snapshot()), name, slug, userId, email) else old(Snapshot())
      ensures old(Valid()) ==> Valid()
    {
      ghost var db := Snapshot();
      if outage {
        o := Refused(Unavailable);
      } else if SlugTaken(orgs, slug) || UserById(users, userId).Some? || UserByEmail(users, email).Some? {
        o := Refused(UniqueViolation);
      } else {
        var id := nextId;
        orgs := orgs + [Organization(id, name, slug, None, None)];
        users := users + [User(userId, email, id, OWNER)];
        nextId := nextId + 1;
        o := Done;
      }
      if Tables.Valid(db) && o.Done? {
        AddOrgWithOwnerValid(db, name, slug, userId, email);
      }
    }

    method UpdateOrganization(id: OrgId, name: string, brandSymbol: string, currency: string) returns (o: Outcome)
      modifies this
      ensures o == OrgUpdateWrite(old(Snapshot()), id)
      ensures Snapshot() ==
        if o.Done? then SetOrgSettings(old(Snapshot()), id, name, brandSymbol, currency) else old(Snapshot())
      ensures old(Valid()) ==> Valid()
    {
      ghost var db := Snapshot();
      if OrgById(orgs, id).None? {
        o := Refused(RecordNotFound);
      } else {
        orgs := SetOrgSettings(Snapshot(), id, name, brandSymbol, currency).orgs;
        o := Done;
      }
      if Tables.Valid(db) && o.Done? {
        SetOrgSettingsValid(db, id, name, brandSymbol, currency);
      }
    }

    method CreateProduct(name: string, sku: string, quantity: Option<int>, org: OrgId) returns (o: Outcome)
      modifies this
      ensures o == ProductWrite(old(Snapshot()), quantity, org)
      ensures Snapshot() ==
        if o.Done? then AddProduct(old(Snapshot()), name, sku, quantity.value, org) else old(Snapshot())
      ensures old(Valid()) ==> Valid()
    {
      ghost var db := Snapshot();
      if quantity.None? {
        o := Refused(InvalidValue);
      } else if OrgById(orgs, org).None? {
        o := Refused(ForeignKeyViolation);
      } else {
        products := products + [Product(nextId, name, sku, quantity.value, org)];
        nextId := nextId + 1;
        o := Done;
      }
      if Tables.Valid(db) && o.Done? {
        AddProductValid(db, name, sku, quantity.value, org);
      }
    }

    method DeleteProduct(id: nat) returns (o: Outcome)
      modifies this
      ensures o == ProductDeleteWrite(old(Snapshot()), id)
      ensures Snapshot() == if o.Done? then RemoveProduct(old(Snapshot()), id) else old(Snapshot())
      ensures old(Valid()) ==> Valid()
    {
      ghost var db := Snapshot();
      if ProductById(products, id).None? {
        o := Refused(RecordNotFound);
      } else {
        products := WithoutProduct(products, id);
        o := Done;
      }
      if Tables.Valid(db) && o.Done? {
        RemoveProductValid(db, id);
      }
    }

    method CreateEmployee(
      firstName: string, lastName: string, email: string, role: string, department: string, org: OrgId)
      returns (o: Outcome)
      modifies this
      ensures o == EmployeeWrite(old(Snapshot()), org)
      ensures Snapshot() ==
        if o.Done? then AddEmployee(old(Snapshot()), firstName, lastName, email, role, department, org)
        else old(Snapshot())
      ensures old(Valid()) ==> Valid()
    {
      ghost var db := Snapshot();
      if OrgById(orgs, org).None? {
        o := Refused(ForeignKeyViolation);
      } else {
        employees := employees + [Employee(nextId, firstName, lastName, email, role, department, org)];
        nextId := nextId + 1;
        o := Done;
      }
      if Tables.Valid(db) && o.Done? {
        AddEmployeeValid(db, firstName, lastName, email, role, department, org);
      }
    }

    method CreateTransaction(kind: Option<TransactionKind>, category: string, description: string, org: OrgId)
      returns (o: Outcome)
      modifies this
      ensures o == TransactionWrite(old(Snapshot()), kind, org)
      ensures Snapshot() ==
        if o.Done? then AddTransaction(old(Snapshot()), kind.value, category, description, org)
        else old(Snapshot())
      ensures old(Valid()) ==> Valid()
    {
      ghost var db := Snapshot();
      if kind.None? {
        o := Refused(InvalidValue);
      } else if OrgById(orgs, org).None? {
        o := Refused(ForeignKeyViolation);
      } else {
        transactions := transactions + [Transaction(nextId, kind.value, category, description, org)];
        nextId := nextId + 1;
        o := Done;
      }
      if Tables.Valid(db) && o.Done? {
        AddTransactionValid(db, kind.value, category, description, org);
      }
    }
  }
}
