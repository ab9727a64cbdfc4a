/**
 * The tenant-scoped server actions of `data-actions.ts` other than the
 * identity reconciliation: settings update, dashboard counters, and the
 * list and create actions for products, employees and transactions.
 *
 * Every action first resolves the caller with `ensureUserAndOrg`; its
 * result is the `who` argument here (`None` when it yielded null). Reads
 * are functions of the store's state; writes are methods on the `Store`.
 */
module DataActions {
  import opened Wrappers
  import opened Text
  import opened Tables
  import opened TenantStore

  /** Why an action throws. */
  datatype ActionError =
    | Unauthorized
    | BrandSymbolTooLong
    | ProductNotFound
    | NoFileUploaded
    | Store(cause: StoreError)

  /** A write's outcome as the action reports it: the store's refusal is rethrown. */
  function Rethrow(o: Outcome): (r: Result<(), ActionError>)
    ensures r.Ok? <==> o.Done?
    ensures o.Refused? ==> r == Err(Store(o.error))
  {
    match o
    case Done => Ok(())
    case Refused(e) => Err(Store(e))
  }

  // -----------------------------------------------------------------------
  // Settings
  // -----------------------------------------------------------------------

  datatype SettingsForm = SettingsForm(name: string, brandSymbol: string, currency: string)

  /** The brand symbol's length check, counted in UTF-16 code units as JavaScript does. */
  predicate BrandSymbolFits(brandSymbol: string) {
    Utf16Length(brandSymbol) <= 3
  }

  /** Symbols of up to three characters from the Basic Multilingual Plane are accepted. */
  lemma BrandSymbolOfThreeFits(b: string)
    requires |b| <= 3 && forall k | 0 <= k < |b| :: b[k] as int < 0x1_0000
    ensures BrandSymbolFits(b)
  {
  }

  /** Two emoji are two characters but four code units, and are refused. */
  lemma TwoEmojiDoNotFit()
    ensures !BrandSymbolFits("\U{1F680}\U{1F680}")
  {
    var b := "\U{1F680}\U{1F680}";
    assert Utf16Length(b[1..]) == 2;
  }

  /** A letter and an emoji are three code units and pass; two letters and an emoji are four and do not. */
  lemma EmojiSymbolBoundary()
    ensures BrandSymbolFits("a\U{1F680}")
    ensures !BrandSymbolFits("ab\U{1F680}")
  {
    Utf16LengthAppend("a", '\U{1F680}');
    Utf16LengthAppend("ab", '\U{1F680}');
    assert "a" + ['\U{1F680}'] == "a\U{1F680}";
    assert "ab" + ['\U{1F680}'] == "ab\U{1F680}";
  }

  /**
   * Refuses the caller without a user, then a brand symbol longer than three
   * code units before anything is written; otherwise sets name, symbol and
   * currency on the caller's own organization and on no other row.
   */
  method UpdateOrganizationSettings(store: Store, who: Option<User>, form: SettingsForm)
    returns (r: Result<(), ActionError>)
    modifies store
    ensures who.None? ==> r == Err(Unauthorized) && store.Snapshot() == old(store.Snapshot())
    ensures who.Some? && !BrandSymbolFits(form.brandSymbol) ==>
      r == Err(BrandSymbolTooLong) && store.Snapshot() == old(store.Snapshot())
    ensures who.Some? && BrandSymbolFits(form.brandSymbol) ==>
      var o := OrgUpdateWrite(old(store.Snapshot()), who.value.organizationId);
      && r == Rethrow(o)
      && store.Snapshot() ==
        if o.Done? then
          SetOrgSettings(old(store.Snapshot()), who.value.organizationId, form.name, form.brandSymbol, form.currency)
        else old(store.Snapshot())
    ensures old(store.Valid()) ==> store.Valid()
  {
    if who.None? {
      return Err(Unauthorized);
    }
    if form.brandSymbol != "" && Utf16Length(form.brandSymbol) > 3 {
      return Err(BrandSymbolTooLong);
    }
    var o := store.UpdateOrganization(who.value.organizationId, form.name, form.brandSymbol, form.currency);
    r := Rethrow(o);
  }

  /** A resolved caller's organization exists in a consistent store, so the update cannot miss. */
  lemma SettingsUpdateFindsOrganization(db: Db, u: User)
    requires Valid(db) && u in db.users
    ensures OrgUpdateWrite(db, u.organizationId) == Done
  {
  }

  // -----------------------------------------------------------------------
  // Reads
  // -----------------------------------------------------------------------

  /** `getProducts`: the caller's products, the most recently created first; none without a caller. */
  function GetProducts(db: Db, who: Option<User>): (r: seq<Product>)
    ensures who.None? ==> r == []
    ensures who.Some? ==> forall p :: p in r <==> p in db.products && p.organizationId == who.value.organizationId
    ensures who.Some? ==>
      var mine := ProductsOf(db.products, who.value.organizationId);
      |r| == |mine| && forall i | 0 <= i < |r| :: r[i] == mine[|mine| - 1 - i]
  {
    if who.None? then [] else Reverse(ProductsOf(db.products, who.value.organizationId))
  }

  /** `getEmployees`: the caller's roster, the most recently joined first. */
  function GetEmployees(db: Db, who: Option<User>): (r: seq<Employee>)
    ensures who.None? ==> r == []
    ensures who.Some? ==> forall e :: e in r <==> e in db.employees && e.organizationId == who.value.organizationId
    ensures who.Some? ==>
      var mine := EmployeesOf(db.employees, who.value.organizationId);
      |r| == |mine| && forall i | 0 <= i < |r| :: r[i] == mine[|mine| - 1 - i]
  {
    if who.None? then [] else Reverse(EmployeesOf(db.employees, who.value.organizationId))
  }

  /** `getTransactions`: the caller's transactions, the most recent first. */
  function GetTransactions(db: Db, who: Option<User>): (r: seq<Transaction>)
    ensures who.None? ==> r == []
    ensures who.Some? ==>
      forall t :: t in r <==> t in db.transactions && t.organizationId == who.value.organizationId
    ensures who.Some? ==>
      var mine := TransactionsOf(db.transactions, who.value.organizationId);
      |r| == |mine| && forall i | 0 <= i < |r| :: r[i] == mine[|mine| - 1 - i]
  {
    if who.None? then [] else Reverse(TransactionsOf(db.transactions, who.value.organizationId))
  }

  /** The dashboard counters; revenue is not part of this model. */
  datatype DashboardStats = DashboardStats(totalProducts: nat, lowStockCount: nat, activeUsers: nat)

  /** Products of `org` whose quantity is below 10 (zero and negative quantities included). */
  function CountLowStock(products: seq<Product>, org: OrgId): (n: nat)
    ensures n <= |ProductsOf(products, org)|
    ensures n == 0 <==> forall p | p in products && p.organizationId == org :: p.quantity >= 10
  {
    if products == [] then 0
    else if products[0].organizationId == org && products[0].quantity < 10 then
      1 + CountLowStock(products[1..], org)
    else
      CountLowStock(products[1..], org)
  }

  /** `getDashboardStats`: null without a caller; otherwise counts over the caller's organization only. */
  function GetDashboardStats(db: Db, who: Option<User>): (r: Option<DashboardStats>)
    ensures r.None? <==> who.None?
    ensures r.Some? ==> r.value.totalProducts == |ProductsOf(db.products, who.value.organizationId)|
    ensures r.Some? ==> r.value.lowStockCount == CountLowStock(db.products, who.value.organizationId)
    ensures r.Some? ==> r.value.lowStockCount <= r.value.totalProducts
    ensures r.Some? ==> r.value.activeUsers == |UsersOf(db.users, who.value.organizationId)|
    // The caller is one of its organization's users.
    ensures r.Some? && who.value in db.users ==> r.value.activeUsers >= 1
  {
    if who.None? then None
    else
      var org := who.value.organizationId;
      assert who.value in db.users ==> who.value in UsersOf(db.users, org);
      Some(DashboardStats(|ProductsOf(db.products, org)|, CountLowStock(db.products, org), |UsersOf(db.users, org)|))
  }

  /** Another organization's rows change none of the caller's reads. */
  lemma ReadsIgnoreOtherTenants(db: Db, who: User, p: Product)
    requires p.organizationId != who.organizationId
    ensures var db' := db.(products := db.products + [p]);
      && GetProducts(db', Some(who)) == GetProducts(db, Some(who))
      && GetDashboardStats(db', Some(who)) == GetDashboardStats(db, Some(who))
  {
    ProductsOfAppendOther(db.products, p, who.organizationId);
    CountLowStockAppend(db.products, p, who.organizationId);
  }

  lemma {:induction false} ProductsOfAppendOther(products: seq<Product>, p: Product, org: OrgId)
    requires p.organizationId != org
    ensures ProductsOf(products + [p], org) == ProductsOf(products, org)
  {
    if products != [] {
      assert (products + [p])[1..] == products[1..] + [p];
      ProductsOfAppendOther(products[1..], p, org);
    }
  }

  /**
   * A product created later adds one to the count exactly when it is the
   * organization's and its quantity is below 10.
   */
  lemma {:induction false} CountLowStockAppend(products: seq<Product>, p: Product, org: OrgId)
    ensures CountLowStock(products + [p], org) ==
      CountLowStock(products, org) + (if p.organizationId == org && p.quantity < 10 then 1 else 0)
  {
    if products != [] {
      assert (products + [p])[1..] == products[1..] + [p];
      CountLowStockAppend(products[1..], p, org);
    }
  }

  // -----------------------------------------------------------------------
  // Creates
  // -----------------------------------------------------------------------

  /** The product form; price is not part of this model. */
  datatype ProductForm = ProductForm(name: string, sku: string, quantity: string)

  /**
   * `createProduct`: the quantity is `parseInt` of the form text, stored in
   * the caller's organization; a text that does not parse is refused by the
   * store.
   */
  method CreateProduct(store: Store, who: Option<User>, form: ProductForm) returns (r: Result<(), ActionError>)
    modifies store
    ensures who.None? ==> r == Err(Unauthorized) && store.Snapshot() == old(store.Snapshot())
    ensures who.Some? ==>
      var q := ParseInt(form.quantity);
      var o := ProductWrite(old(store.Snapshot()), q, who.value.organizationId);
      && r == Rethrow(o)
      && store.Snapshot() ==
        if o.Done? then AddProduct(old(store.Snapshot()), form.name, form.sku, q.value, who.value.organizationId)
        else old(store.Snapshot())
    ensures old(store.Valid()) ==> store.Valid()
  {
    if who.None? {
      return Err(Unauthorized);
    }
    var quantity := ParseInt(form.quantity);
    var o := store.CreateProduct(form.name, form.sku, quantity, who.value.organizationId);
    r := Rethrow(o);
  }

  /** The employee form; salary is not part of this model. */
  datatype EmployeeForm = EmployeeForm(
    firstName: string, lastName: string, email: string, role: string, department: string)

  /** `createEmployee`: any resolved caller, whatever its role, adds to its own organization's roster. */
  method CreateEmployee(store: Store, who: Option<User>, form: EmployeeForm) returns (r: Result<(), ActionError>)
    modifies store
    ensures who.None? ==> r == Err(Unauthorized) && store.Snapshot() == old(store.Snapshot())
    ensures who.Some? ==>
      var o := EmployeeWrite(old(store.Snapshot()), who.value.organizationId);
      && r == Rethrow(o)
      && store.Snapshot() ==
        if o.Done? then
          AddEmployee(old(store.Snapshot()), form.firstName, form.lastName, form.email, form.role,
                      form.department, who.value.organizationId)
        else old(store.Snapshot())
    ensures old(store.Valid()) ==> store.Valid()
  {
    if who.None? {
      return Err(Unauthorized);
    }
    var o := store.CreateEmployee(form.firstName, form.lastName, form.email, form.role, form.department,
                                  who.value.organizationId);
    r := Rethrow(o);
  }

  /** The transaction form; amount is not part of this model. */
  datatype TransactionForm = TransactionForm(kind: string, category: string, description: string)

  /** The form's type text as the enum the store accepts; anything else is not a value of it. */
  function KindOf(text: string): (k: Option<TransactionKind>)
    ensures k == Some(INCOME) <==> text == "INCOME"
    ensures k == Some(EXPENSE) <==> text == "EXPENSE"
  {
    if text == "INCOME" then Some(INCOME) else if text == "EXPENSE" then Some(EXPENSE) else None
  }

  method CreateTransaction(store: Store, who: Option<User>, form: TransactionForm)
    returns (r: Result<(), ActionError>)
    modifies store
    ensures who.None? ==> r == Err(Unauthorized) && store.Snapshot() == old(store.Snapshot())
    ensures who.Some? ==>
      var k := KindOf(form.kind);
      var o := TransactionWrite(old(store.Snapshot()), k, who.value.organizationId);
      && r == Rethrow(o)
      && store.Snapshot() ==
        if o.Done? then
          AddTransaction(old(store.Snapshot()), k.value, form.category, form.description, who.value.organizationId)
        else old(store.Snapshot())
    ensures old(store.Valid()) ==> store.Valid()
  {
    if who.None? {
      return Err(Unauthorized);
    }
    var o := store.CreateTransaction(KindOf(form.kind), form.category, form.description, who.value.organizationId);
    r := Rethrow(o);
  }

  /**
   * For a resolved caller in a consistent store, a create is refused only
   * for a value the store does not accept: a quantity that does not parse or
   * a type that is neither INCOME nor EXPENSE.
   */
  lemma CreatesRefuseOnlyBadValues(db: Db, u: User, quantity: string, kind: string)
    requires Valid(db) && u in db.users
    ensures ProductWrite(db, ParseInt(quantity), u.organizationId).Done? <==> ParseInt(quantity).Some?
    ensures EmployeeWrite(db, u.organizationId).Done?
    ensures TransactionWrite(db, KindOf(kind), u.organizationId).Done? <==> kind in {"INCOME", "EXPENSE"}
  {
  }

  /** A created product belongs to the caller's organization and keeps the store consistent. */
  lemma CreatedProductIsCallers(db: Db, u: User, form: ProductForm)
    requires Valid(db) && u in db.users && ParseInt(form.quantity).Some?
    ensures var db' := AddProduct(db, form.name, form.sku, ParseInt(form.quantity).value, u.organizationId);
      && Valid(db')
      && GetProducts(db', Some(u))[0] == Product(db.nextId, form.name, form.sku, ParseInt(form.quantity).value, u.organizationId)
  {
    var q := ParseInt(form.quantity).value;
    AddProductValid(db, form.name, form.sku, q, u.organizationId);
    ProductsOfAppendOwn(db.products, Product(db.nextId, form.name, form.sku, q, u.organizationId));
  }

  lemma {:induction false} ProductsOfAppendOwn(products: seq<Product>, p: Product)
    ensures ProductsOf(products + [p], p.organizationId) == ProductsOf(products, p.organizationId) + [p]
  {
    if products != [] {
      assert (products + [p])[1..] == products[1..] + [p];
      ProductsOfAppendOwn(products[1..], p);
    }
  }
}
