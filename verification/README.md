# Tenant identity and tenant-scoped actions of a multi-tenant ERP dashboard

This project is a Dafny model of the server core of a multi-tenant ERP web application. Each organization (tenant) has its own products, roster, transactions and users.

- **Identity reconciliation.** `ensureUserAndOrg` maps the signed-in identity to an application user. It returns the user registered under the session's email. Failing that, it links the identity to the organization whose roster lists that email. Failing that, it provisions a new organization `ERP n` / `erp-n` with the identity as its OWNER. A uniqueness conflict on a create falls back to a re-read by id.
- **Tenant-scoped actions.** The settings update, the dashboard counters, and the list and create actions for products, employees and transactions are all scoped to the caller's organization. So are product deletion and product import from spreadsheets and PDFs.
- **Display rules.** The model also covers the pure display rules of the inventory page, the sidebar and the dashboard layout.

Module layout:

| module | file | models |
|---|---|---|
| `Wrappers` | wrappers.dfy | `Option` (null) and `Result` (a value or a thrown error) |
| `Text` | text.dfy | the JavaScript string and number built-ins the core uses: `split`, `split(/\s+/)`, `trim`, `parseInt`, number-to-text, `padStart`, `endsWith`, `length` in UTF-16 units, `toUpperCase` on ASCII, and `||` on strings |
| `Tables` | tables.dfy | the rows, the store as a value `Db`, the constraints the database enforces (`Valid`), the lookups, and whether each write is accepted and its effect |
| `TenantStore` | store.dfy | the class `Store`: one mutable table per entity; every write method is proved equal to its `Tables` effect |
| `Identity` | identity.dfy | `ensureUserAndOrg`: the function `Reconcile`, the method `EnsureUserAndOrg` proved equal to it, and its properties |
| `DataActions` | data_actions.dfy | settings, dashboard counters, and the list and create actions |
| `InventoryActions` | inventory_actions.dfy | product deletion, and import: the spreadsheet-row and PDF-line mappings, the loop, and its specification `ImportAll` |
| `InventoryPage` | inventory_page.dfy | stock status, counters, highlight, quantity text |
| `Sidebar` | sidebar.dfy | the navigation table, the active-entry rule, the indent, the brand symbol it computes but never renders, and the name display |
| `DashboardLayout` | dashboard_layout.dfy | the branding passed to the sidebar, and the user name and initial |

Every action first calls `ensureUserAndOrg`. In the model, its result is the action's `who` argument: `None` when it yielded null.

- The identity provider's answer is the `Session` argument.
- `Math.random()` in the registration number is the argument `n`, with 100000 ≤ n ≤ 999999.
- The random SKU suffix and `Date.now()` are the functions `tag` and `clock`, applied to the row's position.
- A lost connection on the two creates that `ensureUserAndOrg` makes is the `outage` argument. The other writes are modelled without one (see "## Left out").
- A write the store refuses is an `Outcome.Refused`: P2002 is `UniqueViolation`, P2003 is `ForeignKeyViolation`, P2025 is `RecordNotFound`, and a value of the wrong type is `InvalidValue`.

Two behaviours of the code are worth knowing:

- A comment at src/lib/data-actions.ts:66 notes that slug collisions might need handling. The code does not handle them: when the generated slug is taken, it re-reads the user by the session id, which finds nothing, so the operation yields null (`Identity.ReconcileSlugCollision`).
- The brand-symbol length check counts UTF-16 code units, as JavaScript's `length` does, not characters. One emoji after one letter fits; after two letters it does not (`DataActions.EmojiSymbolBoundary`, `DataActions.TwoEmojiDoNotFit`).

## Model

| member | source | states |
|---|---|---|
| Text.SplitWhitespace | src/lib/inventory-actions.ts:67 | the first part is the text before the first whitespace character; there are at least two parts iff the line contains whitespace |
| Text.JoinSplit | src/components/layout/sidebar.tsx:43-45 | joining the parts of `split(sep)` with `sep` gives back the original string |
| Text.Decimal | src/lib/data-actions.ts:61-62 | a number's text is a non-empty run of decimal digits with no leading zero, and it denotes the number |
| Text.ParseIntOfToString | src/lib/data-actions.ts:171 | `parseInt` of any integer's decimal text gives back that integer |
| Text.Utf16Length | src/lib/data-actions.ts:112 | JavaScript's `length` lies between the number of characters and twice that number; it equals the number of characters when none is outside the Basic Multilingual Plane |
| Text.Utf16LengthConcat | src/lib/data-actions.ts:112 | the `length` of two strings joined is the sum of their lengths |
| Text.Utf16LengthAppend | src/lib/data-actions.ts:112 | one more character adds one unit inside the Basic Multilingual Plane and two (a surrogate pair) outside it |
| Text.PadStart | src/app/dashboard/inventory/page.tsx:154 | the result has length max(width, \|s\|), ends with `s`, and is `fill` before it |
| Tables.UserByEmail | src/lib/data-actions.ts:21-24 | finds a stored user with that email, or finds nothing exactly when no user has that email |
| Tables.UserById | src/lib/data-actions.ts:95-98 | finds a stored user with that id, or finds nothing exactly when no user has that id |
| Tables.EmployeeByEmail | src/lib/data-actions.ts:32-34 | finds a roster row with that email, or finds nothing exactly when no row has it |
| Tables.ProductById | src/lib/inventory-actions.ts:14-16 | finds the product with that id, or finds nothing exactly when none has it |
| Tables.UserByIdAppend | src/lib/data-actions.ts:95-98 | after a user is appended under an id nobody held, the lookup by that id finds it |
| Tables.UserLookupsUnique | src/lib/data-actions.ts:21-24 | when ids and emails are unique, each stored user is what both lookups return |
| Tables.SetOrgSettings | src/lib/data-actions.ts:116-125 | only organizations with the given id change; they get the new name, symbol and currency and keep their id and slug; every other table is unchanged |
| Tables.WithoutProduct | src/lib/inventory-actions.ts:22-24 | keeps exactly the products whose id differs from the deleted one |
| Tables.ProductsOf | src/lib/data-actions.ts:159-162 | exactly the products of the organization |
| Tables.EmployeesOf | src/lib/data-actions.ts:193-197 | exactly the roster rows of the organization |
| Tables.EmployeesOfAppend | src/lib/data-actions.ts:193-197 | a roster row added last is listed last for its own organization and not at all for another: each row of the organization appears once, in insertion order |
| Tables.TransactionsOf | src/lib/data-actions.ts:234-237 | exactly the transactions of the organization |
| Tables.TransactionsOfAppend | src/lib/data-actions.ts:234-237 | a transaction added last is listed last for its own organization and not at all for another: each appears once, in insertion order |
| Tables.UsersOf | src/lib/data-actions.ts:139 | exactly the users of the organization |
| Tables.UsersOfAppend | src/lib/data-actions.ts:139 | a user added last is listed last for its own organization and not at all for another, so the active-user count is the number of the organization's users |
| Tables.Reverse | src/lib/data-actions.ts:161 | newest first: the i-th element is the i-th from the end, and the elements are the same |
| Tables.AddUserValid | src/lib/data-actions.ts:39-47 | an accepted user create keeps user ids and emails unique and every user's organization present |
| Tables.AddOrgWithOwnerValid | src/lib/data-actions.ts:67-79 | an accepted organization-with-owner create keeps ids, slugs, user ids and emails unique, and the new owner's organization exists |
| Tables.SetOrgSettingsValid | src/lib/data-actions.ts:116-125 | a settings update keeps every constraint |
| Tables.AddProductValid | src/lib/data-actions.ts:174-182 | an accepted product create keeps product ids unique |
| Tables.RemoveProductValid | src/lib/inventory-actions.ts:22-24 | a delete keeps every constraint |
| Tables.AddEmployeeValid | src/lib/data-actions.ts:212-222 | an accepted roster create keeps every constraint |
| Tables.AddTransactionValid | src/lib/data-actions.ts:250-258 | an accepted transaction create keeps every constraint |
| TenantStore.Store.CreateUser | src/lib/data-actions.ts:39-47 | refuses a lost connection, a taken id or email, or an unknown organization, and changes nothing then; otherwise appends the user; the store's constraints hold afterwards if they held before |
| TenantStore.Store.CreateOrganizationWithOwner | src/lib/data-actions.ts:67-79 | one atomic write: the organization and its OWNER user are both added under the next id, or neither is (taken slug, id or email, or lost connection); the store's constraints hold afterwards if they held before |
| TenantStore.Store.UpdateOrganization | src/lib/data-actions.ts:116-125 | refuses a missing organization; otherwise the new state is the settings update of the old one; the store's constraints hold afterwards if they held before |
| TenantStore.Store.CreateProduct | src/lib/data-actions.ts:174-182 | refuses a quantity that is not a number or an unknown organization; otherwise appends the product under the next id; the store's constraints hold afterwards if they held before |
| TenantStore.Store.DeleteProduct | src/lib/inventory-actions.ts:22-24 | refuses a missing product; otherwise removes the product with that id; the store's constraints hold afterwards if they held before |
| TenantStore.Store.CreateEmployee | src/lib/data-actions.ts:212-222 | refuses an unknown organization; otherwise appends the roster row; the store's constraints hold afterwards if they held before |
| TenantStore.Store.CreateTransaction | src/lib/data-actions.ts:250-258 | refuses a type outside the enum or an unknown organization; otherwise appends the transaction; the store's constraints hold afterwards if they held before |
| Identity.Reconcile | src/lib/data-actions.ts:7-101 | no session gives null and no write; an existing user with the email is returned with no write; a returned user is stored and has the session's email or id; an error means a failed write and an unchanged store; at most one user and one organization are appended and nothing else changes; a new user is the session identity and is what is returned; a new organization comes with its OWNER user |
| Identity.EnsureUserAndOrg | src/lib/data-actions.ts:7-101 | the result and the new store state are exactly `Reconcile` of the old state; the store's constraints hold afterwards if they held before |
| Identity.ReconcileKeepsValid | src/lib/data-actions.ts:36-91 | the store's constraints hold after the operation if they held before |
| Identity.ReconcileLinksEmployee | src/lib/data-actions.ts:32-48 | an email on a roster and unknown as a user adds exactly one EMPLOYEE user in that roster's organization, returns it, and adds no organization |
| Identity.ReconcileProvisions | src/lib/data-actions.ts:58-100 | an unknown identity gets organization `ERP n` / `erp-n` under the next id, with n written in six digits, and an OWNER user that is returned |
| Identity.ReconcileSlugCollision | src/lib/data-actions.ts:80-86 | a taken slug with no user for the session id yields null and writes nothing |
| Identity.ReconcileKnownId | src/lib/data-actions.ts:49-52 | when the session id already has a user under another email, the refused create falls back to that user, unless the write fails first |
| Identity.ReconcileRethrows | src/lib/data-actions.ts:80-91 | a write failing for another reason than uniqueness is rethrown and the store is unchanged |
| Identity.ReconcileIdempotent | src/lib/data-actions.ts:21-28 | after a call that yielded a user, a second call for the same identity, with any registration number, writes nothing and yields the same user; the only exception is a user found by id under another email, whose repeated create may itself fail |
| DataActions.BrandSymbolOfThreeFits | src/lib/data-actions.ts:112 | up to three characters of the Basic Multilingual Plane pass the length check |
| DataActions.EmojiSymbolBoundary | src/lib/data-actions.ts:112 | a letter and one emoji (three units) pass the check; two letters and one emoji (four units) are refused |
| DataActions.TwoEmojiDoNotFit | src/lib/data-actions.ts:112 | two emoji are four UTF-16 units and are refused |
| DataActions.UpdateOrganizationSettings | src/lib/data-actions.ts:103-128 | no caller gives Unauthorized, and a symbol over three units gives the length error, both with no write; otherwise the caller's organization and no other row is updated; the store's constraints hold afterwards if they held before |
| DataActions.SettingsUpdateFindsOrganization | src/lib/data-actions.ts:116-117 | a resolved caller's organization exists, so the update cannot miss |
| DataActions.GetProducts | src/lib/data-actions.ts:155-163 | no caller gives []; otherwise exactly the caller's products, the most recently created first |
| DataActions.GetEmployees | src/lib/data-actions.ts:189-198 | no caller gives []; otherwise exactly the caller's roster, the most recently joined first |
| DataActions.GetTransactions | src/lib/data-actions.ts:229-238 | no caller gives []; otherwise exactly the caller's transactions, the most recent first |
| DataActions.CountLowStock | src/lib/data-actions.ts:138 | is at most the caller's product count, and is zero iff every product of the organization has quantity 10 or more |
| DataActions.CountLowStockAppend | src/lib/data-actions.ts:138 | one more product adds one to the count exactly when it belongs to the organization and its quantity is below 10; the count is therefore the number of such products |
| DataActions.GetDashboardStats | src/lib/data-actions.ts:130-153 | null iff there is no caller; total products is the number of the caller's products, low stock is `CountLowStock` of the caller's organization, active users is the number of its users; low stock ≤ total products; a stored caller makes active users ≥ 1 |
| DataActions.ReadsIgnoreOtherTenants | src/lib/data-actions.ts:136-162 | adding another organization's product changes neither the caller's product list nor its counters |
| DataActions.CreateProduct | src/lib/data-actions.ts:165-185 | no caller gives Unauthorized and no write; otherwise the `parseInt` quantity is written in the caller's organization, or the store's refusal is rethrown; the store's constraints hold afterwards if they held before |
| DataActions.CreateEmployee | src/lib/data-actions.ts:200-225 | any resolved caller, whatever its role, adds a roster row in its own organization; the store's constraints hold afterwards if they held before |
| DataActions.KindOf | src/lib/data-actions.ts:245 | the type text maps to INCOME or EXPENSE exactly when it spells that value |
| DataActions.CreateTransaction | src/lib/data-actions.ts:240-262 | no caller gives Unauthorized and no write; otherwise the transaction is stamped with the caller's organization, or refused for a type outside the enum; the store's constraints hold afterwards if they held before |
| DataActions.CreatesRefuseOnlyBadValues | src/lib/data-actions.ts:171-182 | for a resolved caller in a consistent store, a product create fails only for an unparsable quantity, a roster create never fails, and a transaction create fails only for a type other than INCOME or EXPENSE |
| DataActions.CreatedProductIsCallers | src/lib/data-actions.ts:174-182 | the created product keeps the store consistent and is first in the caller's product list, stamped with its organization |
| InventoryActions.DeleteProduct | src/lib/inventory-actions.ts:9-27 | no caller gives Unauthorized; a missing product and another organization's product give the same error with no write; otherwise the product is removed; the store's constraints hold afterwards if they held before |
| InventoryActions.DeleteRemovesOnlyThatRow | src/lib/inventory-actions.ts:22-24 | with unique ids, the delete removes exactly that row and keeps all others in order |
| InventoryActions.SheetDrafts | src/lib/inventory-actions.ts:48-54 | one draft per sheet row, in order, each from that row's cells and that row's clock and suffix |
| InventoryActions.SheetDraftDefaults | src/lib/inventory-actions.ts:49-51 | a row without any of the six cells gives the generated name and SKU and quantity 0 |
| InventoryActions.SheetQuantityOfNumber | src/lib/inventory-actions.ts:51 | a Quantity cell holding an integer's decimal text gives that quantity |
| InventoryActions.NonBlank | src/lib/inventory-actions.ts:63 | keeps exactly the lines with a non-whitespace character |
| InventoryActions.NonBlankAppend | src/lib/inventory-actions.ts:63 | one more line is kept, after the lines kept before it, exactly when it is not blank: the filter keeps order and repeated lines |
| InventoryActions.PdfDraft | src/lib/inventory-actions.ts:65-77 | a line yields a product iff it contains whitespace; the product is named by the text before the first whitespace, with quantity 1 and a `PDF-SKU-index-time` SKU |
| InventoryActions.PdfDrafts | src/lib/inventory-actions.ts:65-78 | at most one product per non-blank line, each with quantity 1 and the SKU of one of those lines |
| InventoryActions.CollectedFrom | src/lib/inventory-actions.ts:65-78 | every value kept by map-then-filter is what the mapping gives one of the lines under that line's index |
| InventoryActions.CollectAppend | src/lib/inventory-actions.ts:65-78 | map-then-filter over one more line keeps the earlier values in order and adds exactly that line's value, or nothing for null |
| InventoryActions.PdfDraftsAppend | src/lib/inventory-actions.ts:65-78 | one more non-blank line adds, after the earlier products and in order, exactly the product that line yields under its own index, or nothing |
| InventoryActions.PdfSkuInjective | src/lib/inventory-actions.ts:71 | a PDF SKU determines its line number and its time |
| InventoryActions.PdfDraftsDistinctSkus | src/lib/inventory-actions.ts:65-78 | the products from one PDF have pairwise distinct SKUs |
| InventoryActions.CrlfLineYieldsProduct | src/lib/inventory-actions.ts:63-68 | a line ending in a carriage return always yields a product |
| InventoryActions.UpperCaseExtensionIgnored | src/lib/inventory-actions.ts:41-55 | the extension test is case-sensitive: a `.XLSX` name yields nothing |
| InventoryActions.ImportAll | src/lib/inventory-actions.ts:89-107 | only products change, by appending; each new product comes from a draft, carries the caller's organization and a fresh id, and has a SKU the organization did not have before it |
| InventoryActions.ImportProducts | src/lib/inventory-actions.ts:29-111 | no caller or no file throws before any write; otherwise the new state is `ImportAll` of the upload's drafts over the old state; the store's constraints hold afterwards if they held before |
| InventoryActions.ImportAllKeepsValid | src/lib/inventory-actions.ts:89-107 | an import keeps the store consistent |
| InventoryActions.ImportAllSettles | src/lib/inventory-actions.ts:92-103 | after an import, every draft's SKU is in the organization, or the store refuses that draft |
| InventoryActions.ImportIdempotent | src/lib/inventory-actions.ts:89-107 | importing the same drafts (the same SKUs) again changes nothing; uploading the same file again is a different case, since PDF lines and sheet rows without a SKU get new SKUs from the clock and the random suffix |
| InventoryActions.ImportAddsDistinctSkus | src/lib/inventory-actions.ts:92-103 | the products one import creates have pairwise distinct SKUs, however often a SKU repeats |
| InventoryActions.UnparsedDraftIsSkipped | src/lib/inventory-actions.ts:104-106 | a row whose quantity does not parse is dropped; the rows before and after it import as if it were absent |
| InventoryPage.Status | src/app/dashboard/inventory/page.tsx:132-136 | Available iff quantity > 10; Critical iff 0 < quantity ≤ 10; Depleted iff quantity ≤ 0 |
| InventoryPage.CountLowStockAlerts | src/app/dashboard/inventory/page.tsx:34 | at most the number of products |
| InventoryPage.CountLowStockAlertsAppend | src/app/dashboard/inventory/page.tsx:34 | one more product adds one to "Low Stock Alerts" exactly when 0 < quantity < 10; the counter is therefore the number of such products |
| InventoryPage.CountOutOfStock | src/app/dashboard/inventory/page.tsx:38 | at most the number of products |
| InventoryPage.CountOutOfStockAppend | src/app/dashboard/inventory/page.tsx:38 | one more product adds one to "Out of Stock" exactly when its quantity is 0; the counter is therefore the number of such products |
| InventoryPage.CountNegativeAppend | src/app/dashboard/inventory/page.tsx:34-38 | one more product adds one to the count of negative quantities, which neither counter shows, exactly when its quantity is below 0 |
| InventoryPage.CountersWithinTotal | src/app/dashboard/inventory/page.tsx:30-38 | low-stock alerts plus out-of-stock is at most the total item count |
| InventoryPage.DashboardLowStockSplits | src/app/dashboard/inventory/page.tsx:34-38 | the dashboard's low-stock count is the page's alerts plus out-of-stock plus negative quantities |
| InventoryPage.TenIsCriticalWithoutAlert | src/app/dashboard/inventory/page.tsx:132-152 | quantity 10 is Critical, is not a low-stock alert, and is not highlighted |
| InventoryPage.AlertAgreesWithBadge | src/app/dashboard/inventory/page.tsx:132-152 | every alert is Critical and highlighted; a row is highlighted iff it is not Available and its quantity is not 10 |
| InventoryPage.QuantityTextDenotes | src/app/dashboard/inventory/page.tsx:154 | for quantity ≥ 0 the text is its digits left-padded with '0' to at least three, and it denotes the quantity |
| InventoryPage.NegativeQuantityText | src/app/dashboard/inventory/page.tsx:154 | a negative quantity is padded in front of its sign: -5 shows as "0-5" |
| Sidebar.AtMostOneActive | src/components/layout/sidebar.tsx:17-58 | for every path, at most one navigation entry is active |
| Sidebar.DashboardExactOnly | src/components/layout/sidebar.tsx:55-57 | Dashboard is active iff the path is exactly "/dashboard" |
| Sidebar.PrefixNotSegmentAware | src/components/layout/sidebar.tsx:58 | "/dashboard/hrx" activates Employees: the prefix test ignores path segments |
| Sidebar.IndentExactlySubEntries | src/components/layout/sidebar.tsx:72 | exactly the entries other than Dashboard are indented |
| Sidebar.DisplayBrand | src/components/layout/sidebar.tsx:29 | the symbol the sidebar computes (it never renders it): the given symbol if non-empty, otherwise "S"; never empty |
| Sidebar.DisplayName | src/components/layout/sidebar.tsx:30 | the given name if non-empty, otherwise "ERP"; never empty |
| Sidebar.NameSplits | src/components/layout/sidebar.tsx:43-45 | the plain part is the text before the first space; the red part is shown iff the name has a space; plain + " " + red gives back the name |
| Sidebar.DefaultNameIsPlain | src/components/layout/sidebar.tsx:30-45 | the default "ERP" is shown plain with no red part |
| DashboardLayout.OrganizationOf | src/app/dashboard/layout.tsx:14-16 | the resolved user's organization: none without a user, otherwise the stored organization with the user's organization id |
| DashboardLayout.BrandSymbol | src/app/dashboard/layout.tsx:15 | the organization's symbol if set and non-empty, otherwise "S" |
| DashboardLayout.ShownOrgName | src/app/dashboard/layout.tsx:16 | the organization's name if non-empty, otherwise "ERP" |
| DashboardLayout.SidebarKeepsLayoutBranding | src/app/dashboard/layout.tsx:24 | the sidebar's fallbacks keep exactly the symbol and name the layout passes it; the name is what the sidebar shows, the symbol is computed and not rendered |
| DashboardLayout.UserName | src/app/dashboard/layout.tsx:18 | the email's text before the first '@', or "User" when the email is absent, empty or starts with '@'; never empty and never contains '@' |
| DashboardLayout.InitialOfUserName | src/app/dashboard/layout.tsx:19 | the initial is one character, the upper-cased first character of the shown name; "U" without an email |
| DashboardLayout.InitialIsCapital | src/app/dashboard/layout.tsx:19 | an ASCII lower-case first letter is shown as its capital |

## Left out

- Floating-point values are not modelled: product price, employee salary and transaction amount, the dashboard's revenue, `getReportsData`, the finance page's sums, the stock bar width, and `toFixed`/`toLocaleString` formatting. The forms and rows carry no such field.
- The identity provider and the database client are replaced by the `Session` argument and the in-memory `Store`. `revalidatePath` only refreshes caches and is a no-op here. The returned user's attached organization is `DashboardLayout.OrganizationOf`.
- Reads never fail in the model; a failing lookup or re-read is not modelled. A lost connection is modelled only on the two creates of `ensureUserAndOrg`, through `outage`.
- TenantStore.Store.UpdateOrganization, TenantStore.Store.CreateProduct, TenantStore.Store.DeleteProduct, TenantStore.Store.CreateEmployee, TenantStore.Store.CreateTransaction: a lost connection is not modelled on these writes; each is refused only for the values the store rejects. In the code, each `await prisma.….update/create/delete` can also throw for that reason, and the error reaches the caller.
- DataActions.CreatesRefuseOnlyBadValues: holds only because those writes cannot fail for a lost connection in the model. In particular "a roster create never fails" does not hold of the code, whose `prisma.employee.create` (src/lib/data-actions.ts:212-222) can throw for a lost connection.
- Concurrency is not modelled. Two requests racing on the same identity appear only as the sequential branch "create refused as a duplicate, then re-read by id".
- Identity.Reconcile: the session always carries an email; an identity without one is not modelled.
- Newest-first ordering is the reverse of insertion order. Clock ties and a clock running backwards are not modelled.
- Generated ids are a counter (`nextId`), not the store's generated strings. The column types of the schema are not available: quantities are unbounded integers, with no 32-bit range check, and roster emails are not assumed unique.
- Form fields are always present; a missing field (`formData.get` giving null) is not modelled. An upload that is present but empty is an `Upload` with no rows and no text.
- Spreadsheet and PDF reading are not modelled: an `Upload` carries the first sheet's rows as header-to-text maps and the extracted PDF text. A reader that throws, and cells holding numbers rather than text, are not modelled.
- Tables.ProductWrite: the store's own uniqueness of SKUs is not modelled, because the database schema is not part of this model; the comments at src/lib/inventory-actions.ts:84-91 mention such a constraint. The import's explicit check for an existing SKU in the organization is modelled (`InventoryActions.ImportAll`), so an import never creates a duplicate SKU; `DataActions.CreateProduct` can, and `DataActions.CreatesRefuseOnlyBadValues` relies on that.
- InventoryActions.ImportAll: a create that fails for a reason other than a refused value, such as a lost connection, is not modelled. It would be caught and skipped like a refused one.
- Text.ParseInt: values are exact integers; the loss of precision of JavaScript numbers beyond 2^53 is not modelled.
- Text.UpperAscii: only ASCII letters are upper-cased; other case mappings (including those that lengthen the text) and `charAt` splitting a surrogate pair are not modelled.
- Sidebar.DisplayBrand: the symbol is computed (src/components/layout/sidebar.tsx:29) but never rendered; the header shows the `/logo.svg` image (src/components/layout/sidebar.tsx:36-40), which is not modelled.
- The role gate of the HR page, the dashboard's currency icon, the settings form's `maxLength`, the login and landing pages, and the export buttons are not part of this model. `createEmployee` itself checks no role, and the model keeps that.
