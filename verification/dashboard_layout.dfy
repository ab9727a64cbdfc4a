/**
 * The dashboard frame: the branding it hands to the sidebar, taken from the
 * resolved user's organization, and the name and initial it shows for the
 * signed-in email.
 */
module DashboardLayout {
  import opened Wrappers
  import opened Text
  import opened Tables
  import Sidebar

  /** The resolved user's organization, if there is a resolved user. */
  function OrganizationOf(db: Db, who: Option<User>): (r: Option<Organization>)
    ensures who.None? ==> r.None?
    ensures r.Some? ==> r.value in db.orgs && r.value.id == who.value.organizationId
  {
    if who.None? then None else OrgById(db.orgs, who.value.organizationId)
  }

  /** The brand symbol passed to the sidebar: the organization's, or "S". */
  function BrandSymbol(org: Option<Organization>): (r: string)
    ensures r != ""
    ensures org.Some? && org.value.brandSymbol.Some? && org.value.brandSymbol.value != "" ==>
      r == org.value.brandSymbol.value
    ensures org.None? || org.value.brandSymbol.None? || org.value.brandSymbol.value == "" ==> r == "S"
  {
    Or(if org.Some? then org.value.brandSymbol else None, "S")
  }

  /** The organization name passed to the sidebar: the organization's, or "ERP". */
  function ShownOrgName(org: Option<Organization>): (r: string)
    ensures r != ""
    ensures org.Some? && org.value.name != "" ==> r == org.value.name
    ensures org.None? || org.value.name == "" ==> r == "ERP"
  {
    Or(if org.Some? then Some(org.value.name) else None, "ERP")
  }

  /**
   * The sidebar's own defaults never override what the layout passes it:
   * its symbol (computed, not rendered) and the name it shows are the layout's.
   */
  lemma SidebarKeepsLayoutBranding(org: Option<Organization>)
    ensures Sidebar.DisplayBrand(Some(BrandSymbol(org))) == BrandSymbol(org)
    ensures Sidebar.DisplayName(Some(ShownOrgName(org))) == ShownOrgName(org)
  {
  }

  /** The name shown for the signed-in email: its text before the first '@', or "User". */
  function UserName(email: Option<string>): (r: string)
    ensures r != "" && '@' !in r
    ensures email.Some? && email.value != "" && email.value[0] != '@' ==>
      r == email.value[..IndexOf(email.value, '@')]
    ensures email.None? || email.value == "" || email.value[0] == '@' ==> r == "User"
  {
    match email
    case None => "User"
    case Some(e) => Or(Some(Split(e, '@')[0]), "User")
  }

  /** `charAt(0).toUpperCase()`: the first character upper-cased, or nothing for an empty name. */
  function UserInitial(userName: string): string {
    if userName == "" then "" else [UpperAscii(userName[0])]
  }

  /** The initial shown is one character: the upper-cased first character of the shown name. */
  lemma InitialOfUserName(email: Option<string>)
    ensures |UserInitial(UserName(email))| == 1
    ensures UserInitial(UserName(email))[0] == UpperAscii(UserName(email)[0])
    ensures email.None? ==> UserInitial(UserName(email)) == "U"
  {
  }

  /** An ASCII lower-case first letter is shown as its capital. */
  lemma InitialIsCapital(email: string)
    requires email != "" && 'a' <= email[0] <= 'z'
    ensures var c := UserInitial(UserName(Some(email)))[0];
      'A' <= c <= 'Z' && c as int == email[0] as int - 32
  {
    assert UserName(Some(email))[0] == email[0];
  }
}
