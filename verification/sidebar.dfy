/**
 * The dashboard sidebar: the fixed navigation table, which entry is
 * highlighted for the current path, the indent of sub-entries, the
 * brand symbol it computes (and never renders: the header shows a logo
 * image), and how the organization's name is shown.
 */
module Sidebar {
  import opened Wrappers
  import opened Text

  datatype NavItem = NavItem(name: string, href: string)

  const Navigation: seq<NavItem> := [
    NavItem("Dashboard", "/dashboard"),
    NavItem("Inventory", "/dashboard/inventory"),
    NavItem("Employees", "/dashboard/hr"),
    NavItem("Finance", "/dashboard/finance"),
    NavItem("Reports", "/dashboard/reports"),
    NavItem("Settings", "/dashboard/settings")
  ]

  predicate IsDashboard(item: NavItem) {
    item.href == "/dashboard"
  }

  /** The Dashboard entry on its exact path only; any other entry on every path its href starts. */
  predicate IsActive(item: NavItem, pathname: string) {
    if IsDashboard(item) then pathname == "/dashboard" else item.href <= pathname
  }

  /** Sub-entries carry the indent; the Dashboard entry does not. */
  predicate IsIndented(item: NavItem) {
    !IsDashboard(item)
  }

  /** Two prefixes of one string are prefixes of each other. */
  lemma PrefixesNest(a: string, b: string, p: string)
    requires a <= p && b <= p
    ensures a <= b || b <= a
  {
    if |a| <= |b| {
      assert a == p[..|a|] == b[..|a|];
    } else {
      assert b == p[..|b|] == a[..|b|];
    }
  }

  /** No href of a sub-entry is a prefix of another's. */
  lemma SubEntriesDisjoint(i: nat, j: nat)
    requires 1 <= i < |Navigation| && 1 <= j < |Navigation| && i != j
    ensures !(Navigation[i].href <= Navigation[j].href)
  {
    var a, b := Navigation[i].href, Navigation[j].href;
    // After the common "/dashboard/", the first characters already differ.
    assert a[11] != b[11];
  }

  /** Whatever the path, at most one navigation entry is highlighted. */
  lemma AtMostOneActive(pathname: string)
    ensures forall i, j | 0 <= i < j < |Navigation| ::
      !(IsActive(Navigation[i], pathname) && IsActive(Navigation[j], pathname))
  {
    forall i, j | 0 <= i < j < |Navigation| && IsActive(Navigation[i], pathname)
      ensures !IsActive(Navigation[j], pathname)
    {
      if i == 0 {
        assert |Navigation[j].href| > |"/dashboard"|;
      } else if IsActive(Navigation[j], pathname) {
        PrefixesNest(Navigation[i].href, Navigation[j].href, pathname);
        SubEntriesDisjoint(i, j);
        SubEntriesDisjoint(j, i);
      }
    }
  }

  /** On the Dashboard path only the Dashboard entry is highlighted; on a sub-page it is not. */
  lemma DashboardExactOnly(pathname: string)
    ensures IsActive(Navigation[0], pathname) <==> pathname == "/dashboard"
  {
  }

  /** The prefix test is not segment-aware: a path that merely extends "/dashboard/hr" highlights Employees. */
  lemma PrefixNotSegmentAware()
    ensures IsActive(Navigation[2], "/dashboard/hrx")
  {
    assert "/dashboard/hr" == "/dashboard/hrx"[..13];
  }

  lemma IndentExactlySubEntries()
    ensures forall i | 0 <= i < |Navigation| :: IsIndented(Navigation[i]) <==> i != 0
  {
  }

  /** The brand symbol the sidebar computes but never renders: the given one, or "S" when it is absent or empty. */
  function DisplayBrand(brandSymbol: Option<string>): (r: string)
    ensures r != ""
    ensures brandSymbol.Some? && brandSymbol.value != "" ==> r == brandSymbol.value
    ensures brandSymbol.None? || brandSymbol.value == "" ==> r == "S"
  {
    Or(brandSymbol, "S")
  }

  /** The organization name shown: the given one, or "ERP" when it is absent or empty. */
  function DisplayName(orgName: Option<string>): (r: string)
    ensures r != ""
    ensures orgName.Some? && orgName.value != "" ==> r == orgName.value
    ensures orgName.None? || orgName.value == "" ==> r == "ERP"
  {
    Or(orgName, "ERP")
  }

  /** The name's first word, shown plain. */
  function PlainPart(name: string): string {
    Split(name, ' ')[0]
  }

  /** Whether the rest of the name is shown, in red. */
  predicate HasRedPart(name: string) {
    |Split(name, ' ')| > 1
  }

  /** The rest of the name after its first space. */
  function RedPart(name: string): string {
    Join(Split(name, ' ')[1..], ' ')
  }

  /**
   * The plain part is the text before the first space; the red part is
   * shown exactly when the name has a space, and the two joined by a space
   * give back the name.
   */
  lemma {:induction false} NameSplits(name: string)
    ensures PlainPart(name) == name[..IndexOf(name, ' ')]
    ensures HasRedPart(name) <==> ' ' in name
    ensures HasRedPart(name) ==> PlainPart(name) + " " + RedPart(name) == name
    ensures !HasRedPart(name) ==> PlainPart(name) == name
  {
    SplitHasSeveralParts(name, ' ');
    var i := IndexOf(name, ' ');
    if ' ' in name {
      SplitRest(name, ' ');
      assert PlainPart(name) + " " + RedPart(name) == name[..i] + [' '] + name[i + 1..];
      assert name == name[..i] + [' '] + name[i + 1..];
    } else {
      assert i == |name| && name[..i] == name;
    }
  }

  /** The default name "ERP" has no space: it is shown plain, without a red part. */
  lemma DefaultNameIsPlain()
    ensures !HasRedPart(DisplayName(None)) && PlainPart(DisplayName(None)) == "ERP"
  {
    NameSplits("ERP");
  }
}
