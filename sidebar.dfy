/**
 * The sidebar: which navigation tabs the signed-in user sees, and which one
 * is highlighted for the current view.
 */
module Sidebar {
  import opened Common
  import opened Text
  import opened Seqs
  import UserForm

  datatype NavTab = NavTab(viewName: string, caption: string)

  /** The navigation tabs, in the order the sidebar shows them. */
  const AllTabs: seq<NavTab> := [
    NavTab("dashboard", "Dashboard"), NavTab("quotation-list", "Quotations"), NavTab("item-list", "Products"),
    NavTab("invoice-list", "Invoice Tax"), NavTab("customer-list", "Customer Ledger"), NavTab("boq-list", "Boq"),
    NavTab("user-list", "Users")]

  /** The signed-in user: a role and, when the session holds an array there, the tab-access rows. */
  datatype SessionUser = SessionUser(userRole: string, tabAccess: Option<seq<UserForm.TabRow>>)

  /** `tabAccess.find(access => access.tabName === name)`: the first row for the tab. */
  function FindAccess(rows: seq<UserForm.TabRow>, name: string): (r: Option<UserForm.TabRow>)
    ensures r.None? <==> forall j :: 0 <= j < |rows| ==> rows[j].tabName != name
    ensures r.Some? ==> exists j :: (0 <= j < |rows| && rows[j] == r.value && rows[j].tabName == name
      && forall i :: 0 <= i < j ==> rows[i].tabName != name)
  {
    var k := FindIndex(rows, (row: UserForm.TabRow) => row.tabName == name);
    if k < 0 then None else Some(rows[k])
  }

  /** Whether the tab with view `name` is open to a non-admin with these rows. */
  predicate Granted(rows: seq<UserForm.TabRow>, name: string)
    ensures Granted(rows, name) <==> exists j :: (0 <= j < |rows| && rows[j].tabName == name && rows[j].access != "none"
      && forall i :: 0 <= i < j ==> rows[i].tabName != name)
  {
    var a := FindAccess(rows, name);
    a.Some? && a.value.access != "none"
  }

  /**
   * `getAccessibleTabs()`: nothing without a user, everything for an admin,
   * otherwise the tabs whose first access row does not say `none`.
   */
  function AccessibleTabs(user: Option<SessionUser>): (tabs: seq<NavTab>)
    ensures user.None? ==> tabs == []
    ensures user.Some? && user.value.userRole == "admin" ==> tabs == AllTabs
    ensures user.Some? && user.value.userRole != "admin" && user.value.tabAccess.None? ==> tabs == []
    ensures user.Some? && user.value.userRole != "admin" && user.value.tabAccess.Some? ==>
      forall t :: t in tabs <==> t in AllTabs && Granted(user.value.tabAccess.value, t.viewName)
    ensures IsSubsequence(tabs, AllTabs)
  {
    if user.None? then []
    else if user.value.userRole == "admin" then
      SubsequenceOfSelf(AllTabs);
      AllTabs
    else if user.value.tabAccess.Some? then
      var rows := user.value.tabAccess.value;
      Filter(AllTabs, (t: NavTab) => Granted(rows, t.viewName))
    else []
  }

  /** A nav item is highlighted when the current view's name contains its view name. */
  function IsActive(currentView: string, viewName: string): (active: bool)
    ensures active <==> Occurs(currentView, viewName)
  {
    Contains(currentView, viewName)
  }

  /** A tab is highlighted on every view whose name contains its own. */
  lemma ActiveInsideLongerView(a: string, viewName: string, b: string)
    ensures IsActive(a + viewName + b, viewName)
  {
    var v := a + viewName + b;
    assert v[|a|..|a| + |viewName|] == viewName;
    assert OccursAt(v, viewName, |a|);
  }

  // ---------------------------------------------------------------- tab names

  /** The values the user form can store in a row's tab name: its tab values, or nothing chosen. */
  predicate FormTabName(name: string) {
    name == "" || exists k :: 0 <= k < |UserForm.AvailableTabs| && UserForm.AvailableTabs[k].value == name
  }

  /** No tab value the user form offers is the view name of a sidebar tab. */
  lemma FormTabsAreNotViewNames(name: string, t: NavTab)
    requires FormTabName(name) && t in AllTabs
    ensures name != t.viewName
  {
    if name != "" {
      var k :| 0 <= k < |UserForm.AvailableTabs| && UserForm.AvailableTabs[k].value == name;
      assert name[|name| - 1] != 't' || name == "";
      assert t.viewName[|t.viewName| - 1] == 't' || t.viewName == "dashboard";
    }
  }

  /**
   * As written: a non-admin whose rows were all made by the user form sees
   * no tab at all, whatever access the rows grant.
   */
  lemma FormRowsOpenNoTab(role: string, rows: seq<UserForm.TabRow>)
    requires role != "admin"
    requires forall j :: 0 <= j < |rows| ==> FormTabName(rows[j].tabName)
    ensures AccessibleTabs(Some(SessionUser(role, Some(rows)))) == []
  {
    var tabs := AccessibleTabs(Some(SessionUser(role, Some(rows))));
    forall t | t in AllTabs ensures FindAccess(rows, t.viewName).None? {
      forall j | 0 <= j < |rows| ensures rows[j].tabName != t.viewName {
        FormTabsAreNotViewNames(rows[j].tabName, t);
      }
    }
  }

  /** The user-form tab value a sidebar view belongs to: its name without the `-list` suffix. */
  function TabValueOf(viewName: string): (value: string)
    ensures |viewName| >= 5 && viewName[|viewName| - 5..] == "-list" ==> value + "-list" == viewName
    ensures !(|viewName| >= 5 && viewName[|viewName| - 5..] == "-list") ==> value == viewName
  {
    if |viewName| >= 5 && viewName[|viewName| - 5..] == "-list" then viewName[..|viewName| - 5] else viewName
  }

  /** `getAccessibleTabs()` as evidently intended: a row for tab value `v` opens the view `v-list`. */
  function AccessibleTabsIntended(user: Option<SessionUser>): (tabs: seq<NavTab>)
    ensures user.None? ==> tabs == []
    ensures user.Some? && user.value.userRole == "admin" ==> tabs == AllTabs
    ensures user.Some? && user.value.userRole != "admin" && user.value.tabAccess.Some? ==>
      forall t :: t in tabs <==> t in AllTabs && Granted(user.value.tabAccess.value, TabValueOf(t.viewName))
    ensures IsSubsequence(tabs, AllTabs)
  {
    if user.None? then []
    else if user.value.userRole == "admin" then
      SubsequenceOfSelf(AllTabs);
      AllTabs
    else if user.value.tabAccess.Some? then
      var rows := user.value.tabAccess.value;
      Filter(AllTabs, (t: NavTab) => Granted(rows, TabValueOf(t.viewName)))
    else []
  }

  /** With the intended matching, a user-form row granting quotations opens the quotation list. */
  lemma QuotationRowOpensQuotationList(role: string, rows: seq<UserForm.TabRow>)
    requires role != "admin"
    requires |rows| >= 1 && rows[0] == UserForm.TabRow("quotation", "read")
    ensures NavTab("quotation-list", "Quotations") in AccessibleTabsIntended(Some(SessionUser(role, Some(rows))))
  {
    var t := NavTab("quotation-list", "Quotations");
    assert t == AllTabs[1];
    assert TabValueOf(t.viewName) == "quotation";
    assert FindAccess(rows, "quotation") == Some(rows[0]);
  }
}
