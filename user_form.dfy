/**
 * The user form: the rows granting a tab at an access level, the tab
 * choices a row may offer, the edit hydration and the checks and filtering
 * of submit.
 */
module UserForm {
  import opened Common
  import opened Seqs

  /** One tab-access row: the tab's value (`""` before one is chosen) and `read`, `write` or `none`. */
  datatype TabRow = TabRow(tabName: string, access: string)

  const NewRow := TabRow("", "read")

  datatype Tab = Tab(value: string, caption: string)

  /** The tabs a user can be granted, in the order the form lists them. */
  const AvailableTabs: seq<Tab> := [
    Tab("quotation", "Quotations"), Tab("item", "Products"), Tab("invoice", "Invoice Tax"),
    Tab("customer", "Customer Ledger"), Tab("boq", "Boq"), Tab("purchase", "Purchase Order"),
    Tab("proforma", "Proforma Invoice"), Tab("user", "Users")]

  datatype FormData = FormData(name: string, email: string, password: string, userRole: string, tabAccess: seq<TabRow>)

  const InitialForm := FormData("", "", "", "user", [NewRow])

  // ---------------------------------------------------------------- rows

  /** `addTabAccess`: one fresh row at the end. */
  function AddTabAccess(f: FormData): (r: FormData)
    ensures r.tabAccess == f.tabAccess + [NewRow]
    ensures r.(tabAccess := f.tabAccess) == f
  {
    f.(tabAccess := f.tabAccess + [NewRow])
  }

  /** `removeTabAccess(index)`: the last row is never removed; an index outside the rows removes nothing. */
  function RemoveTabAccess(f: FormData, index: int): (r: FormData)
    ensures r.(tabAccess := f.tabAccess) == f
    ensures |f.tabAccess| <= 1 || !(0 <= index < |f.tabAccess|) ==> r == f
    ensures |f.tabAccess| > 1 && 0 <= index < |f.tabAccess| ==>
      r.tabAccess == f.tabAccess[..index] + f.tabAccess[index + 1..]
  {
    if |f.tabAccess| > 1 then
      var rows := RemoveIndex(f.tabAccess, index);
      assert 0 <= index < |f.tabAccess| ==> rows == f.tabAccess[..index] + f.tabAccess[index + 1..];
      f.(tabAccess := rows)
    else f
  }

  datatype RowField = TabNameField | AccessField

  function SetField(row: TabRow, field: RowField, value: string): TabRow {
    match field
    case TabNameField => row.(tabName := value)
    case AccessField => row.(access := value)
  }

  /** `handleTabAccessChange(index, field, value)`: field `field` of row `index` becomes `value`; nothing else changes. */
  function HandleTabAccessChange(f: FormData, index: int, field: RowField, value: string): (r: FormData)
    ensures r.(tabAccess := f.tabAccess) == f
    ensures |r.tabAccess| == |f.tabAccess|
    ensures forall i :: 0 <= i < |f.tabAccess| && i != index ==> r.tabAccess[i] == f.tabAccess[i]
    ensures 0 <= index < |f.tabAccess| ==> (match field
      case TabNameField => r.tabAccess[index] == TabRow(value, f.tabAccess[index].access)
      case AccessField => r.tabAccess[index] == TabRow(f.tabAccess[index].tabName, value))
  {
    f.(tabAccess := seq(|f.tabAccess|, i requires 0 <= i < |f.tabAccess| =>
      if i == index then SetField(f.tabAccess[i], field, value) else f.tabAccess[i]))
  }

  /** No row edit leaves the form without a row. */
  lemma RowEditsKeepARow(f: FormData, index: int, field: RowField, value: string)
    requires |f.tabAccess| >= 1
    ensures |AddTabAccess(f).tabAccess| >= 1
    ensures |RemoveTabAccess(f, index).tabAccess| >= 1
    ensures |HandleTabAccessChange(f, index, field, value).tabAccess| >= 1
  {
  }

  /** Removing the row just added gives the form back. */
  lemma RemoveUndoesAdd(f: FormData)
    requires |f.tabAccess| >= 1
    ensures RemoveTabAccess(AddTabAccess(f), |f.tabAccess|) == f
  {
    var rows := f.tabAccess + [NewRow];
    assert rows[..|f.tabAccess|] + rows[|f.tabAccess| + 1..] == f.tabAccess;
  }

  // ---------------------------------------------------------------- tab options

  /** The tab values chosen in some row. */
  function SelectedTabs(rows: seq<TabRow>): (names: seq<string>)
    ensures forall t :: t in names <==> t != "" && exists j :: 0 <= j < |rows| && rows[j].tabName == t
  {
    if rows == [] then []
    else
      var rest := SelectedTabs(rows[1..]);
      assert forall j :: 0 <= j < |rows| - 1 ==> rows[1..][j] == rows[j + 1];
      if rows[0].tabName != "" then [rows[0].tabName] + rest else rest
  }

  /** The value row `index` currently holds, when there is such a row. */
  function CurrentTab(rows: seq<TabRow>, index: int): Option<string> {
    if 0 <= index < |rows| then Some(rows[index].tabName) else None
  }

  /**
   * `getAvailableTabOptions(index)`: in the form's order, every tab that no
   * row has chosen, and the tab row `index` has chosen itself.
   */
  function AvailableTabOptions(rows: seq<TabRow>, index: int): (opts: seq<Tab>)
    ensures forall t :: t in opts <==>
      (t in AvailableTabs && (CurrentTab(rows, index) == Some(t.value) || t.value !in SelectedTabs(rows)))
    ensures IsSubsequence(opts, AvailableTabs)
  {
    var selected := SelectedTabs(rows);
    Filter(AvailableTabs, (t: Tab) => CurrentTab(rows, index) == Some(t.value) || t.value !in selected)
  }

  /** A tab chosen in another row is not offered to row `i`, unless row `i` holds it too. */
  lemma TakenTabNotOffered(rows: seq<TabRow>, i: int, j: nat, t: Tab)
    requires j < |rows| && rows[j].tabName == t.value && t.value != ""
    requires CurrentTab(rows, i) != Some(t.value)
    ensures t !in AvailableTabOptions(rows, i)
  {
  }

  /** A row's own choice is always among its options, and so is every tab nobody chose. */
  lemma OwnAndFreeTabsOffered(rows: seq<TabRow>, i: nat, t: Tab)
    requires i < |rows| && t in AvailableTabs
    requires rows[i].tabName == t.value || forall j :: 0 <= j < |rows| ==> rows[j].tabName != t.value
    ensures t in AvailableTabOptions(rows, i)
  {
  }

  // ---------------------------------------------------------------- hydration

  /** A user as the server returns it; absent fields are `None`. */
  datatype StoredUser = StoredUser(
    id: string, name: Option<string>, email: Option<string>, userRole: Option<string>,
    tabAccess: Option<seq<TabRow>>)

  /** `x || d` on an optional string. */
  function TextOr(x: Option<string>, d: string): (r: string)
    ensures Some(r) == x || r == d
    ensures r != "" <==> (x.Some? && x.value != "") || d != ""
    ensures x.Some? && x.value != "" ==> r == x.value
    ensures x.None? || x.value == "" ==> r == d
  {
    if x.Some? && x.value != "" then x.value else d
  }

  /** The form filled from the user being edited: no password, and one fresh row when there are no rows. */
  function Hydrate(u: StoredUser): (f: FormData)
    ensures f.password == ""
    ensures |f.tabAccess| >= 1
    ensures u.tabAccess.Some? && |u.tabAccess.value| > 0 ==> f.tabAccess == u.tabAccess.value
    ensures u.tabAccess.None? || |u.tabAccess.value| == 0 ==> f.tabAccess == [NewRow]
    ensures f.name == TextOr(u.name, "") && f.email == TextOr(u.email, "") && f.userRole == TextOr(u.userRole, "user")
  {
    FormData(TextOr(u.name, ""), TextOr(u.email, ""), "", TextOr(u.userRole, "user"),
             if u.tabAccess.Some? && |u.tabAccess.value| > 0 then u.tabAccess.value else [NewRow])
  }

  // ---------------------------------------------------------------- submit

  const MissingFieldsMessage := "Please fill in all required fields"
  const MissingTabNameMessage := "Please fill in all tab names"

  /** What submit sends: an update of the edited user, or the whole form for a new one. */
  datatype SubmitOutcome =
    | MissingFields
    | MissingTabName
    | Update(userId: string, email: string, userRole: string, tabAccess: seq<TabRow>)
    | Create(form: FormData)

  function Granted(rows: seq<TabRow>): (r: seq<TabRow>)
    ensures forall row :: row in r <==> row in rows && row.access != "none"
    ensures forall row :: multiset(r)[row] == if row.access != "none" then multiset(rows)[row] else 0
    ensures IsSubsequence(r, rows)
  {
    Filter(rows, (row: TabRow) => row.access != "none")
  }

  /** `handleSubmit` up to the request; `user` is the user being edited, `None` when creating. */
  function Submit(f: FormData, user: Option<StoredUser>): (o: SubmitOutcome)
    ensures o == MissingFields <==> f.name == "" || f.email == "" || (user.None? && f.password == "")
    ensures o == MissingTabName <==> o != MissingFields && exists j :: 0 <= j < |f.tabAccess| && f.tabAccess[j].tabName == ""
    ensures o.Update? <==> user.Some? && o != MissingFields && o != MissingTabName
    ensures o.Update? ==> o == Update(user.value.id, f.email, f.userRole, Granted(f.tabAccess))
    ensures o.Create? ==> o.form == f.(tabAccess := Granted(f.tabAccess))
  {
    if f.name == "" || f.email == "" || (user.None? && f.password == "") then MissingFields
    else if exists j :: 0 <= j < |f.tabAccess| && f.tabAccess[j].tabName == "" then MissingTabName
    else if user.Some? then Update(user.value.id, f.email, f.userRole, Granted(f.tabAccess))
    else Create(f.(tabAccess := Granted(f.tabAccess)))
  }

  /** Every row submitted names a tab and grants some access, and the rows keep their order. */
  lemma SubmittedRowsNamedAndGranted(f: FormData, user: Option<StoredUser>)
    requires Submit(f, user).Update? || Submit(f, user).Create?
    ensures var o := Submit(f, user);
      var rows := if o.Update? then o.tabAccess else o.form.tabAccess;
      IsSubsequence(rows, f.tabAccess)
      && forall row :: row in rows ==> row.tabName != "" && row.access != "none"
  {
    var rows := Granted(f.tabAccess);
    forall row | row in rows ensures row.tabName != "" {
      var j :| 0 <= j < |f.tabAccess| && f.tabAccess[j] == row;
    }
  }
}
