/** Which action buttons a screen enables for a role and a selection, and the
    guards the action handlers apply before touching the database. */
module TabActions {
  import opened Wrappers

  /** A session is an administrator's exactly when its role is `admin`. */
  predicate IsAdmin(role: string) {
    role == "admin"
  }

  datatype Screen =
    | EntitiesTab | InvestorsTab | EmittersTab | RegistrarsTab
    | EmissionsTab | StocksTab | SellsTab | ClientsTab

  datatype Button = AddButton | EditButton | DeleteButton | SalesButton | AddSellButton | DocumentsButton | DepositsButton

  /** Buttons that change data, as opposed to ones that open a view. */
  predicate Writes(b: Button) {
    b == AddButton || b == EditButton || b == DeleteButton || b == AddSellButton
  }

  /** The buttons each screen creates. */
  function Buttons(s: Screen): set<Button> {
    match s
    case InvestorsTab => {AddButton, DeleteButton, SalesButton, AddSellButton}
    case EmittersTab => {AddButton, DeleteButton}
    case ClientsTab => {AddButton, EditButton, DeleteButton, DocumentsButton, DepositsButton}
    case _ => {AddButton, EditButton, DeleteButton}
  }

  /** What the button handlers look at: the role, whether a table row is
      selected, and whether the entity combo of the investor and emitter
      tabs holds an entity. */
  datatype View = View(admin: bool, selected: bool, chosen: bool)

  /** The investor and emitter tabs add a role to a chosen legal entity. */
  predicate PicksEntity(s: Screen) {
    s == InvestorsTab || s == EmittersTab
  }

  /** The enabled state of a button once the selection and the combo have
      last changed. */
  function Enabled(s: Screen, b: Button, v: View): (r: bool)
    requires b in Buttons(s)
    ensures Writes(b) && r ==> v.admin
    ensures b != AddButton && r ==> v.selected
    ensures b == AddButton && PicksEntity(s) && r ==> v.chosen
    ensures !Writes(b) ==> (r <==> v.selected)
  {
    match b
    case AddButton => v.admin && (PicksEntity(s) ==> v.chosen)
    case EditButton => v.selected && v.admin
    case DeleteButton => v.selected && v.admin
    case AddSellButton => v.selected && v.admin
    case _ => v.selected
  }

  /** A user who is not an administrator never gets a button that writes,
      on any screen, whatever is selected. */
  lemma NoWritesForUsers(s: Screen, b: Button, v: View)
    requires b in Buttons(s) && !v.admin
    ensures Enabled(s, b, v) <==> !Writes(b) && v.selected
  {
  }

  /** Granting the administrator role never disables a button, and with it
      a selection enables every button except the entity-gated Add. */
  lemma AdminEnablesAll(s: Screen, b: Button, v: View)
    requires b in Buttons(s)
    ensures Enabled(s, b, v) ==> Enabled(s, b, v.(admin := true))
    ensures v.admin && v.selected && (b != AddButton || !PicksEntity(s) || v.chosen) ==> Enabled(s, b, v)
  {
  }

  // ---- Handlers of the investor, emitter and sale tabs ----

  /** A selected investor, as the table's first cell stores it. */
  datatype InvestorInfo = InvestorInfo(id: int, name: string)

  datatype Jump = NoSelection | NotWired | NoPreselect | OpenSale(investor: InvestorInfo)

  /** `go_to_add_sell`: a selected investor, both tab references set and the
      sale tab's preselecting entry point present, in that order. */
  function GoToAddSell(selected: Option<InvestorInfo>, mainTabs: bool, sellsTab: bool, hasEntry: bool): (r: Jump)
    ensures r.OpenSale? <==> selected.Some? && mainTabs && sellsTab && hasEntry
    ensures r.OpenSale? ==> r.investor == selected.value
    ensures selected.None? ==> r == NoSelection
  {
    if selected.None? then NoSelection
    else if !mainTabs || !sellsTab then NotWired
    else if !hasEntry then NoPreselect
    else OpenSale(selected.value)
  }

  /** How a request to make an entity an investor or emitter ends. */
  datatype AddRole = Ignored | NeedEntity | Cancelled | InsertRole(entity: int)

  /** `add_investor`: nothing for a user; then an entity must be chosen (the
      id checked for truth, so id 0 counts as none) and the dialog confirmed. */
  function AddInvestor(admin: bool, comboData: Option<int>, confirmed: bool): (r: AddRole)
    ensures r.InsertRole? <==> admin && Truthy(comboData) && confirmed
    ensures r.InsertRole? ==> comboData == Some(r.entity) && r.entity != 0
    ensures !admin ==> r == Ignored
  {
    if !admin then Ignored
    else if !Truthy(comboData) then NeedEntity
    else if !confirmed then Cancelled
    else InsertRole(comboData.value)
  }

  /** `add_emitter`: the same without the role test, which is left to the
      button's enabled state. */
  function AddEmitter(comboData: Option<int>, confirmed: bool): (r: AddRole)
    ensures r.InsertRole? <==> Truthy(comboData) && confirmed
    ensures r.InsertRole? ==> comboData == Some(r.entity)
    ensures r != Ignored
  {
    if !Truthy(comboData) then NeedEntity
    else if !confirmed then Cancelled
    else InsertRole(comboData.value)
  }

  /** With the button gating in place, an emitter is only ever added by an
      administrator, exactly as an investor is by the handler itself. */
  lemma EmitterAddGatedByButton(v: View, comboData: Option<int>, confirmed: bool)
    requires Enabled(EmittersTab, AddButton, v)
    ensures v.admin
    ensures AddEmitter(comboData, confirmed) == AddInvestor(v.admin, comboData, confirmed)
  {
  }

  datatype Removal = NothingSelected | Kept | Remove(id: int)

  /** `delete_emitter`: silently nothing without a selection; the row goes
      only on an explicit Yes. */
  function DeleteEmitter(selected: Option<InvestorInfo>, confirmed: bool): (r: Removal)
    ensures selected.None? ==> r == NothingSelected
    ensures r.Remove? <==> selected.Some? && confirmed
    ensures r.Remove? ==> r.id == selected.value.id
  {
    if selected.None? then NothingSelected
    else if confirmed then Remove(selected.value.id)
    else Kept
  }

  datatype SaleDialog = Denied | SaleForm(preselected: Option<InvestorInfo>)

  /** `add_sell` and `add_sell_preselected`: a user is refused before any
      dialog opens; otherwise the dialog carries the preselection. */
  function AddSell(admin: bool, preselected: Option<InvestorInfo>): (r: SaleDialog)
    ensures r.SaleForm? <==> admin
    ensures r.SaleForm? ==> r.preselected == preselected
  {
    if admin then SaleForm(preselected) else Denied
  }

  /** Jumping from the investor tab to a sale always hands the sale dialog
      that investor, and only an administrator gets the dialog. */
  lemma JumpPreselects(admin: bool, info: InvestorInfo)
    ensures var j := GoToAddSell(Some(info), true, true, true);
      j.OpenSale? && AddSell(admin, Some(j.investor)) == (if admin then SaleForm(Some(info)) else Denied)
  {
  }

  // ---- Selection rules of the dialogs and the table windows ----

  /** The employee list and the report list dialogs: Edit and Delete follow
      the selection alone. */
  function ListDialogEditable(selectedItems: nat): (r: bool)
    ensures r <==> selectedItems > 0
  {
    selectedItems != 0
  }

  datatype WindowButtons = WindowButtons(edit: Option<bool>, delete: Option<bool>, navigation: seq<bool>)

  /** The table windows create Edit and Delete only for an administrator;
      `on_selection_changed` sets them, and every navigation button, to
      whether anything is selected. */
  function WindowSelection(role: string, navCount: nat, selectedItems: nat): (r: WindowButtons)
    ensures r.edit.Some? <==> IsAdmin(role)
    ensures r.edit == r.delete
    ensures |r.navigation| == navCount
    ensures forall i :: 0 <= i < |r.navigation| ==> (r.navigation[i] <==> selectedItems > 0)
    ensures r.edit.Some? ==> (r.edit.value <==> selectedItems > 0)
  {
    var has := selectedItems > 0;
    WindowButtons(if IsAdmin(role) then Some(has) else None,
      if IsAdmin(role) then Some(has) else None, seq(navCount, _ => has))
  }

  /** The navigation row: a caption, the buttons, then the trailing stretch. */
  datatype NavItem = Caption | NavButton(text: string, enabled: bool) | Stretch

  /** `add_navigation_button`: a new, disabled button is inserted just
      before the last item of the row. */
  function AddNavigationButton(row: seq<NavItem>, text: string): (r: seq<NavItem>)
    requires |row| > 0
    ensures |r| == |row| + 1
    ensures r[|r| - 1] == row[|row| - 1]
    ensures r[|r| - 2] == NavButton(text, false)
    ensures r[..|row| - 1] == row[..|row| - 1]
  {
    row[..|row| - 1] + [NavButton(text, false)] + [row[|row| - 1]]
  }

  /** The row starts as a caption and a stretch; after any number of
      additions the caption is still first, the stretch still last, and the
      buttons sit between them in the order they were added. */
  lemma {:induction false} NavigationRowShape(labels: seq<string>)
    ensures var r := NavRow(labels);
      |r| == |labels| + 2 && r[0] == Caption && r[|r| - 1] == Stretch
      && forall i :: 0 <= i < |labels| ==> r[i + 1] == NavButton(labels[i], false)
  {
    if labels != [] {
      NavigationRowShape(labels[..|labels| - 1]);
    }
  }

  function NavRow(labels: seq<string>): (r: seq<NavItem>)
    ensures |r| >= 2
  {
    if labels == [] then [Caption, Stretch]
    else AddNavigationButton(NavRow(labels[..|labels| - 1]), labels[|labels| - 1])
  }
}
