/**
 * The menu tree (frontend/src/router/modules/menu.js) from which the
 * router builds its routes.
 */
module Menu {
  import opened Wrappers

  datatype MenuChild = MenuChild(path: string, name: string, component: string)

  /** A top-level entry; `component` and `children` are absent (None) where the literal omits them. */
  datatype MenuItem = MenuItem(
    path: string, name: string, icon: string,
    component: Option<string>, children: Option<seq<MenuChild>>)

  /** `menuItems`. */
  function MenuItems(): seq<MenuItem> {
    [DashboardItem(), VoucherItem(), LedgerItem(), ReportItem(), SettingsItem()]
  }

  /**
   * The menu has the shape `generateRoutes` relies on: in particular only
   * `/dashboard` has no children, and every children list is non-empty.
   */
  lemma MenuIsWellFormed()
    ensures WellFormed(MenuItems())
  {
    MenuEntriesWellFormed();
    MenuPathsDistinct();
  }

  lemma MenuEntriesWellFormed()
    ensures forall i :: 0 <= i < |MenuItems()| ==> WellFormedItem(MenuItems()[i])
  {
    var items := MenuItems();
    forall i | 0 <= i < |items| ensures WellFormedItem(items[i]) {
      if i == 0 { assert items[0] == DashboardItem(); }
      else if i == 1 { assert items[1] == VoucherItem(); }
      else if i == 2 { assert items[2] == LedgerItem(); }
      else if i == 3 { assert items[3] == ReportItem(); }
      else { assert items[4] == SettingsItem(); }
    }
  }

  /** The five top-level paths differ in their first letter after the slash. */
  lemma MenuPathsDistinct()
    ensures forall i, j :: 0 <= i < j < |MenuItems()| ==> MenuItems()[i].path != MenuItems()[j].path
  {
    var paths := seq(|MenuItems()|, i requires 0 <= i < |MenuItems()| => MenuItems()[i].path);
    assert paths == ["/dashboard", "/voucher", "/ledger", "/report", "/settings"];
    assert forall i :: 0 <= i < |paths| ==> |paths[i]| > 1;
    assert forall i, j :: 0 <= i < j < |paths| ==> paths[i][1] != paths[j][1];
  }

  function DashboardItem(): (item: MenuItem)
    ensures WellFormedItem(item)
  {
    MenuItem("/dashboard", "工作台", "HomeFilled", Some("Dashboard"), None)
  }

  function VoucherItem(): (item: MenuItem)
    ensures WellFormedItem(item)
  {
    MenuItem("/voucher", "凭证管理", "Document", None, Some(VoucherChildren()))
  }

  function LedgerItem(): (item: MenuItem)
    ensures WellFormedItem(item)
  {
    MenuItem("/ledger", "账簿管理", "Notebook", None, Some(LedgerChildren()))
  }

  function ReportItem(): (item: MenuItem)
    ensures WellFormedItem(item)
  {
    MenuItem("/report", "财务报表", "PieChart", None, Some(ReportChildren()))
  }

  function SettingsItem(): (item: MenuItem)
    ensures WellFormedItem(item)
  {
    MenuItem("/settings", "系统设置", "Setting", None, Some(SettingsChildren()))
  }

  function VoucherChildren(): (children: seq<MenuChild>)
    ensures WellFormedChildren(children)
  {
    [ MenuChild("create", "凭证录入", "voucher/Create"),
      MenuChild("review", "凭证审核", "voucher/Review"),
      MenuChild("query", "凭证查询", "voucher/Query") ]
  }

  function LedgerChildren(): (children: seq<MenuChild>)
    ensures WellFormedChildren(children)
  {
    [ MenuChild("general", "总账", "ledger/General"),
      MenuChild("subsidiary", "明细账", "ledger/Subsidiary"),
      MenuChild("balance", "余额表", "ledger/Balance") ]
  }

  function ReportChildren(): (children: seq<MenuChild>)
    ensures WellFormedChildren(children)
  {
    [ MenuChild("balance-sheet", "资产负债表", "report/BalanceSheet"),
      MenuChild("income", "利润表", "report/Income"),
      MenuChild("cash-flow", "现金流量表", "report/CashFlow") ]
  }

  function SettingsChildren(): (children: seq<MenuChild>)
    ensures WellFormedChildren(children)
  {
    [ MenuChild("company", "企业信息", "settings/Company"),
      MenuChild("account", "账套管理", "settings/Account"),
      MenuChild("subject", "科目设置", "settings/Subject"),
      MenuChild("user", "用户管理", "settings/User"),
      MenuChild("role", "角色权限", "settings/Role") ]
  }

  /** Child paths are non-empty, relative (no leading `/`) and distinct, and there is at least one. */
  predicate WellFormedChildren(children: seq<MenuChild>) {
    && |children| > 0
    && (forall j :: 0 <= j < |children| ==> |children[j].path| > 0 && children[j].path[0] != '/')
    && (forall j, k :: 0 <= j < k < |children| ==> children[j].path != children[k].path)
  }

  /**
   * An entry's path is absolute and dot-free, it has a component exactly
   * when it has no children, and its children are well formed.
   */
  predicate WellFormedItem(item: MenuItem) {
    && |item.path| > 1 && item.path[0] == '/' && '.' !in item.path
    && (item.children.None? <==> item.component.Some?)
    && (item.children.Some? ==> WellFormedChildren(item.children.value))
  }

  /** The shape `generateRoutes` relies on: well-formed entries with distinct paths. */
  predicate WellFormed(items: seq<MenuItem>) {
    && (forall i :: 0 <= i < |items| ==> WellFormedItem(items[i]))
    && (forall i, j :: 0 <= i < j < |items| ==> items[i].path != items[j].path)
  }

}
