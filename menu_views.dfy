/**
 * The link between the menu (frontend/src/router/modules/menu.js) and the
 * view loader table (frontend/src/router/loadView.js): every view the menu
 * names is a key of `componentMap`.
 */
module MenuViews {
  import Menu
  import ViewLoader

  /** The entry's own component and every child's component are keys of the table. */
  predicate ViewsAreKeys(item: Menu.MenuItem) {
    && (item.component.Some? ==> item.component.value in ViewLoader.ViewKeys)
    && (item.children.Some? ==> forall c :: c in item.children.value ==> c.component in ViewLoader.ViewKeys)
  }

  lemma DashboardViews()
    ensures ViewsAreKeys(Menu.DashboardItem())
  {
  }

  lemma VoucherViews()
    ensures ViewsAreKeys(Menu.VoucherItem())
  {
  }

  lemma LedgerViews()
    ensures ViewsAreKeys(Menu.LedgerItem())
  {
  }

  lemma ReportViews()
    ensures ViewsAreKeys(Menu.ReportItem())
  {
  }

  lemma SettingsViews()
    ensures ViewsAreKeys(Menu.SettingsItem())
  {
  }

  /** Every view the menu names, at either level, is a key of the loader table. */
  lemma MenuViewsAreKeys()
    ensures forall i :: 0 <= i < |Menu.MenuItems()| ==> ViewsAreKeys(Menu.MenuItems()[i])
  {
    var items := Menu.MenuItems();
    forall i | 0 <= i < |items| ensures ViewsAreKeys(items[i]) {
      if i == 0 { DashboardViews(); assert items[0] == Menu.DashboardItem(); }
      else if i == 1 { VoucherViews(); assert items[1] == Menu.VoucherItem(); }
      else if i == 2 { LedgerViews(); assert items[2] == Menu.LedgerItem(); }
      else if i == 3 { ReportViews(); assert items[3] == Menu.ReportItem(); }
      else { SettingsViews(); assert items[4] == Menu.SettingsItem(); }
    }
  }
}
