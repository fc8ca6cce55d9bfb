/**
 * The view loader table (frontend/src/router/loadView.js): a fixed map
 * from view names to lazy imports of the view files.  A loader is
 * represented by the module path it imports.
 */
module ViewLoader {
  import opened Wrappers

  /** The sixteen keys of `componentMap`, in the order they are written. */
  const ViewKeys: seq<string> := [
    "Dashboard",
    "voucher/Create", "voucher/Review", "voucher/Query",
    "ledger/General", "ledger/Subsidiary", "ledger/Balance",
    "report/BalanceSheet", "report/Income", "report/CashFlow",
    "settings/Company", "settings/Account", "settings/Subject", "settings/User", "settings/Role",
    "settings/AccountInitialization"
  ]

  /** The file every entry of the table imports for its key. */
  function ViewFile(view: string): string {
    "@/views/" + view + ".vue"
  }

  predicate Distinct(keys: seq<string>) {
    forall i, j :: 0 <= i < j < |keys| ==> keys[i] != keys[j]
  }

  /** A list without repeats has as many distinct elements as entries. */
  lemma {:induction false} DistinctCount(keys: seq<string>)
    requires Distinct(keys)
    ensures |set k | k in keys| == |keys|
  {
    if keys != [] {
      DistinctCount(keys[1..]);
      assert (set k | k in keys) == {keys[0]} + (set k | k in keys[1..]);
      assert keys[0] !in (set k | k in keys[1..]);
    }
  }

  /**
   * `componentMap`: every entry of the literal table imports the file named
   * after its key, so the table is its key list together with `ViewFile`.
   * It has exactly sixteen entries.
   */
  function ComponentMap(): (m: map<string, string>)
    ensures |m| == 16
    ensures forall k :: k in m <==> k in ViewKeys
  {
    var m := map k | k in ViewKeys :: ViewFile(k);
    DistinctCount(ViewKeys);
    assert m.Keys == set k | k in ViewKeys;
    m
  }

  /**
   * `loadView(view)`: the import of the view's file when the table has the
   * view, otherwise a rejection naming it, without running any loader.
   */
  function LoadView(view: string): (r: Result<string, string>)
    ensures r.Ok? <==> view in ViewKeys
    ensures r.Ok? ==> r.value == "@/views/" + view + ".vue"
    ensures r.Err? ==> r.error == "Component not found: " + view
  {
    var componentMap := ComponentMap();
    if view !in componentMap then Err("Component not found: " + view)
    else Ok(componentMap[view])
  }
}
