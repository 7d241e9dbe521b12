/** The registry of the back end: which tables make up a market, in the order they are dumped and
    restored. A model's number is its place in the list. */
module BackupRegistry {
  import opened Restore

  const MODELS: seq<string> := [
    "Market", "CustomRole", "User", "MarketCurrency", "ExchangeRate", "Account", "OpeningBalance",
    "AccountTransaction", "AccountTransfer", "Floor", "Shop", "ShopGroup", "ShopGroupMember", "Tenant",
    "Guarantor", "ElectricityMeter", "Contract", "ContractShop", "ContractStatusHistory",
    "ContractSettlement", "RentCharges", "RentPayment", "RentPaymentAllocation", "RentDebt",
    "ElectricityBillingCycle", "ElectricityBill", "ElectricityPayment", "ElectricityPaymentAllocation",
    "ElectricityDebt", "ExpenseCategory", "Expense", "AssetCategory", "Asset", "DepreciationEvent",
    "Warehouse", "InventoryCategory", "InventoryUnit", "InventoryItem", "InventoryTransaction",
    "Shareholder", "ShareholderEquity", "ShareholderTransaction", "Dealer", "DealerLoan", "DealerRepayment",
    "CollateralItem", "MiscellaneousIncomeCategory", "MiscellaneousIncome", "LotteryDraw", "LotteryEntry",
    "LotteryPrize", "LedgerEntry", "AuditLog"]

  const USER := 2
  const SHOP_GROUP := 11
  const TENANT := 13
  const CONTRACT := 16
  const RENT_PAYMENT := 21
  const ELECTRICITY_PAYMENT := 26
  const ASSET := 32
  const SHAREHOLDER := 39
  const LOTTERY_DRAW := 48
  const AUDIT_LOG := 52

  /** Tables without a market column, by the parent they belong through. */
  function ScopeOf(model: nat): Scope {
    if model == 0 then Self
    else if model == 12 then ChildOf(SHOP_GROUP)
    else if model in {17, 18, 19} then ChildOf(CONTRACT)
    else if model == 22 then ChildOf(RENT_PAYMENT)
    else if model in {23, 28} then ChildOf(TENANT)
    else if model == 27 then ChildOf(ELECTRICITY_PAYMENT)
    else if model == 33 then ChildOf(ASSET)
    else if model == 40 then ChildOf(SHAREHOLDER)
    else if model in {49, 50} then ChildOf(LOTTERY_DRAW)
    else OfMarket
  }

  function Registry(): seq<Entry> {
    seq(|MODELS|, i requires 0 <= i < |MODELS| => Entry(i, ScopeOf(i), i == AUDIT_LOG, i == USER))
  }

  lemma RegistryLists()
    ensures |Registry()| == 53
    ensures forall i | 0 <= i < 53 :: Registry()[i] == Entry(i, ScopeOf(i), i == AUDIT_LOG, i == USER)
  {
  }

  lemma ParentsComeFirst(model: nat)
    requires model < 53 && ScopeOf(model).ChildOf?
    ensures var p := ScopeOf(model).parentModel; p < model && p != AUDIT_LOG && ScopeOf(p) == OfMarket
  {
  }

  /** The order of the list is one a restore can follow: parents come before their children. */
  lemma RegistryIsWellFormed()
    ensures WellFormed(Registry())
  {
    var registry := Registry();
    RegistryLists();
    forall i | 0 <= i < |registry| && registry[i].scope.ChildOf?
      ensures exists j | 0 <= j < i :: registry[j] == Entry(registry[i].scope.parentModel, OfMarket, false, registry[j].omitsSecret)
    {
      ParentsComeFirst(i);
      var j := registry[i].scope.parentModel;
      assert registry[j] == Entry(j, OfMarket, false, registry[j].omitsSecret);
    }
  }
}
