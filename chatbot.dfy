/** The assistant's keyword classifier and its table of module
    explanations: first-match rules over the lower-cased message, and a
    lookup over seven fixed keys. */
module Chatbot {

  import opened Inventory

  /** The five outcomes of intent detection; a module explanation names the
      module it matched. */
  datatype Intent =
    | ProductSearch
    | LowStock
    | ExplainModule(moduleName: string)
    | DashboardSummary
    | General

  datatype Explanation = Explanation(title: string, description: string, features: seq<string>, usage: string)

  function LowerChar(c: char): char
  {
    if 'A' <= c <= 'Z' then (c as int + 32) as char else c
  }

  /** The message lower-cased, letter by letter. */
  function Lower(s: string): string
  {
    seq(|s|, i requires 0 <= i < |s| => LowerChar(s[i]))
  }

  predicate IsLower(s: string)
  {
    forall i :: 0 <= i < |s| ==> !('A' <= s[i] <= 'Z')
  }

  predicate OccursAt(s: string, pattern: string, i: int)
  {
    0 <= i <= |s| - |pattern| && s[i..i + |pattern|] == pattern
  }

  /** `s.includes(pattern)`. */
  predicate Contains(s: string, pattern: string)
  {
    exists i | 0 <= i <= |s| - |pattern| :: OccursAt(s, pattern, i)
  }

  /** Some word of the list occurs in the message. */
  predicate AnyOf(s: string, words: seq<string>)
  {
    exists k | 0 <= k < |words| :: Contains(s, words[k])
  }

  const SearchWords: seq<string> := ["show", "find", "search", "list", "product"]
  const LowStockWords: seq<string> := ["low stock", "running low", "reorder", "stock alert"]
  const ExplainWords: seq<string> := ["what is", "explain", "how do i", "how to"]
  const Modules: seq<string> := ["receipt", "delivery", "transfer", "adjustment", "product", "dashboard", "history"]
  const SummaryWords: seq<string> := ["dashboard", "summary", "overview", "stats"]

  /** The first module of the list the message mentions, if any: the loop
      over the constant list with its early return. */
  function FirstMentioned(s: string, modules: seq<string>): (r: Option<string>)
    ensures r.None? <==> !AnyOf(s, modules)
    ensures r.Some? ==> exists k :: 0 <= k < |modules| && modules[k] == r.value && Contains(s, r.value)
                                    && forall j :: 0 <= j < k ==> !Contains(s, modules[j])
  {
    if modules == [] then None
    else if Contains(s, modules[0]) then Some(modules[0])
    else
      var r := FirstMentioned(s, modules[1..]);
      assert forall k :: 1 <= k < |modules| ==> modules[k] == modules[1..][k - 1];
      r
  }

  /** detectIntent: product search, then low stock, then an explanation
      request naming a module, then the dashboard words, then general. */
  function DetectIntent(message: string): (r: Intent)
    ensures var s := Lower(message);
      && (r == ProductSearch <==> AnyOf(s, SearchWords))
      && (r == LowStock <==> !AnyOf(s, SearchWords) && AnyOf(s, LowStockWords))
      && (r.ExplainModule? <==>
            !AnyOf(s, SearchWords) && !AnyOf(s, LowStockWords) && AnyOf(s, ExplainWords) && AnyOf(s, Modules))
      && (r == DashboardSummary <==>
            !AnyOf(s, SearchWords) && !AnyOf(s, LowStockWords) && !(AnyOf(s, ExplainWords) && AnyOf(s, Modules))
            && AnyOf(s, SummaryWords))
  {
    var s := Lower(message);
    if AnyOf(s, SearchWords) then ProductSearch
    else if AnyOf(s, LowStockWords) then LowStock
    else
      match (if AnyOf(s, ExplainWords) then FirstMentioned(s, Modules) else None)
      case Some(m) => ExplainModule(m)
      case None => if AnyOf(s, SummaryWords) then DashboardSummary else General
  }

  /** The explanation table, keyed by plural module names. */
  const Explanations: map<string, Explanation> := map[
    "receipts" := Explanation(
      "Receipts Module",
      "The Receipts module is used to record incoming inventory from suppliers or vendors. When you receive stock, you create a receipt entry which automatically increases your product quantities.",
      ["Record incoming stock from suppliers", "Automatically update product quantities",
       "Track receipt dates and reference numbers", "View receipt history and details"],
      "Navigate to Receipts → Create New Receipt → Select products and enter quantities → Submit"),
    "deliveries" := Explanation(
      "Deliveries Module",
      "The Deliveries module manages outgoing inventory to customers or other locations. Creating a delivery reduces your stock quantities and creates a record of the transaction.",
      ["Process outgoing stock to customers", "Automatically decrease product quantities",
       "Track delivery dates and destinations", "Maintain delivery history"],
      "Navigate to Deliveries → Create New Delivery → Select products and quantities → Submit"),
    "transfers" := Explanation(
      "Transfers Module",
      "The Transfers module handles moving inventory between different locations or warehouses. This is useful for multi-location businesses.",
      ["Move stock between locations", "Track source and destination",
       "Maintain transfer history", "Monitor inter-location movements"],
      "Navigate to Transfers → Create New Transfer → Select source/destination and products → Submit"),
    "adjustments" := Explanation(
      "Adjustments Module",
      "The Adjustments module is used to correct inventory discrepancies, record damaged goods, or make manual stock corrections. This helps maintain accurate inventory counts.",
      ["Correct inventory discrepancies", "Record damaged or lost items",
       "Manual stock adjustments", "Track adjustment reasons"],
      "Navigate to Adjustments → Create New Adjustment → Select products and enter corrections → Provide reason → Submit"),
    "products" := Explanation(
      "Products Module",
      "The Products module is your master inventory catalog. Here you manage all product information, pricing, stock levels, and categories.",
      ["Add and edit products", "Set pricing and reorder levels",
       "Categorize products", "View current stock quantities"],
      "Navigate to Products → Create New Product → Fill in details → Submit"),
    "dashboard" := Explanation(
      "Dashboard",
      "The Dashboard provides a comprehensive overview of your inventory system with key metrics, charts, and quick insights.",
      ["View total products and stock value", "Monitor low stock alerts",
       "Track recent inventory movements", "Visualize trends with charts"],
      "The Dashboard is your home screen with real-time inventory insights"),
    "history" := Explanation(
      "History/Ledger Module",
      "The History module shows a complete audit trail of all inventory movements including receipts, deliveries, transfers, and adjustments.",
      ["Complete movement history", "Filter by date, product, or type",
       "Audit trail for compliance", "Track all stock changes"],
      "Navigate to History → Use filters to find specific movements")
  ]

  /** getModuleExplanation: the entry under the lower-cased name, or none. */
  function ModuleExplanation(moduleName: string): (r: Option<Explanation>)
    ensures r.Some? <==> Lower(moduleName) in {"receipts", "deliveries", "transfers", "adjustments", "products", "dashboard", "history"}
    ensures r.Some? ==> r.value == Explanations[Lower(moduleName)]
  {
    var key := Lower(moduleName);
    if key in Explanations then Some(Explanations[key]) else None
  }

  // ---------------------------------------------------------------------
  // What the classifier promises

  lemma LowerIsLower(s: string)
    ensures IsLower(Lower(s)) && |Lower(s)| == |s|
  {
  }

  /** Lower-casing a string without capitals leaves it as it is. */
  lemma LowerOfLower(s: string)
    requires IsLower(s)
    ensures Lower(s) == s
  {
  }

  /** Matching is case-insensitive: a message and its lower-cased form get the same intent. */
  lemma DetectIntentCaseInsensitive(message: string)
    ensures DetectIntent(Lower(message)) == DetectIntent(message)
  {
    LowerIsLower(message);
    LowerOfLower(Lower(message));
  }

  /** The explanation lookup is case-insensitive as well. */
  lemma ExplanationCaseInsensitive(moduleName: string)
    ensures ModuleExplanation(Lower(moduleName)) == ModuleExplanation(moduleName)
  {
    LowerIsLower(moduleName);
    LowerOfLower(Lower(moduleName));
  }

  /** A message mentioning 'product' is a product search, so the module
      'product' is never the one explained, and any module explained is one
      of the list that the message mentions. */
  lemma ProductNeverExplained(message: string)
    ensures DetectIntent(message).ExplainModule? ==>
      var m := DetectIntent(message).moduleName;
      m in Modules && m != "product" && Contains(Lower(message), m)
  {
    var s := Lower(message);
    if DetectIntent(message).ExplainModule? {
      assert !AnyOf(s, SearchWords);
      assert SearchWords[4] == "product";
      assert !Contains(s, "product");
    }
  }

  /** Of two modules the message mentions, the earlier in the list wins. */
  lemma EarlierModuleWins(message: string, i: nat, j: nat)
    requires i < j < |Modules|
    requires Contains(Lower(message), Modules[i]) && Contains(Lower(message), Modules[j])
    requires DetectIntent(message).ExplainModule?
    ensures DetectIntent(message).moduleName != Modules[j]
  {
    var s := Lower(message);
    assert AnyOf(s, ExplainWords);
    var r := FirstMentioned(s, Modules);
    var k :| 0 <= k < |Modules| && Modules[k] == r.value && Contains(s, r.value)
             && forall j :: 0 <= j < k ==> !Contains(s, Modules[j]);
    assert k <= i;
  }

  /** The module names detectIntent reports are singular while the
      explanation table is keyed by plural names: only 'dashboard' and
      'history' have an explanation under the name detected. */
  lemma DetectedModulesExplained(k: nat)
    requires k < |Modules|
    ensures ModuleExplanation(Modules[k]).Some? <==> Modules[k] == "dashboard" || Modules[k] == "history"
  {
    assert IsLower(Modules[k]);
    LowerOfLower(Modules[k]);
  }
}
