/**
 * The `inventory` command: shows the caller's items ten to a page. The page is the first
 * argument, read with `parseInt(args[0]) || 1`. Fetching the record creates it when the
 * caller has none, and nothing else changes.
 */
module Inventory {
  import opened Wrappers
  import opened JsText
  import opened Store

  const ItemsPerPage: nat := 10

  datatype Listing =
    | EmptyInventory
    | InvalidPage(maxPages: nat)
    | Shown(page: nat, maxPages: nat, items: seq<InventoryItem>, total: nat)

  /** `parseInt(args[0]) || 1`: a missing, non-numeric or zero argument means page 1. */
  function RequestedPage(args: seq<string>): int {
    match ParseIntAt(args, 0)
    case None => 1
    case Some(n) => if n == 0 then 1 else n
  }

  /** `Math.ceil(n / 10)`. */
  function MaxPages(n: nat): (r: nat)
    ensures (r - 1) * ItemsPerPage < n <= r * ItemsPerPage || (n == 0 && r == 0)
  {
    (n + ItemsPerPage - 1) / ItemsPerPage
  }

  /** `items.slice((page - 1) * 10, page * 10)` for a page in range. */
  function PageItems(inv: seq<InventoryItem>, page: nat): (r: seq<InventoryItem>)
    requires 1 <= page <= MaxPages(|inv|)
    ensures 1 <= |r| <= ItemsPerPage && (page - 1) * ItemsPerPage + |r| <= |inv|
    ensures forall k :: 0 <= k < |r| ==> r[k] == inv[(page - 1) * ItemsPerPage + k]
  {
    var start := (page - 1) * ItemsPerPage;
    var end := if page * ItemsPerPage < |inv| then page * ItemsPerPage else |inv|;
    inv[start..end]
  }

  /** What the command replies with, given the stored items and the arguments. */
  function List(inv: seq<InventoryItem>, args: seq<string>): (r: Listing)
    ensures inv == [] <==> r == EmptyInventory
    ensures r.InvalidPage? <==> inv != [] && !(1 <= RequestedPage(args) <= MaxPages(|inv|))
    ensures r.InvalidPage? ==> r.maxPages == MaxPages(|inv|)
    ensures r.Shown? ==>
      && r.page == RequestedPage(args) && r.maxPages == MaxPages(|inv|) && r.total == |inv|
      && 1 <= r.page <= r.maxPages
      && r.items == PageItems(inv, r.page)
  {
    if inv == [] then EmptyInventory
    else
      var page := RequestedPage(args);
      var maxPages := MaxPages(|inv|);
      if page < 1 || page > maxPages then InvalidPage(maxPages)
      else Shown(page, maxPages, PageItems(inv, page), |inv|)
  }

  /** Pages `page`, `page + 1`, ... up to the last, one after the other. */
  function PagesFrom(inv: seq<InventoryItem>, page: nat): seq<InventoryItem>
    requires page >= 1
    decreases MaxPages(|inv|) + 1 - page
  {
    if page > MaxPages(|inv|) then [] else PageItems(inv, page) + PagesFrom(inv, page + 1)
  }

  /** Reading the pages from `page` on gives exactly the items from that page's first slot on. */
  lemma {:induction false} PagesFromSuffix(inv: seq<InventoryItem>, page: nat)
    requires 1 <= page <= MaxPages(|inv|)
    ensures PagesFrom(inv, page) == inv[(page - 1) * ItemsPerPage..]
    decreases MaxPages(|inv|) - page
  {
    var start := (page - 1) * ItemsPerPage;
    var max := MaxPages(|inv|);
    assert PagesFrom(inv, page) == PageItems(inv, page) + PagesFrom(inv, page + 1);
    if page < max {
      var next := start + ItemsPerPage;
      assert next == page * ItemsPerPage < |inv|;
      assert PageItems(inv, page) == inv[start..next];
      PagesFromSuffix(inv, page + 1);
      assert inv[start..] == inv[start..next] + inv[next..];
    } else {
      assert PageItems(inv, page) == inv[start..];
    }
  }

  /** The pages partition the inventory: read in order they give every item once, in stored order. */
  lemma PagesPartition(inv: seq<InventoryItem>)
    ensures PagesFrom(inv, 1) == inv
  {
    if inv != [] {
      PagesFromSuffix(inv, 1);
    }
  }

  /** Item `i` appears on page `i / 10 + 1`, in slot `i % 10`. */
  lemma ItemPage(inv: seq<InventoryItem>, i: nat)
    requires i < |inv|
    ensures 1 <= i / ItemsPerPage + 1 <= MaxPages(|inv|)
    ensures PageItems(inv, i / ItemsPerPage + 1)[i % ItemsPerPage] == inv[i]
  {
  }

  /** The handler: fetch (creating if needed) the record, then list a page of its items. */
  method Execute(db: Database, userId: string, guildId: string, args: seq<string>) returns (out: Listing)
    requires db.Valid()
    modifies db
    ensures db.Valid() && db.guildSettings == old(db.guildSettings)
    ensures out == List(old(db.UserOf(userId, guildId)).inventory, args)
    ensures db.Entry(UserKey(guildId, userId)) == Some(old(db.UserOf(userId, guildId)))
    ensures forall k :: k != UserKey(guildId, userId) ==> db.Entry(k) == old(db.Entry(k))
  {
    var user := db.GetUser(userId, guildId);
    out := List(user.inventory, args);
  }
}
