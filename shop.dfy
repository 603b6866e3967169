/**
 * The `shop` command: `!shop` or `!shop list` shows the catalog, `!shop buy <item> [quantity]`
 * buys an item. The item is looked up by its lowercased name or its id; the purchase
 * charges `price * quantity`, then either raises the quantity of the inventory entry with
 * the same id or appends a new entry, and writes the record back under its own key.
 */
module Shop {
  import opened Wrappers
  import opened JsText
  import opened Store

  datatype CatalogItem = CatalogItem(itemId: string, name: string, description: string, price: int, usable: bool)

  /** The five items on sale, in the order the lookup scans them. */
  const Catalog: seq<CatalogItem> := [
    CatalogItem("fishing_rod", "Fishing Rod", "Use this to catch fish and earn coins", 250, true),
    CatalogItem("pickaxe", "Pickaxe", "Mine resources and earn coins", 300, true),
    CatalogItem("sword", "Sword", "Hunt monsters and earn coins", 500, true),
    CatalogItem("crown", "Imperial Crown", "Show off your wealth", 5000, false),
    CatalogItem("bank_upgrade", "Bank Upgrade", "Increase your bank capacity", 1000, true)
  ]

  datatype Outcome =
    | ShopShown
    | NoItemGiven
    | ItemNotFound(itemName: string)
    | BadQuantity
    | InvalidCommand
    | NotEnoughCoins(cost: int, balance: int)
    | Purchased(item: CatalogItem, quantity: int, cost: int, balance: int)

  /** What the arguments ask for: a reply that ends the command, or a purchase. */
  datatype Request = Reject(outcome: Outcome) | Buy(item: CatalogItem, quantity: int)

  // ---------------------------------------------------------------- lookup

  predicate Matches(item: CatalogItem, query: string) {
    ToLower(item.name) == query || item.itemId == query
  }

  /** `items.find(...)`, as the index of the first item that matches. */
  function FirstMatch(items: seq<CatalogItem>, query: string): (r: Option<nat>)
    ensures r.Some? ==> r.value < |items| && Matches(items[r.value], query)
    ensures r.Some? ==> forall j :: 0 <= j < r.value ==> !Matches(items[j], query)
    ensures r.None? ==> forall j :: 0 <= j < |items| ==> !Matches(items[j], query)
  {
    if items == [] then None
    else if Matches(items[0], query) then Some(0)
    else match FirstMatch(items[1..], query)
      case None => None
      case Some(i) => Some(i + 1)
  }

  /** The item name the handler looks up: every argument after `buy`, joined and lowercased. */
  function ItemQuery(args: seq<string>): string
    requires |args| >= 1
  {
    ToLower(Join(args[1..], " "))
  }

  /** The lookup, then the positive-quantity check. */
  function Select(query: string, quantity: int): (r: Request)
    ensures r.Buy? <==> FirstMatch(Catalog, query).Some? && quantity > 0
    ensures r.Buy? ==> r.item == Catalog[FirstMatch(Catalog, query).value] && r.quantity == quantity
    ensures FirstMatch(Catalog, query).None? ==> r == Reject(ItemNotFound(query))
    ensures FirstMatch(Catalog, query).Some? && quantity <= 0 ==> r == Reject(BadQuantity)
  {
    match FirstMatch(Catalog, query)
    case None => Reject(ItemNotFound(query))
    case Some(i) => if quantity <= 0 then Reject(BadQuantity) else Buy(Catalog[i], quantity)
  }

  /** The checks every form of the command shares before the item is looked up. */
  function Route(args: seq<string>): (r: Option<Outcome>)
    ensures r == Some(ShopShown) <==> |args| == 0 || args[0] == "list"
    ensures r == Some(InvalidCommand) <==> |args| > 0 && args[0] != "list" && args[0] != "buy"
    ensures r == Some(NoItemGiven) <==> |args| > 0 && args[0] == "buy" && (|args| < 2 || args[1] == "")
    ensures r.None? <==> |args| >= 2 && args[0] == "buy" && args[1] != ""
  {
    if |args| == 0 || args[0] == "list" then Some(ShopShown)
    else if args[0] != "buy" then Some(InvalidCommand)
    else if |args| < 2 || args[1] == "" then Some(NoItemGiven)
    else None
  }

  /** `parseInt(args[2]) || 1`: NaN and 0 both become 1. */
  function QuantityAsWritten(args: seq<string>): int {
    match ParseIntAt(args, 2)
    case None => 1
    case Some(n) => if n == 0 then 1 else n
  }

  /**
   * The argument handling as written: the quantity is read from `args[2]`, but `args[2]`
   * is also part of the joined item name.
   */
  function ParseRequestAsWritten(args: seq<string>): (r: Request)
    ensures Route(args).Some? ==> r == Reject(Route(args).value)
    ensures Route(args).None? ==> r == Select(ItemQuery(args), QuantityAsWritten(args))
  {
    match Route(args)
    case Some(o) => Reject(o)
    case None => Select(ItemQuery(args), QuantityAsWritten(args))
  }

  /** The arguments after `buy` end in a number, which is then the quantity. */
  predicate HasQuantity(args: seq<string>) {
    |args| >= 3 && ParseInt(args[|args| - 1]).Some?
  }

  /**
   * The argument handling the usage line `!shop [buy] [item] [quantity]` describes: a
   * trailing number is the quantity and is not part of the item name.
   */
  function ParseRequest(args: seq<string>): (r: Request)
    ensures Route(args).Some? ==> r == Reject(Route(args).value)
    ensures Route(args).None? && HasQuantity(args) ==>
      r == Select(ToLower(Join(args[1..|args| - 1], " ")), ParseInt(args[|args| - 1]).value)
    ensures Route(args).None? && !HasQuantity(args) ==> r == Select(ItemQuery(args), 1)
  {
    match Route(args)
    case Some(o) => Reject(o)
    case None =>
      if HasQuantity(args) then Select(ToLower(Join(args[1..|args| - 1], " ")), ParseInt(args[|args| - 1]).value)
      else Select(ItemQuery(args), 1)
  }

  // ---------------------------------------------------------------- the finding

  /** The characters that occur in the catalog's lowercased names and ids. */
  predicate KeyChar(c: char) { 'a' <= c <= 'z' || c == '_' || c == ' ' }

  predicate AllKeyChars(s: string) { forall i :: 0 <= i < |s| ==> KeyChar(s[i]) }

  /** Every character of `s`, lowercased, is a catalog character. */
  predicate LowerKeyChars(s: string) { forall i :: 0 <= i < |s| ==> KeyChar(LowerChar(s[i])) }

  lemma CatalogNameChars()
    ensures forall i :: 0 <= i < |Catalog| ==> LowerKeyChars(Catalog[i].name)
  {
    assert LowerKeyChars("Fishing Rod") && LowerKeyChars("Pickaxe") && LowerKeyChars("Sword");
    assert LowerKeyChars("Imperial Crown") && LowerKeyChars("Bank Upgrade");
  }

  lemma CatalogIdChars()
    ensures forall i :: 0 <= i < |Catalog| ==> AllKeyChars(Catalog[i].itemId)
  {
    assert AllKeyChars("fishing_rod") && AllKeyChars("pickaxe") && AllKeyChars("sword");
    assert AllKeyChars("crown") && AllKeyChars("bank_upgrade");
  }

  /** Lowercased catalog names and ids are made of catalog characters only. */
  lemma CatalogKeyChars()
    ensures forall i :: 0 <= i < |Catalog| ==> AllKeyChars(ToLower(Catalog[i].name)) && AllKeyChars(Catalog[i].itemId)
  {
    CatalogNameChars();
    CatalogIdChars();
  }

  /** `xs[0] + sep + ...`: the second argument starts right after the first and the separator. */
  lemma JoinSecond(xs: seq<string>, sep: string)
    requires |xs| >= 2
    ensures |Join(xs, sep)| >= |xs[0]| + |sep| + |xs[1]| && Join(xs, sep)[..|xs[0]| + |sep| + |xs[1]|] == xs[0] + sep + xs[1]
  {
    assert Join(xs, sep) == xs[0] + sep + Join(xs[1..], sep);
    assert Join(xs[1..], sep)[..|xs[1]|] == xs[1] by {
      if |xs| > 2 {
        assert Join(xs[1..], sep) == xs[1] + sep + Join(xs[2..], sep);
      }
    }
  }

  /**
   * A word that `parseInt` reads as a number starts with a digit, a sign or a white-space
   * character other than the blank; none of these occurs in a catalog name or id.
   */
  lemma NumericWordNoKeyChar(w: string)
    requires ' ' !in w && ParseInt(w).Some?
    ensures w != [] && !KeyChar(LowerChar(w[0]))
  {
    var t := TrimStart(w);
  }

  /**
   * When the third argument is a number, the joined item name contains it, so no item
   * matches: a purchase with an explicit quantity always ends in "not found".
   */
  lemma {:induction false} NumericThirdArgumentDefeatsLookup(args: seq<string>)
    requires |args| >= 3 && ' ' !in args[2] && ParseInt(args[2]).Some?
    ensures FirstMatch(Catalog, ItemQuery(args)).None?
  {
    var q := ItemQuery(args);
    var w := args[2];
    NumericWordNoKeyChar(w);
    JoinSecond(args[1..], " ");
    var pos := |args[1]| + 1;
    assert Join(args[1..], " ")[pos] == w[0];
    assert !KeyChar(q[pos]);
    assert !AllKeyChars(q);
    CatalogKeyChars();
  }

  /** As written, every purchase that gets past the lookup buys exactly one item. */
  lemma AsWrittenQuantityIsOne(args: seq<string>)
    requires forall i :: 0 <= i < |args| ==> ' ' !in args[i]
    ensures ParseRequestAsWritten(args).Buy? ==> ParseRequestAsWritten(args).quantity == 1
  {
    if |args| >= 3 && ParseInt(args[2]).Some? && Route(args).None? {
      NumericThirdArgumentDefeatsLookup(args);
    }
  }

  /** `!shop buy sword 3` as written: the handler looks up "sword 3" and finds nothing. */
  lemma AsWrittenRejectsExplicitQuantity(args: seq<string>)
    requires args == ["buy", "sword", "3"]
    ensures ParseRequestAsWritten(args) == Reject(ItemNotFound(ItemQuery(args)))
  {
    assert Route(args).None?;
    assert ParseInt(args[2]).Some? by {
      assert NatToString(3) == "3";
      ParseIntOfNatToString(3);
    }
    NumericThirdArgumentDefeatsLookup(args);
  }

  /** With the trailing quantity read on its own, `!shop buy sword 3` buys three swords. */
  lemma ExplicitQuantityHonoured(args: seq<string>)
    requires args == ["buy", "sword", "3"]
    ensures ParseRequest(args) == Buy(Catalog[2], 3)
  {
    assert Route(args).None?;
    ThreeParses();
    assert args[|args| - 1] == "3";
    assert HasQuantity(args);
    SwordQuery(args);
    SwordIsThirdItem();
    assert ParseRequest(args) == Select("sword", 3);
  }

  lemma ThreeParses()
    ensures ParseInt("3") == Some(3)
  {
    assert NatToString(3) == "3";
    ParseIntOfNatToString(3);
  }

  /** The item words of `!shop buy sword 3` make the query `sword`. */
  lemma SwordQuery(args: seq<string>)
    requires args == ["buy", "sword", "3"]
    ensures ToLower(Join(args[1..|args| - 1], " ")) == "sword"
  {
    assert args[1..|args| - 1] == ["sword"];
    assert Join(["sword"], " ") == "sword";
    ToLowerOfLower("sword");
  }

  /** The query `sword` passes over the first two items and stops at the sword. */
  lemma SwordIsThirdItem()
    ensures FirstMatch(Catalog, "sword") == Some(2)
  {
    FishingRodIsNotSword();
    PickaxeIsNotSword();
    var r := FirstMatch(Catalog, "sword");
    assert Matches(Catalog[2], "sword");
    assert r.Some?;
  }

  lemma FishingRodIsNotSword()
    ensures !Matches(Catalog[0], "sword")
  {
    assert |ToLower(Catalog[0].name)| == 11;
  }

  lemma PickaxeIsNotSword()
    ensures !Matches(Catalog[1], "sword")
  {
    assert |ToLower(Catalog[1].name)| == 7;
  }

  /**
   * Without a trailing number the corrected reading agrees with the handler as written: it
   * differs only where the handler as written could never find the item.
   */
  lemma ParseRequestAgreesWithoutQuantity(args: seq<string>)
    requires forall i :: 0 <= i < |args| ==> ' ' !in args[i]
    requires !HasQuantity(args)
    ensures ParseRequest(args) == ParseRequestAsWritten(args)
  {
    if Route(args).None? && QuantityAsWritten(args) != 1 {
      NumericThirdArgumentDefeatsLookup(args);
    }
  }

  // ---------------------------------------------------------------- inventory update

  predicate UniqueIds(inv: seq<InventoryItem>) {
    forall i, j :: 0 <= i < j < |inv| ==> inv[i].itemId != inv[j].itemId
  }

  /** `inventory.find(i => i.itemId === id)`, as an index. */
  function FindById(inv: seq<InventoryItem>, id: string): (r: Option<nat>)
    ensures r.Some? ==> r.value < |inv| && inv[r.value].itemId == id
    ensures r.Some? ==> forall j :: 0 <= j < r.value ==> inv[j].itemId != id
    ensures r.None? ==> forall j :: 0 <= j < |inv| ==> inv[j].itemId != id
  {
    if inv == [] then None
    else if inv[0].itemId == id then Some(0)
    else match FindById(inv[1..], id)
      case None => None
      case Some(i) => Some(i + 1)
  }

  /** The inventory after buying: the entry with the item's id gains `quantity`, or a new entry is appended. */
  function AddItem(inv: seq<InventoryItem>, item: CatalogItem, quantity: int): seq<InventoryItem> {
    match FindById(inv, item.itemId)
    case Some(i) => inv[i := inv[i].(quantity := inv[i].quantity + quantity)]
    case None => inv + [InventoryItem(item.itemId, item.name, item.description, quantity, item.usable)]
  }

  /** The total quantity held under `id`. */
  function Held(inv: seq<InventoryItem>, id: string): int {
    if inv == [] then 0
    else Held(inv[..|inv| - 1], id) + (if inv[|inv| - 1].itemId == id then inv[|inv| - 1].quantity else 0)
  }

  lemma {:induction false} HeldUpdate(inv: seq<InventoryItem>, i: nat, x: InventoryItem, id: string)
    requires i < |inv|
    ensures Held(inv[i := x], id) ==
      Held(inv, id) - (if inv[i].itemId == id then inv[i].quantity else 0) + (if x.itemId == id then x.quantity else 0)
    decreases |inv|
  {
    var u := inv[i := x];
    if i < |inv| - 1 {
      assert u[..|u| - 1] == inv[..|inv| - 1][i := x];
      HeldUpdate(inv[..|inv| - 1], i, x, id);
    } else {
      assert u[..|u| - 1] == inv[..|inv| - 1];
    }
  }

  /** Buying raises the held quantity of the bought id by `quantity` and leaves every other id's. */
  lemma AddItemHeld(inv: seq<InventoryItem>, item: CatalogItem, quantity: int, id: string)
    ensures Held(AddItem(inv, item, quantity), id) == Held(inv, id) + (if id == item.itemId then quantity else 0)
  {
    match FindById(inv, item.itemId)
    case Some(i) =>
      HeldUpdate(inv, i, inv[i].(quantity := inv[i].quantity + quantity), id);
    case None =>
      var r := AddItem(inv, item, quantity);
      assert r[..|r| - 1] == inv;
  }

  /** At most one entry is appended, and only when the id was not yet held; ids stay unique. */
  lemma AddItemShape(inv: seq<InventoryItem>, item: CatalogItem, quantity: int)
    ensures FindById(inv, item.itemId).Some? ==> |AddItem(inv, item, quantity)| == |inv|
    ensures FindById(inv, item.itemId).None? ==>
      |AddItem(inv, item, quantity)| == |inv| + 1 && AddItem(inv, item, quantity)[..|inv|] == inv
    ensures UniqueIds(inv) ==> UniqueIds(AddItem(inv, item, quantity))
  {
    var r := AddItem(inv, item, quantity);
    if FindById(inv, item.itemId).None? {
      assert r[..|inv|] == inv;
      assert forall j :: 0 <= j < |inv| ==> r[j].itemId != r[|inv|].itemId;
    }
  }

  // ---------------------------------------------------------------- the handler

  /** `buyItem`: the balance check, the inventory update and the charge; the record is written under its own key. */
  method BuyItem(db: Database, userId: string, guildId: string, item: CatalogItem, quantity: int)
    returns (out: Outcome)
    requires db.Valid() && IsSnowflake(guildId)
    modifies db, db.users.Values
    ensures db.Valid() && db.guildSettings == old(db.guildSettings)
    ensures var before := old(db.UserOf(userId, guildId)); var cost := item.price * quantity;
      && (out.NotEnoughCoins? <==> before.balance < cost)
      && (out.NotEnoughCoins? ==>
            out == NotEnoughCoins(cost, before.balance) && db.Entry(UserKey(guildId, userId)) == Some(before))
      && (!out.NotEnoughCoins? ==>
            && out == Purchased(item, quantity, cost, before.balance - cost)
            && out.balance >= 0
            && db.Entry(UserKey(guildId, userId)) ==
               Some(before.(balance := before.balance - cost, inventory := AddItem(before.inventory, item, quantity))))
    ensures forall k :: k != UserKey(guildId, userId) ==> db.Entry(k) == old(db.Entry(k))
  {
    var cost := item.price * quantity;
    var user := db.GetUser(userId, guildId);
    if user.balance < cost {
      return NotEnoughCoins(cost, user.balance);
    }
    user.inventory := AddItem(user.inventory, item, quantity);
    user.balance := user.balance - cost;
    db.UpdateUser(userId, guildId, user);
    out := Purchased(item, quantity, cost, user.balance);
  }

  /** The whole command, reading the quantity as the usage line describes. */
  method Execute(db: Database, userId: string, guildId: string, args: seq<string>) returns (out: Outcome)
    requires db.Valid() && IsSnowflake(guildId)
    modifies db, db.users.Values
    ensures db.Valid() && db.guildSettings == old(db.guildSettings)
    ensures ParseRequest(args).Reject? ==> out == ParseRequest(args).outcome && db.users == old(db.users)
    ensures ParseRequest(args).Buy? ==>
      var item := ParseRequest(args).item; var quantity := ParseRequest(args).quantity;
      var before := old(db.UserOf(userId, guildId)); var cost := item.price * quantity;
      && (out.Purchased? <==> before.balance >= cost)
      && (out.Purchased? ==>
            db.Entry(UserKey(guildId, userId)) ==
            Some(before.(balance := before.balance - cost, inventory := AddItem(before.inventory, item, quantity))))
      && (!out.Purchased? ==> out == NotEnoughCoins(cost, before.balance) && db.Entry(UserKey(guildId, userId)) == Some(before))
      && forall k :: k != UserKey(guildId, userId) ==> db.Entry(k) == old(db.Entry(k))
  {
    var request := ParseRequest(args);
    if request.Reject? {
      return request.outcome;
    }
    out := BuyItem(db, userId, guildId, request.item, request.quantity);
  }
}
