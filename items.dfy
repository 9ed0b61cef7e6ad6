/**
 * The item spawner (`Items` in assets/js/items.js): the searchable item
 * list, the `GiveItem` command with its range checks, and the quick kits.
 */
module Items {
  import opened Wrappers
  import opened Text
  import opened Lists
  import opened Console

  /** An item record of the game data. */
  datatype Item = Item(id: string, name: string, category: string)

  /** The item form: raw quantity and quality texts ("" when empty) and the two checkboxes. */
  datatype ItemForm = ItemForm(quantity: string, quality: string, blueprint: bool, stacker: bool)

  const QuickKits: map<string, seq<string>> := map[
    "pvp" := ["PrimalItem_WeaponTekRifle_C", "PrimalItemArmor_MetalShirt_C", "PrimalItemArmor_MetalPants_C",
              "PrimalItemArmor_MetalHelmet_C", "PrimalItem_Consumable_Element_C"],
    "breeder" := ["PrimalItem_WeaponCryoGun_C", "PrimalItem_Consumable_Kibble_Base_C", "PrimalItem_WeaponWhip_C"],
    "builder" := ["PrimalItem_WeaponTekRifle_C", "PrimalItem_WeaponTekSword_C", "PrimalItem_WeaponTekGrenade_C"],
    "explorer" := ["PrimalItem_WeaponTekRifle_C", "PrimalItemArmor_ScubaShirt_C", "PrimalItemArmor_ScubaPants_C"]]

  // ----- list views -----------------------------------------------------------

  predicate NameMatches(item: Item, searchTerm: string) {
    Contains(ToLower(item.name), ToLower(searchTerm))
  }

  /** `filterItems`: the items whose lower-cased name contains the lower-cased term. */
  function SearchItems(items: seq<Item>, searchTerm: string): (r: seq<Item>)
    ensures forall x :: x in r <==> x in items && NameMatches(x, searchTerm)
  {
    Filter(items, x => NameMatches(x, searchTerm))
  }

  /** An empty search keeps every item, in order. */
  lemma EmptySearchKeepsAll(items: seq<Item>)
    ensures SearchItems(items, "") == items
  {
    forall x | x in items ensures NameMatches(x, "") {
      assert OccursAt(ToLower(x.name), ToLower(""), 0);
    }
    FilterKeepsAll(items, x => NameMatches(x, ""));
  }

  /** Searching keeps relative order: the result for a concatenation is the concatenation of results. */
  lemma SearchKeepsOrder(a: seq<Item>, b: seq<Item>, searchTerm: string)
    ensures SearchItems(a + b, searchTerm) == SearchItems(a, searchTerm) + SearchItems(b, searchTerm)
  {
    FilterAppend(a, b, x => NameMatches(x, searchTerm));
  }

  /** `filterByCategory`: every item for "all", otherwise the items of exactly that category. */
  function ItemsInCategory(items: seq<Item>, category: string): (r: seq<Item>)
    ensures category == "all" ==> r == items
    ensures category != "all" ==> forall x :: x in r <==> x in items && x.category == category
  {
    if category == "all" then items else Filter(items, (x: Item) => x.category == category)
  }

  // ----- commands -------------------------------------------------------------

  /** `admincheat GiveItem "<id>" <quantity> <quality> <1|0>`, then ` -Stacker` when requested. */
  function GiveItemCommand(id: string, quantity: int, quality: int, blueprint: bool, stacker: bool): string {
    GiveItemHead(id) + ArgsText(quantity, quality, blueprint, stacker)
  }

  /** The text after the quoted id. */
  function ArgsText(quantity: int, quality: int, blueprint: bool, stacker: bool): string {
    " " + IntToString(quantity) + " " + IntToString(quality) + " " + (if blueprint then "1" else "0")
      + Flag(stacker, "-Stacker")
  }

  /** The quoted id with which a `GiveItem` command starts. */
  function GiveItemHead(id: string): string {
    "admincheat GiveItem \"" + id + "\""
  }

  /** The words after the quoted id: quantity, quality, the blueprint flag and the stacker flag when requested. */
  function GiveItemArgs(quantity: int, quality: int, blueprint: bool, stacker: bool): seq<string> {
    [IntToString(quantity), IntToString(quality), if blueprint then "1" else "0"] + FlagWords(stacker, "-Stacker")
  }

  lemma IntWord(i: int)
    ensures Word(IntToString(i))
  {
    var n: nat := if i < 0 then -i else i;
    var d := NatToString(n);
    if i < 0 {
      assert forall j :: 1 <= j < |IntToString(i)| ==> IntToString(i)[j] == d[j - 1];
    }
  }

  lemma ArgsTail(quantity: int, quality: int, blueprint: bool, stacker: bool)
    ensures AllWords(GiveItemArgs(quantity, quality, blueprint, stacker))
    ensures Tail(GiveItemArgs(quantity, quality, blueprint, stacker)) == ArgsText(quantity, quality, blueprint, stacker)
  {
    var a := IntToString(quantity);
    var b := IntToString(quality);
    var c := if blueprint then "1" else "0";
    var f := FlagWords(stacker, "-Stacker");
    IntWord(quantity);
    IntWord(quality);
    LineCons(a, [b, c]);
    LineCons(b, [c]);
    assert [a] + [b, c] == [a, b, c] && [b] + [c] == [b, c];
    assert Tail([a, b, c]) == " " + a + " " + b + " " + c;
    assert Tail(f) == Flag(stacker, "-Stacker");
    TailAppend([a, b, c], f);
    assert AllWords([a, b, c]) && AllWords(f);
    AppendWords([a, b, c], f);
  }

  /**
   * The server reads a `GiveItem` command as the words of its head up to the
   * quoted id, then exactly the quantity, the quality, the blueprint flag as
   * `1` or `0`, and `-Stacker` when requested.
   */
  lemma GiveItemReadsBack(id: string, quantity: int, quality: int, blueprint: bool, stacker: bool)
    ensures Split(GiveItemCommand(id, quantity, quality, blueprint, stacker), ' ')
      == Split(GiveItemHead(id), ' ') + GiveItemArgs(quantity, quality, blueprint, stacker)
  {
    var args := GiveItemArgs(quantity, quality, blueprint, stacker);
    ArgsTail(quantity, quality, blueprint, stacker);
    ReadBackAfter(GiveItemHead(id), args);
  }

  lemma StackerFlag()
    ensures Flag(true, "-Stacker") == " -Stacker"
  {
  }

  /** The checks of `spawnItem` on the parsed quantity and quality. */
  predicate InRange(p: Option<int>, lo: int, hi: int) {
    p.Some? && lo <= p.value <= hi
  }

  /** `parseInt(quantity || '1', 10)` */
  function QuantityValue(form: ItemForm): Option<int> {
    ParseInt(if form.quantity == "" then "1" else form.quantity)
  }

  /** `parseInt(quality || '100', 10)` */
  function QualityValue(form: ItemForm): Option<int> {
    ParseInt(if form.quality == "" then "100" else form.quality)
  }

  /** The commands `spawnItem` issues: none without a selection or with an out-of-range value. */
  function SpawnItemCommands(selected: Option<Item>, form: ItemForm): (r: seq<string>)
    ensures r == [] <==>
      (selected.None? || !InRange(QuantityValue(form), 1, 1000) || !InRange(QualityValue(form), 1, 1000))
    ensures r != [] ==> r == [GiveItemCommand(selected.value.id, QuantityValue(form).value,
                                              QualityValue(form).value, form.blueprint, form.stacker)]
  {
    if selected.None? || !InRange(QuantityValue(form), 1, 1000) || !InRange(QualityValue(form), 1, 1000) then []
    else [GiveItemCommand(selected.value.id, QuantityValue(form).value, QualityValue(form).value, form.blueprint, form.stacker)]
  }

  /** The command a quick kit issues for one item: one copy, quality 100, not a blueprint. */
  function KitItemCommand(id: string): string {
    GiveItemCommand(id, 1, 100, false, false)
  }

  /** The command text `spawnItem` assembles, the stacker flag appended last. */
  method BuildGiveItemCommand(id: string, quantity: int, quality: int, blueprint: bool, stacker: bool)
    returns (command: string)
    ensures command == GiveItemCommand(id, quantity, quality, blueprint, stacker)
  {
    var args := " " + IntToString(quantity) + " " + IntToString(quality) + " " + (if blueprint then "1" else "0");
    ghost var plain := args;
    if stacker {
      StackerFlag();
      args := args + " -Stacker";
    }
    assert args == plain + Flag(stacker, "-Stacker");
    command := GiveItemHead(id) + args;
  }

  /** The item spawner's state. */
  class ItemSpawner {
    var items: seq<Item>
    var filteredItems: seq<Item>
    var selectedItem: Option<Item>

    constructor (data: seq<Item>)
      ensures items == data && filteredItems == data && selectedItem == None
    {
      items := data;
      filteredItems := data;
      selectedItem := None;
    }

    /** `filterItems` */
    method FilterItems(searchTerm: string)
      modifies this
      ensures items == old(items) && selectedItem == old(selectedItem)
      ensures filteredItems == SearchItems(items, searchTerm)
    {
      filteredItems := Filter(items, x => NameMatches(x, searchTerm));
    }

    /** `filterByCategory` */
    method FilterByCategory(category: string)
      modifies this
      ensures items == old(items) && selectedItem == old(selectedItem)
      ensures filteredItems == ItemsInCategory(items, category)
    {
      if category == "all" {
        filteredItems := items;
      } else {
        filteredItems := Filter(items, (x: Item) => x.category == category);
      }
    }

    /** `selectItem` */
    method SelectItem(item: Item)
      modifies this
      ensures items == old(items) && filteredItems == old(filteredItems)
      ensures selectedItem == Some(item)
    {
      selectedItem := Some(item);
    }

    /** `spawnItem` */
    method SpawnItem(form: ItemForm) returns (issued: seq<string>)
      ensures issued == SpawnItemCommands(selectedItem, form)
    {
      if selectedItem.None? {
        return [];
      }
      var quantity := QuantityValue(form);
      if quantity.None? || quantity.value < 1 || quantity.value > 1000 {
        return [];
      }
      var quality := QualityValue(form);
      if quality.None? || quality.value < 1 || quality.value > 1000 {
        return [];
      }
      assert InRange(quantity, 1, 1000) && InRange(quality, 1, 1000);
      var command := BuildGiveItemCommand(selectedItem.value.id, quantity.value, quality.value, form.blueprint, form.stacker);
      issued := [command];
    }

    /**
     * `spawnKit`: nothing for an unknown kit, otherwise one command per kit
     * item, in kit order.
     */
    method SpawnKit(kit: string) returns (issued: seq<string>)
      ensures kit !in QuickKits ==> issued == []
      ensures kit in QuickKits ==> (|issued| == |QuickKits[kit]|
        && forall i :: 0 <= i < |issued| ==> issued[i] == KitItemCommand(QuickKits[kit][i]))
    {
      if kit !in QuickKits {
        return [];
      }
      var kitItems := QuickKits[kit];
      issued := [];
      for i := 0 to |kitItems|
        invariant |issued| == i
        invariant forall j :: 0 <= j < i ==> issued[j] == KitItemCommand(kitItems[j])
      {
        issued := issued + [KitItemCommand(kitItems[i])];
      }
    }

    /** `refresh`: reload the list, show all of it and clear the selection. */
    method Refresh(data: seq<Item>)
      modifies this
      ensures items == data && filteredItems == data && selectedItem == None
    {
      items := data;
      filteredItems := data;
      selectedItem := None;
    }
  }
}
