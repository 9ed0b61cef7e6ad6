/**
 * The players panel (`Players` in assets/js/players.js): the commands that
 * act on the selected player, and the gear cloner between two players.
 */
module Players {
  import opened Wrappers
  import opened Text
  import opened Lists

  /** A player row; `id` is what the source and target selects hold as text. */
  datatype Player = Player(id: nat, name: string, gear: seq<string>)

  // ---------------------------------------------------------------- selected player

  /**
   * `admincheat <verb> "<name>"`: the server reads the player name back as
   * the one quoted field after the head.
   */
  function PlayerCommand(verb: string, name: string): (r: string)
    ensures Free(name, '"') ==> Split(r, '"') == Split("admincheat " + verb + " ", '"') + [name, ""]
  {
    var r := "admincheat " + verb + " \"" + name + "\"";
    if Free(name, '"') then
      assert r == "admincheat " + verb + " " + ['"'] + name + ['"'] + "";
      SplitQuoted("admincheat " + verb + " ", name, "", '"');
      SplitFree("", '"');
      r
    else r
  }

  /** The optional reason of a kick or ban: appended in quotes only when given. */
  function WithReason(command: string, reason: string): (r: string)
    ensures reason == "" ==> r == command
    ensures reason != "" ==> |r| == |command| + |reason| + 3 && r[..|command|] == command
  {
    if reason == "" then command else command + " \"" + reason + "\""
  }

  function KickCommand(name: string, reason: string): string {
    WithReason(PlayerCommand("KickPlayer", name), reason)
  }

  function BanCommand(name: string, reason: string): string {
    WithReason(PlayerCommand("BanPlayer", name), reason)
  }

  /** The quoted fields after a command head: the name, then the reason if there is one. */
  function QuotedFields(name: string, reason: string): seq<string> {
    if reason == "" then [name, ""] else [name, " ", reason, ""]
  }

  /**
   * The server reads the player name and the reason back as the quoted
   * fields of the line, and sees no reason field when none was given.
   */
  lemma ReasonReadsBack(verb: string, name: string, reason: string)
    requires Free(name, '"') && Free(reason, '"')
    ensures Split(WithReason(PlayerCommand(verb, name), reason), '"')
      == Split("admincheat " + verb + " ", '"') + QuotedFields(name, reason)
  {
    var head := "admincheat " + verb + " ";
    var tail := if reason == "" then "" else " " + ['"'] + reason + ['"'] + "";
    assert WithReason(PlayerCommand(verb, name), reason) == head + ['"'] + name + ['"'] + tail;
    SplitQuoted(head, name, tail, '"');
    if reason != "" {
      SplitQuoted(" ", reason, "", '"');
      SplitFree(" ", '"');
    }
  }

  // ---------------------------------------------------------------- gear cloner

  /** `updateGearCloner`: the clone button is disabled without two different players. */
  predicate CloneDisabled(sourceValue: string, targetValue: string) {
    sourceValue == "" || targetValue == "" || sourceValue == targetValue
  }

  /** The display-name to item-id table of `getItemId`. */
  const ItemIds: map<string, string> := map[
    "Tek Rifle" := "PrimalItem_WeaponTekRifle_C",
    "Tek Armor" := "PrimalItemArmor_TekShirt_C",
    "Element" := "PrimalItem_Consumable_Element_C",
    "Bow" := "PrimalItem_WeaponBow_C",
    "Hide Armor" := "PrimalItemArmor_HideShirt_C",
    "Spear" := "PrimalItem_WeaponSpear_C",
    "Cryopod" := "PrimalItem_WeaponCryoGun_C",
    "Kibble" := "PrimalItem_Consumable_Kibble_Base_C",
    "Whip" := "PrimalItem_WeaponWhip_C",
    "Tek Sword" := "PrimalItem_WeaponTekSword_C"
  ]

  /** `getItemId`: the mapped id, or null for a name the table lacks. */
  function GetItemId(itemName: string): (r: Option<string>)
    ensures r.Some? <==> itemName in ItemIds
    ensures r.Some? ==> r.value == ItemIds[itemName] && r.value != ""
  {
    if itemName in ItemIds then Some(ItemIds[itemName]) else None
  }

  /** No two gear names clone as the same item. */
  lemma ItemIdsDistinct(a: string, b: string)
    requires a in ItemIds && b in ItemIds && a != b
    ensures ItemIds[a] != ItemIds[b]
  {
  }

  /** `players.find(p => p.id == value)`: the first player whose id reads as the select's value. */
  function FindPlayer(players: seq<Player>, value: string): (r: Option<Player>)
    ensures r.None? <==> forall i :: 0 <= i < |players| ==> NatToString(players[i].id) != value
    ensures r.Some? ==> exists i :: (0 <= i < |players| && players[i] == r.value
      && NatToString(players[i].id) == value
      && forall j :: 0 <= j < i ==> NatToString(players[j].id) != value)
  {
    if |players| == 0 then None
    else if NatToString(players[0].id) == value then Some(players[0])
    else
      var r := FindPlayer(players[1..], value);
      if r.Some? then
        var i :| 0 <= i < |players[1..]| && players[1..][i] == r.value && NatToString(players[1..][i].id) == value
          && forall j :: 0 <= j < i ==> NatToString(players[1..][j].id) != value;
        assert players[i + 1] == r.value;
        assert forall j :: 0 <= j < i + 1 ==> NatToString(players[j].id) != value by {
          forall j | 0 <= j < i + 1 ensures NatToString(players[j].id) != value {
            if j > 0 { assert players[j] == players[1..][j - 1]; }
          }
        }
        r
      else
        assert forall i :: 0 <= i < |players| ==> NatToString(players[i].id) != value by {
          forall i | 0 <= i < |players| ensures NatToString(players[i].id) != value {
            if i > 0 { assert players[i] == players[1..][i - 1]; }
          }
        }
        r
  }

  function DestroyLine(target: string): string {
    "admincheat DestroyAll \"PrimalItem\" \"" + target + "\""
  }

  function GiveLine(itemId: string, target: string): string {
    "admincheat GiveItem \"" + itemId + "\" 1 1 0 \"" + target + "\""
  }

  /** One give command per gear item with a known id, in gear order. */
  function GiveLines(gear: seq<string>, target: string): seq<string>
  {
    if gear == [] then []
    else
      var item := gear[|gear| - 1];
      GiveLines(gear[..|gear| - 1], target)
        + (if GetItemId(item).Some? then [GiveLine(GetItemId(item).value, target)] else [])
  }

  /** Whether the clone table knows a gear name. */
  predicate Known(item: string) { item in ItemIds }

  /**
   * The give commands are exactly those for the source's known items, in
   * their order: unknown items are skipped and nothing else is added.
   */
  lemma {:induction false} GiveLinesAreKnownItems(gear: seq<string>, target: string)
    ensures var known := Filter(gear, Known);
      (forall k :: 0 <= k < |known| ==> known[k] in ItemIds) &&
      GiveLines(gear, target) == seq(|known|, k requires 0 <= k < |known| => GiveLine(ItemIds[known[k]], target))
  {
    var known := Filter(gear, Known);
    forall k | 0 <= k < |known| ensures known[k] in ItemIds {
      assert known[k] in known;
    }
    if gear != [] {
      var init := gear[..|gear| - 1];
      var item := gear[|gear| - 1];
      GiveLinesAreKnownItems(init, target);
      var before := Filter(init, Known);
      assert Filter(gear, Known) == before + (if Known(item) then [item] else []);
    }
  }

  /** `cloneGear`: the commands it issues for two select values. */
  function CloneCommands(players: seq<Player>, sourceValue: string, targetValue: string): (r: seq<string>)
    ensures CloneDisabled(sourceValue, targetValue) ==> r == []
    ensures FindPlayer(players, sourceValue).None? || FindPlayer(players, targetValue).None? ==> r == []
    ensures r != [] ==> r[0] == DestroyLine(FindPlayer(players, targetValue).value.name)
  {
    if CloneDisabled(sourceValue, targetValue) then []
    else
      match (FindPlayer(players, sourceValue), FindPlayer(players, targetValue))
      case (Some(source), Some(target)) => [DestroyLine(target.name)] + GiveLines(source.gear, target.name)
      case _ => []
  }

  /**
   * An enabled clone button between two listed players always clears the
   * target first and then gives one item per known item of the source.
   */
  lemma CloneClearsThenGives(players: seq<Player>, sourceValue: string, targetValue: string)
    requires !CloneDisabled(sourceValue, targetValue)
    requires FindPlayer(players, sourceValue).Some? && FindPlayer(players, targetValue).Some?
    ensures var target := FindPlayer(players, targetValue).value.name;
      var known := Filter(FindPlayer(players, sourceValue).value.gear, Known);
      (forall k :: 0 <= k < |known| ==> known[k] in ItemIds) &&
      CloneCommands(players, sourceValue, targetValue)
        == [DestroyLine(target)] + seq(|known|, k requires 0 <= k < |known| => GiveLine(ItemIds[known[k]], target))
  {
    GiveLinesAreKnownItems(FindPlayer(players, sourceValue).value.gear, FindPlayer(players, targetValue).value.name);
  }

  /** The gear loop of `cloneGear`, appending to the list it was given. */
  method AppendGiveLines(commands: seq<string>, gear: seq<string>, target: string) returns (r: seq<string>)
    ensures r == commands + GiveLines(gear, target)
  {
    r := commands;
    for i := 0 to |gear|
      invariant r == commands + GiveLines(gear[..i], target)
    {
      assert gear[..i + 1][..i] == gear[..i];
      var itemId := GetItemId(gear[i]);
      if itemId.Some? {
        r := r + [GiveLine(itemId.value, target)];
      }
    }
    assert gear[..|gear|] == gear;
  }

  /** The players panel's state. */
  class PlayerPanel {
    var players: seq<Player>
    var selectedPlayer: Option<Player>
    var cloneButtonDisabled: bool

    constructor (data: seq<Player>)
      ensures players == data && selectedPlayer == None && cloneButtonDisabled
    {
      players := data;
      selectedPlayer := None;
      cloneButtonDisabled := true;
    }

    /** `selectPlayer` */
    method SelectPlayer(player: Player)
      modifies this
      ensures selectedPlayer == Some(player)
      ensures players == old(players) && cloneButtonDisabled == old(cloneButtonDisabled)
    {
      selectedPlayer := Some(player);
    }

    /** `updateGearCloner`, run whenever either select changes. */
    method UpdateGearCloner(sourceValue: string, targetValue: string)
      modifies this
      ensures cloneButtonDisabled <==> CloneDisabled(sourceValue, targetValue)
      ensures players == old(players) && selectedPlayer == old(selectedPlayer)
    {
      cloneButtonDisabled := sourceValue == "" || targetValue == "" || sourceValue == targetValue;
    }

    /** `teleportToPlayer`: nothing without a selected player. */
    method TeleportToPlayer() returns (issued: seq<string>)
      ensures selectedPlayer.None? ==> issued == []
      ensures selectedPlayer.Some? ==> issued == [PlayerCommand("TeleportToPlayer", selectedPlayer.value.name)]
    {
      if selectedPlayer.None? {
        return [];
      }
      issued := [PlayerCommand("TeleportToPlayer", selectedPlayer.value.name)];
    }

    /** `bringPlayer`: nothing without a selected player. */
    method BringPlayer() returns (issued: seq<string>)
      ensures selectedPlayer.None? ==> issued == []
      ensures selectedPlayer.Some? ==> issued == [PlayerCommand("TeleportPlayer", selectedPlayer.value.name)]
    {
      if selectedPlayer.None? {
        return [];
      }
      issued := [PlayerCommand("TeleportPlayer", selectedPlayer.value.name)];
    }

    /** `kickPlayer`; `reason` is the prompt's answer, "" when cancelled or left empty. */
    method KickPlayer(reason: string) returns (issued: seq<string>)
      ensures selectedPlayer.None? ==> issued == []
      ensures selectedPlayer.Some? ==> issued == [KickCommand(selectedPlayer.value.name, reason)]
    {
      if selectedPlayer.None? {
        return [];
      }
      var command := PlayerCommand("KickPlayer", selectedPlayer.value.name);
      if reason != "" {
        command := command + " \"" + reason + "\"";
      }
      issued := [command];
    }

    /** `banPlayer`; `reason` is the prompt's answer, "" when cancelled or left empty. */
    method BanPlayer(reason: string) returns (issued: seq<string>)
      ensures selectedPlayer.None? ==> issued == []
      ensures selectedPlayer.Some? ==> issued == [BanCommand(selectedPlayer.value.name, reason)]
    {
      if selectedPlayer.None? {
        return [];
      }
      var command := PlayerCommand("BanPlayer", selectedPlayer.value.name);
      if reason != "" {
        command := command + " \"" + reason + "\"";
      }
      issued := [command];
    }

    /**
     * `cloneGear`: missing, equal or unknown players issue nothing;
     * otherwise the target's inventory is cleared and the source's known
     * items are given to it.
     */
    method CloneGear(sourceValue: string, targetValue: string) returns (issued: seq<string>)
      ensures issued == CloneCommands(players, sourceValue, targetValue)
    {
      if sourceValue == "" || targetValue == "" {
        return [];
      }
      if sourceValue == targetValue {
        return [];
      }
      var source := FindPlayer(players, sourceValue);
      var target := FindPlayer(players, targetValue);
      if source.None? || target.None? {
        return [];
      }
      issued := AppendGiveLines([DestroyLine(target.value.name)], source.value.gear, target.value.name);
    }
  }
}
