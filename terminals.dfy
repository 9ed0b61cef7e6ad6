/**
 * The terminal and mannequin builder (`Terminals` in assets/js/terminals.js):
 * a configuration edited by form events and presets, and the spawn command
 * built from it. `window.app.executeCommand` is modelled by returning the
 * commands issued.
 */
module Terminals {
  import opened Wrappers
  import opened Text
  import opened Console
  import opened Palette

  datatype TerminalConfig = TerminalConfig(skin: string, pose: string, armor: string, color: string, gear: seq<string>)

  const MannequinBlueprint := "\"Blueprint'/Game/PrimalEarth/CoreBlueprints/Items/Structures/Misc/PrimalItemStructure_Mannequin.PrimalItemStructure_Mannequin'\""
  const PlayerTerminalBlueprint := "\"Blueprint'/Game/PrimalEarth/CoreBlueprints/Items/Structures/Misc/PrimalItemStructure_PlayerTerminal.PrimalItemStructure_PlayerTerminal'\""

  /** The configuration a type switch resets to. */
  function DefaultConfig(terminalType: string): (r: TerminalConfig)
    ensures r.gear == [] && r.color == "#ffffff"
    ensures terminalType == "mannequin" ==> r.skin == "default" && r.pose == "idle" && r.armor == ""
    ensures terminalType != "mannequin" ==> r.skin == "tek" && r.pose == "" && r.armor == "tek"
  {
    if terminalType == "mannequin" then TerminalConfig("default", "idle", "", "#ffffff", [])
    else TerminalConfig("tek", "", "tek", "#ffffff", [])
  }

  datatype GearPreset = GearPreset(name: string, items: seq<string>)

  const GearPresets: map<string, GearPreset> := map[
    "pvp-kit" := GearPreset("PvP Kit", [
      "PrimalItem_WeaponTekRifle_C", "PrimalItemArmor_TekShirt_C", "PrimalItemArmor_TekPants_C",
      "PrimalItemArmor_TekHelmet_C", "PrimalItem_Consumable_Element_C", "PrimalItem_WeaponTekSword_C"]),
    "breeder-kit" := GearPreset("Breeder Kit", [
      "PrimalItem_WeaponCryoGun_C", "PrimalItem_Consumable_Kibble_Base_C", "PrimalItem_WeaponWhip_C",
      "PrimalItem_Consumable_Stimulant_C", "PrimalItem_Consumable_Narcotic_C"]),
    "builder-kit" := GearPreset("Builder Kit", [
      "PrimalItem_WeaponTekRifle_C", "PrimalItem_Consumable_Element_C", "PrimalItem_WeaponTekSword_C",
      "PrimalItem_WeaponTekGrenade_C", "PrimalItem_WeaponTekBow_C"]),
    "explorer-kit" := GearPreset("Explorer Kit", [
      "PrimalItem_WeaponTekRifle_C", "PrimalItemArmor_ScubaShirt_C", "PrimalItemArmor_ScubaPants_C",
      "PrimalItem_Consumable_Element_C", "PrimalItem_WeaponTekSword_C"])]

  const ItemNames: map<string, string> := map[
    "PrimalItem_WeaponTekRifle_C" := "Tek Rifle",
    "PrimalItemArmor_TekShirt_C" := "Tek Shirt",
    "PrimalItemArmor_TekPants_C" := "Tek Pants",
    "PrimalItemArmor_TekHelmet_C" := "Tek Helmet",
    "PrimalItem_Consumable_Element_C" := "Element",
    "PrimalItem_WeaponTekSword_C" := "Tek Sword",
    "PrimalItem_WeaponCryoGun_C" := "Cryopod",
    "PrimalItem_Consumable_Kibble_Base_C" := "Kibble",
    "PrimalItem_WeaponWhip_C" := "Whip",
    "PrimalItem_Consumable_Stimulant_C" := "Stimulant",
    "PrimalItem_Consumable_Narcotic_C" := "Narcotic",
    "PrimalItem_WeaponTekGrenade_C" := "Tek Grenade",
    "PrimalItem_WeaponTekBow_C" := "Tek Bow",
    "PrimalItemArmor_ScubaShirt_C" := "Scuba Shirt",
    "PrimalItemArmor_ScubaPants_C" := "Scuba Pants"]

  /** The display name of an item: its table name, or the id itself when unmapped. */
  function GetItemDisplayName(itemId: string): (r: string)
    ensures itemId in ItemNames ==> r == ItemNames[itemId]
    ensures itemId !in ItemNames ==> r == itemId
  {
    if itemId in ItemNames && ItemNames[itemId] != "" then ItemNames[itemId] else itemId
  }

  /** Every item of every gear preset has a display name of its own. */
  lemma PresetItemsAllNamed(key: string, i: int)
    requires key in GearPresets && 0 <= i < |GearPresets[key].items|
    ensures GearPresets[key].items[i] in ItemNames
    ensures GetItemDisplayName(GearPresets[key].items[i]) != GearPresets[key].items[i]
  {
  }

  // ----- commands -------------------------------------------------------------

  predicate SkinRule(c: TerminalConfig) { c.skin != "" && c.skin != "default" }
  predicate PoseRule(c: TerminalConfig) { c.pose != "" && c.pose != "idle" }
  predicate ColorRule(c: TerminalConfig) { c.color != "" && c.color != "#ffffff" }
  predicate ArmorRule(c: TerminalConfig) { c.armor != "" && c.armor != "none" }

  const MannequinBase := "admincheat SpawnActor " + MannequinBlueprint
  const PlayerTerminalBase := "admincheat SpawnActor " + PlayerTerminalBlueprint

  /** What `generateMannequinCommand` appends to the base: skin, pose and colour overrides as they apply. */
  function MannequinOptions(config: TerminalConfig): string {
    Opt(SkinRule(config), "-SkinOverride", config.skin)
    + Opt(PoseRule(config), "-Pose", config.pose)
    + Opt(ColorRule(config), "-ColorOverride", NatToString(HexToColorIndex(config.color)))
  }

  /** `generateMannequinCommand` */
  function GenerateMannequinCommand(config: TerminalConfig): string {
    MannequinBase + MannequinOptions(config)
  }

  /** The text one gear item adds to a player-terminal command. */
  function GiveItemPart(item: string): string {
    " -GiveItem \"" + item + "\" 1 1 0"
  }

  /** The gear items' parts, in gear order. */
  function GiveItems(gear: seq<string>): string {
    if |gear| == 0 then "" else GiveItems(gear[..|gear| - 1]) + GiveItemPart(gear[|gear| - 1])
  }

  /** The skin and armor overrides of a player-terminal command, as they apply. */
  function PlayerTerminalOverrides(config: TerminalConfig): string {
    Opt(SkinRule(config), "-SkinOverride", config.skin) + Opt(ArmorRule(config), "-Armor", config.armor)
  }

  /** The player-terminal command: the base, the skin and armor overrides, then the gear. */
  function PlayerTerminalCommand(config: TerminalConfig): string {
    PlayerTerminalBase + PlayerTerminalOverrides(config) + GiveItems(config.gear)
  }

  /** `generatePlayerTerminalCommand` */
  method GeneratePlayerTerminalCommand(config: TerminalConfig) returns (command: string)
    ensures command == PlayerTerminalCommand(config)
  {
    command := AppendPlayerTerminalOptions(PlayerTerminalBase, config);
  }

  /** The body of `generatePlayerTerminalCommand` after the base: the overrides, then the gear loop. */
  method AppendPlayerTerminalOptions(head: string, config: TerminalConfig) returns (command: string)
    ensures command == head + PlayerTerminalOverrides(config) + GiveItems(config.gear)
  {
    command := head;
    if SkinRule(config) {
      command := command + " -SkinOverride " + config.skin;
    }
    assert command == head + Opt(SkinRule(config), "-SkinOverride", config.skin);
    if ArmorRule(config) {
      command := command + " -Armor " + config.armor;
    }
    assert command == head + PlayerTerminalOverrides(config);
    command := AppendGear(command, config.gear);
  }

  /** The gear loop of `generatePlayerTerminalCommand`: one part per item, in order. */
  method AppendGear(head: string, gear: seq<string>) returns (command: string)
    ensures command == head + GiveItems(gear)
  {
    command := head;
    for i := 0 to |gear|
      invariant command == head + GiveItems(gear[..i])
    {
      assert gear[..i + 1][..i] == gear[..i];
      command := command + GiveItemPart(gear[i]);
    }
    assert gear[..|gear|] == gear;
  }

  // ----- the commands as the server reads them --------------------------------

  /** The option words of a mannequin command, in the order they are appended. */
  function MannequinOptionWords(config: TerminalConfig): seq<string> {
    OptWords(SkinRule(config), "-SkinOverride", config.skin)
    + OptWords(PoseRule(config), "-Pose", config.pose)
    + OptWords(ColorRule(config), "-ColorOverride", NatToString(HexToColorIndex(config.color)))
  }

  function GiveItemWords(item: string): seq<string> {
    ["-GiveItem", "\"" + item + "\"", "1", "1", "0"]
  }

  function GearWords(gear: seq<string>): seq<string> {
    if |gear| == 0 then [] else GearWords(gear[..|gear| - 1]) + GiveItemWords(gear[|gear| - 1])
  }

  /** The override words of a player-terminal command, in the order they are appended. */
  function OverrideWords(config: TerminalConfig): seq<string> {
    OptWords(SkinRule(config), "-SkinOverride", config.skin) + OptWords(ArmorRule(config), "-Armor", config.armor)
  }

  lemma MannequinOptionsTail(config: TerminalConfig)
    ensures MannequinOptions(config) == Tail(MannequinOptionWords(config))
  {
    var a := OptWords(SkinRule(config), "-SkinOverride", config.skin);
    var b := OptWords(PoseRule(config), "-Pose", config.pose);
    var c := OptWords(ColorRule(config), "-ColorOverride", NatToString(HexToColorIndex(config.color)));
    OptTail(SkinRule(config), "-SkinOverride", config.skin);
    OptTail(PoseRule(config), "-Pose", config.pose);
    OptTail(ColorRule(config), "-ColorOverride", NatToString(HexToColorIndex(config.color)));
    TailAppend(a, b);
    TailAppend(a + b, c);
  }

  lemma OverridesTail(config: TerminalConfig)
    ensures PlayerTerminalOverrides(config) == Tail(OverrideWords(config))
  {
    OptTail(SkinRule(config), "-SkinOverride", config.skin);
    OptTail(ArmorRule(config), "-Armor", config.armor);
    TailAppend(OptWords(SkinRule(config), "-SkinOverride", config.skin), OptWords(ArmorRule(config), "-Armor", config.armor));
  }

  lemma GiveItemSpelling(item: string)
    ensures GiveItemPart(item) == " " + "-GiveItem" + " " + ("\"" + item + "\"") + " " + "1" + " " + "1" + " " + "0"
  {
  }

  lemma GiveItemTail(item: string)
    ensures GiveItemPart(item) == Tail(GiveItemWords(item))
  {
    TailFive("-GiveItem", "\"" + item + "\"", "1", "1", "0");
    GiveItemSpelling(item);
  }

  lemma {:induction false} GearTail(gear: seq<string>)
    ensures GiveItems(gear) == Tail(GearWords(gear))
    decreases |gear|
  {
    if |gear| > 0 {
      GearTail(gear[..|gear| - 1]);
      GiveItemTail(gear[|gear| - 1]);
      TailAppend(GearWords(gear[..|gear| - 1]), GiveItemWords(gear[|gear| - 1]));
    }
  }

  lemma {:induction false} GearWordsAreWords(gear: seq<string>)
    requires forall i :: 0 <= i < |gear| ==> Free(gear[i], ' ')
    ensures AllWords(GearWords(gear))
    decreases |gear|
  {
    if |gear| > 0 {
      GearWordsAreWords(gear[..|gear| - 1]);
      var item := gear[|gear| - 1];
      assert Free("\"" + item + "\"", ' ') by {
        assert forall i :: 0 <= i < |item| ==> ("\"" + item + "\"")[i + 1] == item[i];
      }
    }
  }

  lemma SkinFlagIsWord() ensures Word("-SkinOverride") {
    assert forall i :: 0 <= i < 13 ==> "-SkinOverride"[i] != ' ';
  }

  lemma PoseFlagIsWord() ensures Word("-Pose") {
    assert forall i :: 0 <= i < 5 ==> "-Pose"[i] != ' ';
  }

  lemma ColorFlagIsWord() ensures Word("-ColorOverride") {
    assert forall i :: 0 <= i < 14 ==> "-ColorOverride"[i] != ' ';
  }

  lemma ArmorFlagIsWord() ensures Word("-Armor") {
    assert forall i :: 0 <= i < 6 ==> "-Armor"[i] != ' ';
  }

  lemma MannequinOptionWordsAreWords(config: TerminalConfig)
    requires Free(config.skin, ' ') && Free(config.pose, ' ')
    ensures AllWords(MannequinOptionWords(config))
  {
    SkinFlagIsWord();
    PoseFlagIsWord();
    ColorFlagIsWord();
    var color := NatToString(HexToColorIndex(config.color));
    OptWordsAreWords(SkinRule(config), "-SkinOverride", config.skin);
    OptWordsAreWords(PoseRule(config), "-Pose", config.pose);
    OptWordsAreWords(ColorRule(config), "-ColorOverride", color);
    AppendWords(OptWords(SkinRule(config), "-SkinOverride", config.skin), OptWords(PoseRule(config), "-Pose", config.pose));
    AppendWords(OptWords(SkinRule(config), "-SkinOverride", config.skin) + OptWords(PoseRule(config), "-Pose", config.pose),
      OptWords(ColorRule(config), "-ColorOverride", color));
  }

  lemma OverrideWordsAreWords(config: TerminalConfig)
    requires Free(config.skin, ' ') && Free(config.armor, ' ')
    ensures AllWords(OverrideWords(config))
  {
    SkinFlagIsWord();
    ArmorFlagIsWord();
    OptWordsAreWords(SkinRule(config), "-SkinOverride", config.skin);
    OptWordsAreWords(ArmorRule(config), "-Armor", config.armor);
    AppendWords(OptWords(SkinRule(config), "-SkinOverride", config.skin), OptWords(ArmorRule(config), "-Armor", config.armor));
  }

  /**
   * When the form values hold no spaces, the server reads the mannequin
   * command as the base's words followed by exactly the options that apply,
   * in the order skin, pose, colour.
   */
  lemma MannequinCommandReadsBack(config: TerminalConfig)
    requires Free(config.skin, ' ') && Free(config.pose, ' ')
    ensures Split(GenerateMannequinCommand(config), ' ') == Split(MannequinBase, ' ') + MannequinOptionWords(config)
  {
    MannequinOptionsTail(config);
    MannequinOptionWordsAreWords(config);
    ReadBackAfter(MannequinBase, MannequinOptionWords(config));
  }

  /**
   * When the form values and gear ids hold no spaces, the server reads the
   * player-terminal command as the base's words, the overrides that apply and
   * one `-GiveItem "id" 1 1 0` group per gear item, in gear order.
   */
  lemma PlayerTerminalCommandReadsBack(config: TerminalConfig)
    requires Free(config.skin, ' ') && Free(config.armor, ' ')
    requires forall i :: 0 <= i < |config.gear| ==> Free(config.gear[i], ' ')
    ensures Split(PlayerTerminalCommand(config), ' ')
      == Split(PlayerTerminalBase, ' ') + OverrideWords(config) + GearWords(config.gear)
  {
    OptionsReadBack(PlayerTerminalBase, config);
  }

  /** The overrides and the gear read back after any head. */
  lemma OptionsReadBack(head: string, config: TerminalConfig)
    requires Free(config.skin, ' ') && Free(config.armor, ' ')
    requires forall i :: 0 <= i < |config.gear| ==> Free(config.gear[i], ' ')
    ensures Split(head + PlayerTerminalOverrides(config) + GiveItems(config.gear), ' ')
      == Split(head, ' ') + OverrideWords(config) + GearWords(config.gear)
  {
    var o := OverrideWords(config);
    var g := GearWords(config.gear);
    OverridesTail(config);
    GearTail(config.gear);
    TailAppend(o, g);
    GearWordsAreWords(config.gear);
    OverrideWordsAreWords(config);
    AppendWords(o, g);
    ReadBackAfter(head, o + g);
    assert head + PlayerTerminalOverrides(config) + GiveItems(config.gear) == head + Tail(o + g);
  }

  /** The gear words hold one group of five per item. */
  lemma {:induction false} GearWordsLength(gear: seq<string>)
    ensures |GearWords(gear)| == 5 * |gear|
    ensures forall i :: 0 <= i < |gear| ==> GearWords(gear)[5 * i + 1] == "\"" + gear[i] + "\""
    decreases |gear|
  {
    if |gear| > 0 {
      var init := gear[..|gear| - 1];
      GearWordsLength(init);
      forall i | 0 <= i < |gear|
        ensures GearWords(gear)[5 * i + 1] == "\"" + gear[i] + "\""
      {
        if i < |gear| - 1 {
          assert gear[i] == init[i];
        }
      }
    }
  }

  // ----- spawn validation -----------------------------------------------------

  /** The validation in `spawnTerminal` that stops before any command is built. */
  predicate Rejected(terminalType: string, c: TerminalConfig) {
    || c.skin == ""
    || (terminalType == "mannequin" && c.pose == "")
    || (terminalType == "player-terminal" && c.armor == "")
  }

  /** The commands `spawnTerminal` issues: none when rejected, else the one for the type. */
  function SpawnCommands(terminalType: string, c: TerminalConfig): (r: seq<string>)
    ensures r == [] <==> Rejected(terminalType, c)
    ensures !Rejected(terminalType, c) && terminalType == "mannequin" ==> r == [GenerateMannequinCommand(c)]
    ensures !Rejected(terminalType, c) && terminalType != "mannequin" ==> r == [PlayerTerminalCommand(c)]
  {
    if Rejected(terminalType, c) then []
    else if terminalType == "mannequin" then [GenerateMannequinCommand(c)]
    else [PlayerTerminalCommand(c)]
  }

  /** The defaults a type switch installs always pass validation. */
  lemma DefaultsSpawn(terminalType: string)
    ensures !Rejected(terminalType, DefaultConfig(terminalType))
    ensures terminalType == "mannequin" ==>
      SpawnCommands(terminalType, DefaultConfig(terminalType)) == [MannequinBase]
    ensures terminalType != "mannequin" ==>
      SpawnCommands(terminalType, DefaultConfig(terminalType))
        == [PlayerTerminalBase + " -SkinOverride tek -Armor tek"]
  {
    var c := DefaultConfig(terminalType);
    if terminalType == "mannequin" {
      assert MannequinOptions(c) == "";
      assert GenerateMannequinCommand(c) == MannequinBase + "";
      assert MannequinBase + "" == MannequinBase;
    } else {
      TekOverrides(c);
      var command := PlayerTerminalBase + " -SkinOverride tek -Armor tek";
      assert PlayerTerminalCommand(c) == command + "";
      assert command + "" == command;
    }
  }

  /** The player-terminal defaults override the skin and the armor with "tek". */
  lemma TekOverrides(c: TerminalConfig)
    requires c.skin == "tek" && c.armor == "tek"
    ensures PlayerTerminalOverrides(c) == " -SkinOverride tek -Armor tek"
  {
    assert Opt(true, "-SkinOverride", "tek") + Opt(true, "-Armor", "tek") == " -SkinOverride tek -Armor tek";
  }

  /** The builder's state: the terminal type and the configuration being edited. */
  class TerminalBuilder {
    var terminalType: string
    var currentConfig: TerminalConfig

    constructor ()
      ensures terminalType == "mannequin"
      ensures currentConfig == TerminalConfig("", "", "", "#ffffff", [])
    {
      terminalType := "mannequin";
      currentConfig := TerminalConfig("", "", "", "#ffffff", []);
    }

    /** The skin select's change event. */
    method SetSkin(value: string)
      modifies this
      ensures terminalType == old(terminalType) && currentConfig == old(currentConfig).(skin := value)
    {
      currentConfig := currentConfig.(skin := value);
    }

    /** The pose select's change event. */
    method SetPose(value: string)
      modifies this
      ensures terminalType == old(terminalType) && currentConfig == old(currentConfig).(pose := value)
    {
      currentConfig := currentConfig.(pose := value);
    }

    /** The armor select's change event. */
    method SetArmor(value: string)
      modifies this
      ensures terminalType == old(terminalType) && currentConfig == old(currentConfig).(armor := value)
    {
      currentConfig := currentConfig.(armor := value);
    }

    /** The colour input's change event. */
    method SetColor(value: string)
      modifies this
      ensures terminalType == old(terminalType) && currentConfig == old(currentConfig).(color := value)
    {
      currentConfig := currentConfig.(color := value);
    }

    /** `updateConfigurationForType`: reset the configuration to the type's defaults. */
    method UpdateConfigurationForType()
      modifies this
      ensures terminalType == old(terminalType)
      ensures currentConfig == DefaultConfig(terminalType)
    {
      if terminalType == "mannequin" {
        currentConfig := TerminalConfig("default", "idle", "", "#ffffff", []);
      } else {
        currentConfig := TerminalConfig("tek", "", "tek", "#ffffff", []);
      }
    }

    /** `switchTerminalType` */
    method SwitchTerminalType(newType: string)
      modifies this
      ensures terminalType == newType
      ensures currentConfig == DefaultConfig(newType)
    {
      terminalType := newType;
      UpdateConfigurationForType();
    }

    /** `loadGearPreset`: an unknown key changes nothing; a known one replaces the gear only. */
    method LoadGearPreset(presetKey: string)
      modifies this
      ensures terminalType == old(terminalType)
      ensures presetKey !in GearPresets ==> currentConfig == old(currentConfig)
      ensures presetKey in GearPresets ==>
        currentConfig == old(currentConfig).(gear := GearPresets[presetKey].items)
    {
      if presetKey in GearPresets {
        currentConfig := currentConfig.(gear := GearPresets[presetKey].items);
      }
    }

    /** `spawnTerminal`: validate, then issue the command for the current type. */
    method SpawnTerminal() returns (issued: seq<string>)
      ensures issued == SpawnCommands(terminalType, currentConfig)
    {
      if currentConfig.skin == "" {
        return [];
      }
      if terminalType == "mannequin" && currentConfig.pose == "" {
        return [];
      }
      if terminalType == "player-terminal" && currentConfig.armor == "" {
        return [];
      }
      var command: string;
      if terminalType == "mannequin" {
        command := GenerateMannequinCommand(currentConfig);
      } else {
        command := GeneratePlayerTerminalCommand(currentConfig);
      }
      issued := [command];
    }
  }
}
