/**
 * The creature spawner (`Spawner` in assets/js/spawner.js): species search
 * and selection, range validation of the spawn form, and the `SpawnDino`
 * command with colour overrides, saddle and mass spawn.
 */
module Spawner {
  import opened Wrappers
  import opened Text
  import opened Lists
  import opened Console
  import opened Palette

  /** A creature record of the game data. */
  datatype Creature = Creature(name: string, blueprint: string, colorRegions: seq<string>)

  /**
   * The spawn form as read from the page. Text fields hold the raw input
   * value, "" when the field is empty or missing; `colors` holds the values
   * of the colour inputs rendered for the selected creature's regions.
   */
  datatype SpawnForm = SpawnForm(
    level: string, massSpawn: bool, quantity: string, distance: string,
    saddle: bool, colors: seq<string>)

  /** `value || fallback` on a text field. */
  function OrDefault(field: string, fallback: string): (r: string)
    ensures field != "" ==> r == field
    ensures field == "" ==> r == fallback
  {
    if field == "" then fallback else field
  }

  /** A `parseInt` result that is a number within `lo..hi`. */
  predicate InRange(p: Option<int>, lo: int, hi: int) {
    p.Some? && lo <= p.value <= hi
  }

  function LevelText(form: SpawnForm): string { OrDefault(form.level, "150") }
  function QuantityText(form: SpawnForm): string { OrDefault(form.quantity, "1") }
  function DistanceText(form: SpawnForm): string { OrDefault(form.distance, "100") }

  /** The three range checks of `spawnDino`; the quantity is checked only for a mass spawn. */
  predicate FormAccepted(form: SpawnForm) {
    && InRange(ParseInt(LevelText(form)), 1, 450)
    && (!form.massSpawn || InRange(ParseInt(QuantityText(form)), 1, 100))
    && InRange(ParseInt(DistanceText(form)), 1, 1000)
  }

  // ----- species --------------------------------------------------------------

  /** `creatures.find(c => c.name === name)` */
  function FindCreature(creatures: seq<Creature>, name: string): (r: Option<Creature>)
    ensures r.None? <==> forall i :: 0 <= i < |creatures| ==> creatures[i].name != name
    ensures r.Some? ==> exists i :: (0 <= i < |creatures| && creatures[i] == r.value
      && creatures[i].name == name
      && forall j :: 0 <= j < i ==> creatures[j].name != name)
  {
    if |creatures| == 0 then None
    else if creatures[0].name == name then
      Some(creatures[0])
    else
      var r := FindCreature(creatures[1..], name);
      if r.Some? then
        var i :| 0 <= i < |creatures[1..]| && creatures[1..][i] == r.value && creatures[1..][i].name == name
          && forall j :: 0 <= j < i ==> creatures[1..][j].name != name;
        assert creatures[i + 1] == r.value;
        assert forall j :: 0 <= j < i + 1 ==> creatures[j].name != name by {
          forall j | 0 <= j < i + 1 ensures creatures[j].name != name {
            if j > 0 { assert creatures[j] == creatures[1..][j - 1]; }
          }
        }
        r
      else
        assert forall i :: 0 <= i < |creatures| ==> creatures[i].name != name by {
          forall i | 0 <= i < |creatures| ensures creatures[i].name != name {
            if i > 0 { assert creatures[i] == creatures[1..][i - 1]; }
          }
        }
        r
  }

  /**
   * `filterSpecies`: the dropdown options left visible, given the option
   * values in order ("" is the placeholder, which is always kept).
   */
  function VisibleSpecies(options: seq<string>, searchTerm: string): (r: seq<string>)
    ensures forall o :: o in r <==> o in options && (o == "" || ContainsIgnoringCase(o, searchTerm))
  {
    Filter(options, o => o == "" || ContainsIgnoringCase(o, searchTerm))
  }

  /** An empty search leaves every option visible, in order. */
  lemma EmptySearchShowsAll(options: seq<string>)
    ensures VisibleSpecies(options, "") == options
  {
    forall o | o in options ensures o == "" || ContainsIgnoringCase(o, "") {
      assert OccursAt(ToLower(o), ToLower(""), 0);
    }
    FilterKeepsAll(options, o => o == "" || ContainsIgnoringCase(o, ""));
  }

  // ----- colour overrides -----------------------------------------------------

  /** Whether a colour input contributes an override: set and not white. */
  predicate Overridden(color: string) { color != "" && color != "#ffffff" }

  /** The override entry `index=colourIndex`. */
  function OverrideEntry(index: nat, color: string): string {
    NatToString(index) + "=" + NatToString(HexToColorIndex(color))
  }

  /** The positions of the inputs that contribute an override, in increasing order. */
  function OverriddenRegions(colors: seq<string>): (r: seq<nat>)
    ensures forall k :: 0 <= k < |r| ==> r[k] < |colors| && Overridden(colors[r[k]])
    ensures forall k, l :: 0 <= k < l < |r| ==> r[k] < r[l]
    ensures forall i :: 0 <= i < |colors| && Overridden(colors[i]) ==> i in r
  {
    if |colors| == 0 then []
    else
      var n := |colors| - 1;
      var rest := OverriddenRegions(colors[..n]);
      assert forall i :: 0 <= i < n ==> colors[..n][i] == colors[i];
      if Overridden(colors[n]) then rest + [n] else rest
  }

  /**
   * The override entries of the colour inputs: one per overridden input,
   * in input order, each naming that input's position.
   */
  function ColorOverrides(colors: seq<string>): (r: seq<string>)
    ensures |r| == |OverriddenRegions(colors)| <= |colors|
    ensures forall k :: 0 <= k < |r| ==>
              r[k] == OverrideEntry(OverriddenRegions(colors)[k], colors[OverriddenRegions(colors)[k]])
    ensures forall i :: 0 <= i < |colors| && Overridden(colors[i]) ==> OverrideEntry(i, colors[i]) in r
    ensures forall e :: e in r ==> exists i :: 0 <= i < |colors| && Overridden(colors[i]) && e == OverrideEntry(i, colors[i])
  {
    if |colors| == 0 then []
    else
      var n := |colors| - 1;
      var rest := ColorOverrides(colors[..n]);
      assert forall i :: 0 <= i < n ==> colors[..n][i] == colors[i];
      if Overridden(colors[n]) then rest + [OverrideEntry(n, colors[n])] else rest
  }

  /** White or empty inputs everywhere give no overrides. */
  lemma {:induction false} NoOverridesWhenWhite(colors: seq<string>)
    requires forall i :: 0 <= i < |colors| ==> !Overridden(colors[i])
    ensures ColorOverrides(colors) == []
  {
    if |colors| > 0 {
      NoOverridesWhenWhite(colors[..|colors| - 1]);
    }
  }

  /** `getColorOverrides`: the loop over the colour inputs. */
  method GetColorOverrides(colors: seq<string>) returns (overrides: seq<string>)
    ensures overrides == ColorOverrides(colors)
  {
    overrides := [];
    for index := 0 to |colors|
      invariant overrides == ColorOverrides(colors[..index])
    {
      assert colors[..index + 1][..index] == colors[..index];
      if Overridden(colors[index]) {
        overrides := overrides + [OverrideEntry(index, colors[index])];
      }
    }
    assert colors[..|colors|] == colors;
  }

  lemma EntryFree(index: nat, color: string)
    ensures |OverrideEntry(index, color)| > 0
    ensures Free(OverrideEntry(index, color), ',') && Free(OverrideEntry(index, color), ' ')
  {
    var a := NatToString(index);
    var b := NatToString(HexToColorIndex(color));
    var e := a + "=" + b;
    forall j | 0 <= j < |e| ensures e[j] != ',' && e[j] != ' ' {
      if j < |a| {
        assert e[j] == a[j];
      } else if j > |a| {
        assert e[j] == b[j - |a| - 1];
      }
    }
  }

  /** An override entry is one word without commas, so the joined list splits back. */
  lemma OverridesSplitBack(colors: seq<string>)
    requires ColorOverrides(colors) != []
    ensures Split(Join(ColorOverrides(colors), ","), ',') == ColorOverrides(colors)
    ensures Word(Join(ColorOverrides(colors), ","))
  {
    var r := ColorOverrides(colors);
    forall k | 0 <= k < |r| ensures Free(r[k], ',') && Free(r[k], ' ') && |r[k]| > 0 {
      assert r[k] in r;
      var i :| 0 <= i < |colors| && Overridden(colors[i]) && r[k] == OverrideEntry(i, colors[i]);
      EntryFree(i, colors[i]);
    }
    SplitJoin(r, ',');
    JoinWord(r, ",");
  }

  /** A join of words free of spaces with a separator free of spaces is free of spaces. */
  lemma {:induction false} JoinWord(parts: seq<string>, sep: string)
    requires |parts| >= 1 && |sep| > 0 && Free(sep, ' ')
    requires forall k :: 0 <= k < |parts| ==> Free(parts[k], ' ') && |parts[k]| > 0
    ensures Word(Join(parts, sep))
  {
    if |parts| > 1 {
      JoinWord(parts[1..], sep);
      var t := Join(parts[1..], sep);
      var s := parts[0] + sep + t;
      assert forall j :: 0 <= j < |s| ==>
        s[j] == (if j < |parts[0]| then parts[0][j] else if j < |parts[0]| + |sep| then sep[j - |parts[0]|] else t[j - |parts[0]| - |sep|]);
    }
  }

  // ----- the command ----------------------------------------------------------

  /** `admincheat SpawnDino "<blueprint>" <distance> 0 0 <level>` from the raw field texts. */
  function SpawnBase(creature: Creature, form: SpawnForm): string {
    "admincheat SpawnDino \"" + creature.blueprint + "\" " + DistanceText(form) + " 0 0 " + LevelText(form)
  }

  /** The colour set and the saddle flag, as they apply. */
  function SpawnOptions(form: SpawnForm): string {
    OptionsText(ColorOverrides(form.colors), form.saddle)
  }

  /** ` -ColorSetOverride a,b,...` when there are overrides, then ` -Saddle` when requested. */
  function OptionsText(overrides: seq<string>, saddle: bool): string {
    Opt(|overrides| > 0, "-ColorSetOverride", Join(overrides, ",")) + Flag(saddle, "-Saddle")
  }

  /** The single spawn command before any mass-spawn copying. */
  function SpawnCommand(creature: Creature, form: SpawnForm): string {
    SpawnBase(creature, form) + SpawnOptions(form)
  }

  /** How many copies a mass spawn joins: the quantity when mass spawn is on and it exceeds 1, else none. */
  function MassCopies(form: SpawnForm): (r: nat)
    ensures var q := ParseInt(QuantityText(form));
            && (r > 0 <==> form.massSpawn && q.Some? && q.value > 1)
            && (r > 0 ==> r == q.value)
  {
    var q := ParseInt(QuantityText(form));
    if form.massSpawn && q.Some? && q.value > 1 then q.value else 0
  }

  /** `n` copies of a command. */
  function Repeat(command: string, n: nat): (r: seq<string>)
    ensures |r| == n && forall i :: 0 <= i < n ==> r[i] == command
  {
    seq(n, _ => command)
  }

  /** `generateSpawnCommand` for a selected creature. */
  function GenerateSpawnCommand(creature: Creature, form: SpawnForm): (r: string)
    ensures MassCopies(form) == 0 ==> r == SpawnCommand(creature, form)
  {
    var command := SpawnCommand(creature, form);
    if MassCopies(form) > 0 then Join(Repeat(command, MassCopies(form)), "\n") else command
  }

  /** The commands `spawnDino` issues: none without a selection or with a rejected form. */
  function SpawnDinoCommands(selected: Option<Creature>, form: SpawnForm): (r: seq<string>)
    ensures r == [] <==> selected.None? || !FormAccepted(form)
    ensures r != [] ==> r == [GenerateSpawnCommand(selected.value, form)]
  {
    if selected.None? || !FormAccepted(form) then [] else [GenerateSpawnCommand(selected.value, form)]
  }

  /** The mass-spawn loop: `quantity` copies of the command. */
  method RepeatCommand(command: string, quantity: nat) returns (commands: seq<string>)
    ensures |commands| == quantity
    ensures forall i :: 0 <= i < quantity ==> commands[i] == command
  {
    commands := [];
    for i := 0 to quantity
      invariant |commands| == i
      invariant forall j :: 0 <= j < i ==> commands[j] == command
    {
      commands := commands + [command];
    }
  }

  /** The option words of a spawn command: the colour set, then the saddle flag, as they apply. */
  function OptionWords(overrides: seq<string>, saddle: bool): seq<string> {
    OptWords(|overrides| > 0, "-ColorSetOverride", Join(overrides, ",")) + FlagWords(saddle, "-Saddle")
  }

  function SpawnOptionWords(form: SpawnForm): seq<string> {
    OptionWords(ColorOverrides(form.colors), form.saddle)
  }

  lemma OptionsTail(present: bool, joined: string, saddle: bool)
    requires present ==> Word(joined)
    ensures AllWords(OptWords(present, "-ColorSetOverride", joined) + FlagWords(saddle, "-Saddle"))
    ensures Tail(OptWords(present, "-ColorSetOverride", joined) + FlagWords(saddle, "-Saddle"))
      == Opt(present, "-ColorSetOverride", joined) + Flag(saddle, "-Saddle")
  {
    var ow := OptWords(present, "-ColorSetOverride", joined);
    var sw := FlagWords(saddle, "-Saddle");
    OptTail(present, "-ColorSetOverride", joined);
    TailAppend(ow, sw);
    assert AllWords(ow) && AllWords(sw);
    AppendWords(ow, sw);
  }

  lemma SpawnOptionsTail(form: SpawnForm)
    ensures AllWords(SpawnOptionWords(form))
    ensures Tail(SpawnOptionWords(form)) == SpawnOptions(form)
  {
    var overrides := ColorOverrides(form.colors);
    if |overrides| > 0 {
      OverridesSplitBack(form.colors);
    }
    OptionsTail(|overrides| > 0, Join(overrides, ","), form.saddle);
  }

  /**
   * The server reads the spawn command as the base's words followed by
   * exactly the colour set and the saddle flag, as they apply, whatever the
   * base holds.
   */
  lemma SpawnCommandReadsBack(creature: Creature, form: SpawnForm)
    ensures Split(SpawnCommand(creature, form), ' ') == Split(SpawnBase(creature, form), ' ') + SpawnOptionWords(form)
  {
    SpawnOptionsTail(form);
    ReadBackAfter(SpawnBase(creature, form), SpawnOptionWords(form));
  }

  /** A mass spawn is read back, line by line, as identical copies of the single command. */
  lemma MassSpawnCopies(creature: Creature, form: SpawnForm)
    requires MassCopies(form) > 0
    requires Free(SpawnCommand(creature, form), '\n')
    ensures Split(GenerateSpawnCommand(creature, form), '\n') == Repeat(SpawnCommand(creature, form), MassCopies(form))
  {
    var copies := Repeat(SpawnCommand(creature, form), MassCopies(form));
    SplitJoin(copies, '\n');
  }

  /**
   * The level that reaches the command is the raw field text, not the value
   * `parseInt` checked: "90 " and "90abc" pass the range check and travel unchanged.
   */
  lemma RawLevelTextReachesCommand(creature: Creature)
    ensures FormAccepted(SpawnForm("90abc", false, "", "", false, []))
    ensures SpawnDinoCommands(Some(creature), SpawnForm("90abc", false, "", "", false, []))
      == ["admincheat SpawnDino \"" + creature.blueprint + "\" " + "100" + " 0 0 " + "90abc"]
  {
    var form := SpawnForm("90abc", false, "", "", false, []);
    ParseNinetyAbc();
    ParseHundred();
    assert LevelText(form) == "90abc" && DistanceText(form) == "100";
    assert FormAccepted(form);
    PlainSpawn(creature, form);
  }

  /** An accepted single spawn without colours or saddle issues the bare base command. */
  lemma PlainSpawn(creature: Creature, form: SpawnForm)
    requires FormAccepted(form) && !form.massSpawn && form.colors == [] && !form.saddle
    ensures SpawnDinoCommands(Some(creature), form) == [SpawnBase(creature, form)]
  {
    PlainCommand(creature, form);
  }

  /** Without mass spawn, colours or saddle the generated command is the base. */
  lemma PlainCommand(creature: Creature, form: SpawnForm)
    requires !form.massSpawn && form.colors == [] && !form.saddle
    ensures GenerateSpawnCommand(creature, form) == SpawnBase(creature, form)
  {
    assert MassCopies(form) == 0;
    NoOptions(form);
    assert SpawnCommand(creature, form) == SpawnBase(creature, form) + "";
  }

  /** No colours and no saddle add nothing to the command. */
  lemma NoOptions(form: SpawnForm)
    requires form.colors == [] && !form.saddle
    ensures SpawnOptions(form) == ""
  {
    assert ColorOverrides(form.colors) == [];
    assert Opt(false, "-ColorSetOverride", Join([], ",")) == "";
    assert Flag(false, "-Saddle") == "";
  }

  lemma ParseNinetyAbc()
    ensures ParseInt("90abc") == Some(90)
  {
    var t := "90abc";
    assert !IsSpace(t[0]) && t[0] != '-' && t[0] != '+';
    assert SkipSpaces(t) == t;
    assert Unsigned(t) == t;
    DigitPrefixNinetyAbc();
    NinetyValue();
  }

  lemma DigitPrefixNinetyAbc()
    ensures DigitPrefix("90abc") == "90"
  {
    var t := "90abc";
    assert t[1..] == "0abc" && t[1..][1..] == "abc";
    assert !IsDigit('a');
    assert DigitPrefix("abc") == "";
    assert DigitPrefix("0abc") == "0";
  }

  lemma NinetyValue()
    ensures AllDigits("90") && DigitsValue("90") == 90
  {
    assert "90"[..1] == "9" && "9"[..0] == "";
  }

  lemma ParseHundred()
    ensures ParseInt("100") == Some(100)
  {
    ParseIntOfIntToString(100);
    HundredSpelling();
  }

  lemma HundredSpelling()
    ensures IntToString(100) == "100"
  {
    assert NatToString(1) == "1";
    assert NatToString(10) == "10";
    assert NatToString(100) == NatToString(10) + [DigitChar(0)];
  }

  /** The spawner's state: the creature list and the selected species. */
  class SpawnerPanel {
    const creatures: seq<Creature>
    var selectedCreature: Option<Creature>

    constructor (creatures0: seq<Creature>)
      ensures creatures == creatures0 && selectedCreature == None
    {
      creatures := creatures0;
      selectedCreature := None;
    }

    /** `selectSpecies`: the first creature with that name, or none. */
    method SelectSpecies(speciesName: string)
      modifies this
      ensures selectedCreature == FindCreature(creatures, speciesName)
    {
      selectedCreature := None;
      var i := 0;
      while i < |creatures|
        invariant 0 <= i <= |creatures|
        invariant FindCreature(creatures, speciesName) == FindCreature(creatures[i..], speciesName)
      {
        if creatures[i].name == speciesName {
          selectedCreature := Some(creatures[i]);
          assert creatures[i..][0] == creatures[i];
          return;
        }
        assert creatures[i..][1..] == creatures[i + 1..];
        i := i + 1;
      }
    }

    /** `spawnDino` */
    method SpawnDino(form: SpawnForm) returns (issued: seq<string>)
      ensures issued == SpawnDinoCommands(selectedCreature, form)
    {
      if selectedCreature.None? {
        return [];
      }
      var level := ParseInt(LevelText(form));
      if level.None? || level.value < 1 || level.value > 450 {
        return [];
      }
      var quantity := ParseInt(QuantityText(form));
      if form.massSpawn && (quantity.None? || quantity.value < 1 || quantity.value > 100) {
        return [];
      }
      var distance := ParseInt(DistanceText(form));
      if distance.None? || distance.value < 1 || distance.value > 1000 {
        return [];
      }
      assert FormAccepted(form);
      var command := GenerateSpawnCommandFor(selectedCreature.value, form);
      issued := [command];
    }
  }

  /** `generateSpawnCommand` with the overrides loop and the mass-spawn loop. */
  method GenerateSpawnCommandFor(creature: Creature, form: SpawnForm) returns (command: string)
    ensures command == GenerateSpawnCommand(creature, form)
  {
    command := BuildSpawnCommand(creature, form);
    var copies := MassCopies(form);
    if copies > 0 {
      var commands := RepeatCommand(command, copies);
      assert commands == Repeat(command, copies);
      command := Join(commands, "\n");
    }
  }

  /** The single command of `generateSpawnCommand`: the base, then the options appended in turn. */
  method BuildSpawnCommand(creature: Creature, form: SpawnForm) returns (command: string)
    ensures command == SpawnCommand(creature, form)
  {
    var overrides := GetColorOverrides(form.colors);
    command := "admincheat SpawnDino \"" + creature.blueprint + "\" " + DistanceText(form) + " 0 0 " + LevelText(form);
    command := AppendSpawnOptions(command, overrides, form.saddle);
  }

  /** The option steps of `generateSpawnCommand`: the colour set when there is one, then the saddle. */
  method AppendSpawnOptions(head: string, overrides: seq<string>, saddle: bool) returns (command: string)
    ensures command == head + OptionsText(overrides, saddle)
  {
    command := head;
    var joined := Join(overrides, ",");
    if |overrides| > 0 {
      command := command + " -ColorSetOverride " + joined;
    }
    ghost var colored := command;
    assert colored == head + Opt(|overrides| > 0, "-ColorSetOverride", joined);
    if saddle {
      command := command + " -Saddle";
    }
    assert command == colored + Flag(saddle, "-Saddle");
  }
}
