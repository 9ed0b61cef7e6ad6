/**
 * The macro editor (`Macros` in assets/js/macros.js): a list of commands
 * being built, saved macros, and the run order of a macro with its delays.
 */
module Macros {
  import opened Wrappers
  import opened Text

  /**
   * One command of the macro being edited. It is an object: saving or
   * loading a macro copies the list but shares these objects.
   */
  class MacroCommand {
    var command: string
    var delay: int

    constructor (command: string, delay: int)
      ensures this.command == command && this.delay == delay
    {
      this.command := command;
      this.delay := delay;
    }
  }

  /** A saved macro: its name, the (shared) command objects and the save time. */
  datatype SavedMacro = SavedMacro(name: string, commands: seq<MacroCommand>, timestamp: string)

  /** A command of a built-in quick macro, with its delay in seconds. */
  datatype Step = Step(command: string, delay: int)

  /** What running a macro does, in order: issue a command, or wait some milliseconds. */
  datatype Action = Execute(command: string) | Wait(ms: nat)

  // ---------------------------------------------------------------- editing

  /**
   * `parseInt(delay) || 0`: the number read without a radix (so "0x1A" is
   * 26), or 0 for text that holds none.
   */
  function DelayValue(text: string): (r: int)
    ensures ParseIntNoRadix(text).None? ==> r == 0
    ensures ParseIntNoRadix(text).Some? ==> r == ParseIntNoRadix(text).value
  {
    ParseIntNoRadix(text).GetOr(0)
  }

  /** A typed number round-trips through the delay box. */
  lemma DelayOfNumber(seconds: int)
    ensures DelayValue(IntToString(seconds)) == seconds
  {
    ParseIntNoRadixOfIntToString(seconds);
  }

  /** A hexadecimal literal in the delay box is stored as its value. */
  lemma DelayOfHex(hs: string)
    requires |hs| > 0 && AllHexDigits(hs)
    ensures DelayValue("0x" + hs) == HexValue(hs)
  {
    ParseIntNoRadixOfHex(hs, "");
    assert "0x" + hs + "" == "0x" + hs;
  }

  /**
   * The position `Array.prototype.splice(index, 1)` removes at: a negative
   * index counts from the end and is clamped to 0; `|s|` means nothing goes.
   */
  function SpliceStart(len: nat, index: int): (r: nat)
    ensures r <= len
    ensures 0 <= index <= len ==> r == index
    ensures index > len ==> r == len
    ensures index < 0 && len + index >= 0 ==> r == len + index
    ensures len + index < 0 ==> r == 0
  {
    if index < 0 then (if len + index < 0 then 0 else len + index)
    else if index > len then len
    else index
  }

  /** `splice(index, 1)` on a list. */
  function RemoveAt<T>(s: seq<T>, index: int): (r: seq<T>)
    ensures 0 <= index < |s| ==> r == s[..index] + s[index + 1..]
    ensures index >= |s| ==> r == s
    ensures index < 0 && |s| + index >= 0 ==> r == s[..|s| + index] + s[|s| + index + 1..]
    ensures s != [] && |s| + index < 0 ==> r == s[1..]
    ensures s != [] && index < 0 ==> |r| == |s| - 1
  {
    var start := SpliceStart(|s|, index);
    if start < |s| then s[..start] + s[start + 1..] else s
  }

  /** Removing an entry shifts every later entry down by one place. */
  lemma RemoveAtShifts<T>(s: seq<T>, index: int, j: int)
    requires 0 <= index < |s| && 0 <= j < |s| - 1
    ensures j < index ==> RemoveAt(s, index)[j] == s[j]
    ensures j >= index ==> RemoveAt(s, index)[j] == s[j + 1]
  {
  }

  /** No two saved macros share a name. */
  predicate UniqueNames(macros: seq<SavedMacro>) {
    forall i, j :: 0 <= i < j < |macros| ==> macros[i].name != macros[j].name
  }

  /** `macros.findIndex(m => m.name === name)`: the first index with that name, or -1. */
  function FindMacro(macros: seq<SavedMacro>, name: string): (r: int)
    ensures -1 <= r < |macros|
    ensures r == -1 <==> forall i :: 0 <= i < |macros| ==> macros[i].name != name
    ensures r >= 0 ==> macros[r].name == name && forall i :: 0 <= i < r ==> macros[i].name != name
  {
    if |macros| == 0 then -1
    else if macros[0].name == name then 0
    else
      var r := FindMacro(macros[1..], name);
      if r == -1 then -1 else r + 1
  }

  /** Why `saveMacro` stops, in the order it checks, or `Saved`. */
  datatype SaveOutcome = MissingName | DuplicateName | NoCommands | Saved

  /** The checks of `saveMacro`: a name, a new name, at least one command. */
  function SaveCheck(macros: seq<SavedMacro>, name: string, commandCount: nat): (r: SaveOutcome)
    ensures r == Saved <==> name != "" && FindMacro(macros, name) == -1 && commandCount > 0
    ensures r == MissingName <==> name == ""
    ensures r == DuplicateName <==> name != "" && exists i :: 0 <= i < |macros| && macros[i].name == name
  {
    if name == "" then MissingName
    else if FindMacro(macros, name) != -1 then DuplicateName
    else if commandCount == 0 then NoCommands
    else Saved
  }

  /** Saving under a fresh name keeps the saved names unique. */
  lemma SaveKeepsNamesUnique(macros: seq<SavedMacro>, m: SavedMacro)
    requires UniqueNames(macros) && FindMacro(macros, m.name) == -1
    ensures UniqueNames(macros + [m])
  {
  }

  // ---------------------------------------------------------------- running

  /** The actions for one command: issue it, then wait when its delay is positive. */
  function StepActions(s: Step): (r: seq<Action>)
    ensures |r| >= 1 && r[0] == Execute(s.command)
    ensures s.delay > 0 ==> r == [Execute(s.command), Wait(s.delay * 1000)]
    ensures s.delay <= 0 ==> r == [Execute(s.command)]
  {
    if s.delay > 0 then [Execute(s.command), Wait(s.delay * 1000)] else [Execute(s.command)]
  }

  /** The whole run of `executeMacro`, command by command. */
  function Schedule(steps: seq<Step>): seq<Action>
  {
    if steps == [] then [] else Schedule(steps[..|steps| - 1]) + StepActions(steps[|steps| - 1])
  }

  /** The commands a run issues, ignoring the waits. */
  function Executed(actions: seq<Action>): seq<string>
  {
    if actions == [] then []
    else (if actions[0].Execute? then [actions[0].command] else []) + Executed(actions[1..])
  }

  /** The milliseconds a run spends waiting. */
  function WaitTime(actions: seq<Action>): nat
  {
    if actions == [] then 0
    else (if actions[0].Wait? then actions[0].ms else 0) + WaitTime(actions[1..])
  }

  /** The commands of a macro, in order. */
  function Commands(steps: seq<Step>): (r: seq<string>)
    ensures |r| == |steps| && forall i :: 0 <= i < |steps| ==> r[i] == steps[i].command
  {
    seq(|steps|, i requires 0 <= i < |steps| => steps[i].command)
  }

  /** The seconds of all positive delays. */
  function PositiveDelays(steps: seq<Step>): nat
  {
    if steps == [] then 0
    else PositiveDelays(steps[..|steps| - 1]) + (if steps[|steps| - 1].delay > 0 then steps[|steps| - 1].delay else 0)
  }

  /** The commands of two runs one after the other are those of each, in order. */
  lemma {:induction false} ExecutedAppend(a: seq<Action>, b: seq<Action>)
    ensures Executed(a + b) == Executed(a) + Executed(b)
  {
    if a == [] {
      assert a + b == b;
    } else {
      var head := if a[0].Execute? then [a[0].command] else [];
      assert (a + b)[0] == a[0];
      assert (a + b)[1..] == a[1..] + b;
      assert Executed(a + b) == head + Executed(a[1..] + b);
      ExecutedAppend(a[1..], b);
      assert Executed(a) == head + Executed(a[1..]);
    }
  }

  /** The waiting of two runs one after the other adds up. */
  lemma {:induction false} WaitTimeAppend(a: seq<Action>, b: seq<Action>)
    ensures WaitTime(a + b) == WaitTime(a) + WaitTime(b)
  {
    if a == [] {
      assert a + b == b;
    } else {
      assert (a + b)[0] == a[0];
      assert (a + b)[1..] == a[1..] + b;
      WaitTimeAppend(a[1..], b);
    }
  }

  /** One command's actions issue that command and wait for its positive delay. */
  lemma StepRun(s: Step)
    ensures Executed(StepActions(s)) == [s.command]
    ensures WaitTime(StepActions(s)) == if s.delay > 0 then s.delay * 1000 else 0
  {
    var r := StepActions(s);
    if s.delay > 0 {
      var w := [Wait(s.delay * 1000)];
      assert r[1..] == w;
      assert w[1..] == [];
      assert Executed(w) == [];
      assert WaitTime(w) == s.delay * 1000;
    } else {
      assert r[1..] == [];
    }
  }

  /** A run issues every command of the macro exactly once, in order. */
  lemma {:induction false} ScheduleIssuesAll(steps: seq<Step>)
    ensures Executed(Schedule(steps)) == Commands(steps)
  {
    if steps != [] {
      var init := steps[..|steps| - 1];
      var last := steps[|steps| - 1];
      assert Schedule(steps) == Schedule(init) + StepActions(last);
      ScheduleIssuesAll(init);
      ExecutedAppend(Schedule(init), StepActions(last));
      StepRun(last);
      assert Executed(Schedule(steps)) == Commands(init) + [last.command];
      assert Commands(steps) == Commands(init) + [last.command];
    }
  }

  /** A run waits for exactly the positive delays, a second each time 1000 ms. */
  lemma {:induction false} ScheduleWaits(steps: seq<Step>)
    ensures WaitTime(Schedule(steps)) == 1000 * PositiveDelays(steps)
  {
    if steps != [] {
      var init := steps[..|steps| - 1];
      var last := steps[|steps| - 1];
      assert Schedule(steps) == Schedule(init) + StepActions(last);
      ScheduleWaits(init);
      WaitTimeAppend(Schedule(init), StepActions(last));
      StepRun(last);
    }
  }

  /** `executeMacro`: the run of a macro; nothing for one without commands. */
  method ExecuteMacro(steps: seq<Step>) returns (actions: seq<Action>)
    ensures actions == Schedule(steps)
    ensures Executed(actions) == Commands(steps)
    ensures steps == [] ==> actions == []
  {
    actions := [];
    if |steps| == 0 {
      return;
    }
    for i := 0 to |steps|
      invariant actions == Schedule(steps[..i])
    {
      assert steps[..i + 1][..i] == steps[..i];
      var cmd := steps[i];
      actions := actions + [Execute(cmd.command)];
      if cmd.delay > 0 {
        actions := actions + [Wait(cmd.delay * 1000)];
      }
    }
    assert steps[..|steps|] == steps;
    ScheduleIssuesAll(steps);
  }

  /** The built-in quick macros of `loadQuickMacros`, by key. */
  const QuickMacros: map<string, seq<Step>> := map[
    "wipe-server" := [
      Step("admincheat DestroyAll \"PrimalItem\"", 0),
      Step("admincheat DestroyAll \"PrimalStructure\"", 1),
      Step("admincheat DestroyAll \"PrimalDinoCharacter\"", 1),
      Step("admincheat SetTimeOfDay 12", 1),
      Step("admincheat SetWeatherIntensity Rain 0", 0)],
    "pvp-event" := [
      Step("admincheat SetTimeOfDay 12", 0),
      Step("admincheat SetWeatherIntensity Rain 0", 0),
      Step("admincheat SetPlayerPos 1000 1000 300", 1),
      Step("admincheat GiveItem \"PrimalItem_WeaponTekRifle_C\" 1 1 0", 0),
      Step("admincheat GiveItem \"PrimalItemArmor_TekShirt_C\" 1 1 0", 0)],
    "breeding-event" := [
      Step("admincheat SetTimeOfDay 12", 0),
      Step("admincheat SetWeatherIntensity Rain 0", 0),
      Step("admincheat SetPlayerPos 2000 2000 300", 1),
      Step("admincheat GiveItem \"PrimalItem_Consumable_Kibble_Base_C\" 100 1 0", 0),
      Step("admincheat GiveItem \"PrimalItem_WeaponCryoGun_C\" 1 1 0", 0)],
    "creative-mode" := [
      Step("admincheat God", 0),
      Step("admincheat InfiniteStats", 0),
      Step("admincheat SetPlayerPos 3000 3000 300", 1),
      Step("admincheat GiveItem \"PrimalItem_WeaponTekRifle_C\" 1 1 0", 0),
      Step("admincheat GiveItem \"PrimalItemArmor_TekShirt_C\" 1 1 0", 0)]
  ]

  /** Every quick macro has five commands, so none of them is rejected as empty. */
  lemma QuickMacrosHaveFiveCommands(key: string)
    requires key in QuickMacros
    ensures |QuickMacros[key]| == 5
  {
  }

  /** `executeQuickMacro`: an unknown key runs nothing, a known one runs that macro. */
  method ExecuteQuickMacro(key: string) returns (actions: seq<Action>)
    ensures key !in QuickMacros ==> actions == []
    ensures key in QuickMacros ==> actions == Schedule(QuickMacros[key])
    ensures key in QuickMacros ==> |Executed(actions)| == 5
  {
    if key !in QuickMacros {
      return [];
    }
    QuickMacrosHaveFiveCommands(key);
    actions := ExecuteMacro(QuickMacros[key]);
  }

  // ---------------------------------------------------------------- the editor

  /** The editor's state: saved macros, the macro being built and the name box. */
  class MacroEditor {
    var macros: seq<SavedMacro>
    var currentName: string
    var currentCommands: seq<MacroCommand>
    var nameInput: string

    constructor ()
      ensures macros == [] && currentName == "" && currentCommands == [] && nameInput == ""
    {
      macros := [];
      currentName := "";
      currentCommands := [];
      nameInput := "";
    }

    /** The name box as the user types into it. */
    method EnterName(name: string)
      modifies this
      ensures nameInput == name
      ensures macros == old(macros) && currentName == old(currentName) && currentCommands == old(currentCommands)
    {
      nameInput := name;
    }

    /**
     * `addCommandToMacro`: an empty or cancelled prompt adds nothing;
     * otherwise a new command with delay 0 goes at the end.
     */
    method AddCommandToMacro(entered: string)
      modifies this
      ensures entered == "" ==> currentCommands == old(currentCommands)
      ensures entered != "" ==> (|currentCommands| == |old(currentCommands)| + 1
        && currentCommands[..|old(currentCommands)|] == old(currentCommands)
        && fresh(currentCommands[|old(currentCommands)|])
        && currentCommands[|old(currentCommands)|].command == entered
        && currentCommands[|old(currentCommands)|].delay == 0)
      ensures macros == old(macros) && currentName == old(currentName) && nameInput == old(nameInput)
    {
      if entered == "" {
        return;
      }
      var c := new MacroCommand(entered, 0);
      currentCommands := currentCommands + [c];
    }

    /**
     * `updateCommandDelay`: only an existing entry changes, and its delay
     * becomes the parsed number or 0. The entry is the object itself, so a
     * saved macro sharing it sees the new delay too.
     */
    method UpdateCommandDelay(index: int, delay: string)
      modifies if 0 <= index < |currentCommands| then {currentCommands[index]} else {}
      ensures 0 <= index < |currentCommands| ==>
        currentCommands[index].delay == DelayValue(delay)
        && currentCommands[index].command == old(currentCommands[index].command)
      ensures forall m, j :: (m in macros && 0 <= j < |m.commands| && 0 <= index < |currentCommands|
        && m.commands[j] == currentCommands[index]) ==> m.commands[j].delay == DelayValue(delay)
    {
      if 0 <= index < |currentCommands| {
        currentCommands[index].delay := DelayValue(delay);
      }
    }

    /** `removeCommand`: `splice(index, 1)` on the commands being built. */
    method RemoveCommand(index: int)
      modifies this
      ensures currentCommands == RemoveAt(old(currentCommands), index)
      ensures macros == old(macros) && currentName == old(currentName) && nameInput == old(nameInput)
    {
      var start := SpliceStart(|currentCommands|, index);
      if start < |currentCommands| {
        currentCommands := currentCommands[..start] + currentCommands[start + 1..];
      }
    }

    /** `clearCurrentMacro` */
    method ClearCurrentMacro()
      modifies this
      ensures currentName == "" && currentCommands == [] && nameInput == ""
      ensures macros == old(macros)
    {
      currentName := "";
      currentCommands := [];
      nameInput := "";
    }

    /**
     * `saveMacro`: a missing name, a name already saved or an empty macro
     * leaves everything as it was; otherwise a macro holding the current
     * commands is appended, names stay unique, and the editor is cleared.
     */
    method SaveMacro(timestamp: string) returns (outcome: SaveOutcome)
      modifies this
      ensures outcome == SaveCheck(old(macros), old(nameInput), |old(currentCommands)|)
      ensures outcome != Saved ==> (macros == old(macros) && currentName == old(currentName)
        && currentCommands == old(currentCommands) && nameInput == old(nameInput))
      ensures outcome == Saved ==>
        macros == old(macros) + [SavedMacro(old(nameInput), old(currentCommands), timestamp)]
        && currentName == "" && currentCommands == [] && nameInput == ""
      ensures UniqueNames(old(macros)) ==> UniqueNames(macros)
    {
      var name := nameInput;
      outcome := SaveCheck(macros, name, |currentCommands|);
      if outcome != Saved {
        return;
      }
      var macro := SavedMacro(name, currentCommands, timestamp);
      if UniqueNames(macros) {
        SaveKeepsNamesUnique(macros, macro);
      }
      // A name already in the list was turned away above, so the macro is new.
      macros := macros + [macro];
      ClearCurrentMacro();
    }

    /**
     * `loadMacroByName`: an unknown name changes nothing; a known one puts
     * that macro in the editor, sharing its command objects.
     */
    method LoadMacroByName(name: string)
      modifies this
      ensures FindMacro(old(macros), name) == -1 ==> (currentName == old(currentName)
        && currentCommands == old(currentCommands) && nameInput == old(nameInput))
      ensures FindMacro(old(macros), name) >= 0 ==>
        var m := old(macros)[FindMacro(old(macros), name)];
        currentName == name && nameInput == name && currentCommands == m.commands
      ensures macros == old(macros)
    {
      var i := FindMacro(macros, name);
      if i == -1 {
        return;
      }
      var m := macros[i];
      currentName := m.name;
      currentCommands := m.commands;
      nameInput := m.name;
    }
  }
}
