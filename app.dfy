/**
 * The dashboard controller (`assets/js/main.js`, class
 * `PlayNexusAdminToolkit`): the recent-command list every module feeds,
 * notifications, keyboard shortcuts, the admin assistant, quick actions and
 * the settings form.
 */
module Dashboard {
  import opened Wrappers
  import opened Text
  import opened Lists

  const MaxRecent := 50
  const ShownRecentCount := 10

  /** The tab order the Ctrl+digit shortcuts index into. */
  const Tabs: seq<string> := ["dashboard", "spawner", "items", "terminals", "map", "commands", "macros", "players", "server", "cinema"]

  const GigaSpawn := "admincheat SpawnDino \"Blueprint'/Game/PrimalEarth/Dinos/Giganotosaurus/Giganotosaurus_Character_BP.Giganotosaurus_Character_BP'\" 500 0 0 120"
  const RexSpawn := "admincheat SpawnDino \"Blueprint'/Game/PrimalEarth/Dinos/Rex/Rex_Character_BP.Rex_Character_BP'\" 500 0 0 120"
  const ArgentSpawn := "admincheat SpawnDino \"Blueprint'/Game/PrimalEarth/Dinos/Argentavis/Argentavis_Character_BP.Argentavis_Character_BP'\" 500 0 0 120"
  const QuetzSpawn := "admincheat SpawnDino \"Blueprint'/Game/PrimalEarth/Dinos/Quetzalcoatlus/Quetz_Character_BP.Quetz_Character_BP'\" 500 0 0 120"
  const GodCommand := "admincheat God"

  // ----- recent commands ------------------------------------------------------------

  /** An entry of `recentCommands`: the command text and the local time it was issued. */
  datatype RecentCommand = RecentCommand(text: string, time: string)

  /**
   * `unshift` then keep the first 50: the new entry comes first, the old
   * entries follow in their order, and the list never grows past 50.
   */
  function Prepend(recent: seq<RecentCommand>, entry: RecentCommand): (r: seq<RecentCommand>)
    ensures |r| == if |recent| + 1 > MaxRecent then MaxRecent else |recent| + 1
    ensures r[0] == entry
    ensures forall i :: 0 < i < |r| ==> r[i] == recent[i - 1]
  {
    var list := [entry] + recent;
    if |list| > MaxRecent then list[..MaxRecent] else list
  }

  /** The recent list after issuing `commands` one after another, all at `time`. */
  function AfterCommands(recent: seq<RecentCommand>, commands: seq<string>, time: string): seq<RecentCommand>
  {
    if |commands| == 0 then recent
    else Prepend(AfterCommands(recent, commands[..|commands| - 1], time), RecentCommand(commands[|commands| - 1], time))
  }

  /**
   * Issuing a batch of commands leaves them at the head of the list, newest
   * first, followed by as much of the old list as fits in 50 entries.
   */
  lemma {:induction false} AfterCommandsNewestFirst(recent: seq<RecentCommand>, commands: seq<string>, time: string)
    requires |recent| <= MaxRecent
    ensures var r := AfterCommands(recent, commands, time);
            && |r| == (if |recent| + |commands| > MaxRecent then MaxRecent else |recent| + |commands|)
            && (forall i :: 0 <= i < |r| && i < |commands| ==> r[i] == RecentCommand(commands[|commands| - 1 - i], time))
            && (forall i :: |commands| <= i < |r| ==> r[i] == recent[i - |commands|])
    decreases |commands|
  {
    if |commands| > 0 {
      var n := |commands|;
      var before := commands[..n - 1];
      AfterCommandsNewestFirst(recent, before, time);
      var r := AfterCommands(recent, commands, time);
      forall i | 0 < i < |r| && i < n ensures r[i] == RecentCommand(commands[n - 1 - i], time) {
        assert before[n - 1 - i] == commands[n - 1 - i];
      }
    }
  }

  /** `updateRecentCommands` renders at most the first ten entries. */
  function ShownRecent(recent: seq<RecentCommand>): (r: seq<RecentCommand>)
    ensures |r| == if |recent| < ShownRecentCount then |recent| else ShownRecentCount
    ensures r == recent[..|r|]
  {
    if |recent| < ShownRecentCount then recent else recent[..ShownRecentCount]
  }

  // ----- notifications ----------------------------------------------------------------

  /** A toast: `id` is `Date.now()` when it was shown. */
  datatype Notification = Notification(id: int, message: string, kind: string)

  /** The success notice `executeCommand` shows for a command. */
  function Executed(command: string, now: int): Notification {
    Notification(now, "Command executed: " + command, "success")
  }

  /** The notices a run of commands shows, one per command in issue order. */
  function Announcements(commands: seq<string>, now: int): (r: seq<Notification>)
    ensures |r| == |commands|
    ensures forall i :: 0 <= i < |commands| ==> r[i] == Executed(commands[i], now)
  {
    seq(|commands|, i requires 0 <= i < |commands| => Executed(commands[i], now))
  }

  /** `notifications.filter(n => n.id !== id)` */
  function Without(notifications: seq<Notification>, id: int): (r: seq<Notification>)
    ensures forall n :: n in r <==> n in notifications && n.id != id
    ensures |r| <= |notifications|
  {
    Filter(notifications, (n: Notification) => n.id != id)
  }

  /** Removing an id from two stretches of the list removes it from each, keeping their order. */
  lemma WithoutKeepsOrder(a: seq<Notification>, b: seq<Notification>, id: int)
    ensures Without(a + b, id) == Without(a, id) + Without(b, id)
  {
    FilterAppend(a, b, (n: Notification) => n.id != id);
  }

  /** Removing an id nobody carries changes nothing. */
  lemma WithoutAbsentId(notifications: seq<Notification>, id: int)
    requires forall n :: n in notifications ==> n.id != id
    ensures Without(notifications, id) == notifications
  {
    FilterKeepsAll(notifications, (n: Notification) => n.id != id);
  }

  // ----- the admin assistant ------------------------------------------------------------

  const GigaReply := "To spawn a Giganotosaurus, use: `" + GigaSpawn + "`"
  const TeleportReply := "To teleport to coordinates, use: `admincheat Teleport X Y Z` or `admincheat TeleportToPlayer PlayerName`"
  const GodReply := "To enable god mode, use: `admincheat God` or `admincheat InfiniteStats`"
  const ClearReply := "To clear your inventory, use: `admincheat DestroyAll \"PrimalItem\"`"
  const TimeReply := "To set time, use: `admincheat SetTimeOfDay Hour` (0-24) or `admincheat SetTimeOfDay 12` for noon"
  const WeatherReply := "To change weather, use: `admincheat SetWeatherIntensity Rain 0` (0-1) or `admincheat SetWeatherIntensity Storm 0`"
  const DefaultReply := "I can help you with ARK admin commands! Try asking about spawning dinos, teleporting, god mode, time/weather control, or any other admin functions."

  /** An assistant rule: it fires when every keyword occurs in the lower-cased message. */
  datatype Rule = Rule(keywords: seq<string>, reply: string)

  /** The assistant's rules in priority order. */
  const AssistantRules: seq<Rule> := [
    Rule(["spawn", "giga"], GigaReply),
    Rule(["teleport"], TeleportReply),
    Rule(["god mode"], GodReply),
    Rule(["clear inventory"], ClearReply),
    Rule(["time"], TimeReply),
    Rule(["weather"], WeatherReply)
  ]

  predicate Fires(rule: Rule, message: string) {
    forall k :: 0 <= k < |rule.keywords| ==> Contains(message, rule.keywords[k])
  }

  lemma FiresOne(rule: Rule, message: string)
    requires |rule.keywords| == 1
    ensures Fires(rule, message) <==> Contains(message, rule.keywords[0])
  {
  }

  /** The reply of the first rule that fires, or the default reply. */
  function FirstReply(rules: seq<Rule>, message: string): string {
    if |rules| == 0 then DefaultReply
    else if Fires(rules[0], message) then rules[0].reply
    else FirstReply(rules[1..], message)
  }

  /** The first rule that fires decides, whatever the later rules say. */
  lemma {:induction false} FirstFiringRuleWins(rules: seq<Rule>, message: string, k: nat)
    requires k < |rules| && Fires(rules[k], message)
    requires forall j :: 0 <= j < k ==> !Fires(rules[j], message)
    ensures FirstReply(rules, message) == rules[k].reply
    decreases k
  {
    if k > 0 {
      assert !Fires(rules[0], message);
      FirstFiringRuleWins(rules[1..], message, k - 1);
    }
  }

  /** With no rule firing the default reply is given. */
  lemma {:induction false} NoRuleFiresGivesDefault(rules: seq<Rule>, message: string)
    requires forall j :: 0 <= j < |rules| ==> !Fires(rules[j], message)
    ensures FirstReply(rules, message) == DefaultReply
  {
    if |rules| > 0 {
      assert !Fires(rules[0], message);
      NoRuleFiresGivesDefault(rules[1..], message);
    }
  }

  /** `generateAssistantResponse`: the if-chain over the lower-cased message. */
  function GenerateAssistantResponse(userMessage: string): (r: string)
    ensures r == FirstReply(AssistantRules, ToLower(userMessage))
  {
    var lower := ToLower(userMessage);
    FirstRules(lower);
    LaterRules(lower);
    if Contains(lower, "spawn") && Contains(lower, "giga") then GigaReply
    else if Contains(lower, "teleport") then TeleportReply
    else if Contains(lower, "god mode") then GodReply
    else if Contains(lower, "clear inventory") then ClearReply
    else if Contains(lower, "time") then TimeReply
    else if Contains(lower, "weather") then WeatherReply
    else DefaultReply
  }

  /** The first three rules of the chain, in order, before the later ones. */
  lemma FirstRules(lower: string)
    ensures FirstReply(AssistantRules, lower) ==
      if Contains(lower, "spawn") && Contains(lower, "giga") then GigaReply
      else if Contains(lower, "teleport") then TeleportReply
      else if Contains(lower, "god mode") then GodReply
      else FirstReply(AssistantRules[3..], lower)
  {
    var rules := AssistantRules;
    assert Fires(rules[0], lower) <==> Contains(lower, "spawn") && Contains(lower, "giga") by {
      assert rules[0].keywords == ["spawn", "giga"];
      assert Fires(rules[0], lower) <==> Contains(lower, rules[0].keywords[0]) && Contains(lower, rules[0].keywords[1]);
    }
    var t1 := rules[1..];
    assert Fires(t1[0], lower) <==> Contains(lower, "teleport") by { assert t1[0].keywords == ["teleport"]; FiresOne(t1[0], lower); }
    var t2 := t1[1..];
    assert Fires(t2[0], lower) <==> Contains(lower, "god mode") by { assert t2[0].keywords == ["god mode"]; FiresOne(t2[0], lower); }
    assert t2[1..] == rules[3..];
    assert FirstReply(t2, lower) == if Fires(t2[0], lower) then GodReply else FirstReply(rules[3..], lower);
    assert FirstReply(t1, lower) == if Fires(t1[0], lower) then TeleportReply else FirstReply(t2, lower);
    assert FirstReply(rules, lower) == if Fires(rules[0], lower) then GigaReply else FirstReply(t1, lower);
  }

  /** The last three rules of the chain, then the default reply. */
  lemma LaterRules(lower: string)
    ensures FirstReply(AssistantRules[3..], lower) ==
      if Contains(lower, "clear inventory") then ClearReply
      else if Contains(lower, "time") then TimeReply
      else if Contains(lower, "weather") then WeatherReply
      else DefaultReply
  {
    var t3 := AssistantRules[3..];
    assert Fires(t3[0], lower) <==> Contains(lower, "clear inventory") by { assert t3[0].keywords == ["clear inventory"]; FiresOne(t3[0], lower); }
    var t4 := t3[1..];
    assert Fires(t4[0], lower) <==> Contains(lower, "time") by { assert t4[0].keywords == ["time"]; FiresOne(t4[0], lower); }
    var t5 := t4[1..];
    assert Fires(t5[0], lower) <==> Contains(lower, "weather") by { assert t5[0].keywords == ["weather"]; FiresOne(t5[0], lower); }
    assert t5[1..] == [];
    assert FirstReply(t5, lower) == if Fires(t5[0], lower) then t5[0].reply else DefaultReply;
  }

  lemma ToLowerIdempotent(s: string)
    ensures ToLower(ToLower(s)) == ToLower(s)
  {
  }

  /** The assistant ignores case: a message and its lower-cased form get the same reply. */
  lemma AssistantIgnoresCase(userMessage: string)
    ensures GenerateAssistantResponse(ToLower(userMessage)) == GenerateAssistantResponse(userMessage)
  {
    ToLowerIdempotent(userMessage);
  }

  // ----- quick actions -----------------------------------------------------------------

  /** `executeQuickAction`'s switch; `None` for an unknown action. */
  function QuickActionCommand(action: string): (r: Option<string>)
    ensures r.Some? <==> action in {"spawn-giga", "teleport-spawn", "clear-inventory", "god-mode"}
  {
    match action
    case "spawn-giga" => Some(GigaSpawn)
    case "teleport-spawn" => Some("admincheat Teleport 0 0 0")
    case "clear-inventory" => Some("admincheat DestroyAll \"PrimalItem\"")
    case "god-mode" => Some(GodCommand)
    case _ => None
  }

  /** `quickSpawn`'s table; `None` for an unknown creature. */
  function QuickSpawnCommand(dinoType: string): (r: Option<string>)
    ensures r.Some? <==> dinoType in {"giga", "rex", "argent", "quetz"}
  {
    match dinoType
    case "giga" => Some(GigaSpawn)
    case "rex" => Some(RexSpawn)
    case "argent" => Some(ArgentSpawn)
    case "quetz" => Some(QuetzSpawn)
    case _ => None
  }

  // ----- settings ----------------------------------------------------------------------

  /** What the settings form holds; `None` is a missing element. */
  datatype SettingsForm = SettingsForm(
    theme: Option<string>,
    notificationsChecked: Option<bool>,
    serverIP: Option<string>,
    adminPassword: Option<string>)

  datatype Settings = Settings(theme: string, notifications: bool, serverIP: string, adminPassword: string)

  /**
   * The object `saveSettings` stores. An empty or missing theme becomes
   * 'dark'; `checked || true` makes the notifications flag true whatever the
   * checkbox says.
   */
  function SettingsFrom(form: SettingsForm): (r: Settings)
    ensures r.notifications
    ensures r.theme == (if form.theme.Some? && form.theme.value != "" then form.theme.value else "dark")
    ensures r.serverIP == form.serverIP.GetOr("") && r.adminPassword == form.adminPassword.GetOr("")
  {
    var theme := if form.theme.Some? && form.theme.value != "" then form.theme.value else "dark";
    var checked := form.notificationsChecked.Some? && form.notificationsChecked.value;
    Settings(theme, checked || true, form.serverIP.GetOr(""), form.adminPassword.GetOr(""))
  }

  // ----- keyboard shortcuts ---------------------------------------------------------------

  /** The parts of a `keydown` event the handler looks at. */
  datatype KeyEvent = KeyEvent(key: string, ctrlKey: bool, metaKey: bool, targetTag: string)

  datatype Action =
    | NoAction
    | CloseModal
    | SaveSettings
    | QuickSpawnMenu
    | TeleportToCursor
    | ToggleGodMode
    | TestModal
    | SwitchTab(tab: string)

  /** `parseInt(key) - 1` into the tab list; `tabs[-1]` and beyond are `undefined`. */
  function TabForDigit(key: string): (r: Option<string>)
    requires |key| == 1 && IsDigit(key[0])
    ensures r.Some? <==> key != "0"
    ensures r.Some? ==> r.value == Tabs[DigitValue(key[0]) - 1]
  {
    var tabIndex := DigitValue(key[0]) - 1;
    if 0 <= tabIndex < |Tabs| then Some(Tabs[tabIndex]) else None
  }

  /** `handleKeyboardShortcuts`: the action a key press selects. */
  function Shortcut(e: KeyEvent, modalOpen: bool): Action {
    if e.targetTag == "INPUT" || e.targetTag == "TEXTAREA" then NoAction
    else if e.key == "Escape" && modalOpen then CloseModal
    else if !(e.ctrlKey || e.metaKey) then NoAction
    else
      var k := ToLower(e.key);
      if k == "s" then SaveSettings
      else if k == "q" then QuickSpawnMenu
      else if k == "t" then TeleportToCursor
      else if k == "g" then ToggleGodMode
      else if k == "m" then TestModal
      else if |k| == 1 && IsDigit(k[0]) then
        var tab := TabForDigit(k);
        if tab.Some? then SwitchTab(tab.value) else NoAction
      else NoAction
  }

  /** Nothing happens while typing in a text field. */
  lemma TypingIsIgnored(e: KeyEvent, modalOpen: bool)
    requires e.targetTag == "INPUT" || e.targetTag == "TEXTAREA"
    ensures Shortcut(e, modalOpen) == NoAction
  {
  }

  /** Ctrl or Meta with digit d in 1..9 switches to the d-th tab; Ctrl+0 does nothing. */
  lemma DigitShortcuts(e: KeyEvent, modalOpen: bool, d: nat)
    requires d < 10 && e.key == [DigitChar(d)]
    requires e.ctrlKey || e.metaKey
    requires e.targetTag != "INPUT" && e.targetTag != "TEXTAREA"
    ensures d == 0 ==> Shortcut(e, modalOpen) == NoAction
    ensures d > 0 ==> Shortcut(e, modalOpen) == SwitchTab(Tabs[d - 1])
  {
    assert ToLower(e.key) == e.key;
  }

  /** The tenth tab, 'cinema', has no shortcut: index -1 from '0' selects nothing. */
  lemma CinemaHasNoShortcut(e: KeyEvent, modalOpen: bool)
    ensures Shortcut(e, modalOpen) != SwitchTab("cinema")
  {
    var k := ToLower(e.key);
    if Shortcut(e, modalOpen).SwitchTab? {
      assert |k| == 1 && IsDigit(k[0]) && k != "0";
      assert 0 <= DigitValue(k[0]) - 1 < 9;
    }
  }

  /** The notice `teleportToCursor` shows. */
  const TeleportNotice := "Teleport to cursor feature - click on map to teleport"

  // ----- the controller -------------------------------------------------------------------

  class Toolkit {
    var currentTab: string
    var recentCommands: seq<RecentCommand>
    var notifications: seq<Notification>
    var modalOpen: bool
    var settings: Option<Settings>

    /** The recent list never holds more than 50 entries. */
    ghost predicate Valid()
      reads this
    {
      |recentCommands| <= MaxRecent
    }

    constructor ()
      ensures Valid()
      ensures currentTab == "dashboard" && recentCommands == [] && notifications == []
      ensures !modalOpen && settings.None?
    {
      currentTab := "dashboard";
      recentCommands := [];
      notifications := [];
      modalOpen := false;
      settings := None;
    }

    /** `showNotification` */
    method ShowNotification(message: string, kind: string, now: int)
      modifies this
      ensures notifications == old(notifications) + [Notification(now, message, kind)]
      ensures currentTab == old(currentTab) && recentCommands == old(recentCommands)
      ensures modalOpen == old(modalOpen) && settings == old(settings)
    {
      notifications := notifications + [Notification(now, message, kind)];
    }

    /** `removeNotification` */
    method RemoveNotification(id: int)
      modifies this
      ensures notifications == Without(old(notifications), id)
      ensures currentTab == old(currentTab) && recentCommands == old(recentCommands)
      ensures modalOpen == old(modalOpen) && settings == old(settings)
    {
      notifications := Without(notifications, id);
    }

    /** `executeCommand`: record the command first in the recent list and announce it. */
    method ExecuteCommand(command: string, time: string, now: int)
      modifies this
      ensures recentCommands == Prepend(old(recentCommands), RecentCommand(command, time))
      ensures notifications == old(notifications) + [Executed(command, now)]
      ensures currentTab == old(currentTab) && modalOpen == old(modalOpen) && settings == old(settings)
      ensures Valid()
    {
      recentCommands := [RecentCommand(command, time)] + recentCommands;
      if |recentCommands| > MaxRecent {
        recentCommands := recentCommands[..MaxRecent];
      }
      ShowNotification("Command executed: " + command, "success", now);
    }

    /** A module issuing several commands in a row through `executeCommand`. */
    method ExecuteAll(commands: seq<string>, time: string, now: int)
      modifies this
      ensures recentCommands == AfterCommands(old(recentCommands), commands, time)
      ensures notifications == old(notifications) + Announcements(commands, now)
      ensures currentTab == old(currentTab) && modalOpen == old(modalOpen) && settings == old(settings)
    {
      for i := 0 to |commands|
        invariant recentCommands == AfterCommands(old(recentCommands), commands[..i], time)
        invariant notifications == old(notifications) + Announcements(commands[..i], now)
        invariant currentTab == old(currentTab) && modalOpen == old(modalOpen) && settings == old(settings)
      {
        assert commands[..i + 1][..i] == commands[..i];
        assert Announcements(commands[..i + 1], now) == Announcements(commands[..i], now) + [Executed(commands[i], now)];
        ExecuteCommand(commands[i], time, now);
      }
      assert commands[..|commands|] == commands;
    }

    /** `executeQuickAction`: an unknown action issues nothing. */
    method ExecuteQuickAction(action: string, time: string, now: int)
      modifies this
      ensures QuickActionCommand(action).Some? ==>
                recentCommands == Prepend(old(recentCommands), RecentCommand(QuickActionCommand(action).value, time))
                && notifications == old(notifications) + [Executed(QuickActionCommand(action).value, now)]
      ensures QuickActionCommand(action).None? ==> recentCommands == old(recentCommands) && notifications == old(notifications)
      ensures currentTab == old(currentTab) && modalOpen == old(modalOpen) && settings == old(settings)
    {
      var command := QuickActionCommand(action);
      if command.Some? {
        ExecuteCommand(command.value, time, now);
      }
    }

    /** `quickSpawn`: a known creature is spawned and the menu closed; an unknown one does nothing. */
    method QuickSpawn(dinoType: string, time: string, now: int)
      modifies this
      ensures QuickSpawnCommand(dinoType).Some? ==>
                recentCommands == Prepend(old(recentCommands), RecentCommand(QuickSpawnCommand(dinoType).value, time))
                && notifications == old(notifications) + [Executed(QuickSpawnCommand(dinoType).value, now)]
                && !modalOpen
      ensures QuickSpawnCommand(dinoType).None? ==>
                recentCommands == old(recentCommands) && notifications == old(notifications) && modalOpen == old(modalOpen)
      ensures currentTab == old(currentTab) && settings == old(settings)
    {
      var command := QuickSpawnCommand(dinoType);
      if command.Some? {
        ExecuteCommand(command.value, time, now);
        modalOpen := false;
      }
    }

    /** `saveSettings`: store the form, announce it and close the modal. */
    method SaveSettingsForm(form: SettingsForm, now: int)
      modifies this
      ensures settings == Some(SettingsFrom(form))
      ensures notifications == old(notifications) + [Notification(now, "Settings saved successfully", "success")]
      ensures !modalOpen && currentTab == old(currentTab) && recentCommands == old(recentCommands)
    {
      settings := Some(SettingsFrom(form));
      ShowNotification("Settings saved successfully", "success", now);
      modalOpen := false;
    }

    /** `handleKeyboardShortcuts`: carry out the action the key press selects. */
    method HandleKeyboardShortcut(e: KeyEvent, form: SettingsForm, time: string, now: int)
      modifies this
      ensures var a := Shortcut(e, old(modalOpen));
              && (a == NoAction ==> currentTab == old(currentTab) && recentCommands == old(recentCommands)
                                    && notifications == old(notifications) && modalOpen == old(modalOpen)
                                    && settings == old(settings))
              && (a.SwitchTab? ==> currentTab == a.tab && recentCommands == old(recentCommands))
              && (!a.SwitchTab? ==> currentTab == old(currentTab))
              && (a == ToggleGodMode ==> recentCommands == Prepend(old(recentCommands), RecentCommand(GodCommand, time)))
              && (a != ToggleGodMode ==> recentCommands == old(recentCommands))
              && (a == CloseModal ==> !modalOpen && notifications == old(notifications))
              && (a == SaveSettings ==> settings == Some(SettingsFrom(form)) && !modalOpen
                                        && notifications == old(notifications) + [Notification(now, "Settings saved successfully", "success")])
              && (a != SaveSettings ==> settings == old(settings))
              && (a == QuickSpawnMenu || a == TestModal ==> modalOpen && notifications == old(notifications))
              && (a == TeleportToCursor ==> modalOpen == old(modalOpen)
                                            && notifications == old(notifications) + [Notification(now, TeleportNotice, "info")])
              && (a == ToggleGodMode ==> modalOpen == old(modalOpen) && notifications == old(notifications) + [Executed(GodCommand, now)])
              && (a.SwitchTab? ==> modalOpen == old(modalOpen) && notifications == old(notifications))
    {
      var action := Shortcut(e, modalOpen);
      match action
      case NoAction =>
      case CloseModal =>
        modalOpen := false;
      case SaveSettings =>
        SaveSettingsForm(form, now);
      case QuickSpawnMenu =>
        modalOpen := true;
      case TeleportToCursor =>
        ShowNotification(TeleportNotice, "info", now);
      case ToggleGodMode =>
        ExecuteCommand(GodCommand, time, now);
      case TestModal =>
        modalOpen := true;
      case SwitchTab(tab) =>
        currentTab := tab;
    }
  }
}
