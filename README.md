# ARK Admin Toolkit: a verified model of its security gate and command builders

This project models in Dafny the core of the ARK Admin Toolkit, an Electron
desktop application for administering ARK: Survival Evolved servers.

The toolkit has two parts:

- **The launch gate.** Before its window opens, the application binds
  itself to one machine with a hardware fingerprint
  (`components/security/hwid.js`). It then checks a manifest of hashes of
  its critical files (`components/security/anti-tamper.js`). `main.js`
  runs these checks in order when the application becomes ready, and
  creates the window on that path only when both pass.
- **The UI modules** under `assets/js/`. The dashboard (`main.js`) keeps the
  recent-command list, notifications, keyboard shortcuts and a keyword-rule
  assistant. Terminals, Spawner, Items, Commands, Macros, Players, Cinema
  and Server turn form fields into `admincheat` console commands.

Each core source file has one Dafny module:

| module | file | source |
|---|---|---|
| `Platform` | `platform.dfy` | the host: JSON values, machine readings, the file system as a class over a path map |
| `Hwid` | `hwid.dfy` | `components/security/hwid.js`: class `HwidManager` |
| `Integrity` | `anti_tamper.dfy` | `components/security/anti-tamper.js`: class `AntiTamper` |
| `Startup` | `startup.dfy` | `main.js`: class `MainProcess` with the two managers as fields |
| `Dashboard` | `app.dfy` | `assets/js/main.js`: class `Toolkit` |
| `Terminals` | `terminals.dfy` | `assets/js/terminals.js`: class `TerminalBuilder` |
| `Spawner` | `spawner.dfy` | `assets/js/spawner.js`: class `SpawnerPanel` |
| `Items` | `items.dfy` | `assets/js/items.js`: class `ItemSpawner` |
| `CommandLibrary` | `commands.dfy` | `assets/js/commands.js`: class `Library` |
| `Macros` | `macros.dfy` | `assets/js/macros.js`: class `MacroEditor` over `MacroCommand` objects |
| `Players` | `players.dfy` | `assets/js/players.js`: class `PlayerPanel` |
| `Cinema` | `cinema.dfy` | `assets/js/cinema.js`: class `CinemaMode` |
| `Server` | `server.dfy` | `assets/js/server.js`: class `ServerMonitor` |

Shared helpers:

- `Wrappers` holds `Option` and `Result`.
- `Text` models the JavaScript string built-ins the code relies on:
  `toLowerCase`, `includes`, `parseInt` (with radix 10, and without a
  radix, where "0x" selects hexadecimal), `padStart`, `join` and `split`.
- `Lists` holds `filter`.
- `Console` describes how the game console splits a command line into words.
- `Palette` holds the shared `hexToColorIndex`.
- `Clock` holds the "m:ss" and "h:mm:ss" displays.

**How the model is shaped.**

- Objects whose fields the source updates are classes. Their methods name
  what they modify and state the whole new state. Each method is tied to a
  specification function, and the lemmas about that function carry the
  properties.
- A UI method returns the commands it hands to `window.app.executeCommand`,
  as `issued`.
- Hashing and the cipher are function-valued fields of a `Primitives`
  record. Nothing is assumed about them. Lemmas that need the cipher to
  round-trip, or the hash to tell two particular texts apart, take that as a
  `requires` (`Sound`, `NoCollision`). `NoCollision` is asked only of the two
  texts a lemma compares, because a digest of fixed length cannot separate
  every pair of texts.

**Read-back lemmas.** Several lemmas say what the game server reads back
from a generated command. The console splits a line on spaces, or on double
quotes for quoted fields. These lemmas state that the split gives exactly
the intended words, as long as the user's values contain no separator.

**Where the code does something a reader may not expect, the model
follows the code:**

- The network-interface names enter the fingerprint in the order the
  system returns them. They are not sorted.
- A missing critical file is left out of the manifest rather than recorded
  as null. So a file that was already missing at enrolment is never
  checked again.
- The fingerprint check runs first and short-circuits. The integrity
  checker is not even created when the fingerprint fails.
- Development mode skips only the integrity check and the debugger probe.
  The fingerprint check still runs.
- The `validate-security` handler as written throws. See "## Findings".
- `hexToColorIndex` maps red to 6, the same as white, because the table
  value 0 is falsy in `colorMap[hex] || 6`. Both modules that call it do
  this, and the model keeps it (`Palette.RedReadsAsWhite`).

## Model

| member | source | states |
|---|---|---|
| Text.ToLower | assets/js/main.js:567 | lower-casing keeps the length, lowers each letter A-Z and leaves no upper-case letter |
| Text.Contains | assets/js/main.js:569 | `includes` holds exactly when the text occurs at some position |
| Text.PadStart2 | assets/js/cinema.js:467 | `padStart(2, '0')` keeps the text at the end and fills the front with zeros up to two characters |
| Text.ParseInt | assets/js/spawner.js:210 | `parseInt` gives NaN exactly when no digit follows the leading whitespace and sign |
| Text.ParseIntSkipsSpaces | assets/js/spawner.js:210 | leading whitespace of every ECMAScript kind (including no-break space, the byte-order mark and line separators) does not change what `parseInt` reads |
| Text.ParseIntOfIntToString | assets/js/spawner.js:210 | `parseInt(…, 10)` reads any written-out integer back as itself |
| Text.ParseIntNoRadix | assets/js/macros.js:163 | `parseInt` without a radix reads as with radix 10, except that "0x"/"0X" after the sign switches to hexadecimal and gives NaN exactly when no hexadecimal digit follows |
| Text.ParseIntNoRadixOfHex | assets/js/macros.js:163 | "0x" followed by hexadecimal digits, then anything that is not one, reads as the digits' value |
| Text.ParseIntNoRadixOfIntToString | assets/js/macros.js:163 | a written-out integer never carries the "0x" mark, so `parseInt` without a radix reads it back as itself |
| Text.SplitJoin | components/security/hwid.js:29 | joining `|`-free parts and splitting on the separator gives the parts back |
| Text.JoinInjective | components/security/hwid.js:29 | joining separator-free parts is one-to-one |
| Lists.Filter | assets/js/items.js:111 | `filter` keeps exactly the elements that pass, and never grows the list |
| Lists.FilterAppend | assets/js/items.js:111 | `filter` keeps order: filtering a concatenation is concatenating the filtered halves |
| Platform.Field | components/security/hwid.js:104 | a record's field is present exactly when the value is an object holding that key, and then it is that key's value |
| Platform.WriteFile | components/security/hwid.js:84 | a write succeeds exactly when the path is writable, and then only that path changes, to the new text |
| Platform.FileSystem.constructor | components/security/hwid.js:4 | the file system starts with the given files and read-only paths |
| Platform.FileSystem.Read | components/security/hwid.js:101 | reading an existing path returns its content (or the unreadable marker) |
| Platform.FileSystem.Write | components/security/hwid.js:84 | the file system afterwards is exactly what `WriteFile` describes, and the write reports success exactly when it is allowed |
| Hwid.Components | components/security/hwid.js:18-27 | the fingerprint is built from exactly eight machine readings |
| Hwid.GenerateHwid | components/security/hwid.js:16-38 | there is no fingerprint exactly when the machine reports no CPU; otherwise it is the SHA-256 of the eight readings joined with `|` |
| Hwid.FingerprintIdentifiesReadings | components/security/hwid.js:29-30 | when the hash does not collide on the two joined readings and no reading holds a `|`, two machines get the same fingerprint exactly when their eight readings agree |
| Hwid.SeparatorCollision | components/security/hwid.js:29 | readings that contain `|` can collide: two different machines can share a fingerprint |
| Hwid.HwidRecord | components/security/hwid.js:69-73 | the stored record holds the fingerprint, the timestamp and version "1.0.0" |
| Hwid.ReadStored | components/security/hwid.js:96-107 | a record counts as present only when its `hwid` field is truthy |
| Hwid.HwidManager.constructor | components/security/hwid.js:8-13 | a new manager has no fingerprint and is not valid |
| Hwid.HwidManager.GetHwid | components/security/hwid.js:139-141 | returns the fingerprint the manager holds |
| Hwid.HwidManager.IsValidHwid | components/security/hwid.js:144-146 | returns the manager's validity flag |
| Hwid.HwidManager.SaveHwid | components/security/hwid.js:67-91 | succeeds exactly when the encrypted record can be written, and then the fingerprint file holds it; on failure nothing changes |
| Hwid.HwidManager.CreateNewHwid | components/security/hwid.js:127-136 | the outcome, new state and files are those of the first-run specification: fingerprint, save, then valid |
| Hwid.HwidManager.LoadHwid | components/security/hwid.js:94-124 | the outcome, state and files are those of the load specification: re-enrol on a missing or invalid record, otherwise compare |
| Hwid.HwidManager.Init | components/security/hwid.js:149-152 | `init` is `loadHWID` |
| Hwid.LoadSuccessMeansThisMachine | components/security/hwid.js:109-114 | a successful load always leaves this machine's own fingerprint held and valid; from the initial state success and validity coincide |
| Hwid.NullFingerprintMismatches | components/security/hwid.js:109-118 | with a stored record and no fingerprint for this machine, loading fails, leaves the files alone and clears validity |
| Hwid.NoFingerprintNeverValid | components/security/hwid.js:109-136 | a machine without a fingerprint never passes, whatever is stored |
| Hwid.MissingOrCorruptRecordReEnrols | components/security/hwid.js:96-107 | a missing or unreadable record is replaced by this machine's record, after which it reads back as this machine's fingerprint |
| Hwid.ReadStoredIgnoresOtherFiles | components/security/hwid.js:101 | writing any other file does not change the stored fingerprint record |
| Hwid.StoredRecordKept | components/security/hwid.js:109-119 | with a record stored, loading never rewrites it, passes exactly when it matches this machine's fingerprint, and on failure only clears validity |
| Hwid.LockedToEnrolledMachine | components/security/hwid.js:94-136 | after a first enrolment a later launch passes exactly when its fingerprint equals the enrolled one |
| Hwid.LockedToEnrolledReadings | components/security/hwid.js:18-30 | when the hash does not collide on the two joined readings and no reading holds a `|`, a later launch passes exactly when its eight readings equal the enrolled machine's |
| Integrity.GenerateFileHash | components/security/anti-tamper.js:16-25 | a file hash exists exactly when the file exists and is readable, and is the SHA-256 of its content |
| Integrity.IntegrityHashes | components/security/anti-tamper.js:28-51 | the manifest holds exactly the critical files that could be hashed, each with its own hash |
| Integrity.IntegrityHashesStep | components/security/anti-tamper.js:41-48 | each step of the loop adds the file's hash when there is one and otherwise leaves the manifest alone |
| Integrity.IntegrityHashesIgnoreOtherFiles | components/security/anti-tamper.js:29-38 | writing a file outside the critical list, such as the manifest itself, does not change the manifest |
| Integrity.HashesJson | components/security/anti-tamper.js:84 | the stored `hashes` object has the manifest's keys, each mapped to its hash as a string |
| Integrity.ManifestRecord | components/security/anti-tamper.js:83-87 | the stored record holds the hashes, the timestamp and version "1.0.0" |
| Integrity.Entries | components/security/anti-tamper.js:126 | the entries iterated are exactly the stored object's key-value pairs |
| Integrity.ReadStored | components/security/anti-tamper.js:110-121 | a manifest counts as present only when its `hashes` field is truthy |
| Integrity.CompareEntries | components/security/anti-tamper.js:123-134 | the check passes exactly when every stored entry equals the current hash of its file |
| Integrity.CompareEach | components/security/anti-tamper.js:126-134 | the loop's flag ends true exactly when every entry matches |
| Integrity.AntiTamper.constructor | components/security/anti-tamper.js:8-13 | a new checker has no hashes and is not valid |
| Integrity.AntiTamper.GenerateIntegrityHashes | components/security/anti-tamper.js:28-51 | returns the manifest of the critical files, merges it into the checker's map and leaves the flag alone |
| Integrity.AntiTamper.SaveIntegrityHashes | components/security/anti-tamper.js:80-105 | outcome, state and files are those of the save specification: hash, encrypt, write |
| Integrity.AntiTamper.VerifyIntegrity | components/security/anti-tamper.js:108-148 | outcome, state and files are those of the verify specification: re-record a missing or invalid manifest, otherwise compare and set the flag |
| Integrity.AntiTamper.Init | components/security/anti-tamper.js:184-203 | outcome, state and files are those of the init specification: development mode passes, a debugger exits with code 1, otherwise verify |
| Integrity.AllMatchOfRecorded | components/security/anti-tamper.js:126-134 | a recorded manifest matches exactly when every recorded file still has the recorded hash |
| Integrity.EnrolmentPasses | components/security/anti-tamper.js:110-113 | with no manifest, verification records one, passes, and the record reads back as the current hashes |
| Integrity.EnrolmentRecordsItsOwnFiles | components/security/anti-tamper.js:80-113 | enrolment changes only the manifest file, and the manifest it writes matches the files as they are afterwards |
| Integrity.VerifyAgainstRecorded | components/security/anti-tamper.js:123-143 | with a manifest stored, verification changes no file, passes exactly when every recorded file is unchanged, and sets the flag to that verdict |
| Integrity.UntouchedInstallationPasses | components/security/anti-tamper.js:108-143 | a second verification of an untouched installation passes and leaves the checker valid |
| Integrity.DeletedFileFails | components/security/anti-tamper.js:126-134 | deleting a recorded file fails verification and clears the flag |
| Integrity.ModifiedFileFails | components/security/anti-tamper.js:126-134 | when the hash tells the new content from the recorded one, changing a recorded file's content fails verification |
| Integrity.UnreadableManifestFails | components/security/anti-tamper.js:115-147 | a manifest that exists but cannot be read fails without touching state or files |
| Integrity.EmptyManifestPasses | components/security/anti-tamper.js:118-143 | an empty `hashes` object is truthy, so it passes without comparing anything |
| Integrity.DevelopmentModeSkipsChecks | components/security/anti-tamper.js:177-192 | in development mode init passes, sets the flag and touches no file |
| Integrity.DebuggerExitsBeforeVerifying | components/security/anti-tamper.js:194-199 | outside development mode a detected debugger exits with code 1 before anything is read or written |
| Startup.Report | main.js:173-182 | the corrected report: each flag is true exactly when its checker exists and is valid, and overall is their conjunction |
| Startup.ReportAsWritten | main.js:173-182 | the report as written fails exactly when an integrity checker exists, and otherwise equals the corrected report |
| Startup.MainProcess.constructor | main.js:10-13 | the process starts with no managers, no dialog, no quit and no window |
| Startup.MainProcess.InitializeSecurity | main.js:15-49 | result, files, both managers' states, dialogs and quit are those of the launch specification: fingerprint first, then integrity, each failure reported and quitting |
| Startup.MainProcess.WhenReady | main.js:97-105 | the window is created exactly when security initialisation returns true |
| Startup.MainProcess.GetHwid | main.js:166-171 | null before the manager exists, otherwise the manager's fingerprint |
| Startup.MainProcess.ValidateSecurityAsWritten | main.js:173-182 | the handler as written throws exactly when an integrity checker exists |
| Startup.MainProcess.ValidateSecurity | main.js:173-182 | the corrected handler reports each checker's flag, false when it is absent, and their conjunction |
| Startup.HwidFailureShortCircuits | main.js:23-28 | a fingerprint failure returns false, shows the hardware dialog, quits and never creates the integrity checker |
| Startup.PassesOnlyWhenBothPass | main.js:15-42 | a launch passes exactly when both checks pass, and then shows no dialog and does not quit |
| Startup.FailureAlwaysReported | main.js:23-39 | every failed launch shows exactly one dialog and quits |
| Startup.FirstLaunchPasses | main.js:15-42 | a clean first launch passes, with a valid fingerprint but the integrity flag still false |
| Startup.FirstLaunchRecords | main.js:15-42 | a clean first launch stores this machine's fingerprint and a manifest of the files as they are afterwards |
| Startup.SecondLaunchPasses | main.js:15-42 | a second launch on the same machine, without a debugger or development mode, passes with both flags valid |
| Startup.ValidateSecurityThrowsOnceCheckerExists | main.js:175 | once an integrity checker exists, the handler as written throws |
| Startup.ValidateSecurityThrowsAfterAnySuccessfulLaunch | main.js:175 | after any successful launch the handler as written throws |
| Dashboard.Prepend | assets/js/main.js:615-623 | the new entry comes first, the older entries follow in order, and the list is cut to 50 |
| Dashboard.AfterCommandsNewestFirst | assets/js/main.js:613-623 | after a run of commands the list holds them newest first, then the older entries, at most 50 in all |
| Dashboard.ShownRecent | assets/js/main.js:477 | the panel shows the first ten entries, or all of them when there are fewer |
| Dashboard.Without | assets/js/main.js:705 | removal keeps exactly the notifications with another id and never grows the list |
| Dashboard.WithoutKeepsOrder | assets/js/main.js:705 | removal is a filter: it keeps the order of what remains |
| Dashboard.WithoutAbsentId | assets/js/main.js:705 | removing an id no notification has changes nothing |
| Dashboard.FiresOne | assets/js/main.js:573-591 | a one-keyword rule fires exactly when the message contains its keyword |
| Dashboard.FirstFiringRuleWins | assets/js/main.js:566-594 | the reply is that of the first rule that fires |
| Dashboard.NoRuleFiresGivesDefault | assets/js/main.js:593 | when no rule fires the reply is the general help text |
| Dashboard.GenerateAssistantResponse | assets/js/main.js:566-594 | the reply is the first firing rule's, over the lower-cased message |
| Dashboard.FirstRules | assets/js/main.js:569-579 | the first three rules: "spawn" with "giga", then "teleport", then "god mode" |
| Dashboard.LaterRules | assets/js/main.js:581-593 | the last three rules: "clear inventory", "time", "weather", then the default |
| Dashboard.ToLowerIdempotent | assets/js/main.js:567 | lower-casing twice is lower-casing once |
| Dashboard.AssistantIgnoresCase | assets/js/main.js:567 | the reply does not depend on the case of the message |
| Dashboard.QuickActionCommand | assets/js/main.js:596-611 | exactly the four known actions issue a command |
| Dashboard.QuickSpawnCommand | assets/js/main.js:929-937 | exactly the four known creatures have a spawn command |
| Dashboard.SettingsFrom | assets/js/main.js:952-959 | notifications always come out true (the `|| true`), the theme defaults to "dark", the address and password to "" |
| Dashboard.TabForDigit | assets/js/main.js:878-893 | digits 1 to 9 pick the tab at that position and 0 picks none |
| Dashboard.TypingIsIgnored | assets/js/main.js:843-845 | no key does anything while typing in an input or a text area |
| Dashboard.DigitShortcuts | assets/js/main.js:878-893 | Ctrl or Cmd with digit d switches to tab d, and 0 does nothing |
| Dashboard.CinemaHasNoShortcut | assets/js/main.js:890-891 | the tenth tab, cinema, cannot be reached by a shortcut |
| Dashboard.Toolkit.constructor | assets/js/main.js:4-8 | the dashboard starts on its own tab with no recent commands or notifications |
| Dashboard.Toolkit.ShowNotification | assets/js/main.js:654-662 | the notification is appended and nothing else changes |
| Dashboard.Toolkit.RemoveNotification | assets/js/main.js:696-706 | the list becomes `Without` the id and nothing else changes |
| Dashboard.Toolkit.ExecuteCommand | assets/js/main.js:613-637 | the command is prepended to the recent list (at most 50 kept) and announced by a success notification |
| Dashboard.Toolkit.ExecuteAll | assets/js/main.js:613-637 | a run of commands leaves the recent list newest first and appends one "Command executed" success notice per command, in issue order |
| Dashboard.Toolkit.ExecuteQuickAction | assets/js/main.js:596-611 | a known action executes its command: it is put first in the recent list and its "Command executed" notice is appended; an unknown one changes nothing |
| Dashboard.Toolkit.QuickSpawn | assets/js/main.js:929-941 | a known creature executes its spawn (recent list and "Command executed" notice) and closes the modal; an unknown one changes nothing |
| Dashboard.Toolkit.SaveSettingsForm | assets/js/main.js:952-964 | the settings are stored, a success notification is shown and the modal closes |
| Dashboard.Toolkit.HandleKeyboardShortcut | assets/js/main.js:841-897 | for each action, the tab, recent list, notices, modal flag and settings it leaves: a tab switch changes only the tab; god mode executes `admincheat God`; save stores the form, notifies and closes; Escape closes; the quick-spawn menu and the test modal open the modal; teleport-to-cursor only appends its info notice; no action changes nothing |
| Palette.HexToColorIndex | assets/js/terminals.js:381-395 | the index is always 1..7: a listed colour (any case) gets its table index, anything else gets 6 |
| Palette.RedReadsAsWhite | assets/js/terminals.js:381-395 | red's index 0 is falsy, so red comes out as 6, the same as white |
| Palette.TableColoursDistinct | assets/js/spawner.js:299-314 | apart from red and white, two listed colours get the same index exactly when they are the same colour |
| Clock.TwoDigits | assets/js/cinema.js:467-470 | a value below 60 is written as exactly two digits that read back as the value |
| Clock.ReadFields | assets/js/cinema.js:461-471 | a text whose `:`-fields are all digits reads back as their base-60 value |
| Clock.ReadMinutesSeconds | assets/js/server.js:213-217 | "m:ss" splits into the minutes and two-digit seconds and reads back as minutes times 60 plus seconds |
| Clock.ReadHoursMinutesSeconds | assets/js/cinema.js:461-471 | "h:mm:ss" splits into its three fields and reads back as the total seconds |
| Terminals.DefaultConfig | assets/js/terminals.js:172-191 | a mannequin resets to skin "default", pose "idle" and no armor; any other type to Tek skin and armor; both white with no gear |
| Terminals.GetItemDisplayName | assets/js/terminals.js:282-303 | a known item id shows its display name, any other id shows itself |
| Terminals.PresetItemsAllNamed | assets/js/terminals.js:282-303 | every item of every gear preset has its own display name |
| Terminals.GeneratePlayerTerminalCommand | assets/js/terminals.js:358-379 | the player-terminal command is the base, then the overrides, then one give-item part per gear item |
| Terminals.AppendPlayerTerminalOptions | assets/js/terminals.js:361-376 | the skin and armor overrides and the gear parts are appended to the base in that order |
| Terminals.AppendGear | assets/js/terminals.js:372-376 | the gear loop appends one give-item part per item, in gear order |
| Terminals.MannequinCommandReadsBack | assets/js/terminals.js:336-356 | the server reads the mannequin command back as the base words and then exactly the skin, pose and colour options that apply |
| Terminals.PlayerTerminalCommandReadsBack | assets/js/terminals.js:358-379 | the server reads the player-terminal command back as the base words, the overrides that apply, then five words per gear item |
| Terminals.OptionsReadBack | assets/js/terminals.js:361-376 | after any head, the appended options read back as exactly the override words and the gear words |
| Terminals.GearWordsLength | assets/js/terminals.js:373-375 | each gear item contributes five words, the second of which is the quoted item |
| Terminals.SpawnCommands | assets/js/terminals.js:305-334 | nothing is issued exactly when the skin, or a mannequin's pose, or a player terminal's armor is missing; otherwise the type's own command |
| Terminals.DefaultsSpawn | assets/js/terminals.js:305-379 | both types' defaults pass validation; the mannequin defaults give the bare base and the player-terminal defaults add the Tek overrides |
| Terminals.TerminalBuilder.constructor | assets/js/terminals.js:3-11 | the builder starts as a mannequin with an empty white configuration |
| Terminals.TerminalBuilder.SetSkin | assets/js/terminals.js:32-34 | only the skin changes |
| Terminals.TerminalBuilder.SetPose | assets/js/terminals.js:39-41 | only the pose changes |
| Terminals.TerminalBuilder.SetArmor | assets/js/terminals.js:46-48 | only the armor changes |
| Terminals.TerminalBuilder.SetColor | assets/js/terminals.js:53-55 | only the colour changes |
| Terminals.TerminalBuilder.UpdateConfigurationForType | assets/js/terminals.js:172-198 | the configuration becomes the current type's defaults |
| Terminals.TerminalBuilder.SwitchTerminalType | assets/js/terminals.js:156-170 | the type changes and the configuration becomes its defaults |
| Terminals.TerminalBuilder.LoadGearPreset | assets/js/terminals.js:200-211 | a known preset replaces the gear with its items; an unknown one changes nothing |
| Terminals.TerminalBuilder.SpawnTerminal | assets/js/terminals.js:305-334 | issues exactly `SpawnCommands` of the current type and configuration |
| Spawner.OrDefault | assets/js/spawner.js:210-227 | an empty field falls back to its default, any other text is kept as typed |
| Spawner.FindCreature | assets/js/spawner.js:145 | none exactly when no creature has that name; otherwise the first creature that does |
| Spawner.VisibleSpecies | assets/js/spawner.js:131-142 | the placeholder stays, and a species stays visible exactly when its name contains the search text, ignoring case |
| Spawner.EmptySearchShowsAll | assets/js/spawner.js:139 | an empty search hides nothing |
| Spawner.OverriddenRegions | assets/js/spawner.js:286-293 | the positions of the colour inputs that are set and not white, strictly increasing, and every such position |
| Spawner.ColorOverrides | assets/js/spawner.js:281-297 | one `index=colour` entry for each region whose colour is set and not white, and no other entries, in input order: the k-th entry names the k-th overridden position |
| Spawner.NoOverridesWhenWhite | assets/js/spawner.js:289 | all-white regions give no overrides |
| Spawner.GetColorOverrides | assets/js/spawner.js:281-297 | the loop collects exactly `ColorOverrides` of the region colours |
| Spawner.OverridesSplitBack | assets/js/spawner.js:261 | the comma-joined overrides form one word that splits back into the same entries |
| Spawner.MassCopies | assets/js/spawner.js:269-275 | copies are made exactly when mass spawn is on and the quantity reads as more than 1, and then there are that many |
| Spawner.GenerateSpawnCommand | assets/js/spawner.js:247-279 | without copies the result is the single spawn command |
| Spawner.SpawnDinoCommands | assets/js/spawner.js:202-245 | nothing is issued exactly when no species is selected or the level, quantity (for a mass spawn) or distance is out of range; otherwise the generated command |
| Spawner.RepeatCommand | assets/js/spawner.js:271-274 | the loop yields exactly `quantity` copies of the command |
| Spawner.SpawnOptionsTail | assets/js/spawner.js:258-267 | the appended options are the colour-set and saddle words that apply |
| Spawner.SpawnCommandReadsBack | assets/js/spawner.js:256-267 | the server reads the command back as the base words followed by exactly the colour-set and saddle words |
| Spawner.MassSpawnCopies | assets/js/spawner.js:270-275 | a mass spawn's text splits on newlines into exactly the requested number of copies of the single command |
| Spawner.RawLevelTextReachesCommand | assets/js/spawner.js:210-256 | the level "90abc" passes validation as 90, yet the command carries the raw text "90abc" |
| Spawner.PlainSpawn | assets/js/spawner.js:202-279 | an accepted form without mass spawn, colours or saddle issues just the base command |
| Spawner.PlainCommand | assets/js/spawner.js:247-278 | without mass spawn, colours or saddle the generated command is the base command |
| Spawner.ParseNinetyAbc | assets/js/spawner.js:210 | `parseInt` reads "90abc" as 90 |
| Spawner.SpawnerPanel.constructor | assets/js/spawner.js:3-9 | the panel starts with the given creatures and nothing selected |
| Spawner.SpawnerPanel.SelectSpecies | assets/js/spawner.js:144-148 | the selection becomes the first creature with that name, or none |
| Spawner.SpawnerPanel.SpawnDino | assets/js/spawner.js:202-245 | issues exactly `SpawnDinoCommands` of the selection and the form |
| Spawner.GenerateSpawnCommandFor | assets/js/spawner.js:247-279 | the loops build exactly `GenerateSpawnCommand` |
| Spawner.BuildSpawnCommand | assets/js/spawner.js:256-267 | the command is the base followed by its options |
| Spawner.AppendSpawnOptions | assets/js/spawner.js:259-267 | the colour set is appended when there is one, then the saddle flag when asked for |
| Items.SearchItems | assets/js/items.js:110-111 | an item is kept exactly when its name contains the search text, ignoring case |
| Items.EmptySearchKeepsAll | assets/js/items.js:111 | an empty search keeps every item |
| Items.SearchKeepsOrder | assets/js/items.js:111 | the search is a filter: it keeps the items' order |
| Items.ItemsInCategory | assets/js/items.js:115-122 | "all" keeps the whole list; any other category keeps exactly the items of that category |
| Items.ArgsTail | assets/js/items.js:184-187 | the arguments after the item id are the quantity, quality, blueprint digit and, when asked for, the stacker flag |
| Items.GiveItemReadsBack | assets/js/items.js:184-187 | the server reads the give command back as its head words followed by exactly those arguments |
| Items.SpawnItemCommands | assets/js/items.js:162-193 | nothing is issued exactly when no item is selected or the quantity or quality is not a number in 1..1000; otherwise one give command with the parsed values |
| Items.BuildGiveItemCommand | assets/js/items.js:184-187 | the steps build exactly `GiveItemCommand` |
| Items.ItemSpawner.constructor | assets/js/items.js:14-16 | the spawner starts with all items shown and nothing selected |
| Items.ItemSpawner.FilterItems | assets/js/items.js:110-113 | the shown list becomes `SearchItems` of all items; nothing else changes |
| Items.ItemSpawner.FilterByCategory | assets/js/items.js:115-122 | the shown list becomes `ItemsInCategory` of all items; nothing else changes |
| Items.ItemSpawner.SelectItem | assets/js/items.js:154-160 | only the selection changes |
| Items.ItemSpawner.SpawnItem | assets/js/items.js:162-193 | issues exactly `SpawnItemCommands` of the selection and the form |
| Items.ItemSpawner.SpawnKit | assets/js/items.js:195-217 | an unknown kit issues nothing; a known kit issues one give command per item, in the kit's order, with quantity 1 and quality 100 |
| Items.ItemSpawner.Refresh | assets/js/items.js:219-223 | reloads the items, shows all of them and clears the selection |
| CommandLibrary.CommandsInCategory | assets/js/commands.js:65-69 | "all" keeps the whole list; any other category keeps exactly the commands of that category |
| CommandLibrary.SearchCommands | assets/js/commands.js:74-87 | a blank search keeps every command; otherwise a command is kept exactly when its name, syntax or description contains the lower-cased term |
| CommandLibrary.SearchIgnoresCase | assets/js/commands.js:78 | two searches that differ only in case find the same commands |
| CommandLibrary.SearchKeepsOrder | assets/js/commands.js:79-83 | the search is a filter: it keeps the commands' order |
| CommandLibrary.FullCommand | assets/js/commands.js:213-216 | without parameters the command is sent as typed; otherwise the parameters follow it after one space |
| CommandLibrary.CommandIsFirstWord | assets/js/commands.js:213-216 | a one-word command is the first word of what is sent, whatever the parameters |
| CommandLibrary.Library.constructor | assets/js/commands.js:3-10 | the library starts with every command shown, nothing selected and empty custom fields |
| CommandLibrary.Library.FilterByCategory | assets/js/commands.js:57-72 | the shown list becomes `CommandsInCategory`; nothing else changes |
| CommandLibrary.Library.Search | assets/js/commands.js:74-87 | the shown list becomes `SearchCommands`; nothing else changes |
| CommandLibrary.Library.SelectCommand | assets/js/commands.js:127-130 | only the selection changes |
| CommandLibrary.Library.EnterCustomCommand | assets/js/commands.js:204-205 | only the custom command and parameter fields change |
| CommandLibrary.Library.ExecuteCustomCommand | assets/js/commands.js:203-223 | an empty command issues nothing and clears nothing; otherwise the full command is issued and both fields are cleared |
| CommandLibrary.Library.Refresh | assets/js/commands.js:225-230 | reloads the commands and shows all of them, keeping the selection |
| CommandLibrary.ExecuteCommand | assets/js/commands.js:195-201 | the syntax is issued unchanged |
| Macros.MacroCommand.constructor | assets/js/macros.js:101-104 | a macro step holds its command and delay |
| Macros.DelayValue | assets/js/macros.js:163 | `parseInt(delay)` without a radix, or 0: a delay that does not parse becomes 0, otherwise the number read, in hexadecimal after "0x" |
| Macros.DelayOfNumber | assets/js/macros.js:163 | a number written out reads back as itself |
| Macros.DelayOfHex | assets/js/macros.js:163 | a "0x" literal is stored as its hexadecimal value |
| Macros.SpliceStart | assets/js/macros.js:168 | `splice`'s start index: kept when in range, counted from the end when negative, clamped to 0..length |
| Macros.RemoveAt | assets/js/macros.js:167-170 | an index in range removes exactly that step; an index at or past the end removes nothing; a negative one on a non-empty list removes the step that many places from the end, or the first step when it reaches past the start |
| Macros.RemoveAtShifts | assets/js/macros.js:168 | the steps before the removed one stay put and those after it move up by one |
| Macros.FindMacro | assets/js/macros.js:198 | -1 exactly when no saved macro has the name; otherwise the first index that does |
| Macros.SaveCheck | assets/js/macros.js:172-189 | saving goes ahead exactly when the name is given, unused and there is a step; a missing name and a duplicate name are each reported |
| Macros.SaveKeepsNamesUnique | assets/js/macros.js:179-202 | appending a macro whose name is unused keeps the saved names distinct |
| Macros.StepActions | assets/js/macros.js:354-370 | each step executes its command, then waits delay times 1000 ms only when the delay is positive |
| Macros.Commands | assets/js/macros.js:354-358 | the commands of a macro, one per step in step order |
| Macros.ExecutedAppend | assets/js/macros.js:354-371 | the commands executed by two runs in a row are those of the first, then those of the second |
| Macros.WaitTimeAppend | assets/js/macros.js:368-370 | the time waited by two runs in a row is the sum of their waits |
| Macros.StepRun | assets/js/macros.js:354-370 | one step executes exactly its own command and waits its delay in ms when positive |
| Macros.ScheduleIssuesAll | assets/js/macros.js:354-371 | a run executes every step's command once, in order, whatever the delays |
| Macros.ScheduleWaits | assets/js/macros.js:368-370 | a run waits 1000 ms times the sum of the positive delays |
| Macros.ExecuteMacro | assets/js/macros.js:348-374 | the loop performs the schedule of the steps, so it executes exactly the macro's commands; an empty macro does nothing |
| Macros.QuickMacrosHaveFiveCommands | assets/js/macros.js:292-336 | every quick macro has five steps |
| Macros.ExecuteQuickMacro | assets/js/macros.js:338-346 | an unknown key does nothing; a known one runs its quick macro, executing five commands |
| Macros.MacroEditor.constructor | assets/js/macros.js:3-8 | the editor starts with no saved macros and an empty current macro |
| Macros.MacroEditor.EnterName | assets/js/macros.js:173 | only the name field changes |
| Macros.MacroEditor.AddCommandToMacro | assets/js/macros.js:97-107 | an empty or cancelled prompt adds nothing; otherwise one new step with delay 0 is appended and the earlier steps are kept |
| Macros.MacroEditor.UpdateCommandDelay | assets/js/macros.js:161-165 | a step in range gets the delay `DelayValue` reads (hexadecimal after "0x") and keeps its command; a saved macro that shares the step object sees the new delay too |
| Macros.MacroEditor.RemoveCommand | assets/js/macros.js:167-170 | the steps become `RemoveAt` of the index; nothing else changes |
| Macros.MacroEditor.ClearCurrentMacro | assets/js/macros.js:242-250 | the current name, steps and name field are emptied; saved macros stay |
| Macros.MacroEditor.SaveMacro | assets/js/macros.js:172-212 | the outcome is `SaveCheck`; a refused save changes nothing; a save appends the macro with its steps and timestamp and clears the editor; distinct names stay distinct |
| Macros.MacroEditor.LoadMacroByName | assets/js/macros.js:279-290 | an unknown name changes nothing; otherwise the first macro with that name becomes current, sharing its step objects |
| Cinema.SettingsCommands | assets/js/cinema.js:372-382 | applying the settings issues five commands: the field of view, then depth of field, motion blur, bloom and vignette as 1 or 0 |
| Cinema.FovReadsBack | assets/js/cinema.js:372-376 | the server reads the field of view back as the last word of its command |
| Cinema.WithLens | assets/js/cinema.js:335-340 | a camera preset sets field of view, depth of field and motion blur and keeps bloom and vignette |
| Cinema.WithLensIdempotent | assets/js/cinema.js:327-351 | loading the same camera preset twice is the same as loading it once |
| Cinema.FormatDuration | assets/js/cinema.js:461-471 | an hour or more is shown as "h:mm:ss", less as "m:ss": the fields are the hours (or minutes) in decimal, then the remaining minutes and seconds each zero-padded to two digits; either display reads back as the same number of seconds |
| Cinema.DurationParts | assets/js/cinema.js:462-466 | hours, minutes and seconds add back up to the duration, minutes stay below 60, and hours are shown exactly from 3600 seconds on |
| Cinema.CinemaMode.constructor | assets/js/cinema.js:3-17 | cinema mode starts inactive, with no scene, the default camera and no recording |
| Cinema.CinemaMode.StopRecording | assets/js/cinema.js:417-435 | stops a running recording with one command and keeps its duration; without one it issues nothing |
| Cinema.CinemaMode.ToggleCinemaMode | assets/js/cinema.js:181-232 | the mode flips; entering issues the four enter commands; leaving issues the four exit commands, stops any recording and issues its stop command |
| Cinema.CinemaMode.StartRecording | assets/js/cinema.js:392-415 | outside cinema mode nothing happens; inside it recording starts from duration 0 with one command |
| Cinema.CinemaMode.Tick | assets/js/cinema.js:403-406 | each second of recording adds one to the duration, and nothing else changes |
| Cinema.CinemaMode.SetCameraFOV | assets/js/cinema.js:251-263 | the field of view is stored and sent only while cinema mode is active |
| Cinema.CinemaMode.SetDepthOfField | assets/js/cinema.js:265-271 | depth of field is stored and sent as 1 or 0 only while active |
| Cinema.CinemaMode.SetMotionBlur | assets/js/cinema.js:273-279 | motion blur is stored and sent as 1 or 0 only while active |
| Cinema.CinemaMode.SetBloom | assets/js/cinema.js:281-287 | bloom is stored and sent as 1 or 0 only while active |
| Cinema.CinemaMode.SetVignette | assets/js/cinema.js:289-295 | vignette is stored and sent as 1 or 0 only while active |
| Cinema.CinemaMode.LoadScenePreset | assets/js/cinema.js:297-325 | an unknown scene changes nothing; a known one becomes current, replaces all five settings and, while active, issues the settings and then the scene's commands |
| Cinema.CinemaMode.LoadCameraPreset | assets/js/cinema.js:327-351 | an unknown preset changes nothing; a known one applies its lens to the settings and, while active, issues the five settings commands |
| Players.PlayerCommand | assets/js/players.js:327-348 | the server reads the player name back as the one quoted field after the `admincheat <verb> ` head |
| Players.WithReason | assets/js/players.js:364-388 | without a reason the command is unchanged; with one, the quoted reason follows after a space |
| Players.ReasonReadsBack | assets/js/players.js:357-395 | the server reads the name and the reason back as the quoted fields, and sees no reason field when none was given |
| Players.GetItemId | assets/js/players.js:443-459 | a name in the table gives its non-empty id; any other name gives null |
| Players.ItemIdsDistinct | assets/js/players.js:445-456 | no two gear names map to the same item |
| Players.FindPlayer | assets/js/players.js:411-412 | none exactly when no player's id reads as the value; otherwise the first player in list order whose id does |
| Players.GiveLinesAreKnownItems | assets/js/players.js:426-431 | the give commands are one per gear item with a known id, in gear order, and nothing else |
| Players.CloneCommands | assets/js/players.js:397-441 | no commands without two different listed players; otherwise the first command clears the target's inventory |
| Players.CloneClearsThenGives | assets/js/players.js:397-441 | an enabled clone clears the target and then gives it exactly one item per known item of the source, in order |
| Players.AppendGiveLines | assets/js/players.js:426-431 | the gear loop appends exactly the give commands for the known items |
| Players.PlayerPanel.constructor | assets/js/players.js:3-10 | the panel starts with the given players, nothing selected and the clone button disabled |
| Players.PlayerPanel.SelectPlayer | assets/js/players.js:179-194 | only the selection changes |
| Players.PlayerPanel.UpdateGearCloner | assets/js/players.js:317-325 | the clone button is disabled exactly when a select is empty or both name the same player |
| Players.PlayerPanel.TeleportToPlayer | assets/js/players.js:327-340 | nothing without a selection; otherwise one teleport-to command for the selected name |
| Players.PlayerPanel.BringPlayer | assets/js/players.js:342-355 | nothing without a selection; otherwise one teleport-player command for the selected name |
| Players.PlayerPanel.KickPlayer | assets/js/players.js:357-375 | nothing without a selection; otherwise one kick command, with the reason when one was entered |
| Players.PlayerPanel.BanPlayer | assets/js/players.js:377-395 | nothing without a selection; otherwise one ban command, with the reason when one was entered |
| Players.PlayerPanel.CloneGear | assets/js/players.js:397-441 | issues exactly `CloneCommands` of the two select values |
| Server.CountdownParts | assets/js/server.js:215-216 | the minutes and seconds shown add back up to the whole seconds left, and the seconds stay below 60 |
| Server.SaveTimerText | assets/js/server.js:207-223 | once the save is due the timer shows "Saving..."; before that it shows "m:ss": the whole minutes left, then the remaining seconds zero-padded to two digits, reading back as the whole seconds left |
| Server.CountdownMatchesAutoSave | assets/js/server.js:310-311 | a worked example of `SaveTimerText`: right after a save the countdown reads 900 seconds, the interval auto-save sets |
| Server.StepPlayers | assets/js/server.js:102-105 | at or above the cap the count stays; below it the count moves by the change and is clamped: exactly the moved count when that is in 0..cap, 0 when it falls below 0, the cap when it passes the cap (0 for a negative cap) |
| Server.DurationText | assets/js/server.js:300 | an empty duration is sent as 10, any other as typed |
| Server.BroadcastCommands | assets/js/server.js:290-305 | an empty message sends nothing; any other sends exactly the one `BroadcastCommand` of the message and the duration (10 when empty), which reads back by `BroadcastReadsBack` |
| Server.BroadcastReadsBack | assets/js/server.js:300 | the server reads the message back as the quoted field and the duration after it |
| Server.SetPerformanceMode | assets/js/server.js:320-354 | each of the three known modes issues its own three limit commands; any other mode issues none |
| Server.ToggleAutoSave | assets/js/server.js:310-318 | one auto-save command: 900 seconds when enabled, 0 when disabled |
| Server.SendBroadcast | assets/js/server.js:290-308 | issues exactly `BroadcastCommands` of the message and duration fields |
| Server.ServerMonitor.constructor | assets/js/server.js:44-62 | the server starts with 23 of 70 players, the last save five minutes ago and the next one 15 minutes ahead |
| Server.ServerMonitor.UpdatePlayerCount | assets/js/server.js:101-105 | the count becomes `StepPlayers` of the old count, stays within 0..cap when it was, and nothing else changes |
| Server.ServerMonitor.UpdateSaveTimer | assets/js/server.js:207-223 | the text is `SaveTimerText` of the time left, and a save starts exactly when it is due |
| Server.ServerMonitor.CompleteSave | assets/js/server.js:249-254 | the last save becomes now and the next one is due 15 minutes later; the player counts stay |

## Left out

- SHA-256, the AES-256-CBC cipher and `JSON.stringify`/`JSON.parse` are foreign calls. They are parameters (`Primitives`). Round-trip and collision freedom are hypotheses of the lemmas that need them, never axioms.
- `os.*`, `process.env`, `process.argv`, `Date.now()` and `process.exit` become fields of the `Host` value. The exit is the `Exited(1)` outcome of `init`. Creating the data directory is folded into the write: a path in `readOnly` fails as `mkdirSync` or `writeFileSync` would throw.
- `detectDebugger` (`components/security/anti-tamper.js:151-174`) spawns `tasklist` or `ps`. Only its answer is modelled, as `Host.debuggerDetected`.
- `components/security/dev-tools-lockout.js` is not part of this model. It is Electron event wiring and timer polling. `createWindow` is modelled only as the `windowCreated` flag.
- Startup.MainProcess.WhenReady: only the `whenReady` path is modelled. The `activate` handler (`main.js:113-117`) calls `createWindow()` without any security check whenever no window is open. On macOS this can happen while `initializeSecurity` is still pending, or after it failed and before the quit takes effect. The model does not promise that a window exists only after the checks pass on that path.
- The save-file, load-file and open-external IPC handlers, dialogs and `preload.js` are Electron plumbing and are left out. A dialog is recorded only as its message, and `app.quit()` only as a flag.
- Startup.MainProcess.InitializeSecurity: the `catch` branch (`main.js:43-48`) is not modelled. Every step it calls already catches its own errors, so nothing reaches it.
- All DOM rendering, sounds, animations, notifications from the `Components` module, the clipboard, the preview modal and localStorage persistence are left out. `window.app` is taken to be present, so every issued command reaches `executeCommand`.
- `setTimeout` and `setInterval` are not modelled. The recording timer is the explicit `Cinema.CinemaMode.Tick`. A world save's completion is the explicit `Server.ServerMonitor.CompleteSave`. Macro delays appear as `Wait` actions in the schedule.
- `assets/js/map.js` is not part of this model. It is canvas drawing with floating-point view transforms and random sample data.
- `assets/js/data.js` and `assets/js/components.js` are not part of this model. The creature, item and command lists they supply are constructor and `Refresh` parameters.
- Server: the random performance metrics and the random online/warning status flip are left out. So are `restartServer` and `shutdownServer` as a whole: their confirmations, status changes, timed notifications and the reset of the player count to 0 (`server.js:238`). The random player change is the `delta` parameter of `UpdatePlayerCount`.
- Server.SendBroadcast: the broadcast type field is read but never sent, so it is not modelled.
- Dashboard.Toolkit.ExecuteCommand: `toLocaleTimeString` and `Date.now()` are parameters (`time`, `now`).
- Spawner.MassCopies: JavaScript's comparison of a field's text with a number (`quantity > 1`, `i < quantity`) is approximated by `parseInt` of the text. A quantity such as "1e1" would be read differently.
- Players.FindPlayer: the loose comparison `p.id == value` is modelled as the id written in decimal being equal to the select's text.
- Players.GetItemId: keys inherited from `Object.prototype` (a gear item named "constructor", say) are not modelled. The lookup sees only the table's own names.
- Terminals.GetItemDisplayName, Terminals.TerminalBuilder.LoadGearPreset, Items.ItemSpawner.SpawnKit, Cinema.CinemaMode.LoadScenePreset, Cinema.CinemaMode.LoadCameraPreset and Dashboard.QuickSpawnCommand: the same holds for their object-literal tables. An inherited key would be found in the source and is not found in the model. Their keys come from fixed buttons, so no such key reaches them.
- Text.ToLower: `toLowerCase` folds every Unicode letter ("É" to "é"), but the model folds only A-Z. The case-insensitive searches built on it (Items.SearchItems, Spawner.VisibleSpecies, CommandLibrary.SearchCommands and Dashboard.GenerateAssistantResponse) can therefore differ from the source on non-ASCII letters. Whitespace is not affected: `IsSpace` is the full ECMAScript set.
- Players.PlayerPanel.KickPlayer: a cancelled prompt (`null`) and an empty answer are both given as "". The same holds for `BanPlayer` and `Macros.MacroEditor.AddCommandToMacro`.
- Macros: `saveMacrosToStorage`, `loadMacrosFromStorage`, `loadSavedMacros`, `refresh` and the prompt-driven `loadMacro` are persistence and dialogs, and are left out. `LoadMacroByName` models the lookup they share.
- Macros.MacroEditor.SaveMacro: the branch that replaces a macro of the same name (`assets/js/macros.js:198-200`) is not modelled. The duplicate check at line 179 returns before it, so it never runs.
- Cinema.CinemaMode.StartRecording: a second start while recording is not guarded in the source, because the button is disabled. The model restarts the duration just as the source does, but does not model the second timer that would then run.
- The read-back lemmas describe the words that follow a command's fixed head. They do not restate how the head itself splits.

## Findings

| source | as written | input that shows it | evidently intended | confidence | as-written member | corrected member |
|---|---|---|---|---|---|---|
| main.js:175 | the handler calls `antiTamper.isValid()`, but the boolean `isValid` field that the constructor sets on the instance (components/security/anti-tamper.js:12) shadows the `isValid()` method of line 206, so the call throws a TypeError and the renderer gets a rejected promise | any launch that passed, for example a clean first launch: `antiTamper` exists, so `validate-security` throws (Startup.ValidateSecurityThrowsAfterAnySuccessfulLaunch) | report the integrity flag, as the fingerprint half does, with `overallValid` as the conjunction | not executed | Startup.MainProcess.ValidateSecurityAsWritten | Startup.MainProcess.ValidateSecurity |
