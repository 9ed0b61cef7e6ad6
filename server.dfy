/**
 * The server monitor (`ServerMonitor` in assets/js/server.js): the player
 * count, the world-save countdown, and the commands its controls send.
 * Times are whole milliseconds.
 */
module Server {
  import opened Text
  import opened Wrappers
  import opened Clock

  /** A world save is due 15 minutes after the last one. */
  const SaveIntervalMs: nat := 900000

  /** The auto-save interval `toggleAutoSave` sets on the server, in seconds. */
  const AutoSaveSeconds: nat := 900

  // ---------------------------------------------------------------- save countdown

  /** The two fields of the countdown add back up to the whole seconds left. */
  lemma CountdownParts(remainingMs: nat)
    ensures (remainingMs % 60000) / 1000 < 60
    ensures remainingMs / 60000 * 60 + (remainingMs % 60000) / 1000 == remainingMs / 1000
  {
    var m := remainingMs / 60000;
    var rest := remainingMs % 60000;
    var s := rest / 1000;
    var ms := rest % 1000;
    assert remainingMs == m * 60000 + rest;
    assert rest == s * 1000 + ms;
    assert remainingMs == (m * 60 + s) * 1000 + ms;
  }

  /**
   * `updateSaveTimer`'s text: "m:ss" of the whole seconds left while the save
   * is ahead, the seconds zero-padded to two digits, and "Saving..." once it
   * is due.
   */
  function SaveTimerText(remainingMs: int): (r: string)
    ensures remainingMs <= 0 ==> r == "Saving..."
    ensures remainingMs > 0 ==>
              Split(r, ':') == [NatToString(remainingMs / 60000), TwoDigits(remainingMs % 60000 / 1000)]
              && ReadClock(r) == Some(remainingMs / 1000)
  {
    if remainingMs > 0 then
      var minutes := remainingMs / 60000;
      var seconds := (remainingMs % 60000) / 1000;
      CountdownParts(remainingMs);
      ReadMinutesSeconds(minutes, seconds);
      MinutesSeconds(minutes, seconds)
    else
      "Saving..."
  }

  /** Right after a save the countdown shows the same 900 seconds the server's auto-save uses. */
  lemma CountdownMatchesAutoSave()
    ensures ReadClock(SaveTimerText(SaveIntervalMs)) == Some(AutoSaveSeconds)
  {
  }

  // ---------------------------------------------------------------- player count

  /**
   * The player-count step of `updateServerStatus`: below the cap the count
   * moves by `delta` and is clamped to 0..max; at or above the cap it stays.
   */
  function StepPlayers(current: int, max: int, delta: int): (r: int)
    ensures current >= max ==> r == current
    ensures 0 <= current <= max ==> 0 <= r <= max
    ensures current < max && 0 <= current + delta <= max ==> r == current + delta
    ensures current < max && current + delta < 0 ==> r == 0
    ensures current < max && current + delta > max >= 0 ==> r == max
    ensures current < max && current + delta > max && max < 0 ==> r == 0
  {
    if current < max then
      var moved := current + delta;
      var capped := if max < moved then max else moved;
      if capped < 0 then 0 else capped
    else current
  }

  // ---------------------------------------------------------------- controls

  /** `sendBroadcast`'s duration: the field's text, or 10 when it is empty. */
  function DurationText(duration: string): (r: string)
    ensures duration == "" ==> r == "10"
    ensures duration != "" ==> r == duration
  {
    if duration == "" then "10" else duration
  }

  /** `admincheat Broadcast "<message>" <duration>`; `BroadcastReadsBack` says how the server reads it. */
  function BroadcastCommand(message: string, duration: string): string {
    "admincheat Broadcast \"" + message + "\" " + DurationText(duration)
  }

  /** `sendBroadcast`: nothing for an empty message; the message type is not sent. */
  function BroadcastCommands(message: string, duration: string): (r: seq<string>)
    ensures message == "" <==> r == []
    ensures message != "" ==> r == [BroadcastCommand(message, duration)]
  {
    if message == "" then [] else [BroadcastCommand(message, duration)]
  }

  /** The server reads the message back as the quoted field, and the duration after it. */
  lemma BroadcastReadsBack(message: string, duration: string)
    requires Free(message, '"') && Free(duration, '"')
    ensures Split(BroadcastCommand(message, duration), '"')
      == Split("admincheat Broadcast ", '"') + [message, " " + DurationText(duration)]
  {
    var tail := " " + DurationText(duration);
    assert Free(tail, '"') by {
      assert tail[0] == ' ' && tail[1..] == DurationText(duration);
      assert Free(DurationText(duration), '"');
    }
    assert BroadcastCommand(message, duration) == "admincheat Broadcast " + ['"'] + message + ['"'] + tail;
    SplitQuoted("admincheat Broadcast ", message, tail, '"');
    SplitFree(tail, '"');
  }

  /** `toggleAutoSave`: every 900 seconds when enabled, never when disabled. */
  function AutoSaveCommand(enabled: bool): string {
    "admincheat SetAutoSaveInterval " + (if enabled then "900" else "0")
  }

  /** The three limit commands of each performance mode. */
  const PerformanceModes: map<string, seq<string>> := map[
    "performance" := [
      "admincheat SetMaxStructuresInRange 1300",
      "admincheat SetMaxPlatformSaddleStructureLimit 88",
      "admincheat SetMaxPlatformSaddleStructureLimit 88"],
    "balanced" := [
      "admincheat SetMaxStructuresInRange 2000",
      "admincheat SetMaxPlatformSaddleStructureLimit 200",
      "admincheat SetMaxPlatformSaddleStructureLimit 200"],
    "quality" := [
      "admincheat SetMaxStructuresInRange 3000",
      "admincheat SetMaxPlatformSaddleStructureLimit 400",
      "admincheat SetMaxPlatformSaddleStructureLimit 400"]
  ]

  /**
   * `setPerformanceMode`: the three known modes issue their own three
   * commands and any other mode issues none.
   */
  method SetPerformanceMode(mode: string) returns (issued: seq<string>)
    ensures mode in PerformanceModes ==> issued == PerformanceModes[mode] && |issued| == 3
    ensures mode !in PerformanceModes ==> issued == []
  {
    issued := [];
    if mode == "performance" {
      issued := PerformanceModes["performance"];
    } else if mode == "balanced" {
      issued := PerformanceModes["balanced"];
    } else if mode == "quality" {
      issued := PerformanceModes["quality"];
    }
  }

  /** `toggleAutoSave` */
  method ToggleAutoSave(enabled: bool) returns (issued: seq<string>)
    ensures issued == [AutoSaveCommand(enabled)]
  {
    issued := [AutoSaveCommand(enabled)];
  }

  /** `sendBroadcast`; `message` and `duration` are the modal's fields as text. */
  method SendBroadcast(message: string, duration: string) returns (issued: seq<string>)
    ensures issued == BroadcastCommands(message, duration)
  {
    if message == "" {
      return [];
    }
    issued := [BroadcastCommand(message, duration)];
  }

  // ---------------------------------------------------------------- state

  /** The monitored server's counters. */
  class ServerMonitor {
    var maxPlayers: int
    var currentPlayers: int
    var lastSave: int
    var nextSave: int

    /** The shown player count stays between 0 and the cap. */
    predicate Valid()
      reads this
    {
      0 <= currentPlayers <= maxPlayers
    }

    /** `loadServerInfo` at time `now`. */
    constructor (now: int)
      ensures Valid()
      ensures maxPlayers == 70 && currentPlayers == 23
      ensures lastSave == now - 300000 && nextSave == now + SaveIntervalMs
    {
      maxPlayers := 70;
      currentPlayers := 23;
      lastSave := now - 300000;
      nextSave := now + SaveIntervalMs;
    }

    /** The player-count step of `updateServerStatus`, with the random change as `delta`. */
    method UpdatePlayerCount(delta: int)
      modifies this
      ensures currentPlayers == StepPlayers(old(currentPlayers), maxPlayers, delta)
      ensures maxPlayers == old(maxPlayers) && lastSave == old(lastSave) && nextSave == old(nextSave)
      ensures old(Valid()) ==> Valid()
    {
      if currentPlayers < maxPlayers {
        currentPlayers := currentPlayers + delta;
        currentPlayers := if currentPlayers < maxPlayers then currentPlayers else maxPlayers;
        currentPlayers := if currentPlayers > 0 then currentPlayers else 0;
      }
    }

    /** `updateSaveTimer` at time `now`: the text shown, and whether a save starts. */
    method UpdateSaveTimer(now: int) returns (text: string, startsSave: bool)
      ensures text == SaveTimerText(nextSave - now)
      ensures startsSave <==> nextSave <= now
    {
      var timeUntilSave := nextSave - now;
      text := SaveTimerText(timeUntilSave);
      startsSave := timeUntilSave <= 0;
    }

    /** The end of `saveWorld`, at time `now`: the next save is due 15 minutes later. */
    method CompleteSave(now: int)
      modifies this
      ensures lastSave == now && nextSave == now + SaveIntervalMs
      ensures maxPlayers == old(maxPlayers) && currentPlayers == old(currentPlayers)
      ensures Valid() == old(Valid())
    {
      lastSave := now;
      nextSave := now + SaveIntervalMs;
    }
  }
}
