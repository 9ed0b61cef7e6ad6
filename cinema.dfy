/**
 * Cinema mode (`CinemaMode` in assets/js/cinema.js): entering and leaving
 * the free camera, the camera settings and their presets, and recording.
 */
module Cinema {
  import opened Wrappers
  import opened Text
  import opened Clock

  /** The five camera settings; `fov` is the slider's whole number. */
  datatype CameraSettings = CameraSettings(fov: int, dof: bool, motionBlur: bool, bloom: bool, vignette: bool)

  /** A scene preset replaces every setting and brings its own commands. */
  datatype ScenePreset = ScenePreset(name: string, settings: CameraSettings, commands: seq<string>)

  /** A camera preset sets the lens only: field of view, depth of field and motion blur. */
  datatype CameraPreset = CameraPreset(name: string, fov: int, dof: bool, motionBlur: bool)

  const DefaultSettings := CameraSettings(90, false, false, true, false)

  const ScenePresets: map<string, ScenePreset> := map[
    "action" := ScenePreset("Action Scene", CameraSettings(75, true, true, true, false),
      ["admincheat SetTimeOfDay 12", "admincheat SetWeather 0", "admincheat SetFogDensity 0.1"]),
    "dramatic" := ScenePreset("Dramatic Scene", CameraSettings(60, true, false, false, true),
      ["admincheat SetTimeOfDay 18", "admincheat SetWeather 2", "admincheat SetFogDensity 0.3"]),
    "scenic" := ScenePreset("Scenic View", CameraSettings(90, false, false, true, false),
      ["admincheat SetTimeOfDay 6", "admincheat SetWeather 0", "admincheat SetFogDensity 0.0"]),
    "night" := ScenePreset("Night Scene", CameraSettings(80, true, false, true, true),
      ["admincheat SetTimeOfDay 22", "admincheat SetWeather 0", "admincheat SetFogDensity 0.2"])
  ]

  const CameraPresets: map<string, CameraPreset> := map[
    "wide" := CameraPreset("Wide Angle", 120, false, false),
    "telephoto" := CameraPreset("Telephoto", 45, true, false),
    "cinematic" := CameraPreset("Cinematic", 70, true, true),
    "first-person" := CameraPreset("First Person", 90, false, false)
  ]

  const EnterCommands: seq<string> := [
    "admincheat SetCameraMode 1",
    "admincheat SetShowHUD 0",
    "admincheat SetShowCrosshair 0",
    "admincheat SetShowPlayerNames 0"]

  const ExitCommands: seq<string> := [
    "admincheat SetCameraMode 0",
    "admincheat SetShowHUD 1",
    "admincheat SetShowCrosshair 1",
    "admincheat SetShowPlayerNames 1"]

  // ---------------------------------------------------------------- commands

  function Bit(enabled: bool): string { if enabled then "1" else "0" }

  /** `admincheat <setting> <0|1>` for one of the four switches. */
  function SwitchCommand(setting: string, enabled: bool): string {
    "admincheat " + setting + " " + Bit(enabled)
  }

  function FovCommand(fov: int): string {
    "admincheat SetCameraFOV " + IntToString(fov)
  }

  /** `applyCameraSettings`: one command per setting, in a fixed order. */
  function SettingsCommands(s: CameraSettings): (r: seq<string>)
    ensures |r| == 5 && r[0] == FovCommand(s.fov)
    ensures r[1..] == [SwitchCommand("SetDepthOfField", s.dof), SwitchCommand("SetMotionBlur", s.motionBlur),
      SwitchCommand("SetBloom", s.bloom), SwitchCommand("SetVignette", s.vignette)]
  {
    [FovCommand(s.fov),
     SwitchCommand("SetDepthOfField", s.dof),
     SwitchCommand("SetMotionBlur", s.motionBlur),
     SwitchCommand("SetBloom", s.bloom),
     SwitchCommand("SetVignette", s.vignette)]
  }

  /** The server reads the field of view back from the last word of its command. */
  lemma FovReadsBack(fov: int)
    ensures Split(FovCommand(fov), ' ') == Split("admincheat SetCameraFOV", ' ') + [IntToString(fov)]
    ensures ParseInt(Split(FovCommand(fov), ' ')[|Split(FovCommand(fov), ' ')| - 1]) == Some(fov)
  {
    var n := IntToString(fov);
    assert Free(n, ' ') by {
      if fov < 0 { assert n == "-" + NatToString(-fov); }
    }
    assert FovCommand(fov) == "admincheat SetCameraFOV" + [' '] + n;
    SplitAt("admincheat SetCameraFOV", n, ' ');
    SplitFree(n, ' ');
    ParseIntOfIntToString(fov);
  }

  /** `loadCameraPreset`'s merge: the lens from the preset, bloom and vignette kept. */
  function WithLens(s: CameraSettings, p: CameraPreset): (r: CameraSettings)
    ensures r.bloom == s.bloom && r.vignette == s.vignette
    ensures r.fov == p.fov && r.dof == p.dof && r.motionBlur == p.motionBlur
  {
    s.(fov := p.fov, dof := p.dof, motionBlur := p.motionBlur)
  }

  /** Loading a camera preset twice is the same as loading it once. */
  lemma WithLensIdempotent(s: CameraSettings, p: CameraPreset)
    ensures WithLens(WithLens(s, p), p) == WithLens(s, p)
  {
  }

  // ---------------------------------------------------------------- durations

  /**
   * `formatDuration`: "h:mm:ss" from an hour on, "m:ss" below it, the
   * minutes and seconds after the first field zero-padded to two digits;
   * the display reads back as the same number of seconds.
   */
  function FormatDuration(seconds: nat): (r: string)
    ensures seconds >= 3600 ==>
              Split(r, ':') == [NatToString(seconds / 3600), TwoDigits(seconds % 3600 / 60), TwoDigits(seconds % 60)]
    ensures seconds < 3600 ==> Split(r, ':') == [NatToString(seconds / 60), TwoDigits(seconds % 60)]
    ensures ReadClock(r) == Some(seconds)
  {
    var hours := seconds / 3600;
    var minutes := (seconds % 3600) / 60;
    var secs := seconds % 60;
    DurationParts(seconds);
    if hours > 0 then
      ReadHoursMinutesSeconds(hours, minutes, secs);
      HoursMinutesSeconds(hours, minutes, secs)
    else
      ReadMinutesSeconds(minutes, secs);
      MinutesSeconds(minutes, secs)
  }

  /** The three parts of `formatDuration` add back up to the whole. */
  lemma DurationParts(seconds: nat)
    ensures (seconds % 3600) / 60 < 60
    ensures seconds / 3600 * 3600 + (seconds % 3600) / 60 * 60 + seconds % 60 == seconds
    ensures seconds / 3600 > 0 <==> seconds >= 3600
  {
    var h := seconds / 3600;
    var rest := seconds % 3600;
    var m := rest / 60;
    var sec := rest % 60;
    assert seconds == h * 3600 + rest;
    assert rest == m * 60 + sec;
    assert seconds == (h * 60 + m) * 60 + sec;
    assert seconds % 60 == sec;
  }

  // ---------------------------------------------------------------- state

  /** The cinema panel's state. */
  class CinemaMode {
    var isActive: bool
    var currentScene: Option<string>
    var settings: CameraSettings
    var isRecording: bool
    var duration: nat

    /** Recording happens only in cinema mode: leaving it stops the recording. */
    predicate Valid()
      reads this
    {
      isRecording ==> isActive
    }

    constructor ()
      ensures Valid()
      ensures !isActive && currentScene == None && settings == DefaultSettings
      ensures !isRecording && duration == 0
    {
      isActive := false;
      currentScene := None;
      settings := DefaultSettings;
      isRecording := false;
      duration := 0;
    }

    /** `stopRecording`: a no-op unless recording; the duration is kept for display. */
    method StopRecording() returns (issued: seq<string>)
      modifies this
      ensures !old(isRecording) ==> issued == []
      ensures old(isRecording) ==> issued == ["admincheat StopRecording"]
      ensures !isRecording && duration == old(duration)
      ensures isActive == old(isActive) && settings == old(settings) && currentScene == old(currentScene)
      ensures old(Valid()) ==> Valid()
    {
      if !isRecording {
        return [];
      }
      isRecording := false;
      issued := ["admincheat StopRecording"];
    }

    /**
     * `toggleCinemaMode`: entering issues the four free-camera commands;
     * leaving issues the four restoring ones and stops a recording.
     */
    method ToggleCinemaMode() returns (issued: seq<string>)
      modifies this
      ensures isActive == !old(isActive)
      ensures isActive ==> issued == EnterCommands && isRecording == old(isRecording)
      ensures !isActive ==> (issued == ExitCommands + (if old(isRecording) then ["admincheat StopRecording"] else [])
        && !isRecording)
      ensures settings == old(settings) && currentScene == old(currentScene) && duration == old(duration)
      ensures old(Valid()) ==> Valid()
    {
      isActive := !isActive;
      if isActive {
        issued := EnterCommands;
      } else {
        issued := ExitCommands;
        var stopped := StopRecording();
        issued := issued + stopped;
      }
    }

    /** `startRecording`: refused outside cinema mode; otherwise the count restarts at 0. */
    method StartRecording() returns (issued: seq<string>)
      modifies this
      ensures !old(isActive) ==> issued == [] && isRecording == old(isRecording) && duration == old(duration)
      ensures old(isActive) ==> issued == ["admincheat StartRecording"] && isRecording && duration == 0
      ensures isActive == old(isActive) && settings == old(settings) && currentScene == old(currentScene)
      ensures old(Valid()) ==> Valid()
    {
      if !isActive {
        return [];
      }
      isRecording := true;
      duration := 0;
      issued := ["admincheat StartRecording"];
    }

    /** One second of the recording timer, which runs only while recording. */
    method Tick()
      modifies this
      ensures duration == if old(isRecording) then old(duration) + 1 else old(duration)
      ensures isActive == old(isActive) && isRecording == old(isRecording)
      ensures settings == old(settings) && currentScene == old(currentScene)
    {
      if isRecording {
        duration := duration + 1;
      }
    }

    /** `setCameraFOV`: always stored, sent to the server only in cinema mode. */
    method SetCameraFOV(fov: int) returns (issued: seq<string>)
      modifies this
      ensures settings == old(settings).(fov := fov)
      ensures issued == if isActive then [FovCommand(fov)] else []
      ensures isActive == old(isActive) && isRecording == old(isRecording)
      ensures duration == old(duration) && currentScene == old(currentScene)
    {
      settings := settings.(fov := fov);
      issued := if isActive then [FovCommand(fov)] else [];
    }

    /** `setDepthOfField` */
    method SetDepthOfField(enabled: bool) returns (issued: seq<string>)
      modifies this
      ensures settings == old(settings).(dof := enabled)
      ensures issued == if isActive then [SwitchCommand("SetDepthOfField", enabled)] else []
      ensures isActive == old(isActive) && isRecording == old(isRecording)
      ensures duration == old(duration) && currentScene == old(currentScene)
    {
      settings := settings.(dof := enabled);
      issued := if isActive then [SwitchCommand("SetDepthOfField", enabled)] else [];
    }

    /** `setMotionBlur` */
    method SetMotionBlur(enabled: bool) returns (issued: seq<string>)
      modifies this
      ensures settings == old(settings).(motionBlur := enabled)
      ensures issued == if isActive then [SwitchCommand("SetMotionBlur", enabled)] else []
      ensures isActive == old(isActive) && isRecording == old(isRecording)
      ensures duration == old(duration) && currentScene == old(currentScene)
    {
      settings := settings.(motionBlur := enabled);
      issued := if isActive then [SwitchCommand("SetMotionBlur", enabled)] else [];
    }

    /** `setBloom` */
    method SetBloom(enabled: bool) returns (issued: seq<string>)
      modifies this
      ensures settings == old(settings).(bloom := enabled)
      ensures issued == if isActive then [SwitchCommand("SetBloom", enabled)] else []
      ensures isActive == old(isActive) && isRecording == old(isRecording)
      ensures duration == old(duration) && currentScene == old(currentScene)
    {
      settings := settings.(bloom := enabled);
      issued := if isActive then [SwitchCommand("SetBloom", enabled)] else [];
    }

    /** `setVignette` */
    method SetVignette(enabled: bool) returns (issued: seq<string>)
      modifies this
      ensures settings == old(settings).(vignette := enabled)
      ensures issued == if isActive then [SwitchCommand("SetVignette", enabled)] else []
      ensures isActive == old(isActive) && isRecording == old(isRecording)
      ensures duration == old(duration) && currentScene == old(currentScene)
    {
      settings := settings.(vignette := enabled);
      issued := if isActive then [SwitchCommand("SetVignette", enabled)] else [];
    }

    /**
     * `loadScenePreset`: an unknown key changes nothing; a known one replaces
     * all five settings and records the scene, and in cinema mode sends the
     * settings and then the scene's own commands.
     */
    method LoadScenePreset(key: string) returns (issued: seq<string>)
      modifies this
      ensures key !in ScenePresets ==> issued == [] && settings == old(settings) && currentScene == old(currentScene)
      ensures key in ScenePresets ==> (settings == ScenePresets[key].settings && currentScene == Some(key)
        && issued == (if isActive then SettingsCommands(settings) + ScenePresets[key].commands else []))
      ensures isActive == old(isActive) && isRecording == old(isRecording) && duration == old(duration)
    {
      if key !in ScenePresets {
        return [];
      }
      var preset := ScenePresets[key];
      currentScene := Some(key);
      settings := preset.settings;
      issued := [];
      if isActive {
        issued := SettingsCommands(settings) + preset.commands;
      }
    }

    /**
     * `loadCameraPreset`: an unknown key changes nothing; a known one sets
     * the lens, keeps bloom and vignette, and in cinema mode sends all settings.
     */
    method LoadCameraPreset(key: string) returns (issued: seq<string>)
      modifies this
      ensures key !in CameraPresets ==> issued == [] && settings == old(settings)
      ensures key in CameraPresets ==> (settings == WithLens(old(settings), CameraPresets[key])
        && issued == (if isActive then SettingsCommands(settings) else []))
      ensures isActive == old(isActive) && isRecording == old(isRecording) && duration == old(duration)
      ensures currentScene == old(currentScene)
    {
      if key !in CameraPresets {
        return [];
      }
      var preset := CameraPresets[key];
      settings := settings.(fov := preset.fov, dof := preset.dof, motionBlur := preset.motionBlur);
      issued := if isActive then SettingsCommands(settings) else [];
    }
  }
}
