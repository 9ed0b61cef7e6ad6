/**
 * The Electron main process (`main.js`): the security gate run once the app
 * is ready, the window it guards, and the two security IPC handlers.
 */
module Startup {
  import opened Wrappers
  import opened Platform
  import Hwid
  import Integrity

  const HwidFailureMessage := "Hardware validation failed. This application is locked to a single device."
  const IntegrityFailureMessage := "File integrity verification failed. The application may have been tampered with."

  /**
   * The result of `initializeSecurity`, as a function of the launch: what it
   * returned (or that the process exited), the two managers' fields (the
   * integrity manager is `None` when it was never constructed), the file map,
   * the error dialogs shown and whether `app.quit()` was called.
   */
  datatype Launch = Launch(
    result: InitResult,
    hwid: Hwid.HwidState,
    tamper: Option<Integrity.TamperState>,
    files: map<string, Option<string>>,
    dialogs: seq<string>,
    quit: bool)

  /** `initializeSecurity`: the hardware lock first, then the integrity check, each failure ending the sequence. */
  function LaunchSpec(files: map<string, Option<string>>, readOnly: set<string>, host: Host): Launch {
    var h := Hwid.LoadSpec(Hwid.Initial, files, readOnly, host);
    if !h.ok then Launch(Returned(false), h.state, None, h.files, [HwidFailureMessage], true)
    else
      var t := Integrity.InitSpec(Integrity.Initial, h.files, readOnly, host);
      match t.result
      case Exited(code) => Launch(Exited(code), h.state, Some(t.state), t.files, [], false)
      case Returned(ok) =>
        if ok then Launch(Returned(true), h.state, Some(t.state), t.files, [], false)
        else Launch(Returned(false), h.state, Some(t.state), t.files, [IntegrityFailureMessage], true)
  }

  /** The object the `validate-security` handler returns. */
  datatype SecurityReport = SecurityReport(hwidValid: bool, integrityValid: bool, overallValid: bool)

  /**
   * `validate-security` as its authors meant it: a flag is false when its
   * manager was never constructed, and the overall flag is the conjunction.
   */
  function Report(hwid: Option<Hwid.HwidState>, tamper: Option<Integrity.TamperState>): (r: SecurityReport)
    ensures r.hwidValid <==> hwid.Some? && hwid.value.isValid
    ensures r.integrityValid <==> tamper.Some? && tamper.value.isValid
    ensures r.overallValid <==> r.hwidValid && r.integrityValid
  {
    var hwidValid := hwid.Some? && hwid.value.isValid;
    var integrityValid := tamper.Some? && tamper.value.isValid;
    SecurityReport(hwidValid, integrityValid, hwidValid && integrityValid)
  }

  /**
   * `validate-security` as written: `antiTamper.isValid()` calls the boolean
   * own field that shadows the method, which throws a `TypeError` whenever an
   * integrity manager exists.
   */
  function ReportAsWritten(hwid: Option<Hwid.HwidState>, tamper: Option<Integrity.TamperState>): (r: Result<SecurityReport>)
    ensures r.Err? <==> tamper.Some?
    ensures r.Ok? ==> r.value == Report(hwid, tamper)
  {
    if tamper.Some? then Err("TypeError: antiTamper.isValid is not a function")
    else
      var hwidValid := hwid.Some? && hwid.value.isValid;
      Ok(SecurityReport(hwidValid, false, hwidValid && false))
  }

  /** The module-level state of the main process. */
  class MainProcess {
    var hwidManager: Hwid.HwidManager?
    var antiTamper: Integrity.AntiTamper?
    var dialogs: seq<string>
    var quitCalled: bool
    var windowCreated: bool
    const fs: FileSystem

    constructor (fs: FileSystem)
      ensures hwidManager == null && antiTamper == null
      ensures dialogs == [] && !quitCalled && !windowCreated && this.fs == fs
    {
      hwidManager := null;
      antiTamper := null;
      dialogs := [];
      quitCalled := false;
      windowCreated := false;
      this.fs := fs;
    }

    function HwidState(): Option<Hwid.HwidState>
      reads this, hwidManager
    {
      if hwidManager == null then None else Some(hwidManager.State())
    }

    function TamperState(): Option<Integrity.TamperState>
      reads this, antiTamper
    {
      if antiTamper == null then None else Some(antiTamper.State())
    }

    /** `initializeSecurity` */
    method InitializeSecurity(host: Host) returns (r: InitResult)
      modifies this, fs
      ensures var s := LaunchSpec(old(fs.files), fs.readOnly, host);
              && r == s.result
              && fs.files == s.files
              && HwidState() == Some(s.hwid)
              && (s.tamper.Some? ==> TamperState() == s.tamper)
              && (s.tamper.None? ==> antiTamper == old(antiTamper))
              && dialogs == old(dialogs) + s.dialogs
              && quitCalled == (old(quitCalled) || s.quit)
              && windowCreated == old(windowCreated)
      ensures hwidManager != null && fresh(hwidManager)
      ensures antiTamper != old(antiTamper) ==> antiTamper != null && fresh(antiTamper)
    {
      ghost var files0 := fs.files;
      var manager := new Hwid.HwidManager(fs);
      hwidManager := manager;
      var hwidValid := manager.Init(host);
      ghost var h := Hwid.LoadSpec(Hwid.Initial, files0, fs.readOnly, host);
      assert hwidValid == h.ok && fs.files == h.files && manager.State() == h.state;
      if !hwidValid {
        dialogs := dialogs + [HwidFailureMessage];
        quitCalled := true;
        return Returned(false);
      }
      var checker := new Integrity.AntiTamper(fs);
      antiTamper := checker;
      var integrity := checker.Init(host);
      ghost var t := Integrity.InitSpec(Integrity.Initial, h.files, fs.readOnly, host);
      assert integrity == t.result && checker.State() == t.state && fs.files == t.files;
      if integrity.Exited? {
        return integrity;
      }
      if !integrity.ok {
        dialogs := dialogs + [IntegrityFailureMessage];
        quitCalled := true;
        return Returned(false);
      }
      r := Returned(true);
    }

    /** `app.whenReady().then(...)`: the window is created only when the gate returned true. */
    method WhenReady(host: Host) returns (r: InitResult)
      modifies this, fs
      ensures var s := LaunchSpec(old(fs.files), fs.readOnly, host);
              && r == s.result
              && fs.files == s.files
              && HwidState() == Some(s.hwid)
              && dialogs == old(dialogs) + s.dialogs
              && (windowCreated <==> old(windowCreated) || s.result == Returned(true))
    {
      r := InitializeSecurity(host);
      if r == Returned(true) {
        windowCreated := true;
      }
    }

    /** The `get-hwid` handler: `{hwid: null}` before a manager exists. */
    function GetHwid(): (r: Option<string>)
      reads this, hwidManager
      ensures hwidManager == null ==> r.None?
      ensures hwidManager != null ==> r == hwidManager.hwid
    {
      if hwidManager == null then None else hwidManager.GetHwid()
    }

    /** The `validate-security` handler as written. */
    function ValidateSecurityAsWritten(): (r: Result<SecurityReport>)
      reads this, hwidManager, antiTamper
      ensures r.Err? <==> antiTamper != null
      ensures r.Ok? ==> r.value == Report(HwidState(), None)
    {
      ReportAsWritten(HwidState(), TamperState())
    }

    /** The `validate-security` handler with the integrity flag read as a field. */
    function ValidateSecurity(): (r: SecurityReport)
      reads this, hwidManager, antiTamper
      ensures r.hwidValid <==> hwidManager != null && hwidManager.isValid
      ensures r.integrityValid <==> antiTamper != null && antiTamper.isValid
      ensures r.overallValid <==> r.hwidValid && r.integrityValid
    {
      Report(HwidState(), TamperState())
    }
  }

  // ----- properties of the gate -----------------------------------------------------

  /**
   * A failed hardware check shows its dialog, quits and returns false, and
   * the integrity manager is never constructed, so its files stay untouched.
   */
  lemma HwidFailureShortCircuits(files: map<string, Option<string>>, readOnly: set<string>, host: Host)
    requires !Hwid.LoadSpec(Hwid.Initial, files, readOnly, host).ok
    ensures var s := LaunchSpec(files, readOnly, host);
            && s.result == Returned(false)
            && s.tamper.None?
            && s.files == Hwid.LoadSpec(Hwid.Initial, files, readOnly, host).files
            && s.dialogs == [HwidFailureMessage] && s.quit
  {
  }

  /** The gate returns true exactly when both checks returned true, and then shows nothing and does not quit. */
  lemma PassesOnlyWhenBothPass(files: map<string, Option<string>>, readOnly: set<string>, host: Host)
    ensures var h := Hwid.LoadSpec(Hwid.Initial, files, readOnly, host);
            var s := LaunchSpec(files, readOnly, host);
            (s.result == Returned(true)) <==>
            (h.ok && Integrity.InitSpec(Integrity.Initial, h.files, readOnly, host).result == Returned(true))
    ensures var s := LaunchSpec(files, readOnly, host);
            s.result == Returned(true) ==> s.dialogs == [] && !s.quit
  {
  }

  /** Every `Returned(false)` comes with exactly one error dialog and a quit. */
  lemma FailureAlwaysReported(files: map<string, Option<string>>, readOnly: set<string>, host: Host)
    ensures var s := LaunchSpec(files, readOnly, host);
            s.result == Returned(false) ==> |s.dialogs| == 1 && s.quit
  {
  }

  /** A clean first launch: both records are missing and writable. */
  predicate CleanInstall(files: map<string, Option<string>>, readOnly: set<string>, host: Host) {
    && Hwid.HwidFile !in files && Hwid.HwidFile !in readOnly
    && Integrity.IntegrityFile !in files && Integrity.IntegrityFile !in readOnly
    && |host.machine.cpuModels| > 0
    && !Integrity.IsDevelopmentMode(host) && !host.debuggerDetected
  }

  /**
   * With sound primitives, a clean first launch passes the gate; because the
   * enrolment path never assigns `isValid`, the security report then calls
   * the integrity check invalid.
   */
  lemma FirstLaunchPasses(files: map<string, Option<string>>, readOnly: set<string>, host: Host)
    requires Sound(host.crypto)
    requires CleanInstall(files, readOnly, host)
    ensures var s := LaunchSpec(files, readOnly, host);
            && s.result == Returned(true)
            && !Report(Some(s.hwid), s.tamper).integrityValid
            && Report(Some(s.hwid), s.tamper).hwidValid
  {
    Hwid.MissingOrCorruptRecordReEnrols(Hwid.Initial, files, readOnly, host);
    var h := Hwid.LoadSpec(Hwid.Initial, files, readOnly, host);
    assert Integrity.IntegrityFile in h.files <==> Integrity.IntegrityFile in files;
    Integrity.EnrolmentPasses(Integrity.Initial, h.files, readOnly, host);
  }

  /**
   * What a clean first launch leaves behind: the hardware record of this
   * machine, and a manifest of the files as they are after the launch.
   */
  lemma FirstLaunchRecords(files: map<string, Option<string>>, readOnly: set<string>, host: Host)
    requires Sound(host.crypto)
    requires CleanInstall(files, readOnly, host)
    ensures var first := LaunchSpec(files, readOnly, host);
            && first.result == Returned(true)
            && Hwid.ReadStored(first.files, host.crypto) == Hwid.Holds(JStr(Hwid.GenerateHwid(host.machine, host.crypto).value))
            && Integrity.ReadStored(first.files, host.crypto)
               == Integrity.Holds(Integrity.HashesJson(Integrity.IntegrityHashes(Integrity.CriticalFiles, first.files, host.crypto)))
  {
    Hwid.MissingOrCorruptRecordReEnrols(Hwid.Initial, files, readOnly, host);
    var h := Hwid.LoadSpec(Hwid.Initial, files, readOnly, host);
    assert Integrity.IntegrityFile !in h.files;
    Integrity.EnrolmentRecordsItsOwnFiles(Integrity.Initial, h.files, readOnly, host);
    var t := Integrity.VerifySpec(Integrity.Initial, h.files, readOnly, host);
    assert LaunchSpec(files, readOnly, host).files == t.files;
    Hwid.ReadStoredIgnoresOtherFiles(h.files, Integrity.IntegrityFile, t.files[Integrity.IntegrityFile], host.crypto);
  }

  /**
   * The next launch on the same machine with untouched files passes again,
   * and now both flags of the security report are true.
   */
  lemma SecondLaunchPasses(files: map<string, Option<string>>, readOnly: set<string>, host: Host, later: Host)
    requires Sound(host.crypto)
    requires CleanInstall(files, readOnly, host)
    requires later.crypto == host.crypto && later.machine == host.machine
    requires !Integrity.IsDevelopmentMode(later) && !later.debuggerDetected
    ensures var first := LaunchSpec(files, readOnly, host);
            var second := LaunchSpec(first.files, readOnly, later);
            && second.result == Returned(true)
            && Report(Some(second.hwid), second.tamper).overallValid
  {
    var p := host.crypto;
    FirstLaunchRecords(files, readOnly, host);
    var first := LaunchSpec(files, readOnly, host);
    // The hardware record holds this machine's fingerprint and is kept.
    Hwid.StoredRecordKept(Hwid.Initial, first.files, readOnly, later);
    var h2 := Hwid.LoadSpec(Hwid.Initial, first.files, readOnly, later);
    assert h2.ok && h2.files == first.files && h2.state.isValid;
    // The manifest matches the files it was computed from.
    var enrolled := Integrity.IntegrityHashes(Integrity.CriticalFiles, first.files, p);
    Integrity.VerifyAgainstRecorded(Integrity.Initial, first.files, readOnly, later, enrolled);
    var t2 := Integrity.InitSpec(Integrity.Initial, h2.files, readOnly, later);
    assert t2.result == Returned(true) && t2.state.isValid;
  }

  /** After any launch that constructed the integrity manager, the handler as written throws. */
  lemma ValidateSecurityThrowsOnceCheckerExists(s: Launch)
    requires s.tamper.Some?
    ensures ReportAsWritten(Some(s.hwid), s.tamper).Err?
  {
  }

  /** In particular, every launch that opened the window leaves the handler throwing. */
  lemma ValidateSecurityThrowsAfterAnySuccessfulLaunch(files: map<string, Option<string>>, readOnly: set<string>, host: Host)
    requires LaunchSpec(files, readOnly, host).result == Returned(true)
    ensures ReportAsWritten(Some(LaunchSpec(files, readOnly, host).hwid), LaunchSpec(files, readOnly, host).tamper).Err?
  {
  }
}
