/**
 * The hardware lock (`components/security/hwid.js`): a fingerprint of the
 * machine is sealed into `data/config/hwid.dat` on first launch, and every
 * later launch compares the stored fingerprint with a fresh one.
 */
module Hwid {
  import opened Wrappers
  import opened Text
  import opened Platform

  const HwidFile := "data/config/hwid.dat"
  const EncryptionKey := "PlayNexus_Omega_2024_Secure"
  const RecordVersion := "1.0.0"

  // ----- fingerprint ------------------------------------------------------------

  /** The eight readings the fingerprint hashes, in their fixed order. */
  function Components(m: Machine): (r: seq<string>)
    requires |m.cpuModels| > 0
    ensures |r| == 8
  {
    [ m.hostname,
      m.platform,
      m.arch,
      m.cpuModels[0],
      NatToString(m.totalMem),
      Join(m.interfaces, ""),
      m.processorIdentifier.GetOr(""),
      m.numberOfProcessors.GetOr("") ]
  }

  /**
   * `generateHWID`: the SHA-256 of the readings joined by '|'. Reading the
   * first CPU's model throws on a machine that reports no CPU, and the
   * exception becomes `null`.
   */
  function GenerateHwid(m: Machine, p: Primitives): (r: Option<string>)
    ensures r.None? <==> |m.cpuModels| == 0
    ensures r.Some? ==> r.value == p.sha256(Join(Components(m), "|"))
  {
    if |m.cpuModels| == 0 then None else Some(p.sha256(Join(Components(m), "|")))
  }

  /** No reading contains the '|' separator. */
  predicate SeparatorFree(m: Machine)
    requires |m.cpuModels| > 0
  {
    forall k :: 0 <= k < 8 ==> Free(Components(m)[k], '|')
  }

  /**
   * When the digest does not collide on the two joined readings, and no
   * reading holds a '|', two machines share a fingerprint exactly when all
   * eight readings agree.
   */
  lemma FingerprintIdentifiesReadings(m1: Machine, m2: Machine, p: Primitives)
    requires |m1.cpuModels| > 0 && |m2.cpuModels| > 0
    requires NoCollision(p, Join(Components(m1), "|"), Join(Components(m2), "|"))
    requires SeparatorFree(m1) && SeparatorFree(m2)
    ensures GenerateHwid(m1, p) == GenerateHwid(m2, p) <==> Components(m1) == Components(m2)
  {
    if GenerateHwid(m1, p) == GenerateHwid(m2, p) {
      JoinInjective(Components(m1), Components(m2), '|');
    }
  }

  /**
   * The readings are joined without escaping, so a '|' inside one of them
   * lets two different machines produce the same fingerprint.
   */
  lemma SeparatorCollision(p: Primitives)
    ensures var m1 := Machine("a|b", "c", "x64", ["cpu"], 8, [], None, None);
            var m2 := Machine("a", "b|c", "x64", ["cpu"], 8, [], None, None);
            m1 != m2 && GenerateHwid(m1, p) == GenerateHwid(m2, p)
  {
    var m1 := Machine("a|b", "c", "x64", ["cpu"], 8, [], None, None);
    var m2 := Machine("a", "b|c", "x64", ["cpu"], 8, [], None, None);
    var c1, c2 := Components(m1), Components(m2);
    assert c1[2..] == c2[2..];
    JoinFirstTwo(c1, "|");
    JoinFirstTwo(c2, "|");
    assert "a|b" + "|" + "c" == "a" + "|" + "b|c";
  }

  /** A join of three or more parts starts with the first two and the separator after each. */
  lemma JoinFirstTwo(parts: seq<string>, sep: string)
    requires |parts| >= 3
    ensures Join(parts, sep) == parts[0] + sep + parts[1] + sep + Join(parts[2..], sep)
  {
    assert parts[1..][1..] == parts[2..];
  }

  // ----- the record on disk -------------------------------------------------------

  /** The object `saveHWID` seals: `{hwid, timestamp: Date.now(), version: '1.0.0'}`. */
  function HwidRecord(hwid: string, now: int): (r: Json)
    ensures Field(r, "hwid") == Some(JStr(hwid))
    ensures Field(r, "timestamp") == Some(JNum(now))
    ensures Field(r, "version") == Some(JStr(RecordVersion))
  {
    JObj(map["hwid" := JStr(hwid), "timestamp" := JNum(now), "version" := JStr(RecordVersion)])
  }

  /** `encrypt`: `null` when the cipher throws. */
  function Encrypt(p: Primitives, data: Json): Option<string> {
    p.seal(EncryptionKey, data)
  }

  /** `decrypt`: `null` when deciphering or `JSON.parse` throws. */
  function Decrypt(p: Primitives, text: string): Option<Json> {
    p.unseal(EncryptionKey, text)
  }

  /** With sound primitives, decrypting what `encrypt` produced gives the value back. */
  lemma DecryptEncrypt(p: Primitives, data: Json)
    requires Sound(p)
    ensures Encrypt(p, data).Some?
    ensures Decrypt(p, Encrypt(p, data).value) == Some(data)
  {
  }

  /** What `loadHWID` finds in the hwid file. */
  datatype Stored =
    | Absent              // `!fs.existsSync(hwidFile)`
    | ReadFails           // `readFileSync` throws
    | NoHwid              // decrypts to a falsy value or one without a truthy `hwid`
    | Holds(hwid: Json)   // the stored `data.hwid`, which is truthy

  function ReadStored(files: map<string, Option<string>>, p: Primitives): (r: Stored)
    ensures r.Holds? ==> Truthy(r.hwid)
  {
    if HwidFile !in files then Absent
    else if files[HwidFile].None? then ReadFails
    else
      var data := Decrypt(p, files[HwidFile].value);
      if data.None? || !Truthy(data.value) then NoHwid
      else
        var h := Field(data.value, "hwid");
        if h.None? || !Truthy(h.value) then NoHwid else Holds(h.value)
  }

  // ----- the state machine, as functions ----------------------------------------------

  /** The two fields of an `HWIDManager`. */
  datatype HwidState = HwidState(hwid: Option<string>, isValid: bool)

  const Initial := HwidState(None, false)

  /** The result of a step: what it returned, the manager's fields and the file map after it. */
  datatype Outcome = Outcome(ok: bool, state: HwidState, files: map<string, Option<string>>)

  /**
   * `saveHWID`: the file map after sealing and writing the record, or `None`
   * when the sealed text is falsy (`!encrypted`) or the write throws.
   */
  function SaveSpec(files: map<string, Option<string>>, readOnly: set<string>, hwid: string, host: Host)
    : Option<map<string, Option<string>>>
  {
    var encrypted := Encrypt(host.crypto, HwidRecord(hwid, host.now));
    if encrypted.None? || encrypted.value == "" then None
    else WriteFile(files, readOnly, HwidFile, encrypted.value)
  }

  /** `createNewHWID`: enrol this machine if it has a fingerprint and the record can be saved. */
  function CreateNewSpec(st: HwidState, files: map<string, Option<string>>, readOnly: set<string>, host: Host)
    : Outcome
  {
    var newId := GenerateHwid(host.machine, host.crypto);
    if newId.None? || newId.value == "" then Outcome(false, st, files)
    else
      var saved := SaveSpec(files, readOnly, newId.value, host);
      if saved.None? then Outcome(false, st, files)
      else Outcome(true, HwidState(newId, true), saved.value)
  }

  /**
   * `loadHWID`: a missing, unreadable or invalid record leads to enrolment; a
   * stored fingerprint equal (`===`) to a fresh one validates; any other
   * stored fingerprint is a mismatch that clears `isValid` and writes nothing.
   */
  function LoadSpec(st: HwidState, files: map<string, Option<string>>, readOnly: set<string>, host: Host)
    : Outcome
  {
    match ReadStored(files, host.crypto)
    case Holds(stored) =>
      var newId := GenerateHwid(host.machine, host.crypto);
      if newId.Some? && stored == JStr(newId.value) then Outcome(true, HwidState(newId, true), files)
      else Outcome(false, st.(isValid := false), files)
    case _ => CreateNewSpec(st, files, readOnly, host)
  }

  // ----- the manager --------------------------------------------------------------

  class HwidManager {
    var hwid: Option<string>
    var isValid: bool
    const fs: FileSystem

    constructor (fs: FileSystem)
      ensures State() == Initial && this.fs == fs
    {
      hwid := None;
      isValid := false;
      this.fs := fs;
    }

    function State(): HwidState
      reads this
    {
      HwidState(hwid, isValid)
    }

    /** `getHWID` */
    function GetHwid(): (r: Option<string>)
      reads this
      ensures r == State().hwid
    {
      hwid
    }

    /** `isValidHWID` */
    predicate IsValidHwid()
      reads this
      ensures IsValidHwid() == State().isValid
    {
      isValid
    }

    /** `saveHWID` */
    method SaveHwid(newHwid: string, host: Host) returns (ok: bool)
      modifies fs
      ensures ok <==> SaveSpec(old(fs.files), fs.readOnly, newHwid, host).Some?
      ensures fs.files == SaveSpec(old(fs.files), fs.readOnly, newHwid, host).GetOr(old(fs.files))
    {
      var encrypted := Encrypt(host.crypto, HwidRecord(newHwid, host.now));
      if encrypted.None? || encrypted.value == "" {
        return false;
      }
      ok := fs.Write(HwidFile, encrypted.value);
    }

    /** `createNewHWID` */
    method CreateNewHwid(host: Host) returns (ok: bool)
      modifies this, fs
      ensures Outcome(ok, State(), fs.files) == CreateNewSpec(old(State()), old(fs.files), fs.readOnly, host)
    {
      var newId := GenerateHwid(host.machine, host.crypto);
      ok := false;
      if newId.Some? && newId.value != "" {
        var saved := SaveHwid(newId.value, host);
        if saved {
          hwid := newId;
          isValid := true;
          ok := true;
        }
      }
    }

    /** `loadHWID` */
    method LoadHwid(host: Host) returns (ok: bool)
      modifies this, fs
      ensures Outcome(ok, State(), fs.files) == LoadSpec(old(State()), old(fs.files), fs.readOnly, host)
    {
      if !fs.Exists(HwidFile) {
        ok := CreateNewHwid(host);
        return;
      }
      var text := fs.Read(HwidFile);
      if text.None? {
        // the read threw: the catch block enrols anew
        ok := CreateNewHwid(host);
        return;
      }
      var data := Decrypt(host.crypto, text.value);
      if data.None? || !Truthy(data.value) || Field(data.value, "hwid").None? || !Truthy(Field(data.value, "hwid").value) {
        ok := CreateNewHwid(host);
        return;
      }
      var current := GenerateHwid(host.machine, host.crypto);
      if current.Some? && Field(data.value, "hwid").value == JStr(current.value) {
        hwid := Some(Field(data.value, "hwid").value.s);
        isValid := true;
        ok := true;
      } else {
        isValid := false;
        ok := false;
      }
    }

    /** `init` */
    method Init(host: Host) returns (ok: bool)
      modifies this, fs
      ensures Outcome(ok, State(), fs.files) == LoadSpec(old(State()), old(fs.files), fs.readOnly, host)
    {
      ok := LoadHwid(host);
    }
  }

  // ----- properties of the state machine ----------------------------------------------

  /**
   * Whenever loading succeeds the manager holds this machine's fingerprint and
   * is valid; started from a newId manager, the result and `isValid` agree.
   */
  lemma LoadSuccessMeansThisMachine(st: HwidState, files: map<string, Option<string>>, readOnly: set<string>, host: Host)
    ensures var o := LoadSpec(st, files, readOnly, host);
            o.ok ==> o.state == HwidState(GenerateHwid(host.machine, host.crypto), true)
                     && GenerateHwid(host.machine, host.crypto).Some?
    ensures var o := LoadSpec(Initial, files, readOnly, host);
            o.ok <==> o.state.isValid
  {
  }

  /** A machine without a fingerprint never passes a stored record, because that record is truthy. */
  lemma NullFingerprintMismatches(st: HwidState, files: map<string, Option<string>>, readOnly: set<string>, host: Host)
    requires ReadStored(files, host.crypto).Holds?
    requires |host.machine.cpuModels| == 0
    ensures LoadSpec(st, files, readOnly, host) == Outcome(false, st.(isValid := false), files)
  {
  }

  /** A machine without a fingerprint cannot enrol either, so it never gets past `loadHWID`. */
  lemma NoFingerprintNeverValid(files: map<string, Option<string>>, readOnly: set<string>, host: Host)
    requires |host.machine.cpuModels| == 0
    ensures !LoadSpec(Initial, files, readOnly, host).ok
    ensures !LoadSpec(Initial, files, readOnly, host).state.isValid
  {
  }

  /**
   * Enrolment: with sound primitives and a writable hwid file, a missing,
   * unreadable or invalid record is replaced by one holding this machine's
   * fingerprint, and loading succeeds. Deleting or corrupting the file
   * therefore unlocks any machine that has a fingerprint.
   */
  lemma MissingOrCorruptRecordReEnrols(st: HwidState, files: map<string, Option<string>>, readOnly: set<string>, host: Host)
    requires Sound(host.crypto)
    requires !ReadStored(files, host.crypto).Holds?
    requires |host.machine.cpuModels| > 0
    requires HwidFile !in readOnly
    ensures var o := LoadSpec(st, files, readOnly, host);
            var newId := GenerateHwid(host.machine, host.crypto).value;
            && o.ok
            && o.state == HwidState(Some(newId), true)
            && o.files == files[HwidFile := Some(Encrypt(host.crypto, HwidRecord(newId, host.now)).value)]
            && ReadStored(o.files, host.crypto) == Holds(JStr(newId))
  {
    var newId := GenerateHwid(host.machine, host.crypto).value;
    var record := HwidRecord(newId, host.now);
    DecryptEncrypt(host.crypto, record);
    assert |newId| == 64;
  }

  /** Writing any other file leaves the stored record as it reads. */
  lemma ReadStoredIgnoresOtherFiles(files: map<string, Option<string>>, path: string, content: Option<string>, p: Primitives)
    requires path != HwidFile
    ensures ReadStored(files[path := content], p) == ReadStored(files, p)
  {
    assert HwidFile in files[path := content] <==> HwidFile in files;
  }

  /**
   * A readable record holding a fingerprint is never rewritten, and it alone
   * decides the outcome: the launch passes exactly when the record holds this
   * machine's fingerprint, and a mismatch keeps `hwid` and clears `isValid`.
   */
  lemma StoredRecordKept(st: HwidState, files: map<string, Option<string>>, readOnly: set<string>, host: Host)
    requires ReadStored(files, host.crypto).Holds?
    ensures var o := LoadSpec(st, files, readOnly, host);
            var newId := GenerateHwid(host.machine, host.crypto);
            && o.files == files
            && (o.ok <==> newId.Some? && ReadStored(files, host.crypto).hwid == JStr(newId.value))
            && (!o.ok ==> o.state == st.(isValid := false))
  {
  }

  /**
   * The lock: after this machine enrolled, a later launch on any machine
   * (at any time) succeeds exactly when that machine's fingerprint equals
   * the enrolled one, and neither outcome rewrites the record.
   */
  lemma LockedToEnrolledMachine(files: map<string, Option<string>>, readOnly: set<string>, enrol: Host, later: Host)
    requires Sound(enrol.crypto) && later.crypto == enrol.crypto
    requires !ReadStored(files, enrol.crypto).Holds?
    requires |enrol.machine.cpuModels| > 0
    requires HwidFile !in readOnly
    ensures var first := LoadSpec(Initial, files, readOnly, enrol);
            var second := LoadSpec(Initial, first.files, readOnly, later);
            && first.ok
            && second.files == first.files
            && (second.ok <==> GenerateHwid(later.machine, later.crypto) == GenerateHwid(enrol.machine, enrol.crypto))
  {
    MissingOrCorruptRecordReEnrols(Initial, files, readOnly, enrol);
  }

  /**
   * The same lock in terms of the readings: when the digest does not collide
   * on the two machines' joined readings, and no reading holds a '|', a
   * relaunch passes exactly when all eight readings are those of the
   * enrolled machine.
   */
  lemma LockedToEnrolledReadings(files: map<string, Option<string>>, readOnly: set<string>, enrol: Host, later: Host)
    requires Sound(enrol.crypto) && later.crypto == enrol.crypto
    requires !ReadStored(files, enrol.crypto).Holds?
    requires HwidFile !in readOnly
    requires |enrol.machine.cpuModels| > 0 && |later.machine.cpuModels| > 0
    requires NoCollision(enrol.crypto, Join(Components(later.machine), "|"), Join(Components(enrol.machine), "|"))
    requires SeparatorFree(enrol.machine) && SeparatorFree(later.machine)
    ensures var first := LoadSpec(Initial, files, readOnly, enrol);
            var second := LoadSpec(Initial, first.files, readOnly, later);
            second.ok <==> Components(later.machine) == Components(enrol.machine)
  {
    LockedToEnrolledMachine(files, readOnly, enrol, later);
    FingerprintIdentifiesReadings(later.machine, enrol.machine, enrol.crypto);
  }
}
