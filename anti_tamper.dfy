/**
 * The integrity check (`components/security/anti-tamper.js`): the SHA-256 of
 * each critical file is sealed into `data/config/integrity.dat` on first
 * launch, and every later launch compares the stored digests with fresh ones.
 */
module Integrity {
  import opened Wrappers
  import opened Text
  import opened Platform

  const IntegrityFile := "data/config/integrity.dat"
  const EncryptionKey := "PlayNexus_Integrity_2024_Secure"
  const ManifestVersion := "1.0.0"

  /** The files whose digests are recorded, relative to the application root. */
  const CriticalFiles: seq<string> := [
    "main.js",
    "index.html",
    "assets/js/main.js",
    "assets/js/components.js",
    "assets/js/data.js",
    "assets/css/main.css",
    "assets/css/components.css",
    "package.json"
  ]

  // ----- digests -------------------------------------------------------------------

  /** `generateFileHash`: the digest of a file's contents, `null` when it is missing or unreadable. */
  function GenerateFileHash(files: map<string, Option<string>>, path: string, p: Primitives): (r: Option<string>)
    ensures r.Some? <==> path in files && files[path].Some?
    ensures r.Some? ==> r.value == p.sha256(files[path].value)
  {
    if path !in files then None
    else if files[path].None? then None
    else Some(p.sha256(files[path].value))
  }

  /** The `if (hash)` test: a digest was produced and is not the empty string. */
  predicate Hashed(files: map<string, Option<string>>, path: string, p: Primitives) {
    GenerateFileHash(files, path, p).Some? && GenerateFileHash(files, path, p).value != ""
  }

  /**
   * The `hashes` object `generateIntegrityHashes` builds over `paths`: exactly
   * the paths that produced a digest, each mapped to its digest.
   */
  function IntegrityHashes(paths: seq<string>, files: map<string, Option<string>>, p: Primitives)
    : (r: map<string, string>)
    ensures forall f :: f in r <==> f in paths && Hashed(files, f, p)
    ensures forall f :: f in r ==> GenerateFileHash(files, f, p).Some? && r[f] == GenerateFileHash(files, f, p).value
  {
    if |paths| == 0 then map[]
    else
      var before := IntegrityHashes(paths[..|paths| - 1], files, p);
      var last := paths[|paths| - 1];
      assert forall f :: f in paths <==> f in paths[..|paths| - 1] || f == last;
      if Hashed(files, last, p) then before[last := GenerateFileHash(files, last, p).value] else before
  }

  /** Extending the list of paths by one file adds that file's digest, if it has one. */
  lemma IntegrityHashesStep(paths: seq<string>, i: nat, files: map<string, Option<string>>, p: Primitives)
    requires i < |paths|
    ensures IntegrityHashes(paths[..i + 1], files, p)
         == if Hashed(files, paths[i], p)
            then IntegrityHashes(paths[..i], files, p)[paths[i] := GenerateFileHash(files, paths[i], p).value]
            else IntegrityHashes(paths[..i], files, p)
  {
    assert paths[..i + 1][..i] == paths[..i];
  }

  lemma AddEntry(base: map<string, string>, hashes: map<string, string>, file: string, hash: string)
    ensures base + hashes[file := hash] == (base + hashes)[file := hash]
  {
  }

  /** Files outside `paths` play no part in their digests. */
  lemma IntegrityHashesIgnoreOtherFiles(paths: seq<string>, files: map<string, Option<string>>, path: string, text: string, p: Primitives)
    requires path !in paths
    ensures IntegrityHashes(paths, files[path := Some(text)], p) == IntegrityHashes(paths, files, p)
  {
    var a := IntegrityHashes(paths, files[path := Some(text)], p);
    var b := IntegrityHashes(paths, files, p);
    assert forall f :: f in paths ==> Hashed(files[path := Some(text)], f, p) == Hashed(files, f, p);
    assert a.Keys == b.Keys;
  }

  // ----- the manifest on disk -----------------------------------------------------

  /** The `hashes` object as JSON. */
  function HashesJson(hashes: map<string, string>): (r: Json)
    ensures r.JObj? && r.fields.Keys == hashes.Keys
    ensures forall f :: f in hashes ==> r.fields[f] == JStr(hashes[f])
  {
    JObj(map f | f in hashes :: JStr(hashes[f]))
  }

  /** The object `saveIntegrityHashes` seals: `{hashes, timestamp: Date.now(), version: '1.0.0'}`. */
  function ManifestRecord(hashes: map<string, string>, now: int): (r: Json)
    ensures Field(r, "hashes") == Some(HashesJson(hashes))
    ensures Field(r, "timestamp") == Some(JNum(now))
    ensures Field(r, "version") == Some(JStr(ManifestVersion))
  {
    JObj(map["hashes" := HashesJson(hashes), "timestamp" := JNum(now), "version" := JStr(ManifestVersion)])
  }

  /** `encrypt` */
  function Encrypt(p: Primitives, data: Json): Option<string> {
    p.seal(EncryptionKey, data)
  }

  /** `decrypt` */
  function Decrypt(p: Primitives, text: string): Option<Json> {
    p.unseal(EncryptionKey, text)
  }

  /**
   * `Object.entries(data.hashes)` as a set of pairs: the fields of an object,
   * the indexed items of an array or characters of a string, and nothing for
   * a number or `true`. The comparison is a conjunction, so order is irrelevant.
   */
  function Entries(j: Json): (r: set<(string, Json)>)
    ensures j.JObj? ==> forall f :: f in j.fields ==> (f, j.fields[f]) in r
    ensures j.JObj? ==> forall e :: e in r ==> e.0 in j.fields && e.1 == j.fields[e.0]
  {
    match j
    case JObj(fields) => set f | f in fields :: (f, fields[f])
    case JArr(items) => set i | 0 <= i < |items| :: (IntToString(i), items[i])
    case JStr(s) => set i | 0 <= i < |s| :: (IntToString(i), JStr([s[i]]))
    case _ => {}
  }

  /** `currentHashes[file] === expectedHash`: an absent key reads as `undefined`, which equals no JSON value. */
  predicate EntryMatches(e: (string, Json), current: map<string, string>) {
    e.0 in current && e.1 == JStr(current[e.0])
  }

  predicate AllMatch(stored: Json, current: map<string, string>) {
    forall e :: e in Entries(stored) ==> EntryMatches(e, current)
  }

  /** What `verifyIntegrity` finds in the manifest file. */
  datatype Stored =
    | Absent              // `!fs.existsSync(integrityFile)`
    | ReadFails           // `readFileSync` throws
    | NoHashes            // decrypts to a falsy value or one without a truthy `hashes`
    | Holds(hashes: Json) // the stored `data.hashes`, which is truthy

  function ReadStored(files: map<string, Option<string>>, p: Primitives): (r: Stored)
    ensures r.Holds? ==> Truthy(r.hashes)
  {
    if IntegrityFile !in files then Absent
    else if files[IntegrityFile].None? then ReadFails
    else
      var data := Decrypt(p, files[IntegrityFile].value);
      if data.None? || !Truthy(data.value) then NoHashes
      else
        var h := Field(data.value, "hashes");
        if h.None? || !Truthy(h.value) then NoHashes else Holds(h.value)
  }

  // ----- the checker, as functions ---------------------------------------------------

  /** The two fields of an `AntiTamper`: the `fileHashes` map and the `isValid` flag. */
  datatype TamperState = TamperState(fileHashes: map<string, string>, isValid: bool)

  const Initial := TamperState(map[], false)

  /** The result of a step: what it returned, the checker's fields and the file map after it. */
  datatype Check = Check(ok: bool, state: TamperState, files: map<string, Option<string>>)

  /** `saveIntegrityHashes`: digest the critical files, seal the manifest and write it. */
  function SaveSpec(st: TamperState, files: map<string, Option<string>>, readOnly: set<string>, host: Host): Check {
    var hashes := IntegrityHashes(CriticalFiles, files, host.crypto);
    var st' := st.(fileHashes := st.fileHashes + hashes);
    var encrypted := Encrypt(host.crypto, ManifestRecord(hashes, host.now));
    if encrypted.None? || encrypted.value == "" then Check(false, st', files)
    else
      var written := WriteFile(files, readOnly, IntegrityFile, encrypted.value);
      if written.None? then Check(false, st', files) else Check(true, st', written.value)
  }

  /**
   * `verifyIntegrity`: a missing or invalid manifest is regenerated and saved,
   * and the save's result returned without touching `isValid`; an unreadable
   * one fails; otherwise every stored entry is compared with the fresh digests.
   */
  function VerifySpec(st: TamperState, files: map<string, Option<string>>, readOnly: set<string>, host: Host): Check {
    match ReadStored(files, host.crypto)
    case Absent => SaveSpec(st, files, readOnly, host)
    case NoHashes => SaveSpec(st, files, readOnly, host)
    case ReadFails => Check(false, st, files)
    case Holds(stored) =>
      var current := IntegrityHashes(CriticalFiles, files, host.crypto);
      var ok := AllMatch(stored, current);
      Check(ok, TamperState(st.fileHashes + current, ok), files)
  }

  /** `isDevelopmentMode` */
  predicate IsDevelopmentMode(host: Host) {
    host.nodeEnv == Some("development") || "--dev" in host.argv || "--development" in host.argv
  }

  datatype InitOutcome = InitOutcome(result: InitResult, state: TamperState, files: map<string, Option<string>>)

  /** `init`: development mode passes at once, a debugger ends the process, anything else is verified. */
  function InitSpec(st: TamperState, files: map<string, Option<string>>, readOnly: set<string>, host: Host): InitOutcome {
    if IsDevelopmentMode(host) then InitOutcome(Returned(true), st.(isValid := true), files)
    else if host.debuggerDetected then InitOutcome(Exited(1), st, files)
    else
      var c := VerifySpec(st, files, readOnly, host);
      InitOutcome(Returned(c.ok), c.state, c.files)
  }

  /** The `for ... of Object.entries(data.hashes)` loop: a flag cleared by any entry that differs. */
  method CompareEntries(stored: Json, current: map<string, string>) returns (valid: bool)
    ensures valid <==> AllMatch(stored, current)
  {
    valid := CompareEach(Entries(stored), current);
  }

  /** The comparison loop over a set of entries, taken in any order. */
  method CompareEach(entries: set<(string, Json)>, current: map<string, string>) returns (valid: bool)
    ensures valid <==> forall e :: e in entries ==> EntryMatches(e, current)
  {
    valid := true;
    var todo := entries;
    ghost var done: set<(string, Json)> := {};
    while todo != {}
      invariant done + todo == entries
      invariant valid <==> forall e :: e in done ==> EntryMatches(e, current)
      decreases |todo|
    {
      var e :| e in todo;
      if !(e.0 in current && e.1 == JStr(current[e.0])) {
        valid := false;
      }
      done := done + {e};
      todo := todo - {e};
    }
    assert done == entries;
  }

  // ----- the checker -------------------------------------------------------------

  class AntiTamper {
    var fileHashes: map<string, string>
    var isValid: bool
    const fs: FileSystem

    constructor (fs: FileSystem)
      ensures State() == Initial && this.fs == fs
    {
      fileHashes := map[];
      isValid := false;
      this.fs := fs;
    }

    function State(): TamperState
      reads this
    {
      TamperState(fileHashes, isValid)
    }

    /** `generateIntegrityHashes`: fills `hashes` and `fileHashes` one critical file at a time. */
    method GenerateIntegrityHashes(host: Host) returns (hashes: map<string, string>)
      modifies this
      ensures hashes == IntegrityHashes(CriticalFiles, fs.files, host.crypto)
      ensures fileHashes == old(fileHashes) + hashes
      ensures isValid == old(isValid)
    {
      hashes := map[];
      var paths := CriticalFiles;
      ghost var files := fs.files;
      ghost var base := fileHashes;
      for i := 0 to |paths|
        invariant hashes == IntegrityHashes(paths[..i], files, host.crypto)
        invariant fileHashes == base + hashes
        invariant isValid == old(isValid)
      {
        var file := paths[i];
        var hash := GenerateFileHash(fs.files, file, host.crypto);
        IntegrityHashesStep(paths, i, files, host.crypto);
        if hash.Some? && hash.value != "" {
          AddEntry(base, hashes, file, hash.value);
          hashes := hashes[file := hash.value];
          fileHashes := fileHashes[file := hash.value];
        }
      }
      assert paths[..|paths|] == paths;
    }

    /** `saveIntegrityHashes` */
    method SaveIntegrityHashes(host: Host) returns (ok: bool)
      modifies this, fs
      ensures Check(ok, State(), fs.files) == SaveSpec(old(State()), old(fs.files), fs.readOnly, host)
    {
      var hashes := GenerateIntegrityHashes(host);
      var encrypted := Encrypt(host.crypto, ManifestRecord(hashes, host.now));
      if encrypted.None? || encrypted.value == "" {
        return false;
      }
      ok := fs.Write(IntegrityFile, encrypted.value);
    }

    /** `verifyIntegrity`: the comparison loop accumulates a flag over the stored entries. */
    method VerifyIntegrity(host: Host) returns (ok: bool)
      modifies this, fs
      ensures Check(ok, State(), fs.files) == VerifySpec(old(State()), old(fs.files), fs.readOnly, host)
    {
      if !fs.Exists(IntegrityFile) {
        ok := SaveIntegrityHashes(host);
        return;
      }
      var text := fs.Read(IntegrityFile);
      if text.None? {
        // the read threw: the catch block fails without regenerating
        return false;
      }
      var data := Decrypt(host.crypto, text.value);
      if data.None? || !Truthy(data.value) || Field(data.value, "hashes").None? || !Truthy(Field(data.value, "hashes").value) {
        ok := SaveIntegrityHashes(host);
        return;
      }
      var stored := Field(data.value, "hashes").value;
      var current := GenerateIntegrityHashes(host);
      ok := CompareEntries(stored, current);
      isValid := ok;
    }

    /** `init`, with the debugger probe's verdict taken from the host. */
    method Init(host: Host) returns (r: InitResult)
      modifies this, fs
      ensures InitOutcome(r, State(), fs.files) == InitSpec(old(State()), old(fs.files), fs.readOnly, host)
    {
      if IsDevelopmentMode(host) {
        isValid := true;
        return Returned(true);
      }
      if host.debuggerDetected {
        return Exited(1);
      }
      var ok := VerifyIntegrity(host);
      r := Returned(ok);
    }
  }

  // ----- properties of the checker --------------------------------------------------------

  /** Comparing against a manifest written from `hashes`: every recorded file must still hash the same. */
  lemma AllMatchOfRecorded(hashes: map<string, string>, current: map<string, string>)
    ensures AllMatch(HashesJson(hashes), current)
        <==> forall f :: f in hashes ==> f in current && current[f] == hashes[f]
  {
    var j := HashesJson(hashes);
    if AllMatch(j, current) {
      forall f | f in hashes ensures f in current && current[f] == hashes[f] {
        assert (f, j.fields[f]) in Entries(j);
      }
    }
  }

  /**
   * First launch: with sound primitives and a writable manifest, a missing
   * manifest is written from the current digests and the launch passes, yet
   * `isValid` keeps its old value.
   */
  lemma EnrolmentPasses(st: TamperState, files: map<string, Option<string>>, readOnly: set<string>, host: Host)
    requires Sound(host.crypto)
    requires IntegrityFile !in files && IntegrityFile !in readOnly
    ensures var c := VerifySpec(st, files, readOnly, host);
            && c.ok
            && c.state.isValid == st.isValid
            && ReadStored(c.files, host.crypto) == Holds(HashesJson(IntegrityHashes(CriticalFiles, files, host.crypto)))
  {
    var hashes := IntegrityHashes(CriticalFiles, files, host.crypto);
    assert Decrypt(host.crypto, Encrypt(host.crypto, ManifestRecord(hashes, host.now)).value) == Some(ManifestRecord(hashes, host.now));
  }

  /**
   * The manifest written on a first launch is the only file that launch
   * adds, and it lists the digests of the files as they are after it.
   */
  lemma EnrolmentRecordsItsOwnFiles(st: TamperState, files: map<string, Option<string>>, readOnly: set<string>, host: Host)
    requires Sound(host.crypto)
    requires IntegrityFile !in files && IntegrityFile !in readOnly
    ensures var c := VerifySpec(st, files, readOnly, host);
            && c.ok
            && IntegrityFile in c.files
            && c.files == files[IntegrityFile := c.files[IntegrityFile]]
            && ReadStored(c.files, host.crypto) == Holds(HashesJson(IntegrityHashes(CriticalFiles, c.files, host.crypto)))
  {
    var c := VerifySpec(st, files, readOnly, host);
    EnrolmentPasses(st, files, readOnly, host);
    var text := c.files[IntegrityFile].value;
    assert c.files == files[IntegrityFile := Some(text)];
    IntegrityHashesIgnoreOtherFiles(CriticalFiles, files, IntegrityFile, text, host.crypto);
  }

  /**
   * Against a manifest recorded from `enrolled`, verification passes exactly
   * when every recorded file still yields its recorded digest; critical files
   * that were not recorded are not looked at. The result is stored in `isValid`.
   */
  lemma VerifyAgainstRecorded(st: TamperState, files: map<string, Option<string>>, readOnly: set<string>, host: Host, enrolled: map<string, string>)
    requires ReadStored(files, host.crypto) == Holds(HashesJson(enrolled))
    ensures var c := VerifySpec(st, files, readOnly, host);
            var current := IntegrityHashes(CriticalFiles, files, host.crypto);
            && (c.ok <==> forall f :: f in enrolled ==> f in current && current[f] == enrolled[f])
            && c.state.isValid == c.ok
            && c.files == files
  {
    AllMatchOfRecorded(enrolled, IntegrityHashes(CriticalFiles, files, host.crypto));
  }

  /** After enrolment, an untouched installation passes the next launch. */
  lemma UntouchedInstallationPasses(files: map<string, Option<string>>, readOnly: set<string>, enrol: Host, later: Host)
    requires Sound(enrol.crypto) && later.crypto == enrol.crypto
    requires IntegrityFile !in files && IntegrityFile !in readOnly
    ensures var first := VerifySpec(Initial, files, readOnly, enrol);
            var second := VerifySpec(first.state, first.files, readOnly, later);
            first.ok && second.ok && second.state.isValid
  {
    var p := enrol.crypto;
    var first := VerifySpec(Initial, files, readOnly, enrol);
    EnrolmentPasses(Initial, files, readOnly, enrol);
    var enrolled := IntegrityHashes(CriticalFiles, files, p);
    var text := first.files[IntegrityFile].value;
    assert first.files == files[IntegrityFile := Some(text)];
    IntegrityHashesIgnoreOtherFiles(CriticalFiles, files, IntegrityFile, text, p);
    VerifyAgainstRecorded(first.state, first.files, readOnly, later, enrolled);
  }

  /** A recorded critical file that has since been deleted fails verification. */
  lemma DeletedFileFails(st: TamperState, files: map<string, Option<string>>, readOnly: set<string>, host: Host, enrolled: map<string, string>, f: string)
    requires ReadStored(files, host.crypto) == Holds(HashesJson(enrolled))
    requires f in enrolled && f !in files
    ensures !VerifySpec(st, files, readOnly, host).ok
    ensures !VerifySpec(st, files, readOnly, host).state.isValid
  {
    VerifyAgainstRecorded(st, files, readOnly, host, enrolled);
  }

  /**
   * A recorded critical file whose contents changed fails verification, when
   * the digest tells the new contents from the recorded ones.
   */
  lemma ModifiedFileFails(st: TamperState, files: map<string, Option<string>>, readOnly: set<string>, host: Host, enrolled: map<string, string>, f: string, original: string)
    requires ReadStored(files, host.crypto) == Holds(HashesJson(enrolled))
    requires f in enrolled && enrolled[f] == host.crypto.sha256(original)
    requires f in files && files[f].Some? && files[f].value != original
    requires NoCollision(host.crypto, files[f].value, original)
    ensures !VerifySpec(st, files, readOnly, host).ok
  {
    VerifyAgainstRecorded(st, files, readOnly, host, enrolled);
  }

  /** A manifest that cannot be read fails without being regenerated. */
  lemma UnreadableManifestFails(st: TamperState, files: map<string, Option<string>>, readOnly: set<string>, host: Host)
    requires IntegrityFile in files && files[IntegrityFile].None?
    ensures VerifySpec(st, files, readOnly, host) == Check(false, st, files)
  {
  }

  /**
   * Only the stored keys are compared: a manifest whose `hashes` is an empty
   * object passes whatever the files hold.
   */
  lemma EmptyManifestPasses(st: TamperState, files: map<string, Option<string>>, readOnly: set<string>, host: Host)
    requires ReadStored(files, host.crypto) == Holds(JObj(map[]))
    ensures VerifySpec(st, files, readOnly, host).ok
  {
  }

  /** Development mode passes, sets `isValid` and touches no file, even with a debugger attached. */
  lemma DevelopmentModeSkipsChecks(st: TamperState, files: map<string, Option<string>>, readOnly: set<string>, host: Host)
    requires host.nodeEnv == Some("development") || "--dev" in host.argv || "--development" in host.argv
    ensures InitSpec(st, files, readOnly, host) == InitOutcome(Returned(true), st.(isValid := true), files)
  {
  }

  /** Outside development mode a detected debugger exits with code 1 before anything is read or written. */
  lemma DebuggerExitsBeforeVerifying(st: TamperState, files: map<string, Option<string>>, readOnly: set<string>, host: Host)
    requires !IsDevelopmentMode(host) && host.debuggerDetected
    ensures InitSpec(st, files, readOnly, host) == InitOutcome(Exited(1), st, files)
  {
  }
}
