/**
 * The world the security gate runs in: parsed JSON values, the machine
 * readings `os` and `process.env` supply, the cryptographic primitives
 * (SHA-256 and the passphrase-keyed AES-256-CBC cipher) as uninterpreted
 * functions, and the file system as a mutable map from path to contents.
 */
module Platform {
  import opened Wrappers

  /** A value `JSON.parse` can return (numbers restricted to integers). */
  datatype Json =
    | JNull
    | JBool(b: bool)
    | JNum(n: int)
    | JStr(s: string)
    | JArr(items: seq<Json>)
    | JObj(fields: map<string, Json>)

  /** JavaScript truthiness of a parsed value: `null`, `false`, `0` and `""` are falsy. */
  predicate Truthy(j: Json) {
    match j
    case JNull => false
    case JBool(b) => b
    case JNum(n) => n != 0
    case JStr(s) => s != ""
    case JArr(_) => true
    case JObj(_) => true
  }

  /** Property access `j.key`; `None` is `undefined`. */
  function Field(j: Json, key: string): (r: Option<Json>)
    ensures r.Some? <==> j.JObj? && key in j.fields
    ensures r.Some? ==> r.value == j.fields[key]
  {
    if j.JObj? && key in j.fields then Some(j.fields[key]) else None
  }

  /**
   * The cryptographic primitives. `sha256` is the hex digest of a text,
   * `seal` is `JSON.stringify` followed by encryption under a passphrase
   * (`None` when the cipher throws), and `unseal` is decryption followed by
   * `JSON.parse` (`None` when either throws).
   */
  datatype Primitives = Primitives(
    sha256: string -> string,
    seal: (string, Json) -> Option<string>,
    unseal: (string, string) -> Option<Json>)

  /**
   * What the security gate relies on from its primitives: a digest is 64 hex
   * characters, sealing a JSON value yields non-empty text, and unsealing
   * under the same passphrase gives the value back.
   */
  ghost predicate Sound(p: Primitives) {
    && (forall s :: |p.sha256(s)| == 64)
    && (forall key, x :: p.seal(key, x).Some? && p.seal(key, x).value != "")
    && (forall key, x :: p.seal(key, x).Some? ==> p.unseal(key, p.seal(key, x).value) == Some(x))
  }

  /**
   * Whether the digest tells two given texts apart. This is asked only of
   * the texts a lemma compares: a 64-character digest cannot separate all texts.
   */
  ghost predicate NoCollision(p: Primitives, a: string, b: string) {
    p.sha256(a) == p.sha256(b) ==> a == b
  }

  /** The readings `generateHWID` takes from `os` and `process.env`. */
  datatype Machine = Machine(
    hostname: string,
    platform: string,
    arch: string,
    cpuModels: seq<string>,             // `os.cpus().map(c => c.model)`
    totalMem: nat,                      // `os.totalmem()`
    interfaces: seq<string>,            // `Object.keys(os.networkInterfaces())`
    processorIdentifier: Option<string>,
    numberOfProcessors: Option<string>)

  /**
   * Everything the gate reads from outside the program on one launch: the
   * machine, the primitives, `Date.now()`, `NODE_ENV`, `process.argv` and the
   * verdict of the external debugger probe.
   */
  datatype Host = Host(
    machine: Machine,
    crypto: Primitives,
    now: int,
    nodeEnv: Option<string>,
    argv: seq<string>,
    debuggerDetected: bool)

  /** How an `init` ends: it returns a flag, or the process exits with a code. */
  datatype InitResult = Returned(ok: bool) | Exited(code: int)

  /** The outcome of `fs.writeFileSync` on a path: the new file map, or `None` when it throws. */
  function WriteFile(files: map<string, Option<string>>, readOnly: set<string>, path: string, text: string)
    : (r: Option<map<string, Option<string>>>)
    ensures r.Some? <==> path !in readOnly
    ensures r.Some? ==> r.value == files[path := Some(text)]
  {
    if path in readOnly then None else Some(files[path := Some(text)])
  }

  /**
   * The file system, keyed by paths relative to the application root. A
   * missing key is a missing file; a key holding `None` is a file whose read
   * throws; a path in `readOnly` is one whose write (or directory creation)
   * throws.
   */
  class FileSystem {
    var files: map<string, Option<string>>
    const readOnly: set<string>

    constructor (files0: map<string, Option<string>>, readOnly0: set<string>)
      ensures files == files0 && readOnly == readOnly0
    {
      files := files0;
      readOnly := readOnly0;
    }

    /** `fs.existsSync(path)` */
    predicate Exists(path: string)
      reads this
    {
      path in files
    }

    /** `fs.readFileSync(path)`: `None` when the read throws. */
    method Read(path: string) returns (r: Option<string>)
      requires Exists(path)
      ensures r == files[path]
    {
      r := files[path];
    }

    /** `fs.writeFileSync(path, text)`: false when it throws, and then nothing changes. */
    method Write(path: string, text: string) returns (ok: bool)
      modifies this
      ensures ok <==> WriteFile(old(files), readOnly, path, text).Some?
      ensures files == WriteFile(old(files), readOnly, path, text).GetOr(old(files))
    {
      if path in readOnly {
        ok := false;
      } else {
        files := files[path := Some(text)];
        ok := true;
      }
    }
  }
}
