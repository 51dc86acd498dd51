/**
 * The bridge to the native library (src/fff/ffi.ts): the library cache, the result
 * envelope protocol with its `fff_free_result` obligation, the wire-to-host rewrite
 * of decoded values, and the typed wrappers around each entry point.
 *
 * The native library is not modelled. Each native call's return value is a parameter
 * of the wrapper that makes it (`NativeResult`), `JSON.parse` is the oracle `parse`
 * and `parseInt` the oracle `parseInt`. The bridge records every native entry point
 * it calls in `calls` and counts `fff_free_result` calls in `frees` and `findBinary`
 * consultations in `lookups`.
 */
module Ffi {
  import opened Wrappers
  import opened Strings
  import opened Json
  import opened Casing
  import opened Types
  import Download

  /** `FffResultRaw`, the envelope behind a result pointer. */
  datatype Envelope = Envelope(success: bool, data: Option<string>, error: Option<string>)

  /** What `koffi.decode` does with a result pointer: decodes it, or throws (an `Error` with a message, or some other value). */
  datatype Decoding = Decoded(raw: Envelope) | DecodeThrew(message: Option<string>)

  /** What an entry point returning `FffResultPointer | null` returns. */
  datatype NativeResult = NullPointer | ResultPointer(decoding: Decoding)

  /** The cached `FFFLibrary`: where it was loaded from, and whether `fff_live_grep` could be bound. */
  datatype Library = Library(path: string, hasLiveGrep: bool)

  /** A call of a native entry point, with its arguments; an options argument is the JSON value whose text is passed. */
  datatype NativeCall =
    | CallInit(initOpts: Json)
    | CallDestroy
    | CallSearch(query: string, searchOpts: Json)
    | CallLiveGrep(grepQuery: string, grepOpts: Json)
    | CallScanFiles
    | CallIsScanning
    | CallGetScanProgress
    | CallWaitForScan(timeoutMs: int)
    | CallRestartIndex(newPath: string)
    | CallTrackAccess(filePath: string)
    | CallRefreshGitStatus
    | CallTrackQuery(trackedQuery: string, selectedPath: string)
    | CallGetHistoricalQuery(offset: int)
    | CallHealthCheck(testPath: string)

  const NullPointerError := "FFI returned null pointer"
  const DecodeFailure := "Failed to decode FFI result"
  const UnknownError := "Unknown error"
  const LoadError := "fff native library not found in optional @ff-labs/fff-bun-* package"
  const LiveGrepUnsupported := "liveGrep is not supported by this native library."

  /** How many times `parseResult` frees the pointer it is handed. */
  function Freed(reply: NativeResult): nat {
    if reply.NullPointer? then 0 else 1
  }

  /** A JavaScript string or `null` is truthy when it is a non-empty string. */
  predicate Filled(s: Option<string>) {
    s.Some? && s.value != ""
  }

  /** The result `parseResult` gives for a native return value. */
  function ParseResultValue(reply: NativeResult, parse: string -> Option<Json>): (r: Result<JsValue>)
    ensures reply.NullPointer? ==> r == Err(NullPointerError)
    ensures reply.ResultPointer? && reply.decoding.DecodeThrew? ==>
              && r.Err? && StartsWith(r.error, DecodeFailure)
              && r.error == if reply.decoding.message.Some? then DecodeFailure + ": " + reply.decoding.message.value else DecodeFailure
    ensures reply.ResultPointer? && reply.decoding.Decoded? && reply.decoding.raw.success ==>
              var data := reply.decoding.raw.data;
              && r.Ok?
              && (!Filled(data) ==> r.value == Undefined)
              && (Filled(data) && parse(data.value).Some? ==> r.value == Defined(SnakeToCamel(parse(data.value).value)))
              && (Filled(data) && parse(data.value).None? ==> r.value == Defined(JStr(data.value)))
    ensures reply.ResultPointer? && reply.decoding.Decoded? && !reply.decoding.raw.success ==>
              var error := reply.decoding.raw.error;
              r == Err(if Filled(error) then error.value else UnknownError)
  {
    match reply
    case NullPointer => Err(NullPointerError)
    case ResultPointer(DecodeThrew(m)) =>
      var e := if m.Some? then DecodeFailure + ": " + m.value else DecodeFailure;
      assert e[..|DecodeFailure|] == DecodeFailure;
      Err(e)
    case ResultPointer(Decoded(raw)) =>
      if raw.success then
        if !Filled(raw.data) then Ok(Undefined)
        else match parse(raw.data.value)
          case Some(parsed) => Ok(Defined(SnakeToCamel(parsed)))
          case None => Ok(Defined(JStr(raw.data.value)))
      else Err(if Filled(raw.error) then raw.error.value else UnknownError)
  }

  /** `parseResult` succeeds exactly on a decoded envelope that reports success. */
  lemma ParseResultOk(reply: NativeResult, parse: string -> Option<Json>)
    ensures ParseResultValue(reply, parse).Ok? <==>
              reply.ResultPointer? && reply.decoding.Decoded? && reply.decoding.raw.success
  {
  }

  /** An object handed to the host never carries a snake_case `_x` pair in any of its keys. */
  lemma ParsedObjectsAreCamel(reply: NativeResult, parse: string -> Option<Json>)
    requires ParseResultValue(reply, parse).Ok?
    requires ParseResultValue(reply, parse).value.Defined?
    requires ParseResultValue(reply, parse).value.json.JObj?
    ensures forall k :: k in KeySet(ParseResultValue(reply, parse).value.json.fields) ==> !HasSnakePair(k)
  {
    var data := reply.decoding.raw.data.value;
    var fs := parse(data).value.fields;
    SnakeToCamelObject(fs);
    forall k | k in KeySet(SnakeToCamel(JObj(fs)).fields) ensures !HasSnakePair(k) {
      var i :| 0 <= i < |fs| && CamelKey(fs[i].0) == k;
      CamelKeyIsCamel(fs[i].0);
    }
  }

  /** The boolean wrappers: `ok(value === "true")`, errors passed through. */
  function FlagResult(r: Result<JsValue>): (f: Result<bool>)
    ensures r.Err? ==> f == Err(r.error)
    ensures r.Ok? ==> f.Ok? && (f.value <==> r.value == Defined(JStr("true")))
  {
    match r
    case Err(e) => Err(e)
    case Ok(v) => Ok(v == Defined(JStr("true")))
  }

  /**
   * A flag reads `true` only when the native side sends the JSON string `"true"` (or text
   * that does not parse and reads `true`); the JSON literal `true` parses to a boolean.
   */
  lemma FlagTrueExactly(reply: NativeResult, parse: string -> Option<Json>)
    ensures FlagResult(ParseResultValue(reply, parse)) == Ok(true) <==>
              && reply.ResultPointer? && reply.decoding.Decoded? && reply.decoding.raw.success
              && Filled(reply.decoding.raw.data)
              && (|| parse(reply.decoding.raw.data.value) == Some(JStr("true"))
                  || (parse(reply.decoding.raw.data.value).None? && reply.decoding.raw.data.value == "true"))
  {
    if reply.ResultPointer? && reply.decoding.Decoded? && reply.decoding.raw.success && Filled(reply.decoding.raw.data) {
      var p := parse(reply.decoding.raw.data.value);
      if p.Some? {
        SnakeToCamelShape(p.value);
      }
    }
  }

  /** A success envelope whose data is the JSON literal `true` gives `ok(false)`. */
  lemma FlagOfLiteralTrue(reply: NativeResult, parse: string -> Option<Json>)
    requires reply == ResultPointer(Decoded(Envelope(true, Some("true"), None)))
    requires parse("true") == Some(JBool(true))
    ensures FlagResult(ParseResultValue(reply, parse)) == Ok(false)
  {
  }

  /** `ffiGetHistoricalQuery`: the string `"null"` becomes `null`; anything else is passed through. */
  function HistoricalResult(r: Result<JsValue>): (h: Result<JsValue>)
    ensures r == Ok(Defined(JStr("null"))) ==> h == Ok(Defined(JNull))
    ensures r != Ok(Defined(JStr("null"))) ==> h == r
  {
    if r.Ok? && r.value == Defined(JStr("null")) then Ok(Defined(JNull)) else r
  }

  /** `ffiRefreshGitStatus`: `parseInt(value, 10)` on success (`None` standing for `NaN`), errors passed through. */
  function CountResult(r: Result<JsValue>, parseInt: JsValue -> Option<int>): (c: Result<Option<int>>)
    ensures r.Err? ==> c == Err(r.error)
    ensures r.Ok? ==> c == Ok(parseInt(r.value))
  {
    match r
    case Err(e) => Err(e)
    case Ok(v) => Ok(parseInt(v))
  }

  /** The module-level state of src/fff/ffi.ts and its exported functions. */
  class Bridge {
    /** The process and filesystem `findBinary` looks at. */
    const host: Download.Host
    /** Whether binding `fff_live_grep` succeeds in the library found. */
    const liveGrepBinds: bool
    const parse: string -> Option<Json>
    const parseInt: JsValue -> Option<int>

    /** `lib`, the cache of the loaded library. */
    var lib: Option<Library>
    var lookups: nat
    var calls: seq<NativeCall>
    var frees: nat

    constructor (host: Download.Host, liveGrepBinds: bool, parse: string -> Option<Json>, parseInt: JsValue -> Option<int>)
      ensures this.host == host && this.liveGrepBinds == liveGrepBinds
      ensures this.parse == parse && this.parseInt == parseInt
      ensures lib == None && lookups == 0 && calls == [] && frees == 0
    {
      this.host := host;
      this.liveGrepBinds := liveGrepBinds;
      this.parse := parse;
      this.parseInt := parseInt;
      lib := None;
      lookups := 0;
      calls := [];
      frees := 0;
    }

    /** The cache after one `loadLibrary()` call from the cache `cached`. */
    function LoadedFrom(cached: Option<Library>): Option<Library> {
      if cached.Some? then cached
      else
        var binaryPath := Download.FindBinary(host);
        if binaryPath.Some? && binaryPath.value != "" then Some(Library(binaryPath.value, liveGrepBinds)) else None
    }

    /** Loading twice is loading once, and a loaded library is the one `findBinary` names. */
    lemma LoadIdempotent(cached: Option<Library>)
      ensures LoadedFrom(LoadedFrom(cached)) == LoadedFrom(cached)
      ensures cached.None? && LoadedFrom(cached).Some? ==>
                Download.FindBinary(host) == Some(LoadedFrom(cached).value.path)
      ensures cached.None? ==> (LoadedFrom(cached).None? <==> Download.FindBinary(host).None?)
    {
    }

    /** One `loadLibrary()` call: the cache changes as `LoadedFrom` says, and `findBinary` is consulted only on a miss. */
    twostate predicate Loading()
      reads this
    {
      && lib == LoadedFrom(old(lib))
      && lookups == old(lookups) + (if old(lib).None? then 1 else 0)
    }

    /** A wrapper that loads the library, then calls entry point `c` and frees `freed` results. */
    twostate predicate Invoked(c: NativeCall, freed: nat)
      reads this
    {
      && Loading()
      && (lib.Some? ==> calls == old(calls) + [c] && frees == old(frees) + freed)
      && (lib.None? ==> calls == old(calls) && frees == old(frees))
    }

    /** Nothing of the bridge's state changed. */
    twostate predicate Untouched()
      reads this
    {
      lib == old(lib) && lookups == old(lookups) && calls == old(calls) && frees == old(frees)
    }

    /** What a wrapper returns: the native result's outcome once loaded, or the load error. */
    function Answer(reply: NativeResult): Outcome<Result<JsValue>>
      reads this
    {
      if lib.Some? then Returned(ParseResultValue(reply, parse)) else Threw(LoadError)
    }

    /** `loadLibrary` */
    method LoadLibrary() returns (r: Outcome<Library>)
      modifies this`lib, this`lookups
      ensures Loading()
      ensures r == if lib.Some? then Returned(lib.value) else Threw(LoadError)
    {
      if lib.Some? {
        return Returned(lib.value);
      }
      var binaryPath := Download.FindBinary(host);
      lookups := lookups + 1;
      if binaryPath.None? || binaryPath.value == "" {
        return Threw(LoadError);
      }
      var hasLiveGrep := liveGrepBinds;
      lib := Some(Library(binaryPath.value, hasLiveGrep));
      return Returned(lib.value);
    }

    /** `parseResult`: every non-null pointer is freed exactly once, whether or not it decodes. */
    method ParseResult(reply: NativeResult) returns (r: Result<JsValue>)
      requires lib.Some?
      modifies this`lib, this`lookups, this`frees
      ensures lib == old(lib) && lookups == old(lookups)
      ensures frees == old(frees) + Freed(reply)
      ensures r == ParseResultValue(reply, parse)
    {
      if reply.NullPointer? {
        return Err(NullPointerError);
      }
      var library := LoadLibrary();
      var raw: Envelope;
      match reply.decoding
      case DecodeThrew(m) =>
        frees := frees + 1;
        return Err(if m.Some? then DecodeFailure + ": " + m.value else DecodeFailure);
      case Decoded(e) =>
        frees := frees + 1;
        raw := e;
      if raw.success {
        var data := raw.data;
        if data.None? || data.value == "" {
          return Ok(Undefined);
        }
        match parse(data.value)
        case Some(parsed) =>
          return Ok(Defined(SnakeToCamel(parsed)));
        case None =>
          return Ok(Defined(JStr(data.value)));
      }
      return Err(if raw.error.Some? && raw.error.value != "" then raw.error.value else UnknownError);
    }

    /** The body shared by the wrappers that return `parseResult(entryPoint(...))`. */
    method CallAndParse(c: NativeCall, reply: NativeResult) returns (r: Outcome<Result<JsValue>>)
      modifies this
      ensures Invoked(c, Freed(reply))
      ensures r == Answer(reply)
    {
      var library := LoadLibrary();
      if library.Threw? {
        return Threw(library.message);
      }
      calls := calls + [c];
      var parsed := ParseResult(reply);
      return Returned(parsed);
    }

    /** `ffiInit` */
    method Init(opts: Json, reply: NativeResult) returns (r: Outcome<Result<JsValue>>)
      modifies this
      ensures Invoked(CallInit(opts), Freed(reply))
      ensures r == Answer(reply)
    {
      r := CallAndParse(CallInit(opts), reply);
    }

    /** `ffiDestroy` */
    method Destroy(reply: NativeResult) returns (r: Outcome<Result<JsValue>>)
      modifies this
      ensures Invoked(CallDestroy, Freed(reply))
      ensures r == Answer(reply)
    {
      r := CallAndParse(CallDestroy, reply);
    }

    /** `ffiSearch` */
    method Search(query: string, opts: Json, reply: NativeResult) returns (r: Outcome<Result<JsValue>>)
      modifies this
      ensures Invoked(CallSearch(query, opts), Freed(reply))
      ensures r == Answer(reply)
    {
      r := CallAndParse(CallSearch(query, opts), reply);
    }

    /** `ffiLiveGrep`: without the optional symbol it fails without calling into the library. */
    method LiveGrep(query: string, opts: Json, reply: NativeResult) returns (r: Outcome<Result<JsValue>>)
      modifies this
      ensures Loading()
      ensures lib.Some? && !lib.value.hasLiveGrep ==>
                r == Returned(Err(LiveGrepUnsupported)) && calls == old(calls) && frees == old(frees)
      ensures lib.None? || lib.value.hasLiveGrep ==>
                Invoked(CallLiveGrep(query, opts), Freed(reply)) && r == Answer(reply)
    {
      var library := LoadLibrary();
      if library.Threw? {
        return Threw(library.message);
      }
      if !library.value.hasLiveGrep {
        return Returned(Err(LiveGrepUnsupported));
      }
      calls := calls + [CallLiveGrep(query, opts)];
      var parsed := ParseResult(reply);
      return Returned(parsed);
    }

    /** `ffiScanFiles` */
    method ScanFiles(reply: NativeResult) returns (r: Outcome<Result<JsValue>>)
      modifies this
      ensures Invoked(CallScanFiles, Freed(reply))
      ensures r == Answer(reply)
    {
      r := CallAndParse(CallScanFiles, reply);
    }

    /** `ffiIsScanning`: the entry point returns a plain boolean, nothing to free. */
    method IsScanning(scanning: bool) returns (r: Outcome<bool>)
      modifies this
      ensures Invoked(CallIsScanning, 0)
      ensures r == if lib.Some? then Returned(scanning) else Threw(LoadError)
    {
      var library := LoadLibrary();
      if library.Threw? {
        return Threw(library.message);
      }
      calls := calls + [CallIsScanning];
      return Returned(scanning);
    }

    /** `ffiGetScanProgress` */
    method GetScanProgress(reply: NativeResult) returns (r: Outcome<Result<JsValue>>)
      modifies this
      ensures Invoked(CallGetScanProgress, Freed(reply))
      ensures r == Answer(reply)
    {
      r := CallAndParse(CallGetScanProgress, reply);
    }

    /** `ffiWaitForScan` */
    method WaitForScan(timeoutMs: int, reply: NativeResult) returns (r: Outcome<Result<bool>>)
      modifies this
      ensures Invoked(CallWaitForScan(timeoutMs), Freed(reply))
      ensures r == if lib.Some? then Returned(FlagResult(ParseResultValue(reply, parse))) else Threw(LoadError)
    {
      var a := CallAndParse(CallWaitForScan(timeoutMs), reply);
      if a.Threw? {
        return Threw(a.message);
      }
      return Returned(FlagResult(a.value));
    }

    /** `ffiRestartIndex` */
    method RestartIndex(newPath: string, reply: NativeResult) returns (r: Outcome<Result<JsValue>>)
      modifies this
      ensures Invoked(CallRestartIndex(newPath), Freed(reply))
      ensures r == Answer(reply)
    {
      r := CallAndParse(CallRestartIndex(newPath), reply);
    }

    /** `ffiTrackAccess` */
    method TrackAccess(filePath: string, reply: NativeResult) returns (r: Outcome<Result<bool>>)
      modifies this
      ensures Invoked(CallTrackAccess(filePath), Freed(reply))
      ensures r == if lib.Some? then Returned(FlagResult(ParseResultValue(reply, parse))) else Threw(LoadError)
    {
      var a := CallAndParse(CallTrackAccess(filePath), reply);
      if a.Threw? {
        return Threw(a.message);
      }
      return Returned(FlagResult(a.value));
    }

    /** `ffiRefreshGitStatus` */
    method RefreshGitStatus(reply: NativeResult) returns (r: Outcome<Result<Option<int>>>)
      modifies this
      ensures Invoked(CallRefreshGitStatus, Freed(reply))
      ensures r == if lib.Some? then Returned(CountResult(ParseResultValue(reply, parse), parseInt)) else Threw(LoadError)
    {
      var a := CallAndParse(CallRefreshGitStatus, reply);
      if a.Threw? {
        return Threw(a.message);
      }
      return Returned(CountResult(a.value, parseInt));
    }

    /** `ffiTrackQuery` */
    method TrackQuery(query: string, filePath: string, reply: NativeResult) returns (r: Outcome<Result<bool>>)
      modifies this
      ensures Invoked(CallTrackQuery(query, filePath), Freed(reply))
      ensures r == if lib.Some? then Returned(FlagResult(ParseResultValue(reply, parse))) else Threw(LoadError)
    {
      var a := CallAndParse(CallTrackQuery(query, filePath), reply);
      if a.Threw? {
        return Threw(a.message);
      }
      return Returned(FlagResult(a.value));
    }

    /** `ffiGetHistoricalQuery` */
    method GetHistoricalQuery(offset: int, reply: NativeResult) returns (r: Outcome<Result<JsValue>>)
      modifies this
      ensures Invoked(CallGetHistoricalQuery(offset), Freed(reply))
      ensures r == if lib.Some? then Returned(HistoricalResult(ParseResultValue(reply, parse))) else Threw(LoadError)
    {
      var a := CallAndParse(CallGetHistoricalQuery(offset), reply);
      if a.Threw? {
        return Threw(a.message);
      }
      return Returned(HistoricalResult(a.value));
    }

    /** `ffiHealthCheck` */
    method HealthCheck(testPath: string, reply: NativeResult) returns (r: Outcome<Result<JsValue>>)
      modifies this
      ensures Invoked(CallHealthCheck(testPath), Freed(reply))
      ensures r == Answer(reply)
    {
      r := CallAndParse(CallHealthCheck(testPath), reply);
    }

    /** `ensureLoaded`: `ensureBinary()` must resolve before the library is loaded. */
    method EnsureLoaded() returns (r: Outcome<()>)
      modifies this`lib, this`lookups
      ensures Download.EnsureBinary(host).Threw? ==>
                r == Threw(Download.EnsureBinary(host).message) && lib == old(lib) && lookups == old(lookups)
      ensures Download.EnsureBinary(host).Returned? ==> Loading() && lib.Some? && r == Returned(())
    {
      var found := Download.EnsureBinary(host);
      if found.Threw? {
        return Threw(found.message);
      }
      var library := LoadLibrary();
      match library
      case Threw(m) => r := Threw(m);
      case Returned(_) => r := Returned(());
    }

    /** `isAvailable`: whether `loadLibrary()` completes. */
    method IsAvailable() returns (available: bool)
      modifies this`lib, this`lookups
      ensures Loading()
      ensures available <==> lib.Some?
    {
      var library := LoadLibrary();
      available := library.Returned?;
    }
  }
}
