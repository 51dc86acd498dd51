/**
 * `FileFinder` of src/fff/finder.ts: one `initialized` flag, written only by `init`
 * and `destroy`, in front of the bridge. Every other operation either fails fast
 * while uninitialized, degrades to an inert value, or ignores the flag.
 */
module Finder {
  import opened Wrappers
  import opened Json
  import opened Types
  import opened Ffi
  import Download

  const NotInitialized := "FileFinder not initialized. Call FileFinder.init() first."

  /** `GrepResult`: the record fields as decoded, and the cursor for the next page. */
  datatype GrepResult = GrepResult(
    items: JsValue,
    totalMatched: JsValue,
    totalFilesSearched: JsValue,
    totalFiles: JsValue,
    filteredFileCount: JsValue,
    nextCursor: Option<GrepCursor>,
    regexFallbackError: JsValue)

  /** The cursor `nextFileOffset > 0 ? createGrepCursor(nextFileOffset) : null` builds from a number. */
  function NextCursor(nextFileOffset: JsValue): Option<GrepCursor> {
    if nextFileOffset.Defined? && nextFileOffset.json.JNum? && nextFileOffset.json.n > 0
    then Some(CreateGrepCursor(nextFileOffset.json.n))
    else None
  }

  /** The value of property `name` of an object (`undefined` when the object has none). */
  function Prop(fs: seq<(string, Json)>, name: string): JsValue {
    if Lookup(fs, name).Some? then Defined(Lookup(fs, name).value) else Undefined
  }

  /** The record `liveGrep` builds from the decoded value; reading a property of `undefined` or `null` throws. */
  function ToGrepResult(raw: JsValue): (r: Outcome<GrepResult>)
    ensures r.Threw? <==> raw == Undefined || raw == Defined(JNull)
    ensures r.Returned? && raw.Defined? && raw.json.JObj? ==>
              var fs := raw.json.fields;
              && r.value.items == Prop(fs, "items")
              && r.value.totalMatched == Prop(fs, "totalMatched")
              && r.value.totalFilesSearched == Prop(fs, "totalFilesSearched")
              && r.value.totalFiles == Prop(fs, "totalFiles")
              && r.value.filteredFileCount == Prop(fs, "filteredFileCount")
              && r.value.regexFallbackError == Prop(fs, "regexFallbackError")
    ensures r.Returned? ==>
              (r.value.nextCursor.Some? <==>
                 raw.Defined? && raw.json.JObj? && exists n :: n > 0 && Lookup(raw.json.fields, "nextFileOffset") == Some(JNum(n)))
    ensures r.Returned? && r.value.nextCursor.Some? ==>
              raw.Defined? && raw.json.JObj? && Lookup(raw.json.fields, "nextFileOffset") == Some(JNum(r.value.nextCursor.value.offset))
  {
    match Field(raw, "nextFileOffset")
    case Threw(m) => Threw(m)
    case Returned(nextFileOffset) =>
      Returned(GrepResult(
        Field(raw, "items").value,
        Field(raw, "totalMatched").value,
        Field(raw, "totalFilesSearched").value,
        Field(raw, "totalFiles").value,
        Field(raw, "filteredFileCount").value,
        NextCursor(nextFileOffset),
        Field(raw, "regexFallbackError").value))
  }

  /** Handing a page's `nextCursor` back as the `cursor` option resumes the search at the offset the engine reported. */
  lemma NextPageResumes(raw: JsValue, opts: GrepOptions)
    requires ToGrepResult(raw).Returned? && ToGrepResult(raw).value.nextCursor.Some?
    ensures var next := ToInternalGrepOptions(Some(opts.(cursor := Cursor(ToGrepResult(raw).value.nextCursor.value))));
      raw.Defined? && raw.json.JObj? && Lookup(raw.json.fields, "nextFileOffset") == Some(JNum(next.file_offset)) && next.file_offset > 0
  {
  }

  /** What `liveGrep` makes of the bridge's answer: errors pass through, a decoded value becomes a `GrepResult`. */
  function GrepAnswer(a: Result<JsValue>): (r: Outcome<Result<GrepResult>>)
    ensures a.Err? ==> r == Returned(Err(a.error))
    ensures r.Threw? <==> a.Ok? && (a.value == Undefined || a.value == Defined(JNull))
    ensures a.Ok? && r.Returned? ==> r.value.Ok? && ToGrepResult(a.value) == Returned(r.value.value)
  {
    match a
    case Err(e) => Returned(Err(e))
    case Ok(raw) =>
      match ToGrepResult(raw)
      case Threw(m) => Threw(m)
      case Returned(g) => Returned(Ok(g))
  }

  class FileFinder {
    const bridge: Bridge
    /** `FileFinder.initialized` */
    var initialized: bool

    /** An initialized finder has a loaded library behind it. */
    ghost predicate Valid()
      reads this, bridge
    {
      initialized ==> bridge.lib.Some?
    }

    constructor (bridge: Bridge)
      ensures this.bridge == bridge && !initialized
      ensures Valid()
    {
      this.bridge := bridge;
      initialized := false;
    }

    /** `init`: the flag is set exactly when the bridge reports success, and the result is returned as it came. */
    method Init(options: InitOptions, reply: NativeResult) returns (r: Outcome<Result<JsValue>>)
      requires Valid()
      modifies this, bridge
      ensures Valid()
      ensures bridge.Invoked(CallInit(InitWire(ToInternalInitOptions(options))), Freed(reply))
      ensures r == bridge.Answer(reply)
      ensures initialized == (old(initialized) || (r.Returned? && r.value.Ok?))
    {
      var internalOpts := ToInternalInitOptions(options);
      r := bridge.Init(InitWire(internalOpts), reply);
      if r.Returned? && r.value.Ok? {
        initialized := true;
      }
    }

    /** `destroy`: the flag is cleared exactly when the bridge reports success. */
    method Destroy(reply: NativeResult) returns (r: Outcome<Result<JsValue>>)
      requires Valid()
      modifies this, bridge
      ensures Valid()
      ensures bridge.Invoked(CallDestroy, Freed(reply))
      ensures r == bridge.Answer(reply)
      ensures initialized == (old(initialized) && !(r.Returned? && r.value.Ok?))
    {
      r := bridge.Destroy(reply);
      if r.Returned? && r.value.Ok? {
        initialized := false;
      }
    }

    /** `search` */
    method Search(query: string, options: Option<SearchOptions>, reply: NativeResult) returns (r: Outcome<Result<JsValue>>)
      requires Valid()
      modifies bridge
      ensures Valid()
      ensures !initialized ==> r == Returned(Err(NotInitialized)) && bridge.Untouched()
      ensures initialized ==>
                && bridge.Invoked(CallSearch(query, SearchWire(ToInternalSearchOptions(options))), Freed(reply))
                && r == Returned(ParseResultValue(reply, bridge.parse))
    {
      if !initialized {
        return Returned(Err(NotInitialized));
      }
      var internalOpts := ToInternalSearchOptions(options);
      r := bridge.Search(query, SearchWire(internalOpts), reply);
    }

    /** `liveGrep` */
    method LiveGrep(query: string, options: Option<GrepOptions>, reply: NativeResult) returns (r: Outcome<Result<GrepResult>>)
      requires Valid()
      modifies bridge
      ensures Valid()
      ensures !initialized ==> r == Returned(Err(NotInitialized)) && bridge.Untouched()
      ensures initialized && !bridge.lib.value.hasLiveGrep ==>
                r == Returned(Err(LiveGrepUnsupported)) && bridge.Untouched()
      ensures initialized && bridge.lib.value.hasLiveGrep ==>
                && bridge.Invoked(CallLiveGrep(query, GrepWire(ToInternalGrepOptions(options))), Freed(reply))
                && r == GrepAnswer(ParseResultValue(reply, bridge.parse))
    {
      if !initialized {
        return Returned(Err(NotInitialized));
      }
      var internalOpts := ToInternalGrepOptions(options);
      var a := bridge.LiveGrep(query, GrepWire(internalOpts), reply);
      match a
      case Threw(m) =>
        r := Threw(m);
      case Returned(res) =>
        if res.Err? {
          return Returned(Err(res.error));
        }
        var raw := res.value;
        var grepResult := ToGrepResult(raw);
        if grepResult.Threw? {
          return Threw(grepResult.message);
        }
        r := Returned(Ok(grepResult.value));
    }

    /** `scanFiles` */
    method ScanFiles(reply: NativeResult) returns (r: Outcome<Result<JsValue>>)
      requires Valid()
      modifies bridge
      ensures Valid()
      ensures !initialized ==> r == Returned(Err(NotInitialized)) && bridge.Untouched()
      ensures initialized ==> bridge.Invoked(CallScanFiles, Freed(reply)) && r == Returned(ParseResultValue(reply, bridge.parse))
    {
      if !initialized {
        return Returned(Err(NotInitialized));
      }
      r := bridge.ScanFiles(reply);
    }

    /** `isScanning`: `false` while uninitialized. */
    method IsScanning(scanning: bool) returns (r: Outcome<bool>)
      requires Valid()
      modifies bridge
      ensures Valid()
      ensures !initialized ==> r == Returned(false) && bridge.Untouched()
      ensures initialized ==> bridge.Invoked(CallIsScanning, 0) && r == Returned(scanning)
    {
      if !initialized {
        return Returned(false);
      }
      r := bridge.IsScanning(scanning);
    }

    /** `getScanProgress` */
    method GetScanProgress(reply: NativeResult) returns (r: Outcome<Result<JsValue>>)
      requires Valid()
      modifies bridge
      ensures Valid()
      ensures !initialized ==> r == Returned(Err(NotInitialized)) && bridge.Untouched()
      ensures initialized ==> bridge.Invoked(CallGetScanProgress, Freed(reply)) && r == Returned(ParseResultValue(reply, bridge.parse))
    {
      if !initialized {
        return Returned(Err(NotInitialized));
      }
      r := bridge.GetScanProgress(reply);
    }

    /** `waitForScan`, with the default timeout of 5000 ms. */
    method WaitForScan(reply: NativeResult, timeoutMs: int := 5000) returns (r: Outcome<Result<bool>>)
      requires Valid()
      modifies bridge
      ensures Valid()
      ensures !initialized ==> r == Returned(Err(NotInitialized)) && bridge.Untouched()
      ensures initialized ==>
                && bridge.Invoked(CallWaitForScan(timeoutMs), Freed(reply))
                && r == Returned(FlagResult(ParseResultValue(reply, bridge.parse)))
    {
      if !initialized {
        return Returned(Err(NotInitialized));
      }
      r := bridge.WaitForScan(timeoutMs, reply);
    }

    /** `reindex` */
    method Reindex(newPath: string, reply: NativeResult) returns (r: Outcome<Result<JsValue>>)
      requires Valid()
      modifies bridge
      ensures Valid()
      ensures !initialized ==> r == Returned(Err(NotInitialized)) && bridge.Untouched()
      ensures initialized ==> bridge.Invoked(CallRestartIndex(newPath), Freed(reply)) && r == Returned(ParseResultValue(reply, bridge.parse))
    {
      if !initialized {
        return Returned(Err(NotInitialized));
      }
      r := bridge.RestartIndex(newPath, reply);
    }

    /** `trackAccess`: `ok(false)` while uninitialized. */
    method TrackAccess(filePath: string, reply: NativeResult) returns (r: Outcome<Result<bool>>)
      requires Valid()
      modifies bridge
      ensures Valid()
      ensures !initialized ==> r == Returned(Ok(false)) && bridge.Untouched()
      ensures initialized ==>
                && bridge.Invoked(CallTrackAccess(filePath), Freed(reply))
                && r == Returned(FlagResult(ParseResultValue(reply, bridge.parse)))
    {
      if !initialized {
        return Returned(Ok(false));
      }
      r := bridge.TrackAccess(filePath, reply);
    }

    /** `refreshGitStatus` */
    method RefreshGitStatus(reply: NativeResult) returns (r: Outcome<Result<Option<int>>>)
      requires Valid()
      modifies bridge
      ensures Valid()
      ensures !initialized ==> r == Returned(Err(NotInitialized)) && bridge.Untouched()
      ensures initialized ==>
                && bridge.Invoked(CallRefreshGitStatus, Freed(reply))
                && r == Returned(CountResult(ParseResultValue(reply, bridge.parse), bridge.parseInt))
    {
      if !initialized {
        return Returned(Err(NotInitialized));
      }
      r := bridge.RefreshGitStatus(reply);
    }

    /** `trackQuery`: `ok(false)` while uninitialized. */
    method TrackQuery(query: string, selectedFilePath: string, reply: NativeResult) returns (r: Outcome<Result<bool>>)
      requires Valid()
      modifies bridge
      ensures Valid()
      ensures !initialized ==> r == Returned(Ok(false)) && bridge.Untouched()
      ensures initialized ==>
                && bridge.Invoked(CallTrackQuery(query, selectedFilePath), Freed(reply))
                && r == Returned(FlagResult(ParseResultValue(reply, bridge.parse)))
    {
      if !initialized {
        return Returned(Ok(false));
      }
      r := bridge.TrackQuery(query, selectedFilePath, reply);
    }

    /** `getHistoricalQuery`: `ok(null)` while uninitialized. */
    method GetHistoricalQuery(offset: int, reply: NativeResult) returns (r: Outcome<Result<JsValue>>)
      requires Valid()
      modifies bridge
      ensures Valid()
      ensures !initialized ==> r == Returned(Ok(Defined(JNull))) && bridge.Untouched()
      ensures initialized ==>
                && bridge.Invoked(CallGetHistoricalQuery(offset), Freed(reply))
                && r == Returned(HistoricalResult(ParseResultValue(reply, bridge.parse)))
    {
      if !initialized {
        return Returned(Ok(Defined(JNull)));
      }
      r := bridge.GetHistoricalQuery(offset, reply);
    }

    /** `healthCheck`: ignores the flag; a missing or empty path is sent as `""`. */
    method HealthCheck(testPath: Option<string>, reply: NativeResult) returns (r: Outcome<Result<JsValue>>)
      requires Valid()
      modifies bridge
      ensures Valid()
      ensures bridge.Invoked(CallHealthCheck(if testPath.Some? then testPath.value else ""), Freed(reply))
      ensures r == bridge.Answer(reply)
    {
      var path := if testPath.Some? && testPath.value != "" then testPath.value else "";
      r := bridge.HealthCheck(path, reply);
    }

    /** `isAvailable`: ignores the flag. */
    method IsAvailable() returns (available: bool)
      requires Valid()
      modifies bridge
      ensures Valid()
      ensures bridge.Loading() && bridge.calls == old(bridge.calls) && bridge.frees == old(bridge.frees)
      ensures available <==> bridge.lib.Some?
    {
      available := bridge.IsAvailable();
    }

    /** `ensureLoaded` */
    method EnsureLoaded() returns (r: Outcome<()>)
      requires Valid()
      modifies bridge
      ensures Valid()
      ensures Download.EnsureBinary(bridge.host).Threw? ==>
                r == Threw(Download.EnsureBinary(bridge.host).message) && bridge.Untouched()
      ensures Download.EnsureBinary(bridge.host).Returned? ==> bridge.Loading() && bridge.lib.Some? && r == Returned(())
      ensures bridge.calls == old(bridge.calls) && bridge.frees == old(bridge.frees)
    {
      r := bridge.EnsureLoaded();
    }

    /** `isInitialized` */
    function IsInitialized(): bool
      reads this
    {
      initialized
    }
  }
}
