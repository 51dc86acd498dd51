/**
 * The host-side records of src/fff/types.ts, their snake_case wire records, the
 * translations between the two, the grep cursor, and the JSON objects the wire
 * records become when they are serialized for the native entry points.
 */
module Types {
  import opened Wrappers
  import opened Json

  /** `Result<T>`: `{ ok: true, value }` or `{ ok: false, error }`. */
  datatype Result<+T> = Ok(value: T) | Err(error: string)

  /** `ok(value)` */
  function MakeOk<T>(value: T): (r: Result<T>)
    ensures r.Ok? && r.value == value
  {
    Ok(value)
  }

  /** `err(error)` */
  function MakeErr<T>(error: string): (r: Result<T>)
    ensures r.Err? && r.error == error
  {
    Err(error)
  }

  /** `InitOptions`: only `basePath` is required. */
  datatype InitOptions = InitOptions(
    basePath: string,
    frecencyDbPath: Option<string>,
    historyDbPath: Option<string>,
    useUnsafeNoLock: Option<bool>,
    warmupMmapCache: Option<bool>)

  /** `InitOptionsInternal`: the wire record; the two flags are always present. */
  datatype InitOptionsInternal = InitOptionsInternal(
    base_path: string,
    frecency_db_path: Option<string>,
    history_db_path: Option<string>,
    use_unsafe_no_lock: bool,
    warmup_mmap_cache: bool)

  /** `SearchOptions`: every field optional (numbers are modelled as integers). */
  datatype SearchOptions = SearchOptions(
    maxThreads: Option<int>,
    currentFile: Option<string>,
    comboBoostMultiplier: Option<int>,
    minComboCount: Option<int>,
    pageIndex: Option<int>,
    pageSize: Option<int>)

  datatype SearchOptionsInternal = SearchOptionsInternal(
    max_threads: Option<int>,
    current_file: Option<string>,
    combo_boost_multiplier: Option<int>,
    min_combo_count: Option<int>,
    page_index: Option<int>,
    page_size: Option<int>)

  /** `GrepMode` */
  datatype GrepMode = Plain | Regex | Fuzzy

  /** The string a grep mode is on the wire. */
  function ModeName(m: GrepMode): string {
    match m
    case Plain => "plain"
    case Regex => "regex"
    case Fuzzy => "fuzzy"
  }

  /** `GrepCursor`: an opaque wrapper around a file offset. */
  datatype GrepCursor = GrepCursor(offset: int)

  /** The `cursor` option: absent, explicitly `null`, or a cursor. */
  datatype CursorArg = NoCursor | NullCursor | Cursor(cursor: GrepCursor)

  datatype GrepOptions = GrepOptions(
    maxFileSize: Option<int>,
    maxMatchesPerFile: Option<int>,
    smartCase: Option<bool>,
    cursor: CursorArg,
    pageLimit: Option<int>,
    mode: Option<GrepMode>,
    timeBudgetMs: Option<int>)

  /** `GrepOptionsInternal`: `file_offset` is always present. */
  datatype GrepOptionsInternal = GrepOptionsInternal(
    max_file_size: Option<int>,
    max_matches_per_file: Option<int>,
    smart_case: Option<bool>,
    file_offset: int,
    page_limit: Option<int>,
    mode: Option<string>,
    time_budget_ms: Option<int>)

  /** `toInternalInitOptions` */
  function ToInternalInitOptions(opts: InitOptions): InitOptionsInternal {
    InitOptionsInternal(
      opts.basePath,
      opts.frecencyDbPath,
      opts.historyDbPath,
      opts.useUnsafeNoLock.GetOr(false),
      opts.warmupMmapCache.GetOr(false))
  }

  /** `toInternalSearchOptions`; `opts` may be `undefined`. */
  function ToInternalSearchOptions(opts: Option<SearchOptions>): SearchOptionsInternal {
    match opts
    case None => SearchOptionsInternal(None, None, None, None, None, None)
    case Some(o) =>
      SearchOptionsInternal(o.maxThreads, o.currentFile, o.comboBoostMultiplier, o.minComboCount, o.pageIndex, o.pageSize)
  }

  /** `opts?.cursor?._offset ?? 0` */
  function CursorOffset(opts: Option<GrepOptions>): int {
    if opts.Some? && opts.value.cursor.Cursor? then opts.value.cursor.cursor.offset else 0
  }

  /** `toInternalGrepOptions`; `opts` may be `undefined`. */
  function ToInternalGrepOptions(opts: Option<GrepOptions>): GrepOptionsInternal {
    match opts
    case None => GrepOptionsInternal(None, None, None, 0, None, None, None)
    case Some(o) =>
      GrepOptionsInternal(
        o.maxFileSize, o.maxMatchesPerFile, o.smartCase, CursorOffset(opts), o.pageLimit,
        if o.mode.Some? then Some(ModeName(o.mode.value)) else None,
        o.timeBudgetMs)
  }

  /** `createGrepCursor(offset)` */
  function CreateGrepCursor(offset: int): (c: GrepCursor)
    ensures c.offset == offset
  {
    GrepCursor(offset)
  }

  function StrValue(v: Option<string>): Option<Json> {
    if v.Some? then Some(JStr(v.value)) else None
  }

  function NumValue(v: Option<int>): Option<Json> {
    if v.Some? then Some(JNum(v.value)) else None
  }

  function BoolValue(v: Option<bool>): Option<Json> {
    if v.Some? then Some(JBool(v.value)) else None
  }

  /** The properties of the `init` wire record, in declaration order. */
  function InitProperties(i: InitOptionsInternal): seq<(string, Option<Json>)> {
    [("base_path", Some(JStr(i.base_path))),
     ("frecency_db_path", StrValue(i.frecency_db_path)),
     ("history_db_path", StrValue(i.history_db_path)),
     ("use_unsafe_no_lock", Some(JBool(i.use_unsafe_no_lock))),
     ("warmup_mmap_cache", Some(JBool(i.warmup_mmap_cache)))]
  }

  /** The object `JSON.stringify(internalOpts)` writes for `init`. */
  function InitWire(i: InitOptionsInternal): Json {
    JObj(Present(InitProperties(i)))
  }

  function SearchProperties(i: SearchOptionsInternal): seq<(string, Option<Json>)> {
    [("max_threads", NumValue(i.max_threads)),
     ("current_file", StrValue(i.current_file)),
     ("combo_boost_multiplier", NumValue(i.combo_boost_multiplier)),
     ("min_combo_count", NumValue(i.min_combo_count)),
     ("page_index", NumValue(i.page_index)),
     ("page_size", NumValue(i.page_size))]
  }

  /** The object `JSON.stringify(internalOpts)` writes for `search`. */
  function SearchWire(i: SearchOptionsInternal): Json {
    JObj(Present(SearchProperties(i)))
  }

  function GrepProperties(i: GrepOptionsInternal): seq<(string, Option<Json>)> {
    [("max_file_size", NumValue(i.max_file_size)),
     ("max_matches_per_file", NumValue(i.max_matches_per_file)),
     ("smart_case", BoolValue(i.smart_case)),
     ("file_offset", Some(JNum(i.file_offset))),
     ("page_limit", NumValue(i.page_limit)),
     ("mode", StrValue(i.mode)),
     ("time_budget_ms", NumValue(i.time_budget_ms))]
  }

  /** The object `JSON.stringify(internalOpts)` writes for `liveGrep`. */
  function GrepWire(i: GrepOptionsInternal): Json {
    JObj(Present(GrepProperties(i)))
  }

  /**
   * The native side reads `base_path`, `frecency_db_path` and `history_db_path` as the
   * host values, unchanged, and the two flags as the supplied boolean or `false`.
   */
  lemma InitOptionsOnTheWire(o: InitOptions)
    ensures var fs := InitWire(ToInternalInitOptions(o)).fields;
      && Lookup(fs, "base_path") == Some(JStr(o.basePath))
      && Lookup(fs, "frecency_db_path") == StrValue(o.frecencyDbPath)
      && Lookup(fs, "history_db_path") == StrValue(o.historyDbPath)
      && Lookup(fs, "use_unsafe_no_lock") == Some(JBool(o.useUnsafeNoLock == Some(true)))
      && Lookup(fs, "warmup_mmap_cache") == Some(JBool(o.warmupMmapCache == Some(true)))
  {
    var ps := InitProperties(ToInternalInitOptions(o));
    LookupPresent(ps, 0);
    LookupPresent(ps, 1);
    LookupPresent(ps, 2);
    LookupPresent(ps, 3);
    LookupPresent(ps, 4);
  }

  /** Each of the six search fields reaches the wire unchanged; with no options no field is written. */
  lemma SearchOptionsOnTheWire(opts: Option<SearchOptions>)
    ensures opts.None? ==> SearchWire(ToInternalSearchOptions(opts)).fields == []
    ensures opts.Some? ==>
      var fs := SearchWire(ToInternalSearchOptions(opts)).fields;
      var o := opts.value;
      && Lookup(fs, "max_threads") == NumValue(o.maxThreads)
      && Lookup(fs, "current_file") == StrValue(o.currentFile)
      && Lookup(fs, "combo_boost_multiplier") == NumValue(o.comboBoostMultiplier)
      && Lookup(fs, "min_combo_count") == NumValue(o.minComboCount)
      && Lookup(fs, "page_index") == NumValue(o.pageIndex)
      && Lookup(fs, "page_size") == NumValue(o.pageSize)
  {
    var ps := SearchProperties(ToInternalSearchOptions(opts));
    if opts.None? {
      assert ps[1..][1..][1..][1..][1..][1..] == [];
    } else {
      LookupPresent(ps, 0);
      LookupPresent(ps, 1);
      LookupPresent(ps, 2);
      LookupPresent(ps, 3);
      LookupPresent(ps, 4);
      LookupPresent(ps, 5);
    }
  }

  /**
   * `file_offset` is always written: the cursor's offset when a cursor is given, else 0;
   * the other grep fields reach the wire unchanged, the mode as its name.
   */
  lemma GrepOptionsOnTheWire(opts: Option<GrepOptions>)
    ensures var fs := GrepWire(ToInternalGrepOptions(opts)).fields;
      && Lookup(fs, "file_offset") ==
           Some(JNum(if opts.Some? && opts.value.cursor.Cursor? then opts.value.cursor.cursor.offset else 0))
      && (opts.None? ==> fs == [("file_offset", JNum(0))])
      && (opts.Some? ==>
            var o := opts.value;
            && Lookup(fs, "max_file_size") == NumValue(o.maxFileSize)
            && Lookup(fs, "max_matches_per_file") == NumValue(o.maxMatchesPerFile)
            && Lookup(fs, "smart_case") == BoolValue(o.smartCase)
            && Lookup(fs, "page_limit") == NumValue(o.pageLimit)
            && Lookup(fs, "mode") == (if o.mode.Some? then Some(JStr(ModeName(o.mode.value))) else None)
            && Lookup(fs, "time_budget_ms") == NumValue(o.timeBudgetMs))
  {
    var ps := GrepProperties(ToInternalGrepOptions(opts));
    LookupPresent(ps, 3);
    if opts.None? {
      assert ps[1..][1..][1..][1..][1..][1..][1..] == [];
    } else {
      LookupPresent(ps, 0);
      LookupPresent(ps, 1);
      LookupPresent(ps, 2);
      LookupPresent(ps, 4);
      LookupPresent(ps, 5);
      LookupPresent(ps, 6);
    }
  }

  /** Handing back a cursor made from offset `n` asks the native side to resume at exactly `n`. */
  lemma CursorRoundTrip(o: GrepOptions, n: int)
    ensures ToInternalGrepOptions(Some(o.(cursor := Cursor(CreateGrepCursor(n))))).file_offset == n
  {
  }

  /** Without a cursor, or with `cursor: null`, grep starts at file offset 0. */
  lemma NoCursorStartsAtZero(opts: Option<GrepOptions>)
    requires opts.None? || !opts.value.cursor.Cursor?
    ensures ToInternalGrepOptions(opts).file_offset == 0
  {
  }
}
