/**
 * The extension entry point (src/index.ts): the path helpers of the `@` file picker,
 * and the module-level `fffState` that brings the finder up once per process, serves
 * picker searches from it and tears it down at session shutdown.
 */
module Extension {
  import opened Wrappers
  import opened Strings
  import opened Json
  import opened Types
  import opened Ffi
  import opened Finder

  /** `normalizePath`: every `\` becomes `/`, then one leading `./` and one trailing `/` are dropped. */
  function NormalizePath(p: string): (r: string)
    ensures '\\' !in r
    ensures |r| <= |p|
  {
    var s := BackslashesToSlashes(p);
    var t := if StartsWith(s, "./") then s[2..] else s;
    if EndsWith(t, "/") then t[..|t| - 1] else t
  }

  /** What `normalizePath` keeps is one stretch of the slash-converted path: two characters in after a `./`, and short of its end by at most a `/`. */
  lemma NormalizePathTrims(p: string)
    ensures var s, r := BackslashesToSlashes(p), NormalizePath(p);
      var k := if StartsWith(s, "./") then 2 else 0;
      && k + |r| <= |s| <= k + |r| + 1
      && r == s[k..k + |r|]
      && (|s| == k + |r| + 1 ==> s[|s| - 1] == '/')
      && (|s| == k + |r| + 1 <==> EndsWith(s[k..], "/"))
  {
  }

  /** A path already in normal form has no `./` in front of it and no `/` at its end, and is not changed by the backslash rewrite. */
  lemma NormalFormShape(p: string)
    requires NormalizePath(p) == p
    ensures '\\' !in p
    ensures !StartsWith(p, "./") && !EndsWith(p, "/")
  {
    var s := BackslashesToSlashes(p);
    assert s == p by {
      forall i | 0 <= i < |p| ensures s[i] == p[i] {
        assert p[i] != '\\';
      }
    }
  }

  /** `extractPathFromValue`: drop one `@`, then the surrounding quotes (a lone `"` becomes empty), then normalize. */
  function ExtractPathFromValue(value: string): (r: string)
    ensures '\\' !in r && |r| <= |value|
    ensures !StartsWith(value, "@") && !Wrapped(value) ==> r == NormalizePath(value)
  {
    var path := if StartsWith(value, "@") then value[1..] else value;
    var unquoted :=
      if StartsWith(path, "\"") && EndsWith(path, "\"") then (if |path| < 2 then "" else path[1..|path| - 1])
      else path;
    NormalizePath(unquoted)
  }

  /** `buildCompletionValue`: `@path`, or `@"path"` when the prefix was quoted or the path has a space. */
  function BuildCompletionValue(path: string, isQuotedPrefix: bool): (r: string)
    ensures StartsWith(r, "@")
    ensures !isQuotedPrefix && ' ' !in path ==> r == "@" + path
    ensures isQuotedPrefix || ' ' in path ==> r == "@\"" + path + "\""
  {
    if !isQuotedPrefix && ' ' !in path then "@" + path else "@\"" + path + "\""
  }

  /** A path is wrapped when it starts and ends with `"` (a lone `"` is wrapped). */
  predicate Wrapped(p: string) {
    StartsWith(p, "\"") && EndsWith(p, "\"")
  }

  /** Reading back a completion value gives the normal form of the path it was built from, unless that path is itself wrapped and left unquoted. */
  lemma CompletionValueReadBack(p: string, isQuotedPrefix: bool)
    requires isQuotedPrefix || ' ' in p || !Wrapped(p)
    ensures ExtractPathFromValue(BuildCompletionValue(p, isQuotedPrefix)) == NormalizePath(p)
  {
    var v := BuildCompletionValue(p, isQuotedPrefix);
    if isQuotedPrefix || ' ' in p {
      var q := "\"" + p + "\"";
      assert v == "@" + q;
      assert v[1..] == q;
      assert StartsWith(q, "\"") && EndsWith(q, "\"");
      assert q[1..|q| - 1] == p;
    } else {
      assert v[1..] == p;
    }
  }

  /** The round trip: a path in normal form comes back unchanged. */
  lemma CompletionValueRoundTrip(p: string, isQuotedPrefix: bool)
    requires NormalizePath(p) == p
    requires isQuotedPrefix || ' ' in p || !Wrapped(p)
    ensures ExtractPathFromValue(BuildCompletionValue(p, isQuotedPrefix)) == p
  {
    CompletionValueReadBack(p, isQuotedPrefix);
  }

  /** Without the quotes the round trip breaks for a wrapped path: its own quotes are taken off. */
  lemma UnquotedWrappedPathLosesQuotes(p: string)
    requires Wrapped(p) && ' ' !in p
    ensures ExtractPathFromValue(BuildCompletionValue(p, false)) == NormalizePath(if |p| < 2 then "" else p[1..|p| - 1])
    ensures ExtractPathFromValue(BuildCompletionValue(p, false)) != p
  {
    var v := BuildCompletionValue(p, false);
    assert v[1..] == p;
  }

  /** A picker entry: the normalized path, the value inserted after `@`, the label (`fileName`) and the description. */
  datatype Suggestion = Suggestion(path: string, value: string, fileName: JsValue, description: string)

  /** `items.slice(0, limit)`: a negative `limit` counts from the end. */
  function SliceTo<T>(s: seq<T>, limit: int): (r: seq<T>)
    ensures |r| <= |s| && r == s[..|r|]
    ensures limit >= 0 ==> |r| == if limit < |s| then limit else |s|
    ensures limit < 0 ==> |r| == if |s| + limit > 0 then |s| + limit else 0
  {
    if limit >= 0 then (if limit < |s| then s[..limit] else s)
    else if |s| + limit > 0 then s[..|s| + limit] else []
  }

  /** `item.relativePath || item.path`, which must be a string for `normalizePath`. */
  function ItemPath(item: Json): (r: Outcome<string>)
    ensures r.Returned? ==> item.JObj?
    ensures r.Returned? && item.JObj? ==>
              var rel := Prop(item.fields, "relativePath");
              if Truthy(rel) then rel == Defined(JStr(r.value))
              else Prop(item.fields, "path") == Defined(JStr(r.value))
    ensures r.Returned? <==>
              && item.JObj?
              && var rel := Prop(item.fields, "relativePath");
                 var chosen := if Truthy(rel) then rel else Prop(item.fields, "path");
                 chosen.Defined? && chosen.json.JStr?
  {
    match Field(Defined(item), "relativePath")
    case Threw(m) => Threw(m)
    case Returned(rel) =>
      var chosen := if Truthy(rel) then rel else Field(Defined(item), "path").value;
      if chosen.Defined? && chosen.json.JStr? then Returned(chosen.json.s)
      else Threw("TypeError: path.replace is not a function")
  }

  /** The entry `searchFff` builds from one item; the score expression reads `scores[index]`, which throws when `scores` is missing. */
  function Suggest(item: Json, scores: JsValue, isQuotedPrefix: bool): (r: Outcome<Suggestion>)
    ensures r.Returned? ==>
              && ItemPath(item).Returned?
              && r.value.path == NormalizePath(ItemPath(item).value)
              && r.value.description == r.value.path
              && r.value.value == BuildCompletionValue(r.value.path, isQuotedPrefix)
              && r.value.fileName == Prop(item.fields, "fileName")
    ensures r.Threw? <==> ItemPath(item).Threw? || scores == Undefined || scores == Defined(JNull)
  {
    match ItemPath(item)
    case Threw(m) => Threw(m)
    case Returned(raw) =>
      if scores == Undefined || scores == Defined(JNull) then Threw("TypeError: Cannot read properties of undefined")
      else
        var path := NormalizePath(raw);
        Returned(Suggestion(path, BuildCompletionValue(path, isQuotedPrefix), Field(Defined(item), "fileName").value, path))
  }

  /** `xs.map(f)` for a callback that may throw: every result in order, or the first exception. */
  function MapAll<A, B>(xs: seq<A>, f: A -> Outcome<B>): (r: Outcome<seq<B>>)
    ensures r.Returned? ==>
              && |r.value| == |xs|
              && forall i :: 0 <= i < |xs| ==> f(xs[i]) == Returned(r.value[i])
    ensures r.Threw? <==> exists i :: 0 <= i < |xs| && f(xs[i]).Threw?
  {
    if xs == [] then Returned([])
    else
      match f(xs[0])
      case Threw(m) => Threw(m)
      case Returned(first) =>
        match MapAll(xs[1..], f)
        case Threw(m) =>
          var i :| 0 <= i < |xs[1..]| && f(xs[1..][i]).Threw?;
          assert f(xs[i + 1]).Threw?;
          Threw(m)
        case Returned(rest) => Returned([first] + rest)
  }

  /** What `searchFff` makes of a successful search: the first `limit` items as picker entries. */
  function SearchSuggestions(value: JsValue, isQuotedPrefix: bool, limit: int): (r: Outcome<seq<Suggestion>>)
    ensures r.Returned? && limit >= 0 ==> |r.value| <= limit
    ensures r.Returned? ==>
              value.Defined? && value.json.JObj? && Prop(value.json.fields, "items").Defined?
              && Prop(value.json.fields, "items").json.JArr?
              && var items := SliceTo(Prop(value.json.fields, "items").json.elems, limit);
              && |r.value| == |items|
              && forall i :: 0 <= i < |items| ==> Suggest(items[i], Prop(value.json.fields, "scores"), isQuotedPrefix) == Returned(r.value[i])
    ensures r.Threw? <==>
              || !(value.Defined? && value.json.JObj? && Prop(value.json.fields, "items").Defined?
                   && Prop(value.json.fields, "items").json.JArr?)
              || var items := SliceTo(Prop(value.json.fields, "items").json.elems, limit);
                 exists i :: 0 <= i < |items| && Suggest(items[i], Prop(value.json.fields, "scores"), isQuotedPrefix).Threw?
  {
    match Field(value, "items")
    case Threw(m) => Threw(m)
    case Returned(items) =>
      if items.Defined? && items.json.JArr? then
        var scores := Field(value, "scores").value;
        MapAll(SliceTo(items.json.elems, limit), item => Suggest(item, scores, isQuotedPrefix))
      else Threw("TypeError: items.slice is not a function")
  }

  /** The options `searchFff` searches with: a page of `max(limit, 20)` results. */
  function PageOptions(limit: int): (o: SearchOptions)
    ensures o.pageSize.Some? && o.pageSize.value >= 20 && o.pageSize.value >= limit
    ensures o.pageSize.value == limit || o.pageSize.value == 20
    ensures o == SearchOptions(None, None, None, None, None, o.pageSize)
  {
    SearchOptions(None, None, None, None, None, Some(if limit > 20 then limit else 20))
  }

  /** What `searchFff` returns once the search has answered. */
  function SearchAnswer(res: Result<JsValue>, isQuotedPrefix: bool, limit: int): (r: Outcome<seq<Suggestion>>)
    ensures res.Err? ==> r == Returned([])
    ensures res.Ok? ==> r == SearchSuggestions(res.value, isQuotedPrefix, limit)
    ensures r.Returned? && limit >= 0 ==> |r.value| <= limit
  {
    if res.Err? then Returned([]) else SearchSuggestions(res.value, isQuotedPrefix, limit)
  }

  /** The `fffState` record, in front of the finder. */
  class FffState {
    const finder: FileFinder
    var initialized: bool
    var basePath: string

    /** The state is only set while the finder is initialized, and is cleared completely. */
    ghost predicate Valid()
      reads this, finder, finder.bridge
    {
      && finder.Valid()
      && (initialized ==> finder.initialized)
      && (!initialized ==> basePath == "")
    }

    constructor (finder: FileFinder)
      requires finder.Valid()
      ensures this.finder == finder && !initialized && basePath == ""
      ensures Valid()
    {
      this.finder := finder;
      initialized := false;
      basePath := "";
    }

    /**
     * `initializeFinder`: a second call only compares base paths. The first one
     * initializes the finder and waits up to 500 ms for the scan; the state is set
     * only when both succeed (a timed-out wait, `ok(false)`, counts), and a failed
     * wait destroys the finder again.
     */
    method InitializeFinder(basePath: string, initReply: NativeResult, scanReply: NativeResult, destroyReply: NativeResult)
      returns (r: Outcome<bool>)
      requires Valid()
      modifies this, finder, finder.bridge
      ensures Valid()
      ensures old(initialized) ==>
                && r == Returned(old(this.basePath) == basePath)
                && initialized && this.basePath == old(this.basePath)
                && finder.initialized == old(finder.initialized) && finder.bridge.Untouched()
      ensures !old(initialized) && finder.bridge.lib.None? ==>
                && r == Threw(LoadError)
                && !initialized && this.basePath == old(this.basePath)
                && finder.initialized == old(finder.initialized)
                && finder.bridge.calls == old(finder.bridge.calls) && finder.bridge.frees == old(finder.bridge.frees)
      ensures !old(initialized) ==> finder.bridge.Loading()
      ensures !old(initialized) && finder.bridge.lib.Some? ==>
                var bridge := finder.bridge;
                var initCall := CallInit(InitWire(ToInternalInitOptions(InitOptions(basePath, None, None, None, None))));
                var initRes := ParseResultValue(initReply, bridge.parse);
                var scanRes := FlagResult(ParseResultValue(scanReply, bridge.parse));
                && (initRes.Err? ==>
                      && r == Returned(false)
                      && !initialized && this.basePath == old(this.basePath)
                      && finder.initialized == old(finder.initialized)
                      && bridge.calls == old(bridge.calls) + [initCall] && bridge.frees == old(bridge.frees) + Freed(initReply))
                && (initRes.Ok? && scanRes.Err? ==>
                      && r == Returned(false)
                      && !initialized && this.basePath == old(this.basePath)
                      && finder.initialized == !ParseResultValue(destroyReply, bridge.parse).Ok?
                      && bridge.calls == old(bridge.calls) + [initCall, CallWaitForScan(500), CallDestroy]
                      && bridge.frees == old(bridge.frees) + Freed(initReply) + Freed(scanReply) + Freed(destroyReply))
                && (initRes.Ok? && scanRes.Ok? ==>
                      && r == Returned(true)
                      && initialized && this.basePath == basePath && finder.initialized
                      && bridge.calls == old(bridge.calls) + [initCall, CallWaitForScan(500)]
                      && bridge.frees == old(bridge.frees) + Freed(initReply) + Freed(scanReply))
    {
      if initialized {
        return Returned(this.basePath == basePath);
      }
      var init := finder.Init(InitOptions(basePath, None, None, None, None), initReply);
      match init
      case Threw(m) =>
        r := Threw(m);
      case Returned(initResult) =>
        if initResult.Err? {
          return Returned(false);
        }
        var scan := finder.WaitForScan(scanReply, 500);
        if scan.Threw? {
          return Threw(scan.message);
        }
        if scan.value.Err? {
          var destroyed := finder.Destroy(destroyReply);
          return Returned(false);
        }
        this.initialized := true;
        this.basePath := basePath;
        r := Returned(true);
    }

    /** `destroyFinder`: when initialized, destroy the finder and clear the state whatever `destroy` answers. */
    method DestroyFinder(destroyReply: NativeResult)
      requires Valid()
      modifies this, finder, finder.bridge
      ensures Valid()
      ensures !old(initialized) ==>
                && !initialized && basePath == old(basePath)
                && finder.initialized == old(finder.initialized) && finder.bridge.Untouched()
      ensures old(initialized) ==>
                && !initialized && basePath == ""
                && finder.bridge.Invoked(CallDestroy, Freed(destroyReply))
                && finder.initialized == !ParseResultValue(destroyReply, finder.bridge.parse).Ok?
    {
      if !initialized {
        return;
      }
      var destroyed := finder.Destroy(destroyReply);
      initialized := false;
      basePath := "";
    }

    /**
     * `searchFff`: nothing before initialization or after a failed search; otherwise
     * the first `limit` hits of a page of `max(limit, 20)` as picker entries.
     */
    method SearchFff(query: string, isQuotedPrefix: bool, limit: int, reply: NativeResult) returns (r: Outcome<seq<Suggestion>>)
      requires Valid()
      modifies finder.bridge
      ensures Valid()
      ensures !initialized ==> r == Returned([]) && finder.bridge.Untouched()
      ensures initialized ==>
                && finder.bridge.Invoked(CallSearch(query, SearchWire(ToInternalSearchOptions(Some(PageOptions(limit))))), Freed(reply))
                && r == SearchAnswer(ParseResultValue(reply, finder.bridge.parse), isQuotedPrefix, limit)
      ensures r.Returned? && limit >= 0 ==> |r.value| <= limit
    {
      if !initialized {
        return Returned([]);
      }
      var result := finder.Search(query, Some(PageOptions(limit)), reply);
      match result
      case Threw(m) =>
        r := Threw(m);
      case Returned(res) =>
        r := SearchAnswer(res, isQuotedPrefix, limit);
    }
  }
}
