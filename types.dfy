/**
 * The values the controller stores: feed definitions, payloads, callback
 * stack slots, transport requests and the observable effects (fetches,
 * aborts, callback invocations, interval operations), plus the pure
 * helpers that read a definition: `setLoaderArgs`, `getNormalizationFN`
 * and the data-type choice of `loadFeed`.
 */
module FeedTypes {
  import opened Wrappers
  import opened Text
  import opened Helpers

  /** Identity of a user-supplied function (a callback or a normaliser); its body is opaque. */
  type FnId = nat

  /** What a definition's `normalize` property holds. */
  datatype Normalize =
    | NoNormalize                 // absent, or neither a function nor a string
    | NormalizeFn(fn: FnId)       // a function
    | NormalizeRef(feed: string)  // a string naming another feed
    | StringNormalize             // `String.prototype.normalize`: what `info.normalize` reads when `info` is a url string

  /**
   * A feed definition: either a bare url string or an object. In the
   * object, `url == ""` and `kind == ""` stand for a missing `url` / `type`,
   * `refresh` is in hundredths of a minute (`None` when absent or not a
   * number), and `jsonpCallback` is `Some` exactly when it is a string.
   */
  datatype FeedDef =
    | UrlOnly(url: string)
    | Spec(url: string, kind: string, refresh: Option<int>, normalize: Normalize, jsonpCallback: Option<string>)

  /** `feeds[name]` tests true: an object, or a non-empty url string. */
  predicate DefTruthy(d: FeedDef)
  {
    d.Spec? || d.url != ""
  }

  function NormalizeOf(d: FeedDef): Normalize
  {
    if d.UrlOnly? then StringNormalize else d.normalize
  }

  function RefreshOf(d: FeedDef): Option<int>
  {
    if d.UrlOnly? then None else d.refresh
  }

  function JsonpOptionOf(d: FeedDef): Option<string>
  {
    if d.UrlOnly? then None else d.jsonpCallback
  }

  function KindOf(d: FeedDef): string
  {
    if d.UrlOnly? then "" else d.kind
  }

  /** A payload: `undefined`, an opaque transport value, or a normaliser applied to a payload. */
  datatype Value = Undefined | Payload(id: nat) | Normalized(fn: FnId, raw: Value)

  /** An entry of a `_callStack` array. */
  datatype Slot = Callback(fn: FnId) | NotFunction

  /** One transport call: the feed it loads, the definition its completion closure captured, and the ajax settings. */
  datatype Request = Request(feed: string, info: FeedDef, url: string, dataType: string, query: map<string, string>)

  /** What the controller does to the outside world, in order. */
  datatype Effect =
    | Fetch(token: nat)
    | Abort(token: nat)
    | Invoke(fn: FnId, value: Value)
    | ClearInterval(timer: nat)
    | SetInterval(timer: nat, feed: string, ms: nat)

  /**
   * The first argument of `onLoad` / `getData`: a string, a non-array
   * object with a `type` (and perhaps a `callback`) property, or anything else.
   */
  datatype Arg = StringArg(s: string) | ObjectArg(kind: Option<string>, callback: Option<FnId>) | OtherArg

  /** The `{type, callback}` object `setLoaderArgs` returns; `None` stands for `false`. */
  datatype LoaderArgs = LoaderArgs(feed: Option<string>, callback: Option<FnId>)

  /**
   * `setLoaderArgs(arguments)`: the type comes from a string first argument
   * or from the `type` of an object first argument; the callback only from a
   * function second argument.
   */
  function SetLoaderArgs(a0: Arg, a1: Option<FnId>): (r: LoaderArgs)
    ensures r.callback == a1
    ensures a0.StringArg? ==> r.feed == Some(a0.s)
    ensures a0.ObjectArg? ==> (r.feed.Some? <==> Truthy(a0.kind)) && (Truthy(a0.kind) ==> r.feed == a0.kind)
    ensures a0.OtherArg? ==> r.feed.None?
  {
    var feed := match a0
      case StringArg(s) => Some(s)
      case ObjectArg(k, _) => if Truthy(k) then k else None
      case OtherArg => None;
    LoaderArgs(feed, a1)
  }

  /** The object form's `callback` property is never read: `{type, callback}` alone yields no callback. */
  lemma ObjectFormHasNoCallback(kind: string, cb: FnId)
    requires kind != ""
    ensures SetLoaderArgs(ObjectArg(Some(kind), Some(cb)), None) == LoaderArgs(Some(kind), None)
  {
  }

  /** The function `commonSuccessFN` applies to a payload. */
  datatype Normalizer = Identity | Apply(fn: FnId) | Throws

  /**
   * `getNormalizationFN(val, feeds)`: a function is used as it is; a string
   * is looked up among the feeds and that feed's `normalize` is used if it is
   * a function; otherwise the payload passes through. A url-string feed's
   * `normalize` is `String.prototype.normalize`, which throws when called
   * unbound.
   */
  function GetNormalizationFn(val: Normalize, feeds: map<string, FeedDef>): (r: Normalizer)
    ensures r.Apply? <==> (val.NormalizeFn? || (val.NormalizeRef? && val.feed in feeds && NormalizeOf(feeds[val.feed]).NormalizeFn?))
    ensures r.Apply? ==> r.fn == (if val.NormalizeFn? then val.fn else NormalizeOf(feeds[val.feed]).fn)
    ensures r.Throws? <==> (val.StringNormalize? || (val.NormalizeRef? && val.feed in feeds && NormalizeOf(feeds[val.feed]).StringNormalize?))
  {
    match val
    case NormalizeFn(f) => Apply(f)
    case StringNormalize => Throws
    case NoNormalize => Identity
    case NormalizeRef(n) =>
      if n in feeds then
        match NormalizeOf(feeds[n])
        case NormalizeFn(g) => Apply(g)
        case StringNormalize => Throws
        case _ => Identity
      else Identity
  }

  /** Only one level of indirection: a name that points at another name gives no normaliser. */
  lemma NormalizeRefIsOneLevel(n: string, m: string, feeds: map<string, FeedDef>)
    requires n in feeds && NormalizeOf(feeds[n]) == NormalizeRef(m)
    ensures GetNormalizationFn(NormalizeRef(n), feeds) == Identity
  {
  }

  /** The value `commonSuccessFN` stores, or `None` when the normaliser throws. */
  function Normalise(nf: Normalizer, raw: Value): Option<Value>
  {
    match nf
    case Identity => Some(raw)
    case Apply(f) => Some(Normalized(f, raw))
    case Throws => None
  }

  /**
   * The data type exactly as `loadFeed` computes it: `"jsonp"` when the
   * definition has a string `jsonpCallback` or the url carries a non-empty
   * callback, else the definition's `type` when `inDataType` accepts it,
   * else `"json"`; lower-cased.
   */
  function LoaderDataType(info: FeedDef, url: string): string
  {
    var ret :=
      if JsonpOptionOf(info).Some? || Truthy(GetJsonp(url)) then "jsonp"
      else if KindOf(info) != "" && InDataType(KindOf(info)) then KindOf(info)
      else "json";
    Lower(ret)
  }

  /** The data type a load uses: JSONP for a callback in the definition or the url, JSON otherwise. */
  function DataTypeOf(info: FeedDef, url: string): string
  {
    if JsonpOptionOf(info).Some? || Truthy(GetJsonp(url)) then "jsonp" else "json"
  }

  /**
   * Since `inDataType` never accepts a type, the definition's `type` is
   * never used: the loader's data type is always `"jsonp"` or `"json"`, and
   * `"jsonp"` exactly when a callback is configured or present in the url.
   */
  lemma LoaderDataTypeIsJsonOrJsonp(info: FeedDef, url: string)
    ensures LoaderDataType(info, url) == DataTypeOf(info, url)
    ensures LoaderDataType(info, url) == "jsonp" <==> JsonpOptionOf(info).Some? || Truthy(GetJsonp(url))
    ensures LoaderDataType(info, url) != "jsonp" ==> LoaderDataType(info, url) == "json"
  {
    LowerOfLower("json");
    LowerOfLower("jsonp");
  }
}
