/**
 * The feed controller's state as one value and each of its operations as a
 * function from the state before to the state after. The `Controller` class
 * does the same updates in place on its own fields and is proved to agree
 * with these functions; the lemmas below state what the operations promise.
 *
 * Timers and requests are abstract tokens: `SetInterval` allocates a fresh
 * timer number, each transport call gets the index of its request in
 * `issued`, and the environment drives completions (`Complete`) and interval
 * ticks (`Tick`).
 */
module Lifecycle {
  import opened Wrappers
  import opened Text
  import opened Helpers
  import opened FeedTypes

  /** `CONST.minRefreshRate`, 0.5 minutes, in hundredths of a minute. */
  const MinRefresh := 50

  /** Milliseconds per hundredth of a minute (`refresh * 60000` for minutes). */
  const MsPerHundredth := 600

  /** The `max` of `getData`'s poll counter. */
  const PollMax := 120

  datatype State = State(
    hasFeeds: bool,                      // `_config.feeds` is set
    feeds: map<string, FeedDef>,         // `_config.feeds`
    order: seq<string>,                  // the key order `for (i in feeds)` follows
    cacheTime: nat,                      // `_config.cacheTime` in minutes, 0 when unset
    data: map<string, Value>,            // `_data`
    initExe: set<string>,                // the keys of `_initExe` (every value is `true`)
    callStack: map<string, seq<Slot>>,   // `_callStack`
    refreshObj: map<string, nat>,        // `_refreshObj`: the interval handle per feed
    xhr: map<string, nat>,               // `_xhr`: the last request handle per feed
    timers: map<nat, string>,            // live intervals, and the feed each reloads
    nextTimer: nat,                      // next interval handle
    issued: seq<Request>,                // every transport call, in order
    open: set<nat>,                      // requests the transport may still deliver
    trace: seq<Effect>)                  // what was done to the outside world

  /** `feeds[name]` tests true. */
  predicate Registered(s: State, name: string)
  {
    name in s.feeds && DefTruthy(s.feeds[name])
  }

  function StackOf(s: State, name: string): seq<Slot>
  {
    if name in s.callStack then s.callStack[name] else []
  }

  predicate Distinct(xs: seq<string>)
  {
    forall i, j :: 0 <= i < j < |xs| ==> xs[i] != xs[j]
  }

  /** What every operation keeps true. */
  ghost predicate Inv(s: State)
  {
    && (!s.hasFeeds ==> s.feeds == map[])
    && Distinct(s.order)
    && (forall n :: n in s.order <==> n in s.feeds)
    && (forall t :: t in s.open ==> t < |s.issued|)
    && (forall n :: n in s.xhr ==> s.xhr[n] < |s.issued|)
    && (forall t :: t in s.timers ==> t < s.nextTimer)
    && (forall n :: n in s.refreshObj ==> s.refreshObj[n] in s.timers && s.timers[s.refreshObj[n]] == n)
    && s.initExe <= s.data.Keys
  }

  /** Every live interval is the one `_refreshObj` holds for its feed. */
  ghost predicate TimersTracked(s: State)
  {
    forall t :: t in s.timers ==> s.timers[t] in s.refreshObj && s.refreshObj[s.timers[t]] == t
  }

  // ---------------------------------------------------------------- loader

  /** The query data of the ajax settings: the JSONP callback parameter and the cache buster. */
  function QueryData(name: string, info: FeedDef, url: string, dataType: string, cacheTime: nat, now: Clock): map<string, string>
  {
    var base :=
      if dataType == "jsonp" then
        var urlCallback := GetJsonp(url);
        var cb := UseJsonpCallback(name, JsonpOptionOf(info), urlCallback);
        if Truthy(urlCallback) then map[] else map[cb.param := cb.name]
      else map[];
    if cacheTime > 0 then base["cb" := CacheBuster(now, cacheTime)] else base
  }

  /**
   * `loadFeed(vars, type)`: nothing without a truthy definition and url;
   * otherwise abort the previous request unless the feed is JSONP, issue a
   * new one and remember its handle.
   */
  function LoadFeed(s: State, name: string, now: Clock): State
  {
    if !Registered(s, name) || s.feeds[name].url == "" then s
    else
      var info := s.feeds[name];
      var dt := DataTypeOf(info, info.url);
      Issue(s, Request(name, info, info.url, dt, QueryData(name, info, info.url, dt, s.cacheTime, now)))
  }

  /**
   * The request-issuing half of `loadFeed`: abort the feed's previous
   * request unless this one is JSONP, then send this one and keep its handle.
   */
  function Issue(s: State, req: Request): State
  {
    var token := |s.issued|;
    var abort := req.dataType != "jsonp" && req.feed in s.xhr;
    s.(xhr := s.xhr[req.feed := token],
       issued := s.issued + [req],
       open := (if abort then s.open - {s.xhr[req.feed]} else s.open) + {token},
       trace := s.trace + (if abort then [Abort(s.xhr[req.feed])] else []) + [Fetch(token)])
  }

  /**
   * `setRefreshRate(self, type, info)`: refuse a refresh below the minimum;
   * otherwise clear the feed's interval, if any, and start a new one.
   */
  function SetRefreshRate(s: State, name: string, info: FeedDef): State
  {
    var r := RefreshOf(info);
    if r.None? || r.value < MinRefresh then s
    else Rearm(s, name, r.value * MsPerHundredth)
  }

  /** Clear the feed's interval, if it has one, and start a fresh one of `ms` milliseconds. */
  function Rearm(s: State, name: string, ms: nat): State
  {
    var t := s.nextTimer;
    var had := name in s.refreshObj;
    s.(timers := (if had then s.timers - {s.refreshObj[name]} else s.timers)[t := name],
       refreshObj := s.refreshObj[name := t],
       nextTimer := t + 1,
       trace := s.trace + (if had then [ClearInterval(s.refreshObj[name])] else []) + [SetInterval(t, name, ms)])
  }

  // ---------------------------------------------------------------- reload

  /** `reload`'s `setRefresh(type)`: arm the feed's interval only when it has no handle. */
  function Arm(s: State, name: string): State
    requires name in s.feeds
  {
    if name in s.refreshObj then s else SetRefreshRate(s, name, s.feeds[name])
  }

  /** One name of `reload`'s loop: load it if registered and arm its interval if it has none. */
  function ReloadOne(s: State, name: string, now: Clock): State
  {
    if !Registered(s, name) then s
    else Issued(s, name, now)
  }

  /** `loadFeed` then `setRefresh` for a defined name. */
  function Issued(s: State, name: string, now: Clock): State
    requires name in s.feeds
  {
    var s1 := LoadFeed(s, name, now);
    assert s1.feeds == s.feeds;
    Arm(s1, name)
  }

  function ReloadEach(s: State, names: seq<string>, now: Clock): State
  {
    if names == [] then s
    else ReloadOne(ReloadEach(s, names[..|names| - 1], now), names[|names| - 1], now)
  }

  /**
   * `event.reload(types)`: nothing without a feeds object; a string argument
   * reloads the names it lists, anything else reloads every feed.
   */
  function Reload(s: State, types: Option<string>, now: Clock): State
  {
    if !s.hasFeeds then s
    else if types.Some? then ReloadEach(s, SplitNames(types.value), now)
    else ReloadEach(s, s.order, now)
  }

  /** An interval tick reloads the feed the interval was armed for. */
  function Tick(s: State, timer: nat, now: Clock): State
  {
    if timer in s.timers then Reload(s, Some(s.timers[timer]), now) else s
  }

  // ---------------------------------------------------------------- addFeed

  /** The definition object `addFeed` accepts; `""` stands for a missing `type` or `url`. */
  datatype FeedObject = FeedObject(kind: string, url: string, refresh: Option<int>, normalize: Normalize, jsonpCallback: Option<string>)

  /** The arguments of `addFeed`: `(name, url)`, one definition object, or anything else. */
  datatype AddArgs = ByName(name: string, url: string) | ByObject(obj: FeedObject) | Malformed

  /** The `config` `addFeed` builds from its arguments. */
  function AddConfig(args: AddArgs): FeedObject
  {
    match args
    case ByName(n, u) => FeedObject(n, u, None, NoNormalize, None)
    case ByObject(o) => if o.kind != "" && o.url != "" then o else FeedObject("", "", None, NoNormalize, None)
    case Malformed => FeedObject("", "", None, NoNormalize, None)
  }

  /** The stored definition: every property of the config except `type`. */
  function Stored(cfg: FeedObject): FeedDef
  {
    Spec(cfg.url, "", cfg.refresh, cfg.normalize, cfg.jsonpCallback)
  }

  predicate AddAccepted(s: State, args: AddArgs)
  {
    var cfg := AddConfig(args);
    cfg.kind != "" && cfg.url != "" && !Registered(s, cfg.kind)
  }

  /**
   * `event.addFeed(...)`: store the definition, load it, and arm its
   * interval when the config has a non-zero `refresh`.
   */
  function AddFeed(s: State, args: AddArgs, now: Clock): State
  {
    if !AddAccepted(s, args) then s
    else
      var cfg := AddConfig(args);
      var s2 := LoadFeed(Define(s, cfg.kind, Stored(cfg)), cfg.kind, now);
      if cfg.refresh.Some? && cfg.refresh.value != 0 then SetRefreshRate(s2, cfg.kind, Stored(cfg)) else s2
  }

  /** `feeds[type] = cfg`: a new name is added at the end of the key order, a known one keeps its place. */
  function Define(s: State, name: string, def: FeedDef): State
  {
    s.(hasFeeds := true,
       feeds := s.feeds[name := def],
       order := if name in s.feeds then s.order else s.order + [name])
  }

  // ---------------------------------------------------------------- removeFeed

  function Drop(xs: seq<string>, x: string): (r: seq<string>)
    ensures forall y :: y in r <==> y in xs && y != x
    ensures Distinct(xs) ==> Distinct(r)
  {
    if xs == [] then []
    else if xs[0] == x then Drop(xs[1..], x)
    else
      var r := [xs[0]] + Drop(xs[1..], x);
      assert forall i :: 1 <= i < |r| ==> r[i] in xs[1..];
      r
  }

  /** `removeType(val)`: forget a registered feed's definition, load flag, callbacks and interval handle. */
  function RemoveOne(s: State, name: string): State
  {
    if !Registered(s, name) then s
    else s.(feeds := s.feeds - {name},
            order := Drop(s.order, name),
            initExe := s.initExe - {name},
            callStack := s.callStack - {name},
            refreshObj := s.refreshObj - {name})
  }

  function RemoveEach(s: State, names: seq<string>): State
  {
    if names == [] then s else RemoveOne(RemoveEach(s, names[..|names| - 1]), names[|names| - 1])
  }

  /** `event.removeFeed(type)`: nothing without a feeds object or a string argument. */
  function RemoveFeed(s: State, arg: Option<string>): State
  {
    if !s.hasFeeds || arg.None? then s else RemoveEach(s, SplitNames(arg.value))
  }

  // ---------------------------------------------------------------- subscribers

  /** The function slots of a stack, in index order. */
  function Callbacks(stack: seq<Slot>): seq<FnId>
  {
    if stack == [] then []
    else Callbacks(stack[..|stack| - 1]) + (if stack[|stack| - 1].Callback? then [stack[|stack| - 1].fn] else [])
  }

  /** `triggerStack(stack, data)`: the calls it makes, in index order. */
  function FanOut(stack: seq<Slot>, v: Value): seq<Effect>
  {
    if stack == [] then []
    else FanOut(stack[..|stack| - 1], v) + (if stack[|stack| - 1].Callback? then [Invoke(stack[|stack| - 1].fn, v)] else [])
  }

  predicate OnLoadAccepted(s: State, a0: Arg, a1: Option<FnId>)
  {
    var args := SetLoaderArgs(a0, a1);
    Truthy(args.feed) && args.callback.Some? && Registered(s, args.feed.value)
  }

  /**
   * `event.onLoad(...)`: push the callback on the feed's stack and, if the
   * feed has loaded before, call it at once with the current data.
   */
  function OnLoad(s: State, a0: Arg, a1: Option<FnId>): State
  {
    if !OnLoadAccepted(s, a0, a1) then s
    else
      var args := SetLoaderArgs(a0, a1);
      Subscribe(s, args.feed.value, args.callback.value)
  }

  /** Push `cb` onto the stack of `name`, then call it at once if the feed has loaded before. */
  function Subscribe(s: State, name: string, cb: FnId): State
  {
    var s1 := s.(callStack := s.callStack[name := StackOf(s, name) + [Callback(cb)]]);
    if name in s.initExe then s1.(trace := s.trace + [Invoke(cb, if name in s.data then s.data[name] else Undefined)])
    else s1
  }

  /**
   * The transport delivers request `token` with payload `raw`:
   * `commonSuccessFN` normalises it, stores it under the request's feed,
   * marks the feed loaded and runs the feed's callback stack. A request that
   * is no longer open (delivered, or aborted) does nothing; a normaliser
   * that throws stops it before anything is stored.
   */
  function Complete(s: State, token: nat, raw: Value): State
  {
    if token !in s.open || token >= |s.issued| then s
    else
      var req := s.issued[token];
      CommonSuccess(s.(open := s.open - {token}), req.feed, GetNormalizationFn(NormalizeOf(req.info), s.feeds), raw)
  }

  /**
   * `commonSuccessFN(data)` for `feed` with normaliser `nf`: store the
   * normalised payload, mark the feed loaded and run its callback stack;
   * a throwing normaliser stops it before anything changes.
   */
  function CommonSuccess(s: State, feed: string, nf: Normalizer, raw: Value): State
  {
    match Normalise(nf, raw)
    case None => s
    case Some(v) =>
      s.(data := s.data[feed := v],
         initExe := s.initExe + {feed},
         trace := s.trace + FanOut(StackOf(s, feed), v))
  }

  // ---------------------------------------------------------------- getData

  /** One `getData` call's poll: its feed, callback, counter and whether a retry is scheduled. */
  datatype Poll = Poll(feed: string, callback: FnId, cntr: nat, pending: bool)

  /** `data[feed] !== undefined`. */
  predicate HasData(s: State, name: string)
  {
    name in s.data && s.data[name] != Undefined
  }

  /**
   * One run of `attempt()`: call back with the data if there is some,
   * otherwise schedule another attempt while the counter is at most 120.
   */
  function Attempt(s: State, p: Poll): (State, Poll)
  {
    if HasData(s, p.feed) then (s.(trace := s.trace + [Invoke(p.callback, s.data[p.feed])]), p.(pending := false))
    else if p.cntr <= PollMax then (s, p.(cntr := p.cntr + 1, pending := true))
    else (s, p.(pending := false))
  }

  // ---------------------------------------------------------------- construction

  function EmptyState(hasFeeds: bool, feeds: map<string, FeedDef>, order: seq<string>, cacheTime: nat): State
  {
    State(hasFeeds, feeds, order, cacheTime, map[], {}, map[], map[], map[], map[], 0, [], {}, [])
  }

  /** A non-zero `refresh`, which `if (feeds[i].refresh)` tests. */
  predicate HasRefresh(d: FeedDef)
  {
    RefreshOf(d).Some? && RefreshOf(d).value != 0
  }

  /** One key of the constructor's loop: load it, and arm its interval if it has a `refresh`. */
  function BootOne(s: State, name: string, now: Clock): State
  {
    var s1 := LoadFeed(s, name, now);
    if name in s1.feeds && HasRefresh(s1.feeds[name]) then SetRefreshRate(s1, name, s1.feeds[name]) else s1
  }

  function BootEach(s: State, names: seq<string>, now: Clock): State
  {
    if names == [] then s else BootOne(BootEach(s, names[..|names| - 1], now), names[|names| - 1], now)
  }

  /**
   * `new App(config)`: `feeds` is `config.feeds` (`None` when unset), listed
   * in `order`; with `initOnLoad` (the default) every feed is loaded and
   * armed at once.
   */
  function Init(feeds: Option<map<string, FeedDef>>, order: seq<string>, initOnLoad: bool, cacheTime: nat, now: Clock): State
  {
    var s0 := EmptyState(feeds.Some?, if feeds.Some? then feeds.value else map[], if feeds.Some? then order else [], cacheTime);
    if initOnLoad && feeds.Some? then BootEach(s0, order, now) else s0
  }
}
