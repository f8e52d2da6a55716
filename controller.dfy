/**
 * The controller object of MultiFeedParser: the maps of `__vars` as fields
 * updated in place, the public `event` operations and the private helpers
 * that change them, and one `getData` call's poll. Every method is proved
 * to do what the matching function of `Lifecycle` says; every public
 * method also keeps the invariants proved in `FeedProperties`.
 *
 * The environment drives the asynchronous parts: `Complete` is a transport
 * delivery, `Tick` an interval firing, `DataWait.Attempt` a `getData`
 * timeout firing.
 */
module MultiFeedParser {
  import opened Wrappers
  import opened Text
  import opened Helpers
  import opened FeedTypes
  import opened Lifecycle
  import FeedProperties

  class Controller {
    var hasFeeds: bool                      // `_config.feeds` is set
    var feeds: map<string, FeedDef>         // `_config.feeds`
    var order: seq<string>                  // key order of `_config.feeds`
    const cacheTime: nat                    // `_config.cacheTime`, 0 when unset
    var data: map<string, Value>            // `_data`
    var initExe: set<string>                // `_initExe`
    var callStack: map<string, seq<Slot>>   // `_callStack`
    var refreshObj: map<string, nat>        // `_refreshObj`
    var xhr: map<string, nat>               // `_xhr`
    var timers: map<nat, string>            // live intervals
    var nextTimer: nat
    var issued: seq<Request>                // transport calls
    var open: set<nat>                      // requests still deliverable
    var trace: seq<Effect>

    function Model(): State
      reads this
    {
      State(hasFeeds, feeds, order, cacheTime, data, initExe, callStack, refreshObj, xhr,
            timers, nextTimer, issued, open, trace)
    }

    ghost predicate Valid()
      reads this
    {
      Inv(Model())
    }

    /**
     * `new App(config)`: `config.feeds` (`None` when unset) listed in
     * `keyOrder`; unless `initOnLoad` is false, loads every feed and arms
     * the ones with a `refresh`.
     */
    constructor (config: Option<map<string, FeedDef>>, keyOrder: seq<string>, initOnLoad: bool, cacheTime: nat, now: Clock)
      requires Distinct(keyOrder) && (config.Some? ==> forall n :: n in keyOrder <==> n in config.value)
      ensures Model() == Init(config, keyOrder, initOnLoad, cacheTime, now)
      ensures Valid() && TimersTracked(Model())
    {
      hasFeeds := config.Some?;
      feeds := if config.Some? then config.value else map[];
      order := if config.Some? then keyOrder else [];
      this.cacheTime := cacheTime;
      data, initExe, callStack, refreshObj, xhr := map[], {}, map[], map[], map[];
      timers, nextTimer, issued, open, trace := map[], 0, [], {}, [];
      new;
      ghost var s0 := Model();
      if initOnLoad && config.Some? {
        var i := 0;
        while i < |keyOrder|
          invariant 0 <= i <= |keyOrder|
          invariant Model() == BootEach(s0, keyOrder[..i], now)
        {
          var name := keyOrder[i];
          LoadFeed(name, now);
          if name in feeds && HasRefresh(feeds[name]) {
            var armed := SetRefreshRate(name, feeds[name]);
          }
          assert keyOrder[..i + 1][..i] == keyOrder[..i];
          i := i + 1;
        }
        assert keyOrder[..|keyOrder|] == keyOrder;
      }
      FeedProperties.InitInv(config, keyOrder, initOnLoad, cacheTime, now);
    }

    /** `loadFeed(vars, type)`. */
    method LoadFeed(name: string, now: Clock)
      modifies this
      ensures Model() == Lifecycle.LoadFeed(old(Model()), name, now)
    {
      if !(name in feeds && DefTruthy(feeds[name])) {
        return;
      }
      var info := feeds[name];
      var url := info.url;
      if url == "" {
        return;
      }
      var dataType := DataTypeOf(info, url);
      var query := QueryData(name, info, url, dataType, cacheTime, now);
      var req := Request(name, info, url, dataType, query);
      assert Lifecycle.LoadFeed(Model(), name, now) == Issue(Model(), req);
      IssueRequest(req);
    }

    /** The end of `loadFeed`: abort the feed's previous request unless `req` is JSONP, then send `req`. */
    method IssueRequest(req: Request)
      modifies this
      ensures Model() == Issue(old(Model()), req)
    {
      var token := |issued|;
      var cancelled: seq<Effect> := [];
      if req.dataType != "jsonp" && req.feed in xhr {
        cancelled := [Abort(xhr[req.feed])];
        open := open - {xhr[req.feed]};
      }
      issued, xhr := issued + [req], xhr[req.feed := token];
      open, trace := open + {token}, trace + cancelled + [Fetch(token)];
    }

    /** `setRefreshRate(self, type, info)`; `armed` is false when the refresh is refused. */
    method SetRefreshRate(name: string, info: FeedDef) returns (armed: bool)
      modifies this
      ensures Model() == Lifecycle.SetRefreshRate(old(Model()), name, info)
      ensures armed <==> RefreshOf(info).Some? && RefreshOf(info).value >= MinRefresh
    {
      var refresh := RefreshOf(info);
      if refresh.None? || refresh.value < MinRefresh {
        return false;
      }
      Rearm(name, refresh.value * MsPerHundredth);
      return true;
    }

    /** Clear the feed's interval handle, if any, and store a fresh `setInterval` handle in its place. */
    method Rearm(name: string, ms: nat)
      modifies this
      ensures Model() == Lifecycle.Rearm(old(Model()), name, ms)
    {
      var live, cleared := timers, [];
      if name in refreshObj {
        live, cleared := timers - {refreshObj[name]}, [ClearInterval(refreshObj[name])];
      }
      var t := nextTimer;
      timers, refreshObj, nextTimer := live[t := name], refreshObj[name := t], t + 1;
      trace := trace + cleared + [SetInterval(t, name, ms)];
    }

    /** `reload`'s `setRefresh(type)`: arm the feed only when it has no interval handle. */
    method SetRefresh(name: string)
      requires name in feeds
      modifies this
      ensures Model() == Arm(old(Model()), name)
    {
      if name !in refreshObj {
        var armed := SetRefreshRate(name, feeds[name]);
      }
    }

    /**
     * `event.reload(types)`; `ok` is false when there is no feeds object.
     */
    method Reload(types: Option<string>, now: Clock) returns (ok: bool)
      requires Valid()
      modifies this
      ensures Model() == Lifecycle.Reload(old(Model()), types, now)
      ensures ok == old(hasFeeds)
      ensures Valid() && (old(TimersTracked(Model())) ==> TimersTracked(Model()))
    {
      ghost var s0 := Model();
      FeedProperties.ReloadInv(s0, types, now);
      if !hasFeeds {
        return false;
      }
      var arr := if types.Some? then SplitNames(types.value) else [];
      if |arr| > 0 {
        ReloadListed(arr, now);
      } else {
        ReloadAll(now);
      }
      return true;
    }

    /** The loop of `reload` over the listed names: load and arm each registered one. */
    method ReloadListed(arr: seq<string>, now: Clock)
      modifies this
      ensures Model() == ReloadEach(old(Model()), arr, now)
    {
      ghost var s0 := Model();
      var x := 0;
      while x < |arr|
        invariant 0 <= x <= |arr|
        invariant Model() == ReloadEach(s0, arr[..x], now)
      {
        var name := arr[x];
        assert arr[..x + 1][..x] == arr[..x];
        if name in feeds && DefTruthy(feeds[name]) {
          LoadAndArm(name, now);
        }
        x := x + 1;
      }
      assert arr[..|arr|] == arr;
    }

    /** One name of `reload`: `loadFeed(type)` and then `setRefresh(type)`. */
    method LoadAndArm(name: string, now: Clock)
      requires name in feeds
      modifies this
      ensures Model() == Issued(old(Model()), name, now)
    {
      ghost var m := Model();
      LoadFeed(name, now);
      assert feeds == m.feeds;
      SetRefresh(name);
    }

    /** The loop of `reload` over every defined feed, in key order, without the truthiness check. */
    method ReloadAll(now: Clock)
      requires forall n :: n in order ==> n in feeds
      modifies this
      ensures Model() == ReloadEach(old(Model()), old(order), now)
    {
      ghost var s0 := Model();
      var keys := order;
      var i := 0;
      while i < |keys|
        invariant 0 <= i <= |keys|
        invariant Model() == ReloadEach(s0, keys[..i], now)
      {
        var name := keys[i];
        assert keys[..i + 1][..i] == keys[..i];
        FeedProperties.ReloadEachFrame(s0, keys[..i], now);
        FeedProperties.ReloadKey(Model(), name, now);
        LoadAndArm(name, now);
        i := i + 1;
      }
      assert keys[..|keys|] == keys;
    }

    /** An interval fires: `self.event.reload(type)` for the feed it was armed for. */
    method Tick(timer: nat, now: Clock)
      requires Valid()
      modifies this
      ensures Model() == Lifecycle.Tick(old(Model()), timer, now)
      ensures Valid() && (old(TimersTracked(Model())) ==> TimersTracked(Model()))
    {
      if timer in timers {
        var ok := Reload(Some(timers[timer]), now);
      }
    }

    /** `event.addFeed(...)`; `ok` is false when the call is refused. */
    method AddFeed(args: AddArgs, now: Clock) returns (ok: bool)
      requires Valid()
      modifies this
      ensures Model() == Lifecycle.AddFeed(old(Model()), args, now)
      ensures ok == AddAccepted(old(Model()), args)
      ensures Valid() && (old(TimersTracked(Model())) ==> TimersTracked(Model()))
    {
      FeedProperties.AddFeedInv(Model(), args, now);
      ok := Register(args, now);
    }

    /**
     * The body of `event.addFeed`. It is kept apart from `AddFeed` so that
     * the state update is proved without `Valid()` in scope, which keeps the
     * proof small; `AddFeed` adds the invariants from `AddFeedInv`.
     */
    method Register(args: AddArgs, now: Clock) returns (ok: bool)
      modifies this
      ensures Model() == Lifecycle.AddFeed(old(Model()), args, now)
      ensures ok == AddAccepted(old(Model()), args)
    {
      var config := AddConfig(args);
      if config.kind == "" || config.url == "" {
        return false;
      } else if config.kind in feeds && DefTruthy(feeds[config.kind]) {
        return false;
      }
      ghost var s0 := Model();
      var cfg := Stored(config);
      hasFeeds := true;
      if config.kind !in feeds {
        order := order + [config.kind];
      }
      feeds := feeds[config.kind := cfg];
      assert Model() == Define(s0, config.kind, cfg);
      LoadFeed(config.kind, now);
      if config.refresh.Some? && config.refresh.value != 0 {
        var armed := SetRefreshRate(config.kind, cfg);
      }
      return true;
    }

    /** `removeType(val)`. */
    method RemoveType(name: string)
      modifies this
      ensures Model() == RemoveOne(old(Model()), name)
    {
      if !(name in feeds && DefTruthy(feeds[name])) {
        return;
      }
      feeds := feeds - {name};
      order := Drop(order, name);
      initExe := initExe - {name};
      callStack := callStack - {name};
      refreshObj := refreshObj - {name};
    }

    /** `event.removeFeed(type)`; `ok` is false when the call is refused. */
    method RemoveFeed(arg: Option<string>) returns (ok: bool)
      requires Valid()
      modifies this
      ensures Model() == Lifecycle.RemoveFeed(old(Model()), arg)
      ensures ok == (old(hasFeeds) && arg.Some?)
      ensures Valid()
    {
      FeedProperties.RemoveFeedEffect(Model(), arg);
      if !hasFeeds || arg.None? {
        return false;
      }
      RemoveEach(SplitNames(arg.value));
      return true;
    }

    /** `removeType` on each piece of the split argument, in order. */
    method RemoveEach(sp: seq<string>)
      modifies this
      ensures Model() == Lifecycle.RemoveEach(old(Model()), sp)
    {
      var i := 0;
      while i < |sp|
        invariant 0 <= i <= |sp|
        invariant Model() == Lifecycle.RemoveEach(old(Model()), sp[..i])
      {
        RemoveType(sp[i]);
        assert sp[..i + 1][..i] == sp[..i];
        i := i + 1;
      }
      assert sp[..|sp|] == sp;
    }

    /** `event.onLoad(...)`; `ok` is false when the call is refused. */
    method OnLoad(a0: Arg, a1: Option<FnId>) returns (ok: bool)
      requires Valid()
      modifies this
      ensures Model() == Lifecycle.OnLoad(old(Model()), a0, a1)
      ensures ok == OnLoadAccepted(old(Model()), a0, a1)
      ensures Valid() && (old(TimersTracked(Model())) ==> TimersTracked(Model()))
    {
      FeedProperties.OnLoadInv(Model(), a0, a1);
      var args := SetLoaderArgs(a0, a1);
      if !Truthy(args.feed) || args.callback.None? || !(args.feed.value in feeds && DefTruthy(feeds[args.feed.value])) {
        return false;
      }
      Subscribe(args.feed.value, args.callback.value);
      return true;
    }

    /** Stack up `callback` for `name` and run it at once if the feed has loaded before. */
    method Subscribe(name: string, callback: FnId)
      modifies this
      ensures Model() == Lifecycle.Subscribe(old(Model()), name, callback)
    {
      var stack := if name in callStack then callStack[name] else [];
      callStack := callStack[name := stack + [Callback(callback)]];
      if name in initExe {
        trace := trace + [Invoke(callback, if name in data then data[name] else Undefined)];
      }
    }

    /** `triggerStack(stack, data)`: call every function slot with the data, in index order. */
    method TriggerStack(stack: seq<Slot>, v: Value)
      modifies this`trace
      ensures trace == old(trace) + FanOut(stack, v)
    {
      var x := 0;
      while x < |stack|
        invariant 0 <= x <= |stack|
        invariant trace == old(trace) + FanOut(stack[..x], v)
      {
        if stack[x].Callback? {
          trace := trace + [Invoke(stack[x].fn, v)];
        }
        assert stack[..x + 1][..x] == stack[..x];
        x := x + 1;
      }
      assert stack[..|stack|] == stack;
    }

    /** The transport delivers request `token`: `commonSuccessFN(raw)` of the load that issued it. */
    method Complete(token: nat, raw: Value)
      requires Valid()
      modifies this
      ensures Model() == Lifecycle.Complete(old(Model()), token, raw)
      ensures Valid() && (old(TimersTracked(Model())) ==> TimersTracked(Model()))
    {
      FeedProperties.CompleteInv(Model(), token, raw);
      Deliver(token, raw);
    }

    /**
     * Request `token` succeeds: nothing if it was aborted or already
     * delivered, else `commonSuccessFN`. It is kept apart from `Complete` so
     * that the state update is proved without `Valid()` in scope;
     * `Complete` adds the invariants from `CompleteInv`.
     */
    method Deliver(token: nat, raw: Value)
      modifies this
      ensures Model() == Lifecycle.Complete(old(Model()), token, raw)
    {
      if token !in open || token >= |issued| {
        return;
      }
      var req := issued[token];
      open := open - {token};
      CommonSuccess(req.feed, GetNormalizationFn(NormalizeOf(req.info), feeds), raw);
    }

    /** `commonSuccessFN(data)` of a load of `feed` whose definition gives the normaliser `nf`. */
    method CommonSuccess(feed: string, nf: Normalizer, raw: Value)
      modifies this
      ensures Model() == Lifecycle.CommonSuccess(old(Model()), feed, nf, raw)
    {
      if nf.Throws? {
        return;
      }
      var normalized := if nf.Apply? then Normalized(nf.fn, raw) else raw;
      assert Normalise(nf, raw) == Some(normalized);
      var stack := StackOf(Model(), feed);
      ghost var stored := Model().(data := data[feed := normalized], initExe := initExe + {feed});
      data := data[feed := normalized];
      initExe := initExe + {feed};
      assert Model() == stored;
      TriggerStack(stack, normalized);
    }

    /**
     * `event.getData(...)`: refused (`ok` false) without a type or a
     * function callback; otherwise a poll is started and its first attempt
     * runs at once. The feed need not be registered.
     */
    method GetData(a0: Arg, a1: Option<FnId>) returns (ok: bool, wait: DataWait?)
      requires Valid()
      modifies this`trace
      ensures Valid() && (old(TimersTracked(Model())) ==> TimersTracked(Model()))
      ensures var args := SetLoaderArgs(a0, a1);
        ok == (Truthy(args.feed) && args.callback.Some?)
      ensures !ok ==> wait == null && Model() == old(Model())
      ensures ok ==> (wait != null && fresh(wait)
        && (Model(), wait.Model()) == Lifecycle.Attempt(old(Model()), Poll(SetLoaderArgs(a0, a1).feed.value, a1.value, 0, true)))
    {
      var args := SetLoaderArgs(a0, a1);
      if !Truthy(args.feed) || args.callback.None? {
        return false, null;
      }
      wait := new DataWait(args.feed.value, args.callback.value);
      wait.Attempt(this);
      ok := true;
    }
  }

  /** One `getData` call: the `attempt` closure with its `cntr` and whether a retry is scheduled. */
  class DataWait {
    const feed: string
    const callback: FnId
    var cntr: nat
    var pending: bool

    function Model(): Poll
      reads this
    {
      Poll(feed, callback, cntr, pending)
    }

    constructor (feed: string, callback: FnId)
      ensures Model() == Poll(feed, callback, 0, true)
    {
      this.feed, this.callback := feed, callback;
      cntr, pending := 0, true;
    }

    /** `attempt()`: the first run, or a scheduled timeout firing. */
    method Attempt(c: Controller)
      requires pending && c.Valid()
      modifies this, c`trace
      ensures c.Valid() && (old(TimersTracked(c.Model())) ==> TimersTracked(c.Model()))
      ensures (c.Model(), Model()) == Lifecycle.Attempt(old(c.Model()), old(Model()))
      ensures pending ==> cntr <= PollMax + 1
    {
      if feed in c.data && c.data[feed] != Undefined {
        c.trace := c.trace + [Invoke(callback, c.data[feed])];
        pending := false;
      } else if cntr <= PollMax {
        cntr := cntr + 1;
        pending := true;
      } else {
        pending := false;
      }
    }
  }
}
