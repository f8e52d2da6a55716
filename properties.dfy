/**
 * What the controller's operations promise, stated over the state
 * functions of `Lifecycle`: the invariants they keep, the keys they touch,
 * when they refuse, and the order in which they call back.
 */
module FeedProperties {
  import opened Wrappers
  import opened Text
  import opened Helpers
  import opened FeedTypes
  import opened Lifecycle

  // ---------------------------------------------------------------- loader and scheduler

  /**
   * `loadFeed` issues exactly one request when the feed is registered with a
   * url, and none otherwise; it touches only the request handle, the
   * transport and the trace; the earlier requests stay as they were.
   */
  lemma LoadFeedEffect(s: State, name: string, now: Clock)
    ensures var s' := LoadFeed(s, name, now);
      && s'.(xhr := s.xhr, issued := s.issued, open := s.open, trace := s.trace) == s
      && |s'.issued| >= |s.issued| && s'.issued[..|s.issued|] == s.issued
      && ((Registered(s, name) && s.feeds[name].url != "") <==> |s'.issued| == |s.issued| + 1)
      && (|s'.issued| == |s.issued| + 1 ==>
            s'.issued[|s.issued|].feed == name && s'.xhr == s.xhr[name := |s.issued|] && |s.issued| in s'.open)
      && (|s'.issued| == |s.issued| ==> s' == s)
  {
  }

  /**
   * A new request for a feed cancels the feed's previous request unless the
   * feed is JSONP: the previous handle is aborted and no longer delivered.
   * A JSONP feed's earlier requests stay deliverable.
   */
  lemma LoadFeedAborts(s: State, name: string, now: Clock)
    requires Inv(s) && Registered(s, name) && s.feeds[name].url != "" && name in s.xhr
    ensures var s' := LoadFeed(s, name, now);
      var dt := DataTypeOf(s.feeds[name], s.feeds[name].url);
      && (dt == "json" ==> s.xhr[name] !in s'.open && s'.trace == s.trace + [Abort(s.xhr[name]), Fetch(|s.issued|)])
      && (dt == "jsonp" ==> s'.open == s.open + {|s.issued|} && s'.trace == s.trace + [Fetch(|s.issued|)])
  {
  }

  /** `setRefreshRate` refuses a refresh that is absent or below 0.5 minutes and changes nothing. */
  lemma SetRefreshRateRefuses(s: State, name: string, info: FeedDef)
    requires RefreshOf(info).None? || RefreshOf(info).value < MinRefresh
    ensures SetRefreshRate(s, name, info) == s
  {
  }

  /** Any two live intervals reload different feeds. */
  ghost predicate OneIntervalPerFeed(s: State)
  {
    forall t1, t2 :: t1 in s.timers && t2 in s.timers && s.timers[t1] == s.timers[t2] ==> t1 == t2
  }

  lemma TrackedIsOnePerFeed(s: State)
    requires TimersTracked(s)
    ensures OneIntervalPerFeed(s)
  {
    forall t1, t2 | t1 in s.timers && t2 in s.timers && s.timers[t1] == s.timers[t2]
      ensures t1 == t2
    {
      assert s.refreshObj[s.timers[t1]] == t1;
    }
  }

  /**
   * An accepted `setRefreshRate` clears the feed's previous interval before
   * starting a fresh one at `refresh * 60000` ms, so a feed never has two;
   * the invariants hold afterwards.
   */
  lemma SetRefreshRateArms(s: State, name: string, info: FeedDef)
    requires Inv(s) && TimersTracked(s)
    requires RefreshOf(info).Some? && RefreshOf(info).value >= MinRefresh
    ensures var s' := SetRefreshRate(s, name, info);
      && s'.refreshObj == s.refreshObj[name := s.nextTimer]
      && s.nextTimer !in s.timers
      && (name in s.refreshObj ==> s.refreshObj[name] !in s'.timers)
      && s'.timers[s.nextTimer] == name
      && s'.trace[|s'.trace| - 1] == SetInterval(s.nextTimer, name, RefreshOf(info).value * MsPerHundredth)
      && Inv(s') && TimersTracked(s') && OneIntervalPerFeed(s')
      && (forall t :: t in s'.timers && s'.timers[t] == name ==> t == s.nextTimer)
  {
    var s' := SetRefreshRate(s, name, info);
    TrackedIsOnePerFeed(s');
  }

  /** `setRefreshRate` keeps the invariants whether it accepts or refuses. */
  lemma SetRefreshRateInv(s: State, name: string, info: FeedDef)
    requires Inv(s)
    ensures Inv(SetRefreshRate(s, name, info))
    ensures TimersTracked(s) ==> TimersTracked(SetRefreshRate(s, name, info))
  {
    var r := RefreshOf(info);
    if r.Some? && r.value >= MinRefresh {
      RearmInv(s, name, r.value * MsPerHundredth);
    }
  }

  lemma RearmInv(s: State, name: string, ms: nat)
    requires Inv(s)
    ensures Inv(Rearm(s, name, ms))
    ensures TimersTracked(s) ==> TimersTracked(Rearm(s, name, ms))
  {
    var s' := Rearm(s, name, ms);
    assert s'.(timers := s.timers, refreshObj := s.refreshObj, nextTimer := s.nextTimer, trace := s.trace) == s;
    forall t | t in s'.timers
      ensures t < s'.nextTimer
    {
    }
    forall n | n in s'.refreshObj
      ensures s'.refreshObj[n] in s'.timers && s'.timers[s'.refreshObj[n]] == n
    {
    }
    if TimersTracked(s) {
      forall t | t in s'.timers
        ensures s'.timers[t] in s'.refreshObj && s'.refreshObj[s'.timers[t]] == t
      {
      }
    }
  }

  lemma LoadFeedInv(s: State, name: string, now: Clock)
    requires Inv(s)
    ensures Inv(LoadFeed(s, name, now))
    ensures TimersTracked(s) ==> TimersTracked(LoadFeed(s, name, now))
  {
    LoadFeedEffect(s, name, now);
  }

  // ---------------------------------------------------------------- reload

  /** What `reload` never touches: the definitions, data, load flags and callback stacks. */
  ghost predicate SameConfig(s: State, s': State)
  {
    && s'.hasFeeds == s.hasFeeds && s'.feeds == s.feeds && s'.order == s.order && s'.cacheTime == s.cacheTime
    && s'.data == s.data && s'.initExe == s.initExe && s'.callStack == s.callStack
  }

  /** Requests issued after `s`: the prefix of the transport log is kept. */
  ghost predicate Extends(s: State, s': State)
  {
    |s'.issued| >= |s.issued| && s'.issued[..|s.issued|] == s.issued
  }

  lemma ReloadOneInv(s: State, name: string, now: Clock)
    requires Inv(s)
    ensures var s' := ReloadOne(s, name, now);
      Inv(s') && (TimersTracked(s) ==> TimersTracked(s')) && SameConfig(s, s') && Extends(s, s')
  {
    ReloadOneFrame(s, name, now);
    if Registered(s, name) {
      LoadFeedInv(s, name, now);
      var s1 := LoadFeed(s, name, now);
      assert s1.feeds == s.feeds by { LoadFeedEffect(s, name, now); }
      if name !in s1.refreshObj {
        SetRefreshRateInv(s1, name, s1.feeds[name]);
      }
    }
  }

  /** One name of `reload` changes no definition, data, load flag or callback stack, and keeps every earlier request. */
  lemma ReloadOneFrame(s: State, name: string, now: Clock)
    ensures SameConfig(s, ReloadOne(s, name, now)) && Extends(s, ReloadOne(s, name, now))
  {
    LoadFeedEffect(s, name, now);
  }

  lemma {:induction false} ReloadEachInv(s: State, names: seq<string>, now: Clock)
    requires Inv(s)
    ensures var s' := ReloadEach(s, names, now);
      Inv(s') && (TimersTracked(s) ==> TimersTracked(s')) && SameConfig(s, s') && Extends(s, s')
  {
    if names != [] {
      var init := names[..|names| - 1];
      ReloadEachInv(s, init, now);
      ReloadOneInv(ReloadEach(s, init, now), names[|names| - 1], now);
    }
  }

  /**
   * The all-feeds loop of `reload` skips the truthiness check; for a
   * defined name that makes no difference, since a falsy definition has
   * neither a url to load nor a refresh to arm.
   */
  lemma ReloadKey(s: State, name: string, now: Clock)
    requires name in s.feeds
    ensures ReloadOne(s, name, now) == Issued(s, name, now)
  {
    if !Registered(s, name) {
      assert LoadFeed(s, name, now) == s;
      assert RefreshOf(s.feeds[name]).None?;
    }
  }

  /** `reload` changes no definition, data, load flag or callback stack, and keeps every earlier request. */
  lemma {:induction false} ReloadEachFrame(s: State, names: seq<string>, now: Clock)
    ensures SameConfig(s, ReloadEach(s, names, now)) && Extends(s, ReloadEach(s, names, now))
  {
    if names != [] {
      var init := names[..|names| - 1];
      ReloadEachFrame(s, init, now);
      ReloadOneFrame(ReloadEach(s, init, now), names[|names| - 1], now);
    }
  }

  /** `reload` and interval ticks keep the invariants, including one interval per feed. */
  lemma ReloadInv(s: State, types: Option<string>, now: Clock)
    requires Inv(s)
    ensures Inv(Reload(s, types, now)) && (TimersTracked(s) ==> TimersTracked(Reload(s, types, now)))
  {
    if s.hasFeeds {
      ReloadEachInv(s, if types.Some? then SplitNames(types.value) else s.order, now);
    }
  }

  lemma TickInv(s: State, timer: nat, now: Clock)
    requires Inv(s)
    ensures Inv(Tick(s, timer, now)) && (TimersTracked(s) ==> TimersTracked(Tick(s, timer, now)))
  {
    if timer in s.timers { ReloadInv(s, Some(s.timers[timer]), now); }
  }

  /** A feed that `reload` would fetch: registered, with a url. */
  predicate Loadable(s: State, name: string)
  {
    Registered(s, name) && s.feeds[name].url != ""
  }

  lemma ReloadOneFetch(m: State, name: string, now: Clock)
    ensures var s' := ReloadOne(m, name, now);
      && Extends(m, s')
      && |s'.issued| == |m.issued| + (if Loadable(m, name) then 1 else 0)
      && (Loadable(m, name) ==> s'.issued[|m.issued|].feed == name)
  {
    LoadFeedEffect(m, name, now);
  }

  /** A definition whose `refresh` `setRefreshRate` accepts: at least 0.5 minutes. */
  predicate Refreshes(d: FeedDef)
  {
    RefreshOf(d).Some? && RefreshOf(d).value >= MinRefresh
  }

  /** Feed `n` has an interval handle, and that interval is live and reloads `n`. */
  ghost predicate ArmedFor(s: State, n: string)
  {
    n in s.refreshObj && s.refreshObj[n] in s.timers && s.timers[s.refreshObj[n]] == n
  }

  /**
   * One name of `reload` keeps every interval handle; it gets a new interval
   * exactly when it is registered, has none yet and has an accepted
   * `refresh`, and that interval reloads it.
   */
  lemma ReloadOneIntervals(m: State, name: string, now: Clock)
    ensures var s' := ReloadOne(m, name, now);
      && (forall n :: n in m.refreshObj ==> n in s'.refreshObj && s'.refreshObj[n] == m.refreshObj[n])
      && (forall n :: n in s'.refreshObj && n !in m.refreshObj ==> n == name && Registered(m, n) && Refreshes(m.feeds[n]))
      && (name !in m.refreshObj ==> (name in s'.refreshObj <==> Registered(m, name) && Refreshes(m.feeds[name])))
      && (name !in m.refreshObj && name in s'.refreshObj ==> ArmedFor(s', name))
  {
    if Registered(m, name) {
      var s1 := LoadFeed(m, name, now);
      LoadFeedEffect(m, name, now);
      assert s1.refreshObj == m.refreshObj && s1.feeds == m.feeds;
      ArmEffect(s1, name);
    }
  }

  /** `setRefresh(name)` keeps every handle and arms `name` exactly when it has none and its `refresh` is accepted. */
  lemma ArmEffect(s: State, name: string)
    requires name in s.feeds
    ensures var s' := Arm(s, name);
      && (forall n :: n in s.refreshObj ==> n in s'.refreshObj && s'.refreshObj[n] == s.refreshObj[n])
      && (forall n :: n in s'.refreshObj && n !in s.refreshObj ==> n == name && Refreshes(s.feeds[n]))
      && (name !in s.refreshObj ==> (name in s'.refreshObj <==> Refreshes(s.feeds[name])))
      && (name !in s.refreshObj && name in s'.refreshObj ==> ArmedFor(s', name))
  {
    if name !in s.refreshObj && Refreshes(s.feeds[name]) {
      var s' := Arm(s, name);
      assert s'.refreshObj == s.refreshObj[name := s.nextTimer];
      assert s'.timers == s.timers[s.nextTimer := name];
    }
  }

  /** Every request issued between `s` and `s'` is for a listed name that is loadable in `s`. */
  ghost predicate FetchedOnly(s: State, s': State, names: seq<string>)
  {
    forall k :: |s.issued| <= k < |s'.issued| ==> s'.issued[k].feed in names && Loadable(s, s'.issued[k].feed)
  }

  /** Every listed name that is loadable in `s` has a request issued between `s` and `s'`. */
  ghost predicate FetchedAll(s: State, s': State, names: seq<string>)
  {
    forall n :: n in names && Loadable(s, n) ==> exists k :: |s.issued| <= k < |s'.issued| && s'.issued[k].feed == n
  }

  /**
   * The requests a name-list `reload` issues are exactly for the listed
   * names that are registered (with a url): an unknown name triggers no load,
   * and every loadable listed name is fetched.
   */
  lemma ReloadEachFetches(s: State, names: seq<string>, now: Clock)
    ensures FetchedOnly(s, ReloadEach(s, names, now), names)
    ensures FetchedAll(s, ReloadEach(s, names, now), names)
  {
    ReloadEachFetchedOnly(s, names, now);
    ReloadEachFetchedAll(s, names, now);
  }

  lemma {:induction false} ReloadEachFetchedOnly(s: State, names: seq<string>, now: Clock)
    ensures FetchedOnly(s, ReloadEach(s, names, now), names)
  {
    if names != [] {
      var init, last := names[..|names| - 1], names[|names| - 1];
      ReloadEachFetchedOnly(s, init, now);
      ReloadEachFrame(s, init, now);
      var m := ReloadEach(s, init, now);
      var s' := ReloadOne(m, last, now);
      ReloadOneFetch(m, last, now);
      assert Loadable(m, last) == Loadable(s, last);
      forall k | |s.issued| <= k < |s'.issued|
        ensures s'.issued[k].feed in names && Loadable(s, s'.issued[k].feed)
      {
        if k < |m.issued| {
          assert s'.issued[k] == m.issued[k];
          assert m.issued[k].feed in init;
        } else {
          assert s'.issued[k].feed == last;
        }
      }
    }
  }

  lemma {:induction false} ReloadEachFetchedAll(s: State, names: seq<string>, now: Clock)
    ensures FetchedAll(s, ReloadEach(s, names, now), names)
  {
    if names != [] {
      var init, last := names[..|names| - 1], names[|names| - 1];
      ReloadEachFetchedAll(s, init, now);
      ReloadEachFrame(s, init, now);
      var m := ReloadEach(s, init, now);
      var s' := ReloadOne(m, last, now);
      ReloadOneFetch(m, last, now);
      assert Loadable(m, last) == Loadable(s, last);
      forall n | n in names && Loadable(s, n)
        ensures exists k :: |s.issued| <= k < |s'.issued| && s'.issued[k].feed == n
      {
        if n in init {
          var k :| |s.issued| <= k < |m.issued| && m.issued[k].feed == n;
          assert s'.issued[k] == m.issued[k];
        } else {
          assert s'.issued[|m.issued|].feed == n;
        }
      }
    }
  }

  /**
   * `reload` only arms an interval for a feed that has none: every interval
   * handle that existed is kept, and a new one appears only for a listed,
   * registered feed.
   */
  lemma {:induction false} ReloadEachKeepsIntervals(s: State, names: seq<string>, now: Clock)
    ensures var s' := ReloadEach(s, names, now);
      && (forall n :: n in s.refreshObj ==> n in s'.refreshObj && s'.refreshObj[n] == s.refreshObj[n])
      && (forall n :: n in s'.refreshObj && n !in s.refreshObj ==> n in names && Registered(s, n) && Refreshes(s.feeds[n]))
  {
    if names != [] {
      var init, last := names[..|names| - 1], names[|names| - 1];
      ReloadEachKeepsIntervals(s, init, now);
      ReloadEachFrame(s, init, now);
      var m := ReloadEach(s, init, now);
      assert ReloadOne(m, last, now) == ReloadEach(s, names, now);
      ReloadOneIntervals(m, last, now);
      assert Registered(m, last) == Registered(s, last);
    }
  }

  /** Every listed registered feed with an accepted `refresh` has an interval handle after `reload`. */
  lemma {:induction false} ReloadEachArmed(s: State, names: seq<string>, now: Clock)
    ensures forall n :: n in names && Registered(s, n) && Refreshes(s.feeds[n]) ==> n in ReloadEach(s, names, now).refreshObj
  {
    if names != [] {
      var init, last := names[..|names| - 1], names[|names| - 1];
      ReloadEachArmed(s, init, now);
      ReloadEachFrame(s, init, now);
      var m := ReloadEach(s, init, now);
      assert ReloadOne(m, last, now) == ReloadEach(s, names, now);
      ReloadOneIntervals(m, last, now);
      forall n | n in names && Registered(s, n) && Refreshes(s.feeds[n])
        ensures n in ReloadEach(s, names, now).refreshObj
      {
        if n != last {
          assert n in init;
        }
      }
    }
  }

  /**
   * `reload` arms an interval for every feed it covers that has an accepted
   * `refresh` and no interval yet: the listed names, or, without an argument,
   * every registered feed. Each such feed ends with an interval that reloads it.
   */
  lemma ReloadArms(s: State, types: Option<string>, now: Clock)
    requires Inv(s) && s.hasFeeds
    ensures var s' := Reload(s, types, now);
      forall n :: Registered(s, n) && Refreshes(s.feeds[n]) && (types.None? || n in SplitNames(types.value)) ==>
        ArmedFor(s', n)
  {
    var names := if types.Some? then SplitNames(types.value) else s.order;
    ReloadEachArmed(s, names, now);
    ReloadEachInv(s, names, now);
  }

  // ---------------------------------------------------------------- removeFeed

  /** The listed names that are registered: what `removeFeed` deletes. */
  function Gone(s: State, names: seq<string>): set<string>
  {
    set n | n in names && Registered(s, n)
  }

  /** Everything `removeFeed` leaves alone: the data, request handles, live intervals, transport and trace. */
  ghost predicate RemoveFrame(s: State, s': State)
  {
    s'.(feeds := s.feeds, order := s.order, initExe := s.initExe, callStack := s.callStack, refreshObj := s.refreshObj) == s
  }

  lemma RemoveOneInv(s: State, name: string)
    requires Inv(s)
    ensures Inv(RemoveOne(s, name))
  {
  }

  lemma {:induction false} RemoveEachInv(s: State, names: seq<string>)
    requires Inv(s)
    ensures Inv(RemoveEach(s, names))
  {
    if names != [] {
      RemoveEachInv(s, names[..|names| - 1]);
      RemoveOneInv(RemoveEach(s, names[..|names| - 1]), names[|names| - 1]);
    }
  }

  /** `s'` is `s` with the definitions, load flags, stacks and interval handles of the names in `g` deleted. */
  ghost predicate RemovedAll(s: State, s': State, g: set<string>)
  {
    && s'.feeds == s.feeds - g && s'.initExe == s.initExe - g
    && s'.callStack == s.callStack - g && s'.refreshObj == s.refreshObj - g
    && RemoveFrame(s, s')
  }

  lemma RemoveOneEffect(s: State, name: string)
    ensures Registered(s, name) ==> RemovedAll(s, RemoveOne(s, name), {name})
    ensures !Registered(s, name) ==> RemoveOne(s, name) == s
  {
  }

  lemma RemovedStep(s: State, m: State, s': State, g: set<string>, x: string)
    requires RemovedAll(s, m, g) && RemovedAll(m, s', {x})
    ensures RemovedAll(s, s', g + {x})
  {
    assert (s.feeds - g) - {x} == s.feeds - (g + {x});
    assert (s.callStack - g) - {x} == s.callStack - (g + {x});
    assert (s.refreshObj - g) - {x} == s.refreshObj - (g + {x});
  }

  lemma GoneStep(s: State, init: seq<string>, last: string)
    ensures Gone(s, init + [last]) == Gone(s, init) + (if Registered(s, last) then {last} else {})
  {
  }

  lemma {:induction false} RemoveEachEffect(s: State, names: seq<string>)
    ensures RemovedAll(s, RemoveEach(s, names), Gone(s, names))
  {
    if names == [] {
      assert Gone(s, names) == {};
      assert s.feeds - {} == s.feeds && s.callStack - {} == s.callStack && s.refreshObj - {} == s.refreshObj;
    } else {
      var init, last := names[..|names| - 1], names[|names| - 1];
      RemoveEachEffect(s, init);
      var m := RemoveEach(s, init);
      RemoveOneEffect(m, last);
      assert names == init + [last];
      GoneStep(s, init, last);
      if Registered(m, last) {
        RemovedStep(s, m, RemoveOne(m, last), Gone(s, init), last);
      } else {
        assert Gone(s, names) == Gone(s, init);
      }
    }
  }

  /**
   * `removeFeed(names)` refuses without a feeds object or a string argument;
   * otherwise it deletes the definition, load flag, callback stack and
   * interval handle of every listed registered feed, skips unknown names,
   * and leaves the data and request handles as they were.
   */
  lemma RemoveFeedEffect(s: State, arg: Option<string>)
    requires Inv(s)
    ensures !s.hasFeeds || arg.None? ==> RemoveFeed(s, arg) == s
    ensures s.hasFeeds && arg.Some? ==>
      var s' := RemoveFeed(s, arg);
      var g := Gone(s, SplitNames(arg.value));
      && s'.feeds == s.feeds - g && s'.initExe == s.initExe - g
      && s'.callStack == s.callStack - g && s'.refreshObj == s.refreshObj - g
      && s'.data == s.data && s'.xhr == s.xhr && s'.timers == s.timers
    ensures Inv(RemoveFeed(s, arg))
  {
    if s.hasFeeds && arg.Some? {
      RemoveEachEffect(s, SplitNames(arg.value));
      RemoveEachInv(s, SplitNames(arg.value));
    }
  }

  /**
   * `removeFeed` nulls the interval handle without `clearInterval`: a feed
   * that had an interval leaves it running, tracked by nobody.
   */
  lemma RemoveFeedOrphansInterval(s: State, name: string)
    requires Inv(s) && s.hasFeeds && Registered(s, name) && name in s.refreshObj
    requires name != "" && NoSpace(name)
    ensures var s' := RemoveFeed(s, Some(name));
      var t := s.refreshObj[name];
      t in s'.timers && s'.timers[t] == name && name !in s'.refreshObj && !TimersTracked(s')
  {
    SplitNamesOfWord(name);
    RemoveFeedEffect(s, Some(name));
    assert Gone(s, SplitNames(name)) == {name};
  }

  /** A name list none of whose names is loadable issues no request. */
  lemma {:induction false} ReloadEachNoFetch(s: State, names: seq<string>, now: Clock)
    requires Inv(s)
    requires forall n :: n in names ==> !Loadable(s, n)
    ensures ReloadEach(s, names, now).issued == s.issued
  {
    if names != [] {
      var init, last := names[..|names| - 1], names[|names| - 1];
      ReloadEachNoFetch(s, init, now);
      ReloadEachInv(s, init, now);
      var m := ReloadEach(s, init, now);
      var s' := ReloadOne(m, last, now);
      assert ReloadEach(s, names, now) == s';
      assert m.feeds == s.feeds;
      assert !Loadable(m, last) by { assert last in names; }
      ReloadOneFetch(m, last, now);
      assert s'.issued == s'.issued[..|m.issued|];
    }
  }

  /** Removing feeds and then reloading the same names issues no request. */
  lemma RemoveThenReload(s: State, names: string, now: Clock)
    requires Inv(s)
    ensures var s1 := RemoveFeed(s, Some(names));
      Reload(s1, Some(names), now).issued == s1.issued
  {
    var s1 := RemoveFeed(s, Some(names));
    RemoveFeedEffect(s, Some(names));
    if s.hasFeeds {
      var list := SplitNames(names);
      RemoveEachEffect(s, list);
      assert forall n :: n in list ==> !Loadable(s1, n);
      ReloadEachNoFetch(s1, list, now);
    }
  }

  // ---------------------------------------------------------------- addFeed

  lemma LoadThenArm(s: State, name: string, now: Clock, info: FeedDef)
    ensures var s' := SetRefreshRate(LoadFeed(s, name, now), name, info);
      s'.feeds == s.feeds && s'.order == s.order && s'.hasFeeds == s.hasFeeds && s'.issued == LoadFeed(s, name, now).issued
  {
    LoadFeedEffect(s, name, now);
  }

  /**
   * `addFeed` refuses, changing nothing, when the config has no `type` or no
   * `url`, or when the type is already a registered feed.
   */
  lemma AddFeedRefuses(s: State, args: AddArgs, now: Clock)
    requires AddConfig(args).kind == "" || AddConfig(args).url == "" || Registered(s, AddConfig(args).kind)
    ensures AddFeed(s, args, now) == s
  {
  }

  /**
   * An accepted `addFeed` stores the config minus its `type` under that
   * name, leaves every other definition, the data, load flags and callback
   * stacks as they were, fetches the new feed at once, and arms an interval
   * for it exactly when its `refresh` is at least 0.5 minutes.
   */
  lemma AddFeedStores(s: State, args: AddArgs, now: Clock)
    requires Inv(s) && AddAccepted(s, args)
    ensures var cfg := AddConfig(args);
      var s' := AddFeed(s, args, now);
      && s'.hasFeeds
      && s'.feeds == s.feeds[cfg.kind := Spec(cfg.url, "", cfg.refresh, cfg.normalize, cfg.jsonpCallback)]
      && |s'.issued| == |s.issued| + 1 && s'.issued[|s.issued|].feed == cfg.kind
      && s'.issued[|s.issued|].url == cfg.url
      && s'.data == s.data && s'.initExe == s.initExe && s'.callStack == s.callStack
      && (Refreshes(Stored(cfg)) ==> ArmedFor(s', cfg.kind))
      && (!Refreshes(Stored(cfg)) ==> s'.refreshObj == s.refreshObj)
  {
    var cfg := AddConfig(args);
    var s1 := Define(s, cfg.kind, Stored(cfg));
    var s2 := LoadFeed(s1, cfg.kind, now);
    LoadFeedEffect(s1, cfg.kind, now);
    assert s2.refreshObj == s.refreshObj && s2.data == s.data && s2.feeds == s1.feeds;
    SetRefreshRateEffect(s2, cfg.kind, Stored(cfg));
  }

  /** `setRefreshRate` arms the feed's interval when its refresh is at least 0.5 minutes, touching only the interval fields and the trace, and otherwise changes nothing. */
  lemma SetRefreshRateEffect(s: State, name: string, info: FeedDef)
    ensures var s' := SetRefreshRate(s, name, info);
      && s'.(timers := s.timers, refreshObj := s.refreshObj, nextTimer := s.nextTimer, trace := s.trace) == s
      && (Refreshes(info) ==> ArmedFor(s', name))
      && (!Refreshes(info) ==> s' == s)
  {
    if Refreshes(info) {
      var s' := SetRefreshRate(s, name, info);
      assert s'.refreshObj == s.refreshObj[name := s.nextTimer];
      assert s'.timers[s.nextTimer] == name;
    }
  }

  /** A second `addFeed` of the same name fails and the first url stays. */
  lemma AddFeedTwice(s: State, name: string, url1: string, url2: string, now: Clock)
    requires Inv(s) && name != "" && url1 != "" && !Registered(s, name)
    ensures var s1 := AddFeed(s, ByName(name, url1), now);
      && AddFeed(s1, ByName(name, url2), now) == s1
      && s1.feeds[name].url == url1
  {
    AddFeedStores(s, ByName(name, url1), now);
  }

  lemma AddFeedInv(s: State, args: AddArgs, now: Clock)
    requires Inv(s)
    ensures Inv(AddFeed(s, args, now))
    ensures TimersTracked(s) ==> TimersTracked(AddFeed(s, args, now))
  {
    if AddAccepted(s, args) {
      var cfg := AddConfig(args);
      var s1 := Define(s, cfg.kind, Stored(cfg));
      DefineInv(s, cfg.kind, Stored(cfg));
      LoadFeedInv(s1, cfg.kind, now);
      SetRefreshRateInv(LoadFeed(s1, cfg.kind, now), cfg.kind, Stored(cfg));
    }
  }

  /** Storing a definition keeps the key order duplicate-free and in step with the definitions. */
  lemma DefineInv(s: State, name: string, def: FeedDef)
    requires Inv(s)
    ensures Inv(Define(s, name, def)) && (TimersTracked(s) ==> TimersTracked(Define(s, name, def)))
  {
    var s1 := Define(s, name, def);
    assert forall n :: n in s1.order <==> n in s1.feeds;
    assert Distinct(s1.order);
  }

  // ---------------------------------------------------------------- subscribers

  /** `triggerStack` calls every function slot of the stack with the data, in index order, and nothing else. */
  lemma {:induction false} FanOutInOrder(stack: seq<Slot>, v: Value)
    ensures |FanOut(stack, v)| == |Callbacks(stack)|
    ensures forall k :: 0 <= k < |Callbacks(stack)| ==> FanOut(stack, v)[k] == Invoke(Callbacks(stack)[k], v)
  {
    if stack != [] {
      FanOutInOrder(stack[..|stack| - 1], v);
    }
  }

  lemma {:induction false} FanOutAppend(a: seq<Slot>, b: seq<Slot>, v: Value)
    ensures FanOut(a + b, v) == FanOut(a, v) + FanOut(b, v)
  {
    if b == [] {
      assert a + b == a;
    } else {
      assert (a + b)[..|a + b| - 1] == a + b[..|b| - 1];
      FanOutAppend(a, b[..|b| - 1], v);
    }
  }

  /** `onLoad` refuses, changing nothing, without a type, a function callback, or a registered feed. */
  lemma OnLoadRefuses(s: State, a0: Arg, a1: Option<FnId>)
    requires a1.None? || !Truthy(SetLoaderArgs(a0, a1).feed) || !Registered(s, SetLoaderArgs(a0, a1).feed.value)
    ensures OnLoad(s, a0, a1) == s
  {
  }

  /**
   * An accepted `onLoad` puts the callback at the end of the feed's stack,
   * touching no other stack, and calls it at once with the current data
   * exactly when the feed has loaded before.
   */
  lemma OnLoadAppends(s: State, a0: Arg, a1: Option<FnId>)
    requires Inv(s) && OnLoadAccepted(s, a0, a1)
    ensures var name, cb := SetLoaderArgs(a0, a1).feed.value, a1.value;
      var s' := OnLoad(s, a0, a1);
      && StackOf(s', name) == StackOf(s, name) + [Callback(cb)]
      && (forall n :: n != name ==> StackOf(s', n) == StackOf(s, n))
      && (name in s.initExe ==> s'.trace == s.trace + [Invoke(cb, s.data[name])])
      && (name !in s.initExe ==> s'.trace == s.trace)
      && s'.(callStack := s.callStack, trace := s.trace) == s
  {
    var args := SetLoaderArgs(a0, a1);
    assert args.callback == a1;
    SubscribeAppends(s, args.feed.value, a1.value);
  }

  lemma SubscribeAppends(s: State, name: string, cb: FnId)
    requires name in s.initExe ==> name in s.data
    ensures var s' := Subscribe(s, name, cb);
      && StackOf(s', name) == StackOf(s, name) + [Callback(cb)]
      && (forall n :: n != name ==> StackOf(s', n) == StackOf(s, n))
      && (name in s.initExe ==> s'.trace == s.trace + [Invoke(cb, s.data[name])])
      && (name !in s.initExe ==> s'.trace == s.trace)
      && s'.(callStack := s.callStack, trace := s.trace) == s
  {
  }

  /**
   * A subscriber is called by every later successful completion of its
   * feed, after the subscribers registered before it.
   */
  lemma SubscriberCalledOnCompletion(s: State, name: string, cb: FnId, token: nat, raw: Value)
    requires Inv(s) && OnLoadAccepted(s, StringArg(name), Some(cb))
    requires token in s.open && token < |s.issued| && s.issued[token].feed == name
    requires GetNormalizationFn(NormalizeOf(s.issued[token].info), s.feeds) != Throws
    ensures var s1 := OnLoad(s, StringArg(name), Some(cb));
      var s2 := Complete(s1, token, raw);
      name in s2.data && s2.trace == s1.trace + FanOut(StackOf(s, name), s2.data[name]) + [Invoke(cb, s2.data[name])]
  {
    var s1 := OnLoad(s, StringArg(name), Some(cb));
    OnLoadAppends(s, StringArg(name), Some(cb));
    assert s1.open == s.open && s1.issued == s.issued && s1.feeds == s.feeds;
    CompleteStores(s1, token, raw);
    var v := Complete(s1, token, raw).data[name];
    FanOutAppend(StackOf(s, name), [Callback(cb)], v);
    assert FanOut([Callback(cb)], v) == [Invoke(cb, v)] by {
      assert [Callback(cb)][..0] == [];
    }
  }

  /**
   * A successful completion stores the normalised payload under the
   * request's feed, marks the feed loaded and runs its stack in order;
   * nothing else changes but the request leaving the transport.
   */
  lemma CompleteStores(s: State, token: nat, raw: Value)
    requires token in s.open && token < |s.issued|
    requires GetNormalizationFn(NormalizeOf(s.issued[token].info), s.feeds) != Throws
    ensures var req := s.issued[token];
      var v := Normalise(GetNormalizationFn(NormalizeOf(req.info), s.feeds), raw).value;
      var s' := Complete(s, token, raw);
      && s'.data == s.data[req.feed := v]
      && s'.initExe == s.initExe + {req.feed}
      && s'.trace == s.trace + FanOut(StackOf(s, req.feed), v)
      && s'.open == s.open - {token}
      && s'.(data := s.data, initExe := s.initExe, trace := s.trace, open := s.open) == s
  {
  }

  /**
   * The payload passes through unchanged without a normaliser; a function
   * normaliser is applied, whether given directly or named through another
   * feed's definition.
   */
  lemma CompleteNormalises(s: State, token: nat, raw: Value)
    requires token in s.open && token < |s.issued|
    ensures var req := s.issued[token];
      var s' := Complete(s, token, raw);
      && (NormalizeOf(req.info) == NoNormalize ==> s'.data[req.feed] == raw)
      && (NormalizeOf(req.info).NormalizeFn? ==> s'.data[req.feed] == Normalized(NormalizeOf(req.info).fn, raw))
      && (NormalizeOf(req.info).NormalizeRef? && NormalizeOf(req.info).feed in s.feeds
          && NormalizeOf(s.feeds[NormalizeOf(req.info).feed]).NormalizeFn? ==>
            s'.data[req.feed] == Normalized(NormalizeOf(s.feeds[NormalizeOf(req.info).feed]).fn, raw))
  {
  }

  /**
   * A feed defined by a bare url string never stores data: its `normalize`
   * is `String.prototype.normalize`, which throws when `commonSuccessFN`
   * calls it, so the data, load flag and trace stay as they were.
   */
  lemma UrlStringFeedNeverStores(s: State, token: nat, raw: Value)
    requires token < |s.issued| && s.issued[token].info.UrlOnly?
    ensures var s' := Complete(s, token, raw);
      s'.data == s.data && s'.initExe == s.initExe && s'.trace == s.trace
  {
  }

  /**
   * Nothing tags requests with a generation: when an older request of a
   * feed is delivered after a newer one, the older payload overwrites the
   * newer.
   */
  lemma StaleCompletionOverwrites(s: State, older: nat, newer: nat, rawOld: Value, rawNew: Value)
    requires older < newer < |s.issued| && older in s.open && newer in s.open
    requires s.issued[older].feed == s.issued[newer].feed
    requires GetNormalizationFn(NormalizeOf(s.issued[older].info), s.feeds) == Identity
    ensures var s2 := Complete(Complete(s, newer, rawNew), older, rawOld);
      s.issued[older].feed in s2.data && s2.data[s.issued[older].feed] == rawOld
  {
    var s1 := Complete(s, newer, rawNew);
    assert s1.feeds == s.feeds && s1.issued == s.issued && older in s1.open by {
      if GetNormalizationFn(NormalizeOf(s.issued[newer].info), s.feeds) != Throws {
        CompleteStores(s, newer, rawNew);
      }
    }
    CompleteStores(s1, older, rawOld);
  }

  /** A completion for a feed removed since its request was issued still stores data and sets the load flag, but calls nobody. */
  lemma CompleteAfterRemove(s: State, token: nat, raw: Value)
    requires token in s.open && token < |s.issued| && s.issued[token].feed !in s.callStack
    requires GetNormalizationFn(NormalizeOf(s.issued[token].info), s.feeds) != Throws
    ensures var s' := Complete(s, token, raw);
      s.issued[token].feed in s'.data && s.issued[token].feed in s'.initExe && s'.trace == s.trace
  {
  }

  lemma SubscribeInv(s: State, name: string, cb: FnId)
    requires Inv(s)
    ensures Inv(Subscribe(s, name, cb)) && (TimersTracked(s) ==> TimersTracked(Subscribe(s, name, cb)))
  {
    var s' := Subscribe(s, name, cb);
    SubscribeAppends(s, name, cb);
    CallbacksInv(s, s'.callStack, s'.trace);
    assert s' == s.(callStack := s'.callStack, trace := s'.trace);
  }

  /** Callback stacks and the call trace take no part in the invariant. */
  lemma CallbacksInv(s: State, callStack: map<string, seq<Slot>>, trace: seq<Effect>)
    requires Inv(s)
    ensures Inv(s.(callStack := callStack, trace := trace))
    ensures TimersTracked(s) ==> TimersTracked(s.(callStack := callStack, trace := trace))
  {
  }

  lemma OnLoadInv(s: State, a0: Arg, a1: Option<FnId>)
    requires Inv(s)
    ensures Inv(OnLoad(s, a0, a1)) && (TimersTracked(s) ==> TimersTracked(OnLoad(s, a0, a1)))
  {
    if OnLoadAccepted(s, a0, a1) {
      var args := SetLoaderArgs(a0, a1);
      SubscribeInv(s, args.feed.value, args.callback.value);
    }
  }

  lemma CommonSuccessInv(s: State, feed: string, nf: Normalizer, raw: Value)
    requires Inv(s)
    ensures Inv(CommonSuccess(s, feed, nf, raw))
    ensures TimersTracked(s) ==> TimersTracked(CommonSuccess(s, feed, nf, raw))
  {
  }

  lemma CompleteInv(s: State, token: nat, raw: Value)
    requires Inv(s)
    ensures Inv(Complete(s, token, raw)) && (TimersTracked(s) ==> TimersTracked(Complete(s, token, raw)))
  {
    if token in s.open && token < |s.issued| {
      var s1 := s.(open := s.open - {token});
      assert Inv(s1);
      var req := s.issued[token];
      CommonSuccessInv(s1, req.feed, GetNormalizationFn(NormalizeOf(req.info), s.feeds), raw);
    }
  }

  // ---------------------------------------------------------------- getData

  /**
   * One attempt: with data, the callback is called once and polling stops;
   * without, the state is untouched and another attempt is scheduled while
   * the counter is at most 120.
   */
  lemma AttemptStep(s: State, p: Poll)
    ensures var (s', p') := Attempt(s, p);
      && p'.feed == p.feed && p'.callback == p.callback
      && (HasData(s, p.feed) ==> !p'.pending && s'.trace == s.trace + [Invoke(p.callback, s.data[p.feed])]
                                 && s'.(trace := s.trace) == s)
      && (!HasData(s, p.feed) ==> s' == s && (p'.pending <==> p.cntr <= PollMax)
                                  && (p'.pending ==> p'.cntr == p.cntr + 1))
  {
  }

  /** The attempts of one `getData` call while it stays pending; `views` are the states each attempt sees. */
  function Attempts(p: Poll, views: seq<State>): nat
    decreases |views|
  {
    if views == [] || !p.pending then 0 else 1 + Attempts(Attempt(views[0], p).1, views[1..])
  }

  /** How many times one `getData` call calls back over those attempts. */
  function Calls(p: Poll, views: seq<State>): nat
    decreases |views|
  {
    if views == [] || !p.pending then 0
    else (if HasData(views[0], p.feed) then 1 else 0) + Calls(Attempt(views[0], p).1, views[1..])
  }

  /**
   * Whatever happens to the data between attempts, a `getData` call calls
   * back at most once, and makes at most 122 attempts: the immediate one
   * and one per scheduled retry while the counter is at most 120.
   */
  lemma {:induction false} PollBounded(p: Poll, views: seq<State>)
    requires p.cntr <= PollMax + 1
    ensures Calls(p, views) <= 1
    ensures Attempts(p, views) <= PollMax + 2 - p.cntr
    decreases |views|
  {
    if views != [] && p.pending {
      var p' := Attempt(views[0], p).1;
      PollBounded(p', views[1..]);
      if HasData(views[0], p.feed) {
        assert !p'.pending;
        assert Calls(p', views[1..]) == 0 && Attempts(p', views[1..]) == 0;
      }
    }
  }

  /** Data present at the first attempt is delivered at once, and only then. */
  lemma PollImmediate(s: State, name: string, cb: FnId)
    requires HasData(s, name)
    ensures var (s', p') := Attempt(s, Poll(name, cb, 0, true));
      !p'.pending && s'.trace == s.trace + [Invoke(cb, s.data[name])]
  {
  }

  // ---------------------------------------------------------------- construction

  lemma BootOneInv(s: State, name: string, now: Clock)
    requires Inv(s)
    ensures Inv(BootOne(s, name, now)) && (TimersTracked(s) ==> TimersTracked(BootOne(s, name, now)))
    ensures BootOne(s, name, now).feeds == s.feeds && BootOne(s, name, now).order == s.order
  {
    LoadFeedInv(s, name, now);
    LoadFeedEffect(s, name, now);
    var s1 := LoadFeed(s, name, now);
    if name in s1.feeds && HasRefresh(s1.feeds[name]) {
      SetRefreshRateInv(s1, name, s1.feeds[name]);
    }
  }

  lemma {:induction false} BootEachInv(s: State, names: seq<string>, now: Clock)
    requires Inv(s)
    ensures Inv(BootEach(s, names, now)) && (TimersTracked(s) ==> TimersTracked(BootEach(s, names, now)))
  {
    if names != [] {
      BootEachInv(s, names[..|names| - 1], now);
      BootOneInv(BootEach(s, names[..|names| - 1], now), names[|names| - 1], now);
    }
  }

  /**
   * One key of the constructor's loop leaves an armed feed armed: the key
   * itself is re-armed or kept, and arming another key clears only that
   * key's own interval.
   */
  lemma BootOneKeepsArmed(s: State, m: string, n: string, now: Clock)
    requires Inv(s) && ArmedFor(s, n)
    ensures ArmedFor(BootOne(s, m, now), n)
  {
    var s1 := LoadFeed(s, m, now);
    LoadFeedEffect(s, m, now);
    assert s1.timers == s.timers && s1.refreshObj == s.refreshObj && s1.nextTimer == s.nextTimer;
    if m in s1.feeds && HasRefresh(s1.feeds[m]) {
      var info := s1.feeds[m];
      SetRefreshRateEffect(s1, m, info);
      if Refreshes(info) && m != n {
        assert s.refreshObj[n] < s.nextTimer;
        assert m in s.refreshObj ==> s.refreshObj[m] != s.refreshObj[n];
      }
    }
  }

  /**
   * The constructor's loop over `names`: every request it issues is for a
   * listed feed that is registered with a url, every such feed gets one,
   * and every listed feed with an accepted `refresh` ends with an interval
   * that reloads it.
   */
  lemma {:induction false} BootEachEffect(s: State, names: seq<string>, now: Clock)
    requires Inv(s)
    ensures var s' := BootEach(s, names, now);
      && s'.feeds == s.feeds
      && |s'.issued| >= |s.issued| && s'.issued[..|s.issued|] == s.issued
      && FetchedOnly(s, s', names)
      && FetchedAll(s, s', names)
      && (forall n :: n in names && n in s.feeds && Refreshes(s.feeds[n]) ==> ArmedFor(s', n))
  {
    if names != [] {
      var init, last := names[..|names| - 1], names[|names| - 1];
      BootEachEffect(s, init, now);
      BootEachInv(s, init, now);
      var m := BootEach(s, init, now);
      var s' := BootOne(m, last, now);
      assert s' == BootEach(s, names, now);
      var s1 := LoadFeed(m, last, now);
      LoadFeedEffect(m, last, now);
      BootOneInv(m, last, now);
      if last in s1.feeds && HasRefresh(s1.feeds[last]) {
        SetRefreshRateEffect(s1, last, s1.feeds[last]);
      }
      assert s'.issued == s1.issued;
      assert Loadable(m, last) == Loadable(s, last);
      forall k | |s.issued| <= k < |s'.issued|
        ensures s'.issued[k].feed in names && Loadable(s, s'.issued[k].feed)
      {
        if k < |m.issued| {
          assert s'.issued[k] == m.issued[k];
        } else {
          assert s'.issued[k].feed == last;
        }
      }
      forall n | n in names && Loadable(s, n)
        ensures exists k :: |s.issued| <= k < |s'.issued| && s'.issued[k].feed == n
      {
        if n in init {
          var k :| |s.issued| <= k < |m.issued| && m.issued[k].feed == n;
          assert s'.issued[k] == m.issued[k];
        } else {
          assert s'.issued[|m.issued|].feed == n;
        }
      }
      forall n | n in names && n in s.feeds && Refreshes(s.feeds[n])
        ensures ArmedFor(s', n)
      {
        if n == last {
          assert HasRefresh(s1.feeds[last]);
        } else {
          assert n in init;
          BootOneKeepsArmed(m, last, n, now);
        }
      }
    }
  }

  /**
   * `new App(config)` with `initOnLoad` (the default) and a feeds object
   * loads exactly the feeds that are registered with a url and arms every
   * feed whose `refresh` is at least 0.5 minutes; otherwise it issues
   * nothing, arms nothing and calls nothing.
   */
  lemma InitLoadsAndArms(feeds: Option<map<string, FeedDef>>, order: seq<string>, initOnLoad: bool, cacheTime: nat, now: Clock)
    requires Distinct(order) && (feeds.Some? ==> forall n :: n in order <==> n in feeds.value)
    ensures var s := Init(feeds, order, initOnLoad, cacheTime, now);
      && (initOnLoad && feeds.Some? ==>
            && (forall n :: n in feeds.value && DefTruthy(feeds.value[n]) && feeds.value[n].url != "" ==>
                  exists k :: 0 <= k < |s.issued| && s.issued[k].feed == n)
            && (forall k :: 0 <= k < |s.issued| ==>
                  s.issued[k].feed in feeds.value && DefTruthy(feeds.value[s.issued[k].feed]) && feeds.value[s.issued[k].feed].url != "")
            && (forall n :: n in feeds.value && Refreshes(feeds.value[n]) ==> ArmedFor(s, n)))
      && (!initOnLoad || feeds.None? ==> s.issued == [] && s.refreshObj == map[] && s.timers == map[] && s.trace == [])
  {
    if initOnLoad && feeds.Some? {
      var s0 := EmptyState(true, feeds.value, order, cacheTime);
      assert Inv(s0);
      BootEachEffect(s0, order, now);
      var s := Init(feeds, order, initOnLoad, cacheTime, now);
      assert s == BootEach(s0, order, now);
      forall n | n in feeds.value && DefTruthy(feeds.value[n]) && feeds.value[n].url != ""
        ensures exists k :: 0 <= k < |s.issued| && s.issued[k].feed == n
      {
        assert n in order && Loadable(s0, n);
      }
    }
  }

  /** The constructor starts in a state that satisfies the invariants, with every interval tracked. */
  lemma InitInv(feeds: Option<map<string, FeedDef>>, order: seq<string>, initOnLoad: bool, cacheTime: nat, now: Clock)
    requires Distinct(order) && (feeds.Some? ==> forall n :: n in order <==> n in feeds.value)
    ensures Inv(Init(feeds, order, initOnLoad, cacheTime, now)) && TimersTracked(Init(feeds, order, initOnLoad, cacheTime, now))
  {
    var s0 := EmptyState(feeds.Some?, if feeds.Some? then feeds.value else map[], if feeds.Some? then order else [], cacheTime);
    assert Inv(s0);
    if initOnLoad && feeds.Some? {
      BootEachInv(s0, order, now);
    }
  }
}
