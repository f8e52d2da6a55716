# MultiFeedParser feed controller in Dafny

MultiFeedParser is a jQuery-based "control center" for polling feeds. A
controller object keeps, per feed name:

- the feed definition (`_config.feeds`);
- the last normalised payload (`_data`);
- a "loaded once" flag (`_initExe`);
- a stack of persistent subscribers (`_callStack`);
- the handle of the feed's refresh interval (`_refreshObj`);
- the handle of its last transport request (`_xhr`).

The public `event` object offers five operations:

- `reload` fetches feeds again;
- `addFeed` and `removeFeed` change the set of feeds;
- `onLoad` subscribes a callback for every load;
- `getData` polls until a feed has data and then calls back once.

Private helpers do the work behind them:

- `loadFeed` builds the ajax settings, picks JSON or JSONP, adds a cache buster and aborts the previous request;
- `commonSuccessFN` normalises and stores a payload and runs the subscribers;
- `setRefreshRate` starts the interval that reloads a feed.

This project models that controller and proves what it promises.

- `text.dfy` (module `Text`): `trimStr`, and the "trim, collapse whitespace, split on a space" idiom that turns a name argument into names. It also has `split`, ASCII lower-casing and number printing.
- `helpers.dfy` (module `Helpers`): `useJSONPCallback`, `getJSONP`, `inDataType` and `cacheBuster`, as functions with lemmas.
- `types.dfy` (module `FeedTypes`): the values the controller stores (definitions, payloads, stack slots, requests, observable effects). It also has `setLoaderArgs`, `getNormalizationFN` and `loadFeed`'s choice of data type.
- `lifecycle.dfy` (module `Lifecycle`): the whole controller state as one `State` value, and each operation as a function from the state before to the state after.
- `properties.dfy` (module `FeedProperties`): lemmas about those functions. They cover the invariants every operation keeps, the keys each one touches, when each one refuses, callback order, the single interval per feed and the bounded poll.
- `controller.dfy` (module `MultiFeedParser`): class `Controller` holds the maps as fields that its methods update in place, with real loops for the constructor, `reload`, `removeFeed` and `triggerStack`. Class `DataWait` is one `getData` call with its mutable counter. Each method is proved to leave the state that the matching `Lifecycle` function gives. Each public method (the constructor, `Reload`, `Tick`, `AddFeed`, `RemoveFeed`, `OnLoad`, `Complete`, `GetData` and `DataWait.Attempt`) also keeps `Inv`; the private helpers they call do not mention it.

Asynchronous events are methods the environment calls:

- `Controller.Complete` is a transport delivery;
- `Controller.Tick` is an interval firing;
- `DataWait.Attempt` is a `getData` timeout firing.

Timers and requests are abstract tokens. Every transport call is appended to `issued`, and its index is the request handle. `open` holds the requests the transport may still deliver. Every call out of the controller is appended to `trace`: fetch, abort, callback, `clearInterval`, `setInterval`. The exception is `getData`'s `setTimeout`/`clearTimeout`: a poll's `pending` flag stands for its scheduled retry instead.

## Model

| member | source | states |
|---|---|---|
| Text.TrimStr | js/MultiFeedParser.js:658-661 | the result neither starts nor ends with whitespace |
| Text.LettersTrim | js/MultiFeedParser.js:658-661 | trimming removes whitespace only: the non-whitespace characters stay, in order |
| Text.TrimLeft | js/MultiFeedParser.js:659 | the left half of `trimStr`: the result is a suffix of the input, everything dropped is whitespace, and the result does not start with whitespace |
| Text.TrimRight | js/MultiFeedParser.js:659 | the right half of `trimStr`: the result is a prefix of the input, everything dropped is whitespace, and the result does not end with whitespace |
| Text.SplitOn | js/MultiFeedParser.js:116 | defines `s.split(c)`: the pieces between occurrences of `c`, at least one |
| Text.Collapse | js/MultiFeedParser.js:115 | defines `replace(/\s+/g, " ")`: every maximal run of whitespace becomes one space |
| Text.SplitNames | js/MultiFeedParser.js:114-116 | defines the name list built from a string argument: trim, collapse whitespace, split on a space |
| Text.Words | js/MultiFeedParser.js:238-240 | an independent definition of the names meant: the maximal runs of non-whitespace, in order |
| Text.SplitNamesBlank | js/MultiFeedParser.js:114-116 | a blank name argument becomes the single name `""` |
| Text.SplitNamesWords | js/MultiFeedParser.js:238-240 | a non-blank name argument becomes exactly `Words` of it, its maximal runs of non-whitespace in order: each name non-empty and free of whitespace, together holding the argument's non-whitespace characters in order |
| Text.SplitNamesOfWord | js/MultiFeedParser.js:114-116 | a single word is a list of exactly that name |
| Text.SplitNamesCons | js/MultiFeedParser.js:238-240 | a word, whitespace, then a non-blank rest: the first name is that word and the others are the rest's names |
| Text.SplitNamesTwo | js/MultiFeedParser.js:114-116 | `"a b"` names exactly the feeds `a` and `b` |
| Text.JoinSplit | js/MultiFeedParser.js:576-579 | `split` loses nothing: joining the pieces with the separator gives back the input |
| Text.NatToStringInjective | js/MultiFeedParser.js:646 | different numbers print as different decimal strings |
| Text.NatToString | js/MultiFeedParser.js:645-647 | defines `n.toString()`: at least one digit, and one digit exactly below 10 |
| Helpers.UseJsonpCallback | js/MultiFeedParser.js:573-589 | defines `useJSONPCallback`: a `p=n` option, then a bare option, then the url's callback, then `"jsonp" + type` |
| Helpers.UseJsonpCallbackChoice | js/MultiFeedParser.js:573-589 | which source gives the parameter and the name: a `p=n` option is split back into `p` and `n`; otherwise the parameter is `callback`; the name is a bare option, else the url's callback, else `"jsonp" + type` |
| Helpers.UseJsonpCallbackPair | js/MultiFeedParser.js:576-579 | an option `p=n` yields `{param: p, name: n}` whatever the url holds |
| Helpers.UseJsonpCallbackBare | js/MultiFeedParser.js:580-581 | a bare option overrides the url's callback and keeps the default parameter |
| Helpers.QueryOf | js/MultiFeedParser.js:614-615 | defines the search part of a url: the text between its first and second `?` |
| Helpers.FindCallback | js/MultiFeedParser.js:619-624 | defines `getJSONP`'s loop: the value of the first pair whose key is `callback` in any case |
| Helpers.GetJsonp | js/MultiFeedParser.js:611-628 | defines `getJSONP`: no query or no `callback=` in the lower-cased query gives nothing, otherwise the pair search |
| Helpers.FindCallbackFirst | js/MultiFeedParser.js:618-624 | the pair search finds nothing exactly when no pair's key is `callback` in any case; otherwise it returns the value of the first such pair |
| Helpers.GetJsonpFromQuery | js/MultiFeedParser.js:611-628 | a url without a query yields no callback; a callback found is the value of a `callback` pair of the query; and when the query has a `callback` pair with a `=`, the value of the first `callback` pair is found |
| Helpers.CallbackPairValue | js/MultiFeedParser.js:620-622 | the pair `callback=name` is recognised and yields `name` |
| Helpers.GetJsonpRoundTrip | js/MultiFeedParser.js:611-628 | a url built as `base?callback=name` gives back `name` |
| Helpers.InDataType | js/MultiFeedParser.js:596-604 | never true: the computed flag is never returned |
| Helpers.CacheBuster | js/MultiFeedParser.js:643-649 | defines `cacheBuster`: year, month + 1, day and hour + 1, then the `freq`-minute slot of the hour |
| Helpers.CacheBusterSlots | js/MultiFeedParser.js:643-649 | within one hour, two instants get the same cache buster exactly when they fall in the same `freq`-minute slot |
| Helpers.CacheBusterCollides | js/MultiFeedParser.js:643-649 | without padding, 11 January and 1 November of one year, at the same hour and minute, get the same cache buster |
| FeedTypes.SetLoaderArgs | js/MultiFeedParser.js:524-543 | the callback is exactly the second argument; the type is a string first argument, or an object's truthy `type`, else absent |
| FeedTypes.ObjectFormHasNoCallback | js/MultiFeedParser.js:531-538 | the object form `{type, callback}` alone yields no callback |
| FeedTypes.GetNormalizationFn | js/MultiFeedParser.js:550-566 | a function is applied as it is; a string naming a feed whose `normalize` is a function applies that function; a url-string definition's `normalize` throws; otherwise the payload passes through |
| FeedTypes.NormalizeRefIsOneLevel | js/MultiFeedParser.js:555-561 | a name that points at another name resolves to no normaliser |
| FeedTypes.Normalise | js/MultiFeedParser.js:495 | defines the value `commonSuccessFN` stores: the raw payload, a normaliser applied to it, or nothing when the normaliser throws |
| FeedTypes.LoaderDataType | js/MultiFeedParser.js:402-413 | defines `loadFeed`'s data type exactly as written, including the `inDataType` branch |
| FeedTypes.DataTypeOf | js/MultiFeedParser.js:402-413 | defines the data type a load uses: `"jsonp"` for a callback in the definition or the url, `"json"` otherwise |
| FeedTypes.LoaderDataTypeIsJsonOrJsonp | js/MultiFeedParser.js:402-413 | the data type is always `"json"` or `"jsonp"`, and `"jsonp"` exactly when the definition has a string `jsonpCallback` or the url carries a callback |
| Lifecycle.Inv | js/MultiFeedParser.js:27-68 | defines what every operation keeps: the key order lists exactly the feeds once each, handles name issued requests and live intervals, every interval handle is live and reloads its own feed, loaded feeds have data |
| Lifecycle.TimersTracked | js/MultiFeedParser.js:360-361 | defines that every live interval is the one `_refreshObj` holds for its feed |
| Lifecycle.QueryData | js/MultiFeedParser.js:431-476 | defines the query data of a load: the JSONP callback parameter unless the url has one, and `cb` when `cacheTime` is set |
| Lifecycle.LoadFeed | js/MultiFeedParser.js:378-490 | defines `loadFeed`: nothing without a truthy definition and url, otherwise one request issued |
| Lifecycle.Issue | js/MultiFeedParser.js:479-490 | defines the end of `loadFeed`: abort the previous request unless JSONP, send the new one, keep its handle |
| Lifecycle.SetRefreshRate | js/MultiFeedParser.js:349-368 | defines `setRefreshRate`: refuse below 0.5 minutes, otherwise replace the interval |
| Lifecycle.Rearm | js/MultiFeedParser.js:358-367 | defines `clearInterval` of the old handle and `setInterval` of a new one |
| Lifecycle.Arm | js/MultiFeedParser.js:107-111 | defines `reload`'s `setRefresh`: `setRefreshRate` only without a handle |
| Lifecycle.ReloadOne | js/MultiFeedParser.js:121-126 | defines one name of `reload`'s loop |
| Lifecycle.Issued | js/MultiFeedParser.js:123-124 | defines `loadFeed` then `setRefresh` for one name |
| Lifecycle.ReloadEach | js/MultiFeedParser.js:119-133 | defines `reload`'s loop over a name list |
| Lifecycle.Reload | js/MultiFeedParser.js:95-137 | defines `event.reload` |
| Lifecycle.Tick | js/MultiFeedParser.js:361-367 | defines an interval firing: `reload` of the feed it was armed for |
| Lifecycle.AddConfig | js/MultiFeedParser.js:163-170 | defines the `config` `addFeed` reads from its arguments |
| Lifecycle.Stored | js/MultiFeedParser.js:181-184 | defines the stored definition: the config minus `type` |
| Lifecycle.AddAccepted | js/MultiFeedParser.js:172-178 | defines when `addFeed` accepts: type and url present, type not registered |
| Lifecycle.AddFeed | js/MultiFeedParser.js:156-195 | defines `event.addFeed` |
| Lifecycle.Define | js/MultiFeedParser.js:186-188 | defines `feeds[type] = cfg`, creating the feeds object when missing |
| Lifecycle.RemoveOne | js/MultiFeedParser.js:216-236 | defines `removeType` |
| Lifecycle.RemoveEach | js/MultiFeedParser.js:242-244 | defines `removeFeed`'s loop |
| Lifecycle.RemoveFeed | js/MultiFeedParser.js:208-246 | defines `event.removeFeed` |
| Lifecycle.Callbacks | js/MultiFeedParser.js:512-517 | defines the function slots of a stack, in index order |
| Lifecycle.FanOut | js/MultiFeedParser.js:512-517 | defines the calls `triggerStack` makes |
| Lifecycle.OnLoadAccepted | js/MultiFeedParser.js:273 | defines when `onLoad` accepts |
| Lifecycle.OnLoad | js/MultiFeedParser.js:266-284 | defines `event.onLoad` |
| Lifecycle.Subscribe | js/MultiFeedParser.js:276-282 | defines the push and the immediate call |
| Lifecycle.Complete | js/MultiFeedParser.js:425-427 | defines a transport delivery of an open request |
| Lifecycle.CommonSuccess | js/MultiFeedParser.js:493-503 | defines `commonSuccessFN` |
| Lifecycle.HasData | js/MultiFeedParser.js:320 | defines `typeof data[type] !== "undefined"` |
| Lifecycle.Attempt | js/MultiFeedParser.js:319-329 | defines one run of `attempt()` |
| Lifecycle.BootOne | js/MultiFeedParser.js:58-63 | defines one key of the constructor loop |
| Lifecycle.BootEach | js/MultiFeedParser.js:57-65 | defines the constructor loop |
| Lifecycle.Init | js/MultiFeedParser.js:27-68 | defines `new App(config)` |
| FeedProperties.LoadFeedEffect | js/MultiFeedParser.js:378-490 | one request is issued exactly when the feed is registered with a url, and it is recorded as the feed's handle; only the handle, transport and trace change; earlier requests are kept |
| FeedProperties.LoadFeedAborts | js/MultiFeedParser.js:479-490 | a JSON load aborts the feed's previous request, which is then never delivered; a JSONP load leaves it deliverable |
| FeedProperties.LoadFeedInv | js/MultiFeedParser.js:378-490 | `loadFeed` keeps the invariants |
| FeedProperties.SetRefreshRateRefuses | js/MultiFeedParser.js:349-355 | a refresh that is absent or below 0.5 minutes changes nothing |
| FeedProperties.SetRefreshRateArms | js/MultiFeedParser.js:357-367 | an accepted refresh clears the feed's previous interval and starts one fresh interval of `refresh * 60000` ms; afterwards each feed has at most one live interval |
| FeedProperties.SetRefreshRateInv | js/MultiFeedParser.js:349-368 | `setRefreshRate` keeps the invariants whether it accepts or refuses |
| FeedProperties.SetRefreshRateEffect | js/MultiFeedParser.js:349-367 | an accepted refresh arms an interval that reloads the feed and changes only the interval fields and the trace; a refused one changes nothing |
| FeedProperties.TrackedIsOnePerFeed | js/MultiFeedParser.js:360-361 | when every live interval is tracked, no two live intervals reload the same feed |
| FeedProperties.RearmInv | js/MultiFeedParser.js:359-367 | replacing a feed's interval keeps every handle tracked |
| FeedProperties.ReloadKey | js/MultiFeedParser.js:130-133 | skipping the truthiness check in the all-feeds loop makes no difference for a defined name |
| FeedProperties.ReloadOneFrame | js/MultiFeedParser.js:121-125 | reloading one name changes no definition, data, load flag or stack, and keeps earlier requests |
| FeedProperties.ReloadOneInv | js/MultiFeedParser.js:121-125 | reloading one name keeps the invariants |
| FeedProperties.ReloadEachInv | js/MultiFeedParser.js:119-135 | a reload loop keeps the invariants and changes no definition, data, load flag or stack |
| FeedProperties.ReloadEachFrame | js/MultiFeedParser.js:119-135 | a reload loop changes no definition, data, load flag or stack, and keeps earlier requests |
| FeedProperties.ReloadInv | js/MultiFeedParser.js:95-137 | `reload` keeps the invariants, including one tracked interval per feed |
| FeedProperties.TickInv | js/MultiFeedParser.js:359-365 | an interval tick keeps the invariants |
| FeedProperties.ReloadOneFetch | js/MultiFeedParser.js:121-125 | one name issues one request, for that name, exactly when it is loadable |
| FeedProperties.ReloadOneIntervals | js/MultiFeedParser.js:107-111 | one name keeps every existing interval handle; a name without a handle gets one exactly when it is registered with a refresh of at least 0.5 minutes, and that interval reloads it |
| FeedProperties.ArmEffect | js/MultiFeedParser.js:107-111 | `setRefresh` keeps every handle and arms the feed exactly when it has none and a refresh of at least 0.5 minutes |
| FeedProperties.ReloadEachFetchedOnly | js/MultiFeedParser.js:119-127 | every request a reload loop issues is for a listed name that is loadable |
| FeedProperties.ReloadEachFetchedAll | js/MultiFeedParser.js:119-127 | every listed loadable name gets a request |
| FeedProperties.ReloadEachFetches | js/MultiFeedParser.js:119-127 | the requests issued are exactly for the listed loadable names; unknown names load nothing |
| FeedProperties.ReloadEachKeepsIntervals | js/MultiFeedParser.js:107-111 | existing interval handles are kept; a new one appears only for a listed registered feed with a refresh of at least 0.5 minutes |
| FeedProperties.ReloadEachArmed | js/MultiFeedParser.js:119-127 | after the loop, every listed registered feed with a refresh of at least 0.5 minutes has an interval handle |
| FeedProperties.ReloadArms | js/MultiFeedParser.js:104-135 | `reload` leaves every covered registered feed with a refresh of at least 0.5 minutes with an interval that reloads it: the listed names, or every feed without an argument |
| FeedProperties.ReloadEachNoFetch | js/MultiFeedParser.js:119-127 | a list with no loadable name issues no request |
| FeedProperties.RemoveThenReload | js/MultiFeedParser.js:208-246 | `removeFeed(names)` followed by `reload(names)` issues no request |
| FeedProperties.RemoveOneInv | js/MultiFeedParser.js:216-236 | removing one name keeps the invariants |
| FeedProperties.RemoveEachInv | js/MultiFeedParser.js:238-244 | the removal loop keeps the invariants |
| FeedProperties.RemoveOneEffect | js/MultiFeedParser.js:216-236 | a registered name loses its definition, load flag, stack and interval handle and nothing else changes; an unregistered name changes nothing |
| FeedProperties.RemoveEachEffect | js/MultiFeedParser.js:238-244 | the removal loop deletes exactly the listed registered names from those four maps, and leaves the rest alone |
| FeedProperties.RemoveFeedEffect | js/MultiFeedParser.js:208-246 | no feeds object or no string argument changes nothing; otherwise the listed registered feeds lose their definition, load flag, stack and interval handle, while `_data`, `_xhr` and the live intervals stay; invariants kept |
| FeedProperties.RemoveFeedOrphansInterval | js/MultiFeedParser.js:220-230 | removing a feed with an interval leaves that interval running and tracked by nobody |
| FeedProperties.LoadThenArm | js/MultiFeedParser.js:189-194 | loading then arming keeps the definitions, key order and feeds object, and issues only the load's requests |
| FeedProperties.AddFeedRefuses | js/MultiFeedParser.js:172-178 | a missing type or url, or an already registered type, changes nothing |
| FeedProperties.AddFeedStores | js/MultiFeedParser.js:180-194 | an accepted call stores the config minus its `type` under that name, leaves other definitions, data, load flags and stacks alone, fetches the new feed, and arms an interval that reloads it exactly when its refresh is at least 0.5 minutes |
| FeedProperties.AddFeedTwice | js/MultiFeedParser.js:175-178 | adding the same name twice: the second call changes nothing and the first url stays |
| FeedProperties.AddFeedInv | js/MultiFeedParser.js:156-195 | `addFeed` keeps the invariants |
| FeedProperties.DefineInv | js/MultiFeedParser.js:186-188 | storing a definition keeps the key order duplicate-free and in step with the definitions |
| FeedProperties.FanOutInOrder | js/MultiFeedParser.js:512-517 | `triggerStack` calls exactly the function slots, in index order, each with the data |
| FeedProperties.FanOutAppend | js/MultiFeedParser.js:512-517 | running a concatenated stack runs the first part, then the second |
| FeedProperties.OnLoadRefuses | js/MultiFeedParser.js:273 | no type, no callback or an unregistered feed changes nothing |
| FeedProperties.OnLoadAppends | js/MultiFeedParser.js:276-282 | the callback goes at the end of the feed's stack and no other stack changes; it is called at once with the current data exactly when the feed has loaded before |
| FeedProperties.SubscribeAppends | js/MultiFeedParser.js:276-282 | the push and the immediate call, stated for a feed name and callback |
| FeedProperties.SubscriberCalledOnCompletion | js/MultiFeedParser.js:498-502 | a subscriber is called by the next successful completion of its feed, after the earlier subscribers |
| FeedProperties.CompleteStores | js/MultiFeedParser.js:493-503 | a delivered request stores the normalised payload under its feed, sets the load flag, runs the feed's stack and leaves the transport; nothing else changes |
| FeedProperties.CompleteNormalises | js/MultiFeedParser.js:495-498 | no normaliser stores the raw payload; a function, direct or named through another feed, is applied |
| FeedProperties.UrlStringFeedNeverStores | js/MultiFeedParser.js:495-498 | a feed defined by a bare url never stores data or calls subscribers, because its `normalize` is `String.prototype.normalize`, which throws when called unbound (engines with ES2015 strings) |
| FeedProperties.StaleCompletionOverwrites | js/MultiFeedParser.js:493-498 | an older request delivered after a newer one overwrites the newer payload |
| FeedProperties.CompleteAfterRemove | js/MultiFeedParser.js:498-502 | a completion for a removed feed still stores data and sets the flag, but calls nobody |
| FeedProperties.SubscribeInv | js/MultiFeedParser.js:276-282 | subscribing keeps the invariants |
| FeedProperties.OnLoadInv | js/MultiFeedParser.js:266-284 | `onLoad` keeps the invariants |
| FeedProperties.CommonSuccessInv | js/MultiFeedParser.js:493-503 | storing a payload keeps the invariants |
| FeedProperties.CompleteInv | js/MultiFeedParser.js:493-503 | a delivery keeps the invariants |
| FeedProperties.AttemptStep | js/MultiFeedParser.js:319-329 | with data the callback is called once and polling stops; without data nothing changes and a retry is scheduled while the counter is at most 120 |
| FeedProperties.PollBounded | js/MultiFeedParser.js:315-331 | whatever happens between attempts, one `getData` call calls back at most once and makes at most 122 attempts |
| FeedProperties.PollImmediate | js/MultiFeedParser.js:320-321 | data already present is delivered by the first attempt, which ends the poll |
| FeedProperties.BootOneInv | js/MultiFeedParser.js:57-64 | one key of the constructor loop keeps the invariants and the definitions |
| FeedProperties.BootEachInv | js/MultiFeedParser.js:56-66 | the constructor loop keeps the invariants |
| FeedProperties.BootOneKeepsArmed | js/MultiFeedParser.js:57-63 | one key of the constructor loop leaves every armed feed armed with an interval that reloads it |
| FeedProperties.BootEachEffect | js/MultiFeedParser.js:57-65 | the constructor loop fetches exactly the listed feeds that are registered with a url, keeps the definitions and earlier requests, and leaves every listed feed with a refresh of at least 0.5 minutes armed |
| FeedProperties.InitInv | js/MultiFeedParser.js:27-68 | a new controller satisfies the invariants, with every interval tracked |
| FeedProperties.InitLoadsAndArms | js/MultiFeedParser.js:22-23 | with `initOnLoad` and a feeds object, a new controller has fetched every feed registered with a url and nothing else, and armed every feed with a refresh of at least 0.5 minutes; otherwise it has issued nothing, armed nothing and called nothing |
| MultiFeedParser.Controller.constructor | js/MultiFeedParser.js:27-68 | fills the maps from the config, then its loop over the key order leaves exactly the state `Init` gives, which is valid with every interval tracked; what that state has loaded and armed is `FeedProperties.InitLoadsAndArms` |
| MultiFeedParser.Controller.LoadFeed | js/MultiFeedParser.js:378-490 | leaves the state `Lifecycle.LoadFeed` gives |
| MultiFeedParser.Controller.IssueRequest | js/MultiFeedParser.js:479-490 | aborts the previous non-JSONP request and issues the new one, as `Issue` gives |
| MultiFeedParser.Controller.SetRefreshRate | js/MultiFeedParser.js:349-368 | leaves the state `Lifecycle.SetRefreshRate` gives; `armed` is true exactly when the refresh is at least 0.5 minutes |
| MultiFeedParser.Controller.Rearm | js/MultiFeedParser.js:359-367 | clears the old interval and stores the new handle, as `Lifecycle.Rearm` gives |
| MultiFeedParser.Controller.SetRefresh | js/MultiFeedParser.js:107-111 | arms the feed only when it has no interval handle |
| MultiFeedParser.Controller.Reload | js/MultiFeedParser.js:95-137 | leaves the state `Lifecycle.Reload` gives, keeps the invariants, and returns false exactly when there is no feeds object |
| MultiFeedParser.Controller.ReloadListed | js/MultiFeedParser.js:119-127 | the listed-names loop leaves the state `ReloadEach` gives |
| MultiFeedParser.Controller.LoadAndArm | js/MultiFeedParser.js:123-124 | `loadFeed` then `setRefresh` for one name |
| MultiFeedParser.Controller.ReloadAll | js/MultiFeedParser.js:128-135 | the all-feeds loop leaves the state `ReloadEach` over the key order gives |
| MultiFeedParser.Controller.Tick | js/MultiFeedParser.js:359-365 | an interval firing reloads the feed it was armed for and keeps the invariants |
| MultiFeedParser.Controller.AddFeed | js/MultiFeedParser.js:156-195 | leaves the state `Lifecycle.AddFeed` gives, keeps the invariants, and `ok` is true exactly when the call is accepted |
| MultiFeedParser.Controller.Register | js/MultiFeedParser.js:163-194 | the body of `addFeed`: state and acceptance as `Lifecycle.AddFeed` gives |
| MultiFeedParser.Controller.RemoveType | js/MultiFeedParser.js:216-236 | removes one registered name as `RemoveOne` gives |
| MultiFeedParser.Controller.RemoveFeed | js/MultiFeedParser.js:208-246 | leaves the state `Lifecycle.RemoveFeed` gives, keeps the invariants, and `ok` is false exactly when refused |
| MultiFeedParser.Controller.RemoveEach | js/MultiFeedParser.js:238-244 | the removal loop leaves the state `RemoveEach` gives |
| MultiFeedParser.Controller.OnLoad | js/MultiFeedParser.js:266-284 | leaves the state `Lifecycle.OnLoad` gives, keeps the invariants, and `ok` is true exactly when the call is accepted |
| MultiFeedParser.Controller.Subscribe | js/MultiFeedParser.js:276-282 | pushes the callback and calls it at once if the feed has loaded, as `Subscribe` gives |
| MultiFeedParser.Controller.TriggerStack | js/MultiFeedParser.js:512-517 | appends to the trace exactly the calls `FanOut` lists: the function slots in index order |
| MultiFeedParser.Controller.Complete | js/MultiFeedParser.js:425-427 | a delivery leaves the state `Lifecycle.Complete` gives and keeps the invariants |
| MultiFeedParser.Controller.Deliver | js/MultiFeedParser.js:425-427 | a request no longer open does nothing; otherwise it leaves the transport and `commonSuccessFN` runs |
| MultiFeedParser.Controller.CommonSuccess | js/MultiFeedParser.js:493-503 | normalises, stores, sets the flag and runs the stack, as `Lifecycle.CommonSuccess` gives |
| MultiFeedParser.Controller.GetData | js/MultiFeedParser.js:304-333 | refused exactly without a type or a function callback, whether or not the feed is registered; otherwise a fresh poll starts and its first attempt runs at once; keeps the invariants |
| MultiFeedParser.DataWait.constructor | js/MultiFeedParser.js:315-317 | a poll starts with its counter at 0 |
| MultiFeedParser.DataWait.Attempt | js/MultiFeedParser.js:319-329 | one attempt, as `Lifecycle.Attempt` gives; a poll still pending has a counter of at most 121 |

## Where the code and the documented behaviour differ

In six places the code does less than its own comments, constants or branches suggest. The model follows the code each time, and a lemma shows the difference.

- The comment on `removeFeed` (js/MultiFeedParser.js:199) says it removes "all its instances and dependencies". The code nulls `_refreshObj[type]` without calling `clearInterval` (js/MultiFeedParser.js:220-230), so the interval keeps running: `FeedProperties.RemoveFeedOrphansInterval`. Each tick then reloads a name that is no longer registered, which does nothing while the name stays unregistered. Once `addFeed` registers the name again, the orphaned interval reloads it alongside the new feed's own interval.
- By the same comment (js/MultiFeedParser.js:199), the feed's in-flight request and data should go too. The code leaves `_xhr` and `_data` as they were (`FeedProperties.RemoveFeedEffect`), and a late completion still stores data (`FeedProperties.CompleteAfterRemove`).
- `cacheTime` is documented as the cache buster "in minutes" (js/MultiFeedParser.js:24), so each `cacheTime`-minute slot should get its own string. That holds within one hour (`Helpers.CacheBusterSlots`). The fields are written without padding (js/MultiFeedParser.js:645-647), so different days can share a string (`Helpers.CacheBusterCollides`).
- `getData` sets `max = 120` (js/MultiFeedParser.js:316). The test `cntr <= max` (js/MultiFeedParser.js:322) allows a retry while the counter is at most 120, so one call makes up to 122 attempts (`FeedProperties.PollBounded`).
- `loadFeed` aborts a feed's previous request before sending a new one (js/MultiFeedParser.js:479-488), so an older response should not replace a newer one. JSONP requests are never aborted and nothing tags requests, so a superseded request that completes late overwrites newer data (`FeedProperties.StaleCompletionOverwrites`).
- `loadFeed` accepts a bare url string as a feed definition (js/MultiFeedParser.js:389-390). Its `normalize` is then `String.prototype.normalize`, which throws when `commonSuccessFN` calls it unbound (js/MultiFeedParser.js:495), so such a feed never stores data or notifies anyone (`FeedProperties.UrlStringFeedNeverStores`). This assumes an engine with ES2015 strings; on an older engine `normalize` is undefined and the payload is stored unchanged.

## Left out

- The logging option and every `log` call: they only write to the console.
- `jQuery.ajax`: it becomes an appended `Request` and a `Fetch` effect. An aborted request is taken never to be delivered. Failed requests are not modelled; the code installs no error handler.
- The JSONP global hook `window[callback.name]`: the model delivers a JSONP response to the load that issued it, under that load's feed. The code runs whatever hook of that name was installed last. This differs in three cases:
  - the feed was redefined between the load and the response;
  - two feeds share a hook name (the same `jsonpCallback` string, or the same `callback=` in their urls): a response then runs the later feed's `commonSuccessFN` and is stored under that feed;
  - a definition has a string `jsonpCallback` while its url already carries `callback=foo`: the hook is installed under the option's name, but no parameter is added, so the server calls `foo` and nothing is stored.
- Real `setInterval`/`setTimeout` timing and `clearTimeout`: `Controller.Tick` and `DataWait.Attempt` are called by the environment. The interval's guard that `event.reload` exists is taken to hold.
- `new Date()`: the clock fields are a parameter.
- Key order of `for (i in feeds)`: the model uses insertion order (`order`). JavaScript lists integer-like keys first.
- Feed names that are also `Object.prototype` properties: maps have no inherited keys.
- A `null` first argument: `typeof null` is `"object"`, so `setLoaderArgs` and `addFeed` throw a TypeError on it. `Arg` and `AddArgs` have no such value, and the model treats it like any other refused argument.
- Feed definitions other than a url string or an object (`null`, numbers): not representable.
- Properties of an `addFeed` config other than `url`, `refresh`, `normalize` and `jsonpCallback`: not kept.
- `refresh` is an integer number of hundredths of a minute. `parseFloat`, `isNaN` and `toFixed(2)` rounding are not modelled, and a non-numeric refresh is `None`.
- `cacheTime` is a natural number of minutes; fractional values are not modelled.
- `decodeURI` is the identity.
- `toLowerCase` and `\s` cover ASCII only.
- Return values: the operations return `false` when they refuse and `undefined` otherwise. The methods return a boolean that is true when the call is accepted.
- User callbacks and normalisers are opaque identities recorded in `trace`. They are taken not to throw and not to call back into the controller, and a normaliser's result is never `undefined`.
- Interval and request handles are tested by presence in a map where the code tests their truthiness.
- `isArray(stack)` in `triggerStack`: a stack is either absent or an array.
