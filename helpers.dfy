/**
 * The self-contained helpers of the loader: picking the JSONP callback
 * (`useJSONPCallback`), reading a `callback=` parameter out of a url
 * (`getJSONP`), the supported-type check (`inDataType`) and the
 * time-bucket cache buster (`cacheBuster`).
 */
module Helpers {
  import opened Wrappers
  import opened Text

  /** Default query parameter that carries a JSONP callback name. */
  const JsonpParam := "callback"

  /** The response formats `inDataType` lists. */
  const KnownTypes := ["jsonp", "json", "xml", "html", "text", "script"]

  /** A JavaScript string value that tests true: present and non-empty. */
  predicate Truthy(o: Option<string>)
  {
    o.Some? && o.value != ""
  }

  /** The `{param, name}` object `useJSONPCallback` returns. */
  datatype JsonpCallback = JsonpCallback(param: string, name: string)

  /**
   * `useJSONPCallback(type, opt1, opt2)`: an explicit `"param=name"` option
   * wins, then a bare explicit name, then the callback already in the url,
   * then `"jsonp" + type`.
   */
  function UseJsonpCallback(feed: string, opt1: Option<string>, opt2: Option<string>): JsonpCallback
  {
    if Truthy(opt1) && |SplitOn(opt1.value, '=')| == 2 then
      var sp := SplitOn(opt1.value, '=');
      JsonpCallback(sp[0], sp[1])
    else if Truthy(opt1) then JsonpCallback(JsonpParam, opt1.value)
    else if Truthy(opt2) then JsonpCallback(JsonpParam, opt2.value)
    else JsonpCallback(JsonpParam, "jsonp" + feed)
  }

  /**
   * Which source `useJSONPCallback` takes the parameter and the name from:
   * a `"param=name"` option is split back into its two halves; any other
   * choice keeps the default parameter; without an option the url's
   * callback, then `"jsonp" + type`, names the function.
   */
  lemma UseJsonpCallbackChoice(feed: string, opt1: Option<string>, opt2: Option<string>)
    ensures var r := UseJsonpCallback(feed, opt1, opt2);
      && (Truthy(opt1) && |SplitOn(opt1.value, '=')| == 2 ==> r.param + "=" + r.name == opt1.value)
      && (!(Truthy(opt1) && |SplitOn(opt1.value, '=')| == 2) ==> r.param == JsonpParam)
      && (Truthy(opt1) && |SplitOn(opt1.value, '=')| != 2 ==> r.name == opt1.value)
      && (!Truthy(opt1) && !Truthy(opt2) ==> r.name == "jsonp" + feed)
      && (!Truthy(opt1) && Truthy(opt2) ==> r.name == opt2.value)
  {
    if Truthy(opt1) {
      JoinSplit(opt1.value, '=');
    }
  }

  /** An explicit `"p=n"` option is read back as the pair it was built from, whatever the url holds. */
  lemma UseJsonpCallbackPair(feed: string, p: string, n: string, urlCallback: Option<string>)
    requires '=' !in p && '=' !in n
    ensures UseJsonpCallback(feed, Some(p + "=" + n), urlCallback) == JsonpCallback(p, n)
  {
    SplitOnAfter(p, '=', n);
    SplitOnAbsent(n, '=');
  }

  /** An explicit bare name (no `=`) keeps the default parameter and overrides the url's callback. */
  lemma UseJsonpCallbackBare(feed: string, n: string, urlCallback: Option<string>)
    requires n != "" && '=' !in n
    ensures UseJsonpCallback(feed, Some(n), urlCallback) == JsonpCallback(JsonpParam, n)
  {
    SplitOnAbsent(n, '=');
  }

  /** The search part of a url: the text between its first and second `?`, or `""`. */
  function QueryOf(url: string): string
  {
    var sp := SplitOn(url, '?');
    if |sp| > 1 then sp[1] else ""
  }

  /** Whether a `key=value` pair's key is `callback`, in any letter case. */
  predicate IsCallbackPair(pair: string)
  {
    Lower(SplitOn(pair, '=')[0]) == JsonpParam
  }

  /** The value of a pair; `decodeURI(undefined)` gives `"undefined"` when the pair has no `=`. */
  function PairValue(pair: string): string
  {
    var kv := SplitOn(pair, '=');
    if |kv| > 1 then kv[1] else "undefined"
  }

  /** The loop of `getJSONP`: the value of the first `callback` pair. */
  function FindCallback(pairs: seq<string>): Option<string>
  {
    if pairs == [] then None
    else if IsCallbackPair(pairs[0]) then Some(PairValue(pairs[0]))
    else FindCallback(pairs[1..])
  }

  /** The search finds nothing exactly when no pair is a callback pair, and otherwise the first one. */
  lemma {:induction false} FindCallbackFirst(pairs: seq<string>)
    ensures FindCallback(pairs).None? <==> forall k :: 0 <= k < |pairs| ==> !IsCallbackPair(pairs[k])
    ensures FindCallback(pairs).Some? ==>
      exists k :: 0 <= k < |pairs| && IsCallbackPair(pairs[k]) && FindCallback(pairs).value == PairValue(pairs[k])
                  && forall j :: 0 <= j < k ==> !IsCallbackPair(pairs[j])
  {
    if pairs != [] && !IsCallbackPair(pairs[0]) {
      FindCallbackFirst(pairs[1..]);
      assert forall k :: 1 <= k < |pairs| ==> pairs[k] == pairs[1..][k - 1];
      if FindCallback(pairs[1..]).Some? {
        var k :| 0 <= k < |pairs[1..]| && IsCallbackPair(pairs[1..][k]) && FindCallback(pairs[1..]).value == PairValue(pairs[1..][k])
                 && forall j :: 0 <= j < k ==> !IsCallbackPair(pairs[1..][j]);
        assert IsCallbackPair(pairs[k + 1]) && forall j :: 0 <= j < k + 1 ==> !IsCallbackPair(pairs[j]);
      }
    }
  }

  /**
   * `getJSONP(url)`: the `callback` query parameter of the url, or `None`
   * (`false`). The pairs are only searched when the lower-cased query
   * contains `"callback="`; `decodeURI` is taken as the identity.
   */
  function GetJsonp(url: string): Option<string>
  {
    var search := QueryOf(url);
    if search == "" || !Contains(Lower(search), JsonpParam + "=") then None
    else FindCallback(SplitOn(search, '&'))
  }

  /**
   * A url without a query has no callback; a callback found comes from a
   * `callback` pair of the query; and when the query's first `callback` pair
   * holds a `=`, its value is the callback found.
   */
  lemma GetJsonpFromQuery(url: string)
    ensures QueryOf(url) == "" ==> GetJsonp(url).None?
    ensures GetJsonp(url).Some? ==>
      exists k :: 0 <= k < |SplitOn(QueryOf(url), '&')| && IsCallbackPair(SplitOn(QueryOf(url), '&')[k])
                  && GetJsonp(url).value == PairValue(SplitOn(QueryOf(url), '&')[k])
    ensures forall k :: 0 <= k < |SplitOn(QueryOf(url), '&')| && IsCallbackPair(SplitOn(QueryOf(url), '&')[k])
                        && '=' in SplitOn(QueryOf(url), '&')[k]
                        && (forall j :: 0 <= j < k ==> !IsCallbackPair(SplitOn(QueryOf(url), '&')[j])) ==>
                          GetJsonp(url) == Some(PairValue(SplitOn(QueryOf(url), '&')[k]))
  {
    var pairs := SplitOn(QueryOf(url), '&');
    FindCallbackFirst(pairs);
    forall k | 0 <= k < |pairs| && IsCallbackPair(pairs[k]) && '=' in pairs[k]
                && (forall j :: 0 <= j < k ==> !IsCallbackPair(pairs[j]))
      ensures GetJsonp(url) == Some(PairValue(pairs[k]))
    {
      GetJsonpFindsPair(url, k);
    }
  }

  /**
   * A `callback` pair that holds a `=` puts `callback=` in the lower-cased
   * query, so the pairs are searched, and the first `callback` pair wins.
   */
  lemma {:induction false} GetJsonpFindsPair(url: string, k: nat)
    requires var pairs := SplitOn(QueryOf(url), '&');
      k < |pairs| && IsCallbackPair(pairs[k]) && '=' in pairs[k]
    ensures var pairs := SplitOn(QueryOf(url), '&');
      GetJsonp(url) == FindCallback(pairs) && GetJsonp(url).Some?
      && ((forall j :: 0 <= j < k ==> !IsCallbackPair(pairs[j])) ==> GetJsonp(url) == Some(PairValue(pairs[k])))
  {
    var search := QueryOf(url);
    var pairs := SplitOn(search, '&');
    CallbackPairPrefix(pairs[k]);
    ContainsLowerJoined(pairs, '&', k, JsonpParam + "=");
    JoinSplit(search, '&');
    FindCallbackFirst(pairs);
    if forall j :: 0 <= j < k ==> !IsCallbackPair(pairs[j]) {
      FirstCallbackPair(pairs, k);
    }
  }

  /** Two first `callback` pairs are the same pair. */
  lemma {:induction false} FirstCallbackPair(pairs: seq<string>, k: nat)
    requires k < |pairs| && IsCallbackPair(pairs[k]) && (forall j :: 0 <= j < k ==> !IsCallbackPair(pairs[j]))
    ensures FindCallback(pairs) == Some(PairValue(pairs[k]))
  {
    FindCallbackFirst(pairs);
    var i :| 0 <= i < |pairs| && IsCallbackPair(pairs[i]) && FindCallback(pairs).value == PairValue(pairs[i])
             && forall j :: 0 <= j < i ==> !IsCallbackPair(pairs[j]);
    assert i == k;
  }

  /** A `callback` pair that holds a `=` lower-cases to text starting with `callback=`. */
  lemma {:induction false} CallbackPairPrefix(pair: string)
    requires IsCallbackPair(pair) && '=' in pair
    ensures JsonpParam + "=" <= Lower(pair)
  {
    var kv := SplitOn(pair, '=');
    JoinSplit(pair, '=');
    SplitOnDropsSeparator(pair, '=');
    assert |kv| > 1;
    var tail := Join(kv[1..], '=');
    assert pair == kv[0] + (['='] + tail);
    LowerAppend(kv[0], ['='] + tail);
    LowerAppend(['='], tail);
    assert Lower(['=']) == ['='];
    assert Lower(pair) == JsonpParam + ['='] + Lower(tail);
  }

  /** The query of `base?q` is `q` when neither part holds another `?`. */
  lemma QueryOfJoined(base: string, q: string)
    requires '?' !in base && '?' !in q
    ensures QueryOf(base + ['?'] + q) == q
  {
    SplitOnAfter(base, '?', q);
    SplitOnAbsent(q, '?');
  }

  /** The single pair `callback=name` is found and yields `name`. */
  lemma CallbackPairValue(name: string)
    requires '=' !in name
    ensures IsCallbackPair(JsonpParam + "=" + name) && PairValue(JsonpParam + "=" + name) == name
  {
    assert JsonpParam + "=" + name == JsonpParam + ['='] + name;
    SplitOnAfter(JsonpParam, '=', name);
    SplitOnAbsent(name, '=');
    LowerOfLower(JsonpParam);
  }

  /** A url built as `base?callback=name` gives back `name`. */
  lemma GetJsonpRoundTrip(base: string, name: string)
    requires '?' !in base && '?' !in name && '&' !in name && '=' !in name
    ensures GetJsonp(base + "?" + JsonpParam + "=" + name) == Some(name)
  {
    var key := JsonpParam + "=";
    var q := key + name;
    assert base + "?" + JsonpParam + "=" + name == base + ['?'] + q;
    assert '?' !in q && '&' !in q;
    QueryOfJoined(base, q);
    LowerAppend(key, name);
    LowerOfLower(key);
    assert Contains(Lower(q), key) by { assert key <= Lower(q); }
    SplitOnAbsent(q, '&');
    CallbackPairValue(name);
    assert FindCallback([q]) == Some(name);
  }

  /**
   * `inDataType(type)`: the loop computes `ret`, but the function has no
   * `return` statement, so every call yields `undefined`, which tests false.
   */
  function InDataType(kind: string): (r: bool)
    ensures !r
  {
    var ret := Lower(kind) in KnownTypes;
    false
  }

  /** The date fields `cacheBuster` reads from `new Date()`; `month` is 0-based as `getMonth()`. */
  datatype Clock = Clock(year: nat, month: nat, day: nat, hour: nat, minute: nat)

  /**
   * `cacheBuster(freq)`: year, month + 1, day and hour + 1 written one after
   * the other, then the index of the `freq`-minute slot within the hour
   * (nothing when `freq` is 0, which tests false).
   */
  function CacheBuster(now: Clock, freq: nat): string
  {
    HourStamp(now) + (if freq > 0 then NatToString(now.minute / freq) else "")
  }

  /** Year, month + 1, day and hour + 1, written one after the other. */
  function HourStamp(now: Clock): string
  {
    NatToString(now.year) + NatToString(now.month + 1) + NatToString(now.day) + NatToString(now.hour + 1)
  }

  /** Two instants of the same hour fall in different slots exactly when the cache buster differs. */
  lemma CacheBusterSlots(a: Clock, b: Clock, freq: nat)
    requires freq > 0
    requires a.year == b.year && a.month == b.month && a.day == b.day && a.hour == b.hour
    ensures CacheBuster(a, freq) == CacheBuster(b, freq) <==> a.minute / freq == b.minute / freq
  {
    assert HourStamp(a) == HourStamp(b);
    SuffixedNumbers(HourStamp(a), a.minute / freq, b.minute / freq);
  }

  /** Two numbers written after the same prefix give the same string exactly when they are equal. */
  lemma SuffixedNumbers(prefix: string, m: nat, n: nat)
    ensures prefix + NatToString(m) == prefix + NatToString(n) <==> m == n
  {
    if prefix + NatToString(m) == prefix + NatToString(n) {
      AppendCancel(prefix, NatToString(m), NatToString(n));
      NatToStringInjective(m, n);
    }
  }

  /**
   * Without separators or padding, different days can share a cache
   * buster: 11 January and 1 November of the same year, same hour and
   * minute, both give "20141116...".
   */
  lemma CacheBusterCollides(freq: nat)
    ensures CacheBuster(Clock(2014, 0, 11, 5, 0), freq) == CacheBuster(Clock(2014, 10, 1, 5, 0), freq)
  {
    assert NatToString(11) == "11";
    assert NatToString(1) == "1";
  }
}
