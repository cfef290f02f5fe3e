/** Third-party emote sets from 7TV, BTTV and FFZ: the per-provider maps
    `name -> { url, provider, scope }` built from a response, the storage
    cache with its time-to-live, and the precedence merge of all six sets.
    A response is an input (`None` for a response that is not ok); the
    clock is the `now` parameter. */
module Emotes {
  import opened Optional
  import opened JsObject

  /** `{ url, provider, scope }`; `url` is `None` where the source would
      store `undefined`. */
  datatype Emote = Emote(url: Option<string>, provider: string, scope: string)

  type EmoteMap = map<string, Emote>

  /** A 7TV emote: its name and `data.host.url`, `None` when there is no
      `data.host`. */
  datatype SevenTvEmote = SevenTvEmote(name: string, hostUrl: Option<string>)

  /** A BTTV emote record. */
  datatype BttvEmote = BttvEmote(id: string, code: string)

  /** An FFZ emoticon; `urls` lists the `urls` object's entries in its
      enumeration order. */
  datatype FfzEmote = FfzEmote(name: string, urls: seq<(string, string)>)

  /** 6 hours and 1 hour, in milliseconds. */
  const CacheTtlGlobal: int := 6 * 60 * 60 * 1000
  const CacheTtlChannel: int := 1 * 60 * 60 * 1000

  // ---------------------------------------------------------------------
  // Per-provider entries

  function SevenTvEntry(e: SevenTvEmote, scope: string): Emote
    requires e.hostUrl.Some?
  {
    Emote(Some("https:" + e.hostUrl.value + "/1x.webp"), "7tv", scope)
  }

  /** The pairs a 7TV loop writes: only emotes with a host. */
  function SevenTvPairs(emotes: seq<SevenTvEmote>, scope: string): seq<(string, Emote)>
  {
    if emotes == [] then []
    else
      var e := emotes[|emotes| - 1];
      SevenTvPairs(emotes[..|emotes| - 1], scope) + (if e.hostUrl.Some? then [(e.name, SevenTvEntry(e, scope))] else [])
  }

  function BttvEntry(e: BttvEmote, scope: string): Emote
  {
    Emote(Some("https://cdn.betterttv.net/emote/" + e.id + "/1x.webp"), "bttv", scope)
  }

  /** The pairs a BTTV loop writes: one per emote, keyed by its code. */
  function BttvPairs(emotes: seq<BttvEmote>, scope: string): seq<(string, Emote)>
  {
    if emotes == [] then []
    else
      var e := emotes[|emotes| - 1];
      BttvPairs(emotes[..|emotes| - 1], scope) + [(e.code, BttvEntry(e, scope))]
  }

  /** The value under key `k` of an object given by its entries. */
  function Lookup(entries: seq<(string, string)>, k: string): (r: Option<string>)
    ensures r.Some? <==> exists i :: 0 <= i < |entries| && entries[i].0 == k
    ensures r.Some? ==> exists i :: 0 <= i < |entries| && entries[i] == (k, r.value)
  {
    if entries == [] then None
    else if entries[0].0 == k then Some(entries[0].1)
    else
      var r := Lookup(entries[1..], k);
      if r.Some? then
        var i :| 0 <= i < |entries[1..]| && entries[1..][i] == (k, r.value);
        assert entries[i + 1] == (k, r.value);
        r
      else r
  }

  /** `e.urls["1"] || Object.values(e.urls)[0]`. */
  function FfzUrl(urls: seq<(string, string)>): (r: Option<string>)
    ensures Lookup(urls, "1").Some? && Lookup(urls, "1").value != "" ==> r == Lookup(urls, "1")
    ensures (Lookup(urls, "1").None? || Lookup(urls, "1").value == "") ==>
              r == if urls == [] then None else Some(urls[0].1)
  {
    var one := Lookup(urls, "1");
    if one.Some? && one.value != "" then one
    else if urls == [] then None
    else Some(urls[0].1)
  }

  function FfzEntry(e: FfzEmote, scope: string): Emote
  {
    Emote(FfzUrl(e.urls), "ffz", scope)
  }

  /** The pairs the inner FFZ loop writes for one set. */
  function FfzSetPairs(emoticons: seq<FfzEmote>, scope: string): seq<(string, Emote)>
  {
    if emoticons == [] then []
    else
      var e := emoticons[|emoticons| - 1];
      FfzSetPairs(emoticons[..|emoticons| - 1], scope) + [(e.name, FfzEntry(e, scope))]
  }

  /** The pairs the nested FFZ loops write, set after set. */
  function FfzPairs(sets: seq<seq<FfzEmote>>, scope: string): seq<(string, Emote)>
  {
    if sets == [] then []
    else FfzPairs(sets[..|sets| - 1], scope) + FfzSetPairs(sets[|sets| - 1], scope)
  }

  // ---------------------------------------------------------------------
  // The map builders

  /** The 7TV loop (`fetch7TVGlobal`, `fetch7TVChannel`). */
  method Build7TV(emotes: seq<SevenTvEmote>, scope: string) returns (m: EmoteMap)
    ensures m == Assign(SevenTvPairs(emotes, scope))
  {
    m := map[];
    var i := 0;
    while i < |emotes|
      invariant 0 <= i <= |emotes|
      invariant m == Assign(SevenTvPairs(emotes[..i], scope))
    {
      var e := emotes[i];
      assert emotes[..i + 1][..i] == emotes[..i];
      if e.hostUrl.Some? {
        assert SevenTvPairs(emotes[..i + 1], scope) == SevenTvPairs(emotes[..i], scope) + [(e.name, SevenTvEntry(e, scope))];
        AssignSnoc(SevenTvPairs(emotes[..i], scope), e.name, SevenTvEntry(e, scope));
        m := m[e.name := SevenTvEntry(e, scope)];
      } else {
        assert emotes[..i + 1][i] == e;
        assert SevenTvPairs(emotes[..i + 1], scope) == SevenTvPairs(emotes[..i], scope) + [];
        assert SevenTvPairs(emotes[..i], scope) + [] == SevenTvPairs(emotes[..i], scope);
      }
      i := i + 1;
    }
    assert emotes[..|emotes|] == emotes;
  }

  /** The BTTV loop; for a channel, `emotes` is the channel emotes followed
      by the shared emotes. */
  method BuildBTTV(emotes: seq<BttvEmote>, scope: string) returns (m: EmoteMap)
    ensures m == Assign(BttvPairs(emotes, scope))
  {
    m := map[];
    var i := 0;
    while i < |emotes|
      invariant 0 <= i <= |emotes|
      invariant m == Assign(BttvPairs(emotes[..i], scope))
    {
      var e := emotes[i];
      assert emotes[..i + 1][..i] == emotes[..i];
      AssignSnoc(BttvPairs(emotes[..i], scope), e.code, BttvEntry(e, scope));
      m := m[e.code := BttvEntry(e, scope)];
      i := i + 1;
    }
    assert emotes[..|emotes|] == emotes;
  }

  /** The nested FFZ loops over `Object.values(data.sets)`. */
  method BuildFFZ(sets: seq<seq<FfzEmote>>, scope: string) returns (m: EmoteMap)
    ensures m == Assign(FfzPairs(sets, scope))
  {
    m := map[];
    var i := 0;
    while i < |sets|
      invariant 0 <= i <= |sets|
      invariant m == Assign(FfzPairs(sets[..i], scope))
    {
      var emoticons := sets[i];
      assert sets[..i + 1][..i] == sets[..i];
      var j := 0;
      assert FfzPairs(sets[..i], scope) + FfzSetPairs(emoticons[..0], scope) == FfzPairs(sets[..i], scope);
      while j < |emoticons|
        invariant 0 <= j <= |emoticons|
        invariant m == Assign(FfzPairs(sets[..i], scope) + FfzSetPairs(emoticons[..j], scope))
      {
        var e := emoticons[j];
        assert emoticons[..j + 1][..j] == emoticons[..j];
        assert FfzPairs(sets[..i], scope) + FfzSetPairs(emoticons[..j + 1], scope)
            == (FfzPairs(sets[..i], scope) + FfzSetPairs(emoticons[..j], scope)) + [(e.name, FfzEntry(e, scope))];
        AssignSnoc(FfzPairs(sets[..i], scope) + FfzSetPairs(emoticons[..j], scope), e.name, FfzEntry(e, scope));
        m := m[e.name := FfzEntry(e, scope)];
        j := j + 1;
      }
      assert emoticons[..|emoticons|] == emoticons;
      i := i + 1;
    }
    assert sets[..|sets|] == sets;
  }

  // ---------------------------------------------------------------------
  // What the maps contain

  /** A 7TV map holds exactly the names of emotes that have a host, each
      with the `https:<host>/1x.webp` URL of one such emote. */
  lemma SevenTvMapContents(emotes: seq<SevenTvEmote>, scope: string, k: string)
    ensures var m := Assign(SevenTvPairs(emotes, scope));
      && (k in m <==> exists e :: e in emotes && e.name == k && e.hostUrl.Some?)
      && (k in m ==> exists e :: e in emotes && e.name == k && e.hostUrl.Some? && m[k] == SevenTvEntry(e, scope))
  {
    var pairs := SevenTvPairs(emotes, scope);
    SevenTvPairsFrom(emotes, scope);
    AssignKeys(pairs, k);
    if k in Assign(pairs) {
      AssignValueWritten(pairs, k);
      var i :| LastWrite(pairs, k, i) && Assign(pairs)[k] == pairs[i].1;
      assert pairs[i] in pairs;
    }
    if exists e :: e in emotes && e.name == k && e.hostUrl.Some? {
      var e :| e in emotes && e.name == k && e.hostUrl.Some?;
      var i :| 0 <= i < |pairs| && pairs[i] == (e.name, SevenTvEntry(e, scope));
      assert Written(pairs, k);
    }
  }

  /** The emoticons of all sets, set after set. */
  function FfzEmoticons(sets: seq<seq<FfzEmote>>): seq<FfzEmote>
  {
    if sets == [] then [] else FfzEmoticons(sets[..|sets| - 1]) + sets[|sets| - 1]
  }

  lemma {:induction false} FfzEmoticonsMembers(sets: seq<seq<FfzEmote>>)
    ensures forall e :: e in FfzEmoticons(sets) <==> exists s :: s in sets && e in s
    decreases |sets|
  {
    if sets != [] {
      var init := sets[..|sets| - 1];
      FfzEmoticonsMembers(init);
      assert sets == init + [sets[|sets| - 1]];
    }
  }

  /** The inner loop writes one pair per emoticon, in order. */
  lemma {:induction false} FfzSetPairsAt(es: seq<FfzEmote>, scope: string)
    ensures |FfzSetPairs(es, scope)| == |es|
    ensures forall i :: 0 <= i < |es| ==> FfzSetPairs(es, scope)[i] == (es[i].name, FfzEntry(es[i], scope))
    decreases |es|
  {
    if es != [] {
      FfzSetPairsAt(es[..|es| - 1], scope);
    }
  }

  /** The nested loops write the pairs of the emoticons of all sets. */
  lemma {:induction false} FfzPairsFlat(sets: seq<seq<FfzEmote>>, scope: string)
    ensures FfzPairs(sets, scope) == FfzSetPairs(FfzEmoticons(sets), scope)
    decreases |sets|
  {
    if sets != [] {
      var init := sets[..|sets| - 1];
      var last := sets[|sets| - 1];
      FfzPairsFlat(init, scope);
      var a := FfzEmoticons(init);
      FfzSetPairsAt(a, scope);
      FfzSetPairsAt(last, scope);
      FfzSetPairsAt(a + last, scope);
      var lhs := FfzSetPairs(a, scope) + FfzSetPairs(last, scope);
      var rhs := FfzSetPairs(a + last, scope);
      assert |lhs| == |rhs|;
      forall i | 0 <= i < |lhs|
        ensures lhs[i] == rhs[i]
      {
        if i >= |a| {
          assert (a + last)[i] == last[i - |a|];
        }
      }
    }
  }

  /** An FFZ map holds exactly the names of the emoticons of its sets, each
      with the entry of the last emoticon of that name. */
  lemma FfzMapContents(sets: seq<seq<FfzEmote>>, scope: string, k: string)
    ensures forall e :: e in FfzEmoticons(sets) <==> exists s :: s in sets && e in s
    ensures var m := Assign(FfzPairs(sets, scope));
      var es := FfzEmoticons(sets);
      && (k in m <==> exists i :: 0 <= i < |es| && es[i].name == k)
      && (forall i :: 0 <= i < |es| && es[i].name == k && (forall j :: i < j < |es| ==> es[j].name != k) ==>
            k in m && m[k] == FfzEntry(es[i], scope))
  {
    FfzEmoticonsMembers(sets);
    var es := FfzEmoticons(sets);
    var pairs := FfzPairs(sets, scope);
    FfzPairsFlat(sets, scope);
    FfzSetPairsAt(es, scope);
    AssignKeys(pairs, k);
    forall i | 0 <= i < |es| && es[i].name == k && (forall j :: i < j < |es| ==> es[j].name != k)
      ensures k in Assign(pairs) && Assign(pairs)[k] == FfzEntry(es[i], scope)
    {
      assert LastWrite(pairs, k, i);
      AssignLastWins(pairs, k, i);
    }
  }

  /** Each 7TV pair comes from a hosted emote, and every hosted emote
      writes its pair. */
  lemma {:induction false} SevenTvPairsFrom(emotes: seq<SevenTvEmote>, scope: string)
    ensures forall p :: p in SevenTvPairs(emotes, scope) ==>
      exists e :: e in emotes && e.hostUrl.Some? && p == (e.name, SevenTvEntry(e, scope))
    ensures forall e :: e in emotes && e.hostUrl.Some? ==>
      exists i :: 0 <= i < |SevenTvPairs(emotes, scope)| && SevenTvPairs(emotes, scope)[i] == (e.name, SevenTvEntry(e, scope))
    decreases |emotes|
  {
    if emotes != [] {
      var init := emotes[..|emotes| - 1];
      var last := emotes[|emotes| - 1];
      SevenTvPairsFrom(init, scope);
      assert emotes == init + [last];
      var before := SevenTvPairs(init, scope);
      var pairs := SevenTvPairs(emotes, scope);
      forall e | e in emotes && e.hostUrl.Some?
        ensures exists i :: 0 <= i < |pairs| && pairs[i] == (e.name, SevenTvEntry(e, scope))
      {
        if e in init {
          var i :| 0 <= i < |before| && before[i] == (e.name, SevenTvEntry(e, scope));
          assert pairs[i] == before[i];
        } else {
          assert e == last;
          assert pairs[|before|] == (e.name, SevenTvEntry(e, scope));
        }
      }
    }
  }

  /** BTTV writes one pair per emote, in order. */
  lemma {:induction false} BttvPairsAt(emotes: seq<BttvEmote>, scope: string)
    ensures |BttvPairs(emotes, scope)| == |emotes|
    ensures forall i :: 0 <= i < |emotes| ==> BttvPairs(emotes, scope)[i] == (emotes[i].code, BttvEntry(emotes[i], scope))
    decreases |emotes|
  {
    if emotes != [] {
      BttvPairsAt(emotes[..|emotes| - 1], scope);
    }
  }

  /** For a BTTV channel, shared emotes are written after channel emotes:
      a code the shared list uses maps to the last shared emote with that
      code, whatever the channel list holds. */
  lemma SharedEmoteWins(channel: seq<BttvEmote>, shared: seq<BttvEmote>, j: int)
    requires 0 <= j < |shared|
    requires forall l :: j < l < |shared| ==> shared[l].code != shared[j].code
    ensures var m := Assign(BttvPairs(channel + shared, "channel"));
      shared[j].code in m && m[shared[j].code] == BttvEntry(shared[j], "channel")
  {
    var all := channel + shared;
    var pairs := BttvPairs(all, "channel");
    BttvPairsAt(all, "channel");
    var i := |channel| + j;
    assert all[i] == shared[j];
    forall l | i < l < |pairs|
      ensures pairs[l].0 != shared[j].code
    {
      assert all[l] == shared[l - |channel|];
    }
    AssignLastWins(pairs, shared[j].code, i);
  }

  // ---------------------------------------------------------------------
  // The cache

  /** `{ data, ts, ttl }` under a storage key. */
  datatype CacheEntry = CacheEntry(data: EmoteMap, ts: int, ttl: int)

  /** `getCached`: the data, when there is an entry younger than its
      time-to-live. */
  function GetCached(store: map<string, CacheEntry>, key: string, now: int): (r: Option<EmoteMap>)
    ensures r.Some? <==> key in store && now - store[key].ts < store[key].ttl
    ensures r.Some? ==> r.value == store[key].data
  {
    if key in store && now - store[key].ts < store[key].ttl then Some(store[key].data) else None
  }

  /** A cache-through fetch: the cached map when fresh; otherwise `{}` for
      a response that is not ok, or the map `built` from it, which is then
      cached with its time-to-live. The result and the new store. */
  function Fetched(store: map<string, CacheEntry>, key: string, ttl: int, now: int, built: Option<EmoteMap>)
    : (map<string, CacheEntry>, EmoteMap)
  {
    var cached := GetCached(store, key, now);
    if cached.Some? then (store, cached.value)
    else if built.None? then (store, map[])
    else (store[key := CacheEntry(built.value, now, ttl)], built.value)
  }

  /** A response that is not ok yields `{}` and caches nothing; a fresh
      entry is returned without storing anything; an ok response is
      cached and a later fetch within its time-to-live returns it. */
  lemma CacheBehaviour(store: map<string, CacheEntry>, key: string, ttl: int, now: int, later: int, built: Option<EmoteMap>)
    requires now <= later < now + ttl
    ensures GetCached(store, key, now).None? && built.None? ==> Fetched(store, key, ttl, now, built) == (store, map[])
    ensures GetCached(store, key, now).Some? ==> Fetched(store, key, ttl, now, built).0 == store
    ensures GetCached(store, key, now).None? && built.Some? ==>
      var (s, m) := Fetched(store, key, ttl, now, built);
      GetCached(s, key, later) == Some(m) && m == built.value
  {
  }

  /** An entry stops being served once its time-to-live has elapsed. */
  lemma CacheExpires(store: map<string, CacheEntry>, key: string, now: int)
    requires key in store && now >= store[key].ts + store[key].ttl
    ensures GetCached(store, key, now).None?
  {
  }

  function SevenTvGlobalKey(): string { "emotes_7tv_global" }
  function SevenTvChannelKey(userId: string): string { "emotes_7tv_" + userId }
  function BttvGlobalKey(): string { "emotes_bttv_global" }
  function BttvChannelKey(userId: string): string { "emotes_bttv_" + userId }
  function FfzGlobalKey(): string { "emotes_ffz_global" }
  function FfzChannelKey(userId: string): string { "emotes_ffz_" + userId }

  /** The emote cache in extension storage. */
  class EmoteCache {
    var store: map<string, CacheEntry>

    constructor (stored: map<string, CacheEntry>)
      ensures store == stored
    {
      store := stored;
    }

    /** `setCache`. */
    method SetCache(key: string, data: EmoteMap, ttl: int, now: int)
      modifies this
      ensures store == old(store)[key := CacheEntry(data, now, ttl)]
    {
      store := store[key := CacheEntry(data, now, ttl)];
    }

    /** `fetch7TVGlobal`. */
    method Fetch7TVGlobal(now: int, response: Option<seq<SevenTvEmote>>) returns (m: EmoteMap)
      modifies this
      ensures (store, m) == Fetched(old(store), SevenTvGlobalKey(), CacheTtlGlobal, now,
                                    if response.Some? then Some(Assign(SevenTvPairs(response.value, "global"))) else None)
    {
      var cached := GetCached(store, SevenTvGlobalKey(), now);
      if cached.Some? {
        return cached.value;
      }
      if response.None? {
        return map[];
      }
      m := Build7TV(response.value, "global");
      SetCache(SevenTvGlobalKey(), m, CacheTtlGlobal, now);
    }

    /** `fetch7TVChannel`; `response` is `emote_set.emotes`. */
    method Fetch7TVChannel(userId: string, now: int, response: Option<seq<SevenTvEmote>>) returns (m: EmoteMap)
      modifies this
      ensures (store, m) == Fetched(old(store), SevenTvChannelKey(userId), CacheTtlChannel, now,
                                    if response.Some? then Some(Assign(SevenTvPairs(response.value, "channel"))) else None)
    {
      var key := SevenTvChannelKey(userId);
      var cached := GetCached(store, key, now);
      if cached.Some? {
        return cached.value;
      }
      if response.None? {
        return map[];
      }
      m := Build7TV(response.value, "channel");
      SetCache(key, m, CacheTtlChannel, now);
    }

    /** `fetchBTTVGlobal`. */
    method FetchBTTVGlobal(now: int, response: Option<seq<BttvEmote>>) returns (m: EmoteMap)
      modifies this
      ensures (store, m) == Fetched(old(store), BttvGlobalKey(), CacheTtlGlobal, now,
                                    if response.Some? then Some(Assign(BttvPairs(response.value, "global"))) else None)
    {
      var cached := GetCached(store, BttvGlobalKey(), now);
      if cached.Some? {
        return cached.value;
      }
      if response.None? {
        return map[];
      }
      m := BuildBTTV(response.value, "global");
      SetCache(BttvGlobalKey(), m, CacheTtlGlobal, now);
    }

    /** `fetchBTTVChannel`; `response` is the pair `channelEmotes`,
      `sharedEmotes`. */
    method FetchBTTVChannel(userId: string, now: int, response: Option<(seq<BttvEmote>, seq<BttvEmote>)>)
      returns (m: EmoteMap)
      modifies this
      ensures (store, m) == Fetched(old(store), BttvChannelKey(userId), CacheTtlChannel, now,
                                    if response.Some? then Some(Assign(BttvPairs(response.value.0 + response.value.1, "channel")))
                                    else None)
    {
      var key := BttvChannelKey(userId);
      var cached := GetCached(store, key, now);
      if cached.Some? {
        return cached.value;
      }
      if response.None? {
        return map[];
      }
      m := BuildBTTV(response.value.0 + response.value.1, "channel");
      SetCache(key, m, CacheTtlChannel, now);
    }

    /** `fetchFFZGlobal`; `response` is `Object.values(data.sets)`, each
      set given by its `emoticons`. */
    method FetchFFZGlobal(now: int, response: Option<seq<seq<FfzEmote>>>) returns (m: EmoteMap)
      modifies this
      ensures (store, m) == Fetched(old(store), FfzGlobalKey(), CacheTtlGlobal, now,
                                    if response.Some? then Some(Assign(FfzPairs(response.value, "global"))) else None)
    {
      var cached := GetCached(store, FfzGlobalKey(), now);
      if cached.Some? {
        return cached.value;
      }
      if response.None? {
        return map[];
      }
      m := BuildFFZ(response.value, "global");
      SetCache(FfzGlobalKey(), m, CacheTtlGlobal, now);
    }

    /** `fetchFFZChannel`. */
    method FetchFFZChannel(userId: string, now: int, response: Option<seq<seq<FfzEmote>>>) returns (m: EmoteMap)
      modifies this
      ensures (store, m) == Fetched(old(store), FfzChannelKey(userId), CacheTtlChannel, now,
                                    if response.Some? then Some(Assign(FfzPairs(response.value, "channel"))) else None)
    {
      var key := FfzChannelKey(userId);
      var cached := GetCached(store, key, now);
      if cached.Some? {
        return cached.value;
      }
      if response.None? {
        return map[];
      }
      m := BuildFFZ(response.value, "channel");
      SetCache(key, m, CacheTtlChannel, now);
    }
  }

  // ---------------------------------------------------------------------
  // The merge

  /** `{ ...fzg, ...fzc, ...btg, ...btc, ...s7g, ...s7c }`. */
  function AllEmotes(s7g: EmoteMap, s7c: EmoteMap, btg: EmoteMap, btc: EmoteMap, fzg: EmoteMap, fzc: EmoteMap)
    : EmoteMap
  {
    Spread(Spread(Spread(Spread(Spread(fzg, fzc), btg), btc), s7g), s7c)
  }

  /** The merged map holds every name of the six sets, and a name resolves
      to the first set that has it in the order 7TV channel, 7TV global,
      BTTV channel, BTTV global, FFZ channel, FFZ global. */
  lemma AllEmotesPrecedence(s7g: EmoteMap, s7c: EmoteMap, btg: EmoteMap, btc: EmoteMap, fzg: EmoteMap, fzc: EmoteMap,
                            k: string)
    ensures var all := AllEmotes(s7g, s7c, btg, btc, fzg, fzc);
      && all.Keys == s7g.Keys + s7c.Keys + btg.Keys + btc.Keys + fzg.Keys + fzc.Keys
      && (k in s7c ==> all[k] == s7c[k])
      && (k !in s7c && k in s7g ==> all[k] == s7g[k])
      && (k !in s7c && k !in s7g && k in btc ==> all[k] == btc[k])
      && (k !in s7c && k !in s7g && k !in btc && k in btg ==> all[k] == btg[k])
      && (k !in s7c && k !in s7g && k !in btc && k !in btg && k in fzc ==> all[k] == fzc[k])
      && (k !in s7c && k !in s7g && k !in btc && k !in btg && k !in fzc && k in fzg ==> all[k] == fzg[k])
  {
  }
}
