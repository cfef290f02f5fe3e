/** Chat badges: the `"set_id/version" -> image_url` map parsed from a
    badges response, the merge of global and channel badges, and the
    module-level memo of the global badges. A response is an input:
    `Fetched(data)` for an ok response, `Failed(status)` otherwise. */
module Badges {
  import opened Optional
  import opened JsString
  import opened JsObject

  datatype BadgeVersion = BadgeVersion(id: string, imageUrl1x: string)
  datatype BadgeSet = BadgeSet(setId: string, versions: seq<BadgeVersion>)
  datatype Response = Fetched(data: seq<BadgeSet>) | Failed(status: int)

  type BadgeMap = map<string, string>

  /** The key one version is stored under. */
  function BadgeKey(setId: string, versionId: string): string
  {
    setId + "/" + versionId
  }

  /** The pairs written for one set's versions. */
  function VersionPairs(setId: string, versions: seq<BadgeVersion>): seq<(string, string)>
  {
    if versions == [] then []
    else
      var v := versions[|versions| - 1];
      VersionPairs(setId, versions[..|versions| - 1]) + [(BadgeKey(setId, v.id), v.imageUrl1x)]
  }

  /** The pairs the nested loop of `parseBadgeResponse` writes, set after
      set. */
  function BadgePairs(data: seq<BadgeSet>): seq<(string, string)>
  {
    if data == [] then []
    else
      var s := data[|data| - 1];
      BadgePairs(data[..|data| - 1]) + VersionPairs(s.setId, s.versions)
  }

  /** `parseBadgeResponse`. */
  method ParseBadgeResponse(data: seq<BadgeSet>) returns (m: BadgeMap)
    ensures m == Assign(BadgePairs(data))
  {
    m := map[];
    var i := 0;
    while i < |data|
      invariant 0 <= i <= |data|
      invariant m == Assign(BadgePairs(data[..i]))
    {
      var s := data[i];
      assert data[..i + 1][..i] == data[..i];
      var j := 0;
      assert BadgePairs(data[..i]) + VersionPairs(s.setId, s.versions[..0]) == BadgePairs(data[..i]);
      while j < |s.versions|
        invariant 0 <= j <= |s.versions|
        invariant m == Assign(BadgePairs(data[..i]) + VersionPairs(s.setId, s.versions[..j]))
      {
        var v := s.versions[j];
        assert s.versions[..j + 1][..j] == s.versions[..j];
        assert BadgePairs(data[..i]) + VersionPairs(s.setId, s.versions[..j + 1])
            == (BadgePairs(data[..i]) + VersionPairs(s.setId, s.versions[..j])) + [(BadgeKey(s.setId, v.id), v.imageUrl1x)];
        AssignSnoc(BadgePairs(data[..i]) + VersionPairs(s.setId, s.versions[..j]), BadgeKey(s.setId, v.id), v.imageUrl1x);
        m := m[BadgeKey(s.setId, v.id) := v.imageUrl1x];
        j := j + 1;
      }
      assert s.versions[..|s.versions|] == s.versions;
      i := i + 1;
    }
    assert data[..|data|] == data;
  }

  /** Every version of one set is written, in order. */
  lemma {:induction false} VersionPairsAt(setId: string, versions: seq<BadgeVersion>)
    ensures |VersionPairs(setId, versions)| == |versions|
    ensures forall j :: 0 <= j < |versions| ==>
      VersionPairs(setId, versions)[j] == (BadgeKey(setId, versions[j].id), versions[j].imageUrl1x)
    decreases |versions|
  {
    if versions != [] {
      VersionPairsAt(setId, versions[..|versions| - 1]);
    }
  }

  /** The pairs written for every set before set `i`, then set `i`, then
      the rest. */
  lemma BadgePairsSplit(data: seq<BadgeSet>, i: int)
    requires 0 <= i < |data|
    ensures BadgePairs(data) == BadgePairs(data[..i]) + VersionPairs(data[i].setId, data[i].versions) + BadgePairs(data[i + 1..])
  {
    var pre := data[..i + 1];
    assert pre + data[i + 1..] == data;
    BadgePairsAppend(pre, data[i + 1..]);
    assert pre[..i] == data[..i];
  }

  /** The pairs of two runs of sets are those of the first, then those of
      the second. */
  lemma {:induction false} BadgePairsAppend(a: seq<BadgeSet>, b: seq<BadgeSet>)
    ensures BadgePairs(a + b) == BadgePairs(a) + BadgePairs(b)
    decreases |b|
  {
    if b == [] {
      assert a + b == a;
    } else {
      var init := b[..|b| - 1];
      BadgePairsAppend(a, init);
      assert (a + b)[..|a + b| - 1] == a + init;
      assert (a + b)[|a + b| - 1] == b[|b| - 1];
    }
  }

  /** Every version of every set is a key of the parsed map. */
  lemma ParsedHasEveryVersion(data: seq<BadgeSet>, i: int, j: int)
    requires 0 <= i < |data| && 0 <= j < |data[i].versions|
    ensures BadgeKey(data[i].setId, data[i].versions[j].id) in Assign(BadgePairs(data))
  {
    var pairs := BadgePairs(data);
    BadgePairsSplit(data, i);
    VersionPairsAt(data[i].setId, data[i].versions);
    var before := BadgePairs(data[..i]);
    var k := BadgeKey(data[i].setId, data[i].versions[j].id);
    assert pairs[|before| + j].0 == k;
    AssignKeys(pairs, k);
  }

  /** Within one response a later duplicate key overwrites an earlier
      one: the version written last for a key supplies its image. */
  lemma LaterDuplicateWins(data: seq<BadgeSet>, i: int, j: int)
    requires 0 <= i < |data| && 0 <= j < |data[i].versions|
    requires forall j' :: j < j' < |data[i].versions| ==> data[i].versions[j'].id != data[i].versions[j].id
    requires forall p :: p in BadgePairs(data[i + 1..]) ==> p.0 != BadgeKey(data[i].setId, data[i].versions[j].id)
    ensures var k := BadgeKey(data[i].setId, data[i].versions[j].id);
      k in Assign(BadgePairs(data)) && Assign(BadgePairs(data))[k] == data[i].versions[j].imageUrl1x
  {
    var at := VersionWrittenLast(data, i, j);
    AssignLastWins(BadgePairs(data), BadgeKey(data[i].setId, data[i].versions[j].id), at);
  }

  /** Under the same conditions, the pair for version `j` of set `i` is
      the last write of its key. */
  lemma VersionWrittenLast(data: seq<BadgeSet>, i: int, j: int) returns (at: int)
    requires 0 <= i < |data| && 0 <= j < |data[i].versions|
    requires forall j' :: j < j' < |data[i].versions| ==> data[i].versions[j'].id != data[i].versions[j].id
    requires forall p :: p in BadgePairs(data[i + 1..]) ==> p.0 != BadgeKey(data[i].setId, data[i].versions[j].id)
    ensures LastWrite(BadgePairs(data), BadgeKey(data[i].setId, data[i].versions[j].id), at)
    ensures BadgePairs(data)[at].1 == data[i].versions[j].imageUrl1x
  {
    var s := data[i];
    var pairs := BadgePairs(data);
    var before := BadgePairs(data[..i]);
    var mine := VersionPairs(s.setId, s.versions);
    var after := BadgePairs(data[i + 1..]);
    BadgePairsSplit(data, i);
    VersionPairsAt(s.setId, s.versions);
    var k := BadgeKey(s.setId, s.versions[j].id);
    at := |before| + j;
    forall l | at < l < |pairs|
      ensures pairs[l].0 != k
    {
      if l < |before| + |mine| {
        var j' := l - |before|;
        assert pairs[l] == mine[j'];
        assert s.versions[j'].id != s.versions[j].id;
        KeyDistinct(s.setId, s.versions[j'].id, s.versions[j].id);
      } else {
        assert pairs[l] == after[l - |before| - |mine|];
        assert pairs[l] in after;
      }
    }
  }

  /** Two versions of one set with different ids get different keys. */
  lemma KeyDistinct(setId: string, a: string, b: string)
    requires a != b
    ensures BadgeKey(setId, a) != BadgeKey(setId, b)
  {
    var p := setId + "/";
    assert BadgeKey(setId, a) == p + a && BadgeKey(setId, b) == p + b;
    assert (p + a)[|p|..] == a && (p + b)[|p|..] == b;
  }

  /** `{ ...global, ...channel }`: the channel badge wins. */
  function MergeBadges(global: BadgeMap, channel: BadgeMap): (r: BadgeMap)
    ensures r.Keys == global.Keys + channel.Keys
    ensures forall k :: k in r ==> r[k] == if k in channel then channel[k] else global[k]
  {
    Spread(global, channel)
  }

  /** The global badges memo and the badge requests. */
  class BadgeCache {
    /** `globalBadgesCache`. */
    var globalBadges: Option<BadgeMap>

    constructor ()
      ensures globalBadges.None?
    {
      globalBadges := None;
    }

    /** `fetchGlobalBadges`: the memo when set; otherwise a failed response
      is an error that leaves the memo unset, and an ok one is parsed and
      memoised. */
    method FetchGlobalBadges(response: Response) returns (r: Result<BadgeMap>)
      modifies this
      ensures old(globalBadges).Some? ==> r == Ok(old(globalBadges).value) && globalBadges == old(globalBadges)
      ensures old(globalBadges).None? && response.Failed? ==>
        r == Err("Global badges: " + IntToString(response.status)) && globalBadges.None?
      ensures old(globalBadges).None? && response.Fetched? ==>
        r == Ok(Assign(BadgePairs(response.data))) && globalBadges == Some(r.value)
    {
      if globalBadges.Some? {
        return Ok(globalBadges.value);
      }
      if response.Failed? {
        return Err("Global badges: " + IntToString(response.status));
      }
      var m := ParseBadgeResponse(response.data);
      globalBadges := Some(m);
      return Ok(m);
    }

    /** `fetchChannelBadges`. */
    method FetchChannelBadges(response: Response) returns (r: Result<BadgeMap>)
      ensures response.Failed? ==> r == Err("Channel badges: " + IntToString(response.status))
      ensures response.Fetched? ==> r == Ok(Assign(BadgePairs(response.data)))
    {
      if response.Failed? {
        return Err("Channel badges: " + IntToString(response.status));
      }
      var m := ParseBadgeResponse(response.data);
      return Ok(m);
    }

    /** `fetchBadges`: both requests, then the merge; an error from either
      is the error of the whole. A global response that arrives is memoised
      even when the channel request fails. */
    method FetchBadges(global: Response, channel: Response) returns (r: Result<BadgeMap>)
      modifies this
      ensures var g := if old(globalBadges).Some? then Ok(old(globalBadges).value)
                       else if global.Failed? then Err("Global badges: " + IntToString(global.status))
                       else Ok(Assign(BadgePairs(global.data)));
        && (r.Ok? <==> g.Ok? && channel.Fetched?)
        && (r.Ok? ==> r.value == MergeBadges(g.value, Assign(BadgePairs(channel.data))))
        && (r.Err? ==> (g.Err? && r == g) || (channel.Failed? && r.reason == "Channel badges: " + IntToString(channel.status)))
      ensures globalBadges == if old(globalBadges).Some? then old(globalBadges)
                              else if global.Fetched? then Some(Assign(BadgePairs(global.data)))
                              else None
    {
      var g := FetchGlobalBadges(global);
      var c := FetchChannelBadges(channel);
      if g.Err? {
        return g;
      }
      if c.Err? {
        return c;
      }
      return Ok(MergeBadges(g.value, c.value));
    }
  }
}
