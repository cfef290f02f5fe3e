/** Which page the content script is on, read from `location.pathname`:
    a live channel (`/<name>` or `/<name>/...`) or a past broadcast
    (`/videos/<digits>`). Both are anchored regular expressions; here they
    are written as scans over the path. */
module ChatUrl {
  import opened Optional
  import opened JsString

  /** `[a-zA-Z0-9_]`. */
  predicate IsWordChar(c: char)
  {
    'a' <= c <= 'z' || 'A' <= c <= 'Z' || '0' <= c <= '9' || c == '_'
  }

  /** The length of the longest run of word characters starting at `i`. */
  function WordRun(s: string, i: nat): (n: nat)
    requires i <= |s|
    ensures i + n <= |s|
    ensures forall k :: i <= k < i + n ==> IsWordChar(s[k])
    ensures i + n == |s| || !IsWordChar(s[i + n])
    decreases |s| - i
  {
    if i < |s| && IsWordChar(s[i]) then 1 + WordRun(s, i + 1) else 0
  }

  /** The length of the longest run of ASCII digits starting at `i`. */
  function DigitRun(s: string, i: nat): (n: nat)
    requires i <= |s|
    ensures i + n <= |s|
    ensures forall k :: i <= k < i + n ==> IsDigit(s[k])
    ensures i + n == |s| || !IsDigit(s[i + n])
    decreases |s| - i
  {
    if i < |s| && IsDigit(s[i]) then 1 + DigitRun(s, i + 1) else 0
  }

  /** First path segments that are Twitch pages, not channels. */
  const Excluded: seq<string> := ["directory", "settings", "payments", "inventory", "wallet",
                                  "friends", "subscriptions", "drops", "search", "videos"]

  /** `getChannel`: `^\/([a-zA-Z0-9_]{1,25})(?:\/|$)`, lower-cased, minus
      the excluded names. A run of 1 to 25 word characters matches only if
      it is the whole run (what follows is `/` or the end), so the longest
      run decides. */
  function GetChannel(path: string): Option<string>
  {
    if |path| == 0 || path[0] != '/' then None
    else
      var n := WordRun(path, 1);
      if n < 1 || n > 25 || (1 + n < |path| && path[1 + n] != '/') then None
      else
        var name := ToLower(path[1..1 + n]);
        if name in Excluded then None else Some(name)
  }

  /** `getVodId`: `^\/videos\/(\d+)`, the whole digit run. */
  function GetVodId(path: string): Option<string>
  {
    if !StartsWith(path, "/videos/") then None
    else
      var n := DigitRun(path, 8);
      if n == 0 then None else Some(path[8..8 + n])
  }

  lemma {:induction false} WordRunOf(s: string, i: nat, n: nat)
    requires i + n <= |s|
    requires forall k :: i <= k < i + n ==> IsWordChar(s[k])
    requires i + n == |s| || !IsWordChar(s[i + n])
    ensures WordRun(s, i) == n
    decreases n
  {
    if n > 0 {
      WordRunOf(s, i + 1, n - 1);
    }
  }

  lemma {:induction false} DigitRunOf(s: string, i: nat, n: nat)
    requires i + n <= |s|
    requires forall k :: i <= k < i + n ==> IsDigit(s[k])
    requires i + n == |s| || !IsDigit(s[i + n])
    ensures DigitRun(s, i) == n
    decreases n
  {
    if n > 0 {
      DigitRunOf(s, i + 1, n - 1);
    }
  }

  /** A path whose first segment is 1 to 25 word characters names that
      channel, lower-cased, unless it is an excluded page. */
  lemma GetChannelOfSegment(seg: string, rest: string)
    requires 1 <= |seg| <= 25 && forall k :: 0 <= k < |seg| ==> IsWordChar(seg[k])
    requires rest == "" || rest[0] == '/'
    ensures GetChannel("/" + seg + rest)
         == if ToLower(seg) in Excluded then None else Some(ToLower(seg))
  {
    var path := "/" + seg + rest;
    WordRunOf(path, 1, |seg|);
    assert path[1..1 + |seg|] == seg;
  }

  /** Conversely, a channel is only ever found as such a segment, and it is
      lower-case and not excluded. */
  lemma GetChannelShape(path: string)
    ensures var r := GetChannel(path);
      r.Some? ==>
        var n := |r.value|;
        && 1 <= n <= 25 && 1 + n <= |path| && path[0] == '/'
        && (forall k :: 1 <= k < 1 + n ==> IsWordChar(path[k]))
        && (1 + n == |path| || path[1 + n] == '/')
        && r.value == ToLower(path[1..1 + n])
        && (forall k :: 0 <= k < n ==> IsWordChar(r.value[k]) && !('A' <= r.value[k] <= 'Z'))
        && r.value !in Excluded
  {
  }

  /** Broadcast pages are never read as a channel. */
  lemma VodPageHasNoChannel(rest: string)
    ensures GetChannel("/videos/" + rest) == None
  {
    var path := "/videos/" + rest;
    WordRunOf(path, 1, 6);
    assert path[1..7] == "videos";
    assert ToLower("videos") == "videos";
    assert Excluded[9] == "videos";
  }

  /** `/videos/` followed by a digit run yields exactly that run. */
  lemma GetVodIdOfDigits(digits: string, rest: string)
    requires |digits| >= 1 && forall k :: 0 <= k < |digits| ==> IsDigit(digits[k])
    requires rest == "" || !IsDigit(rest[0])
    ensures GetVodId("/videos/" + digits + rest) == Some(digits)
  {
    var path := "/videos/" + digits + rest;
    assert path[..8] == "/videos/";
    DigitRunOf(path, 8, |digits|);
    assert path[8..8 + |digits|] == digits;
  }

  /** Conversely, an id is always a non-empty, maximal digit run right
      after `/videos/`. */
  lemma GetVodIdShape(path: string)
    ensures var r := GetVodId(path);
      && (r.Some? <==> StartsWith(path, "/videos/") && |path| > 8 && IsDigit(path[8]))
      && (r.Some? ==>
            var n := |r.value|;
            && n >= 1 && StartsWith(path, "/videos/" + r.value)
            && (forall k :: 0 <= k < n ==> IsDigit(r.value[k]))
            && (8 + n == |path| || !IsDigit(path[8 + n])))
  {
    var r := GetVodId(path);
    if r.Some? {
      var n := |r.value|;
      assert path[..8 + n] == "/videos/" + r.value;
    }
  }
}
