/** The pure computations behind one rendered chat line: splitting the
    message text around native emote ranges, splitting text on runs of
    spaces, the larger emote URL shown in the tooltip, whether a name colour
    is readable on the dark background, the fallback colour hashed from a
    user name, the h:mm:ss stamp of a message in a past broadcast, and the
    settings spinners' clamps. */
module ChatRender {
  import opened Optional
  import opened JsString

  // ---------------------------------------------------------------------
  // Native emote segmentation

  /** One native emote: its id and the inclusive index range it covers. */
  datatype EmoteRange = EmoteRange(id: string, start: int, end: int)

  datatype Segment = TextSeg(value: string) | EmoteSeg(id: string, name: string)

  /** The text a segment stands for. */
  function SegText(seg: Segment): string
  {
    match seg
    case TextSeg(v) => v
    case EmoteSeg(_, name) => name
  }

  function Flatten(segs: seq<Segment>): string
  {
    if segs == [] then "" else SegText(segs[0]) + Flatten(segs[1..])
  }

  /** The text between the previous emote and the next one, when there is
      any. */
  function Gap(text: string, last: int, start: int): seq<Segment>
  {
    if start > last then [TextSeg(Substring(text, last, start))] else []
  }

  function EmoteOf(text: string, e: EmoteRange): Segment
  {
    EmoteSeg(e.id, Substring(text, e.start, e.end + 1))
  }

  /** The segments built from `last` on: the text before each emote, the
      emote named by its characters, and the text after the last emote. */
  function Segments(text: string, ranges: seq<EmoteRange>, last: int): seq<Segment>
    decreases |ranges|
  {
    if ranges == [] then
      Gap(text, last, |text|)
    else
      Gap(text, last, ranges[0].start) + [EmoteOf(text, ranges[0])]
        + Segments(text, ranges[1..], ranges[0].end + 1)
  }

  /** The segment-building loop of `renderMessageBody`. */
  method BuildSegments(text: string, ranges: seq<EmoteRange>) returns (segments: seq<Segment>)
    ensures segments == Segments(text, ranges, 0)
  {
    segments := [];
    var lastIdx := 0;
    var i := 0;
    while i < |ranges|
      invariant 0 <= i <= |ranges|
      invariant segments + Segments(text, ranges[i..], lastIdx) == Segments(text, ranges, 0)
    {
      var e := ranges[i];
      assert ranges[i..][0] == e && ranges[i..][1..] == ranges[i + 1..];
      ghost var before := segments;
      segments := PushEmote(segments, text, lastIdx, e);
      AppendAssoc(before, Gap(text, lastIdx, e.start), [EmoteOf(text, e)],
                  Segments(text, ranges[i + 1..], e.end + 1));
      lastIdx := e.end + 1;
      i := i + 1;
    }
    ghost var before := segments;
    if lastIdx < |text| {
      segments := segments + [TextSeg(Substring(text, lastIdx, |text|))];
    }
    assert segments == before + Gap(text, lastIdx, |text|);
  }

  /** One turn of the loop: the text since the previous emote, when there
    is any, then the emote. */
  method PushEmote(segments: seq<Segment>, text: string, lastIdx: int, e: EmoteRange) returns (r: seq<Segment>)
    ensures r == segments + Gap(text, lastIdx, e.start) + [EmoteOf(text, e)]
  {
    r := segments;
    if e.start > lastIdx {
      r := r + [TextSeg(Substring(text, lastIdx, e.start))];
    }
    r := r + [EmoteSeg(e.id, Substring(text, e.start, e.end + 1))];
  }

  lemma AppendAssoc(a: seq<Segment>, b: seq<Segment>, c: seq<Segment>, d: seq<Segment>)
    ensures a + (b + c + d) == (a + b + c) + d
  {
  }

  /** Emote ranges inside the text, each starting after the previous one
      ends. */
  predicate Ordered(ranges: seq<EmoteRange>, n: int)
  {
    && (forall i :: 0 <= i < |ranges| ==> 0 <= ranges[i].start <= ranges[i].end < n)
    && (forall i, j :: 0 <= i < j < |ranges| ==> ranges[i].end < ranges[j].start)
  }

  /** The segments of well-formed ranges from `last` on. */
  predicate From(text: string, ranges: seq<EmoteRange>, last: int)
  {
    0 <= last <= |text| && Ordered(ranges, |text|) && (ranges != [] ==> last <= ranges[0].start)
  }

  lemma FromTail(text: string, ranges: seq<EmoteRange>, last: int)
    requires From(text, ranges, last) && ranges != []
    ensures From(text, ranges[1..], ranges[0].end + 1)
  {
    var tail := ranges[1..];
    assert forall i, j :: 0 <= i < j < |tail| ==> tail[i].end < tail[j].start by {
      forall i, j | 0 <= i < j < |tail|
        ensures tail[i].end < tail[j].start
      {
        assert tail[i] == ranges[i + 1] && tail[j] == ranges[j + 1];
      }
    }
    if |ranges| > 1 {
      assert ranges[0].end < ranges[1].start;
    }
  }

  lemma GapNonEmpty(text: string, last: int, start: int)
    requires 0 <= last <= start <= |text|
    ensures forall seg :: seg in Gap(text, last, start) ==> seg.TextSeg? && seg.value != ""
  {
  }

  lemma {:induction false} FlattenAppend(a: seq<Segment>, b: seq<Segment>)
    ensures Flatten(a + b) == Flatten(a) + Flatten(b)
  {
    if a != [] {
      FlattenAppend(a[1..], b);
      assert (a + b)[1..] == a[1..] + b;
    } else {
      assert a + b == b;
    }
  }

  lemma FlattenGap(text: string, last: int, start: int)
    requires 0 <= last <= start <= |text|
    ensures Flatten(Gap(text, last, start)) == text[last..start]
  {
    if start > last {
      assert Flatten(Gap(text, last, start)) == text[last..start] + Flatten([]);
    }
  }

  lemma FlattenOne(seg: Segment)
    ensures Flatten([seg]) == SegText(seg)
  {
    assert [seg][1..] == [];
  }

  lemma SliceSplit(text: string, a: int, b: int, c: int)
    requires 0 <= a <= b <= c <= |text|
    ensures text[a..] == text[a..b] + text[b..c] + text[c..]
  {
  }

  lemma FlattenThree(a: seq<Segment>, b: seq<Segment>, c: seq<Segment>)
    ensures Flatten(a + b + c) == Flatten(a) + Flatten(b) + Flatten(c)
  {
    FlattenAppend(a + b, c);
    FlattenAppend(a, b);
  }

  lemma FlattenStep(text: string, last: int, e: EmoteRange, rest: seq<Segment>)
    requires 0 <= last <= e.start <= e.end < |text|
    requires Flatten(rest) == text[e.end + 1..]
    ensures Flatten(Gap(text, last, e.start) + [EmoteOf(text, e)] + rest) == text[last..]
  {
    var gap, emote := Gap(text, last, e.start), EmoteOf(text, e);
    var before, name, after := text[last..e.start], text[e.start..e.end + 1], text[e.end + 1..];
    assert Flatten(gap) == before by { FlattenGap(text, last, e.start); }
    assert Flatten([emote]) == name by { FlattenOne(emote); }
    assert text[last..] == before + name + after by { SliceSplit(text, last, e.start, e.end + 1); }
    FlattenThree(gap, [emote], rest);
  }

  /** For well-formed ranges the segments spell the text again. */
  lemma {:induction false} SegmentsRebuildText(text: string, ranges: seq<EmoteRange>, last: int)
    requires From(text, ranges, last)
    ensures Flatten(Segments(text, ranges, last)) == text[last..]
    decreases |ranges|
  {
    if ranges == [] {
      FlattenGap(text, last, |text|);
    } else {
      FromTail(text, ranges, last);
      SegmentsRebuildText(text, ranges[1..], ranges[0].end + 1);
      FlattenStep(text, last, ranges[0], Segments(text, ranges[1..], ranges[0].end + 1));
    }
  }

  function EmotesOf(segs: seq<Segment>): seq<Segment>
  {
    if segs == [] then []
    else (if segs[0].EmoteSeg? then [segs[0]] else []) + EmotesOf(segs[1..])
  }

  lemma {:induction false} EmotesOfAppend(a: seq<Segment>, b: seq<Segment>)
    ensures EmotesOf(a + b) == EmotesOf(a) + EmotesOf(b)
  {
    if a != [] {
      EmotesOfAppend(a[1..], b);
      assert (a + b)[1..] == a[1..] + b;
    } else {
      assert a + b == b;
    }
  }

  lemma EmotesStep(text: string, last: int, e: EmoteRange, rest: seq<Segment>)
    ensures EmotesOf(Gap(text, last, e.start) + [EmoteOf(text, e)] + rest)
         == [EmoteOf(text, e)] + EmotesOf(rest)
  {
    var gap := Gap(text, last, e.start);
    var emote := [EmoteOf(text, e)];
    EmotesOfAppend(gap + emote, rest);
    EmotesOfAppend(gap, emote);
    assert EmotesOf(gap) == [];
    assert emote[1..] == [];
  }

  /** One emote segment per range, in order. */
  function EmoteSegs(text: string, ranges: seq<EmoteRange>): seq<Segment>
  {
    seq(|ranges|, i requires 0 <= i < |ranges| => EmoteOf(text, ranges[i]))
  }

  lemma EmoteSegsCons(text: string, ranges: seq<EmoteRange>)
    requires ranges != []
    ensures EmoteSegs(text, ranges) == [EmoteOf(text, ranges[0])] + EmoteSegs(text, ranges[1..])
  {
  }

  /** The emote segments are one per range, in order, whatever the ranges;
      for ranges inside the text each is named by its inclusive range
      `text[start..end]`. */
  lemma {:induction false} SegmentsFollowRanges(text: string, ranges: seq<EmoteRange>, last: int)
    ensures EmotesOf(Segments(text, ranges, last)) == EmoteSegs(text, ranges)
    decreases |ranges|
  {
    if ranges != [] {
      var e := ranges[0];
      var rest := Segments(text, ranges[1..], e.end + 1);
      SegmentsFollowRanges(text, ranges[1..], e.end + 1);
      assert Segments(text, ranges, last) == Gap(text, last, e.start) + [EmoteOf(text, e)] + rest;
      EmotesStep(text, last, e, rest);
      EmoteSegsCons(text, ranges);
    }
  }

  lemma EmoteNamedByRange(text: string, ranges: seq<EmoteRange>, i: int)
    requires Ordered(ranges, |text|) && 0 <= i < |ranges|
    ensures EmoteOf(text, ranges[i]) == EmoteSeg(ranges[i].id, text[ranges[i].start..ranges[i].end + 1])
  {
  }

  /** No text segment is empty. */
  lemma {:induction false} TextSegmentsNonEmpty(text: string, ranges: seq<EmoteRange>, last: int)
    requires From(text, ranges, last)
    ensures forall seg :: seg in Segments(text, ranges, last) && seg.TextSeg? ==> seg.value != ""
    decreases |ranges|
  {
    if ranges == [] {
      GapNonEmpty(text, last, |text|);
    } else {
      var e := ranges[0];
      FromTail(text, ranges, last);
      TextSegmentsNonEmpty(text, ranges[1..], e.end + 1);
      GapNonEmpty(text, last, e.start);
      assert Segments(text, ranges, last)
          == Gap(text, last, e.start) + [EmoteOf(text, e)] + Segments(text, ranges[1..], e.end + 1);
    }
  }

  /** The URL of a native emote image. */
  function TwitchEmoteUrl(id: string): string
  {
    "https://static-cdn.jtvnw.net/emoticons/v2/" + id + "/static/dark/1.0"
  }

  // ---------------------------------------------------------------------
  // Words

  function SpaceRun(s: string, i: nat): (n: nat)
    requires i <= |s|
    ensures i + n <= |s|
    ensures forall k :: i <= k < i + n ==> s[k] == ' '
    ensures i + n == |s| || s[i + n] != ' '
    decreases |s| - i
  {
    if i < |s| && s[i] == ' ' then 1 + SpaceRun(s, i + 1) else 0
  }

  predicate AllSpaces(t: string)
  {
    forall j :: 0 <= j < |t| ==> t[j] == ' '
  }

  /** What each piece of a word split is: a word (no space) at even
      positions, a non-empty run of spaces at odd ones. */
  predicate Alternates(parts: seq<string>)
  {
    forall k :: 0 <= k < |parts| ==>
      if k % 2 == 0 then ' ' !in parts[k] else parts[k] != "" && AllSpaces(parts[k])
  }

  /** `s.split(/( +)/)`: the words, with each run of spaces kept between
      them as its own piece. Joining the pieces gives `s` back; pieces at
      even positions hold no space and those at odd positions are non-empty
      runs of spaces. */
  function SplitWords(s: string): (parts: seq<string>)
    ensures |parts| % 2 == 1
    ensures Concat(parts) == s
    ensures Alternates(parts)
    decreases |s|
  {
    IndexOfChar(s, ' ', 0);
    assert s[0..] == s;
    var i := IndexOfFrom(s, " ", 0);
    if i == -1 then
      assert Concat([s]) == s + Concat([]);
      [s]
    else
      var n := SpaceRun(s, i);
      var tail := SplitWords(s[i + n..]);
      SplitWordsStep(s, i, n, tail);
      [s[..i], s[i..i + n]] + tail
  }

  lemma SplitWordsStep(s: string, i: nat, n: nat, tail: seq<string>)
    requires i < i + n <= |s| && ' ' !in s[0..i] && forall k :: i <= k < i + n ==> s[k] == ' '
    requires Concat(tail) == s[i + n..] && Alternates(tail) && |tail| % 2 == 1
    ensures var parts := [s[..i], s[i..i + n]] + tail;
      |parts| % 2 == 1 && Concat(parts) == s && Alternates(parts)
  {
    var parts := [s[..i], s[i..i + n]] + tail;
    assert parts[2..] == tail;
    assert parts[1..][1..] == tail;
    assert Concat(parts) == s[..i] + (s[i..i + n] + Concat(tail));
    assert s == s[..i] + s[i..i + n] + s[i + n..];
    assert s[0..i] == s[..i];
    forall k | 0 <= k < |parts|
      ensures if k % 2 == 0 then ' ' !in parts[k] else parts[k] != "" && AllSpaces(parts[k])
    {
      if k >= 2 {
        assert parts[k] == tail[k - 2];
      }
    }
  }

  // ---------------------------------------------------------------------
  // Tooltip image

  /** The first position of `/1` followed by the end or by `?`, searching
      from `k`. */
  function FfzMarker(s: string, k: nat): (j: int)
    requires k <= |s|
    ensures j == -1 || (k <= j && j + 2 <= |s| && s[j] == '/' && s[j + 1] == '1')
    decreases |s| - k
  {
    if k + 2 > |s| then -1
    else if s[k] == '/' && s[k + 1] == '1' && (k + 2 == |s| || s[k + 2] == '?') then k
    else FfzMarker(s, k + 1)
  }

  /** `emoteUrl3x`: the first size marker of the provider's URL scheme is
      rewritten to the largest size. */
  function EmoteUrl3x(src: string, provider: string): string
  {
    if provider == "twitch" then ReplaceFirst(src, "/1.0", "/3.0")
    else if provider == "7tv" || provider == "bttv" then ReplaceFirst(src, "/1x.webp", "/3x.webp")
    else if provider == "ffz" then
      var j := FfzMarker(src, 0);
      if j == -1 then src else src[..j] + "/4" + src[j + 2..]
    else src
  }

  lemma ReplaceFirstOneChar(src: string, pat: string, rep: string, d: char)
    requires |pat| >= 2 && pat[1] == '1' && rep == pat[..1] + [d] + pat[2..]
    ensures var r := ReplaceFirst(src, pat, rep);
      r == src || exists j :: 0 <= j < |src| && src[j] == '1' && r == src[..j] + [d] + src[j + 1..]
  {
    var i := IndexOfFrom(src, pat, 0);
    if i != -1 {
      assert src[i..i + |pat|] == pat;
      assert src[i + 1] == '1';
      var r := src[..i] + rep + src[i + |pat|..];
      assert r == src[..i + 1] + [d] + src[i + 2..] by {
        assert src[..i + 1] == src[..i] + pat[..1];
        assert src[i + 2..] == pat[2..] + src[i + |pat|..];
      }
    }
  }

  /** The larger image differs from the original in at most one place,
      where a size digit `1` becomes `3` (`4` for FrankerFaceZ). */
  lemma UpscaleChangesOneDigit(src: string, provider: string)
    ensures var r := EmoteUrl3x(src, provider);
      var d := if provider == "ffz" then '4' else '3';
      r == src || exists j :: 0 <= j < |src| && src[j] == '1' && r == src[..j] + [d] + src[j + 1..]
  {
    if provider == "twitch" {
      ReplaceFirstOneChar(src, "/1.0", "/3.0", '3');
    } else if provider == "7tv" || provider == "bttv" {
      ReplaceFirstOneChar(src, "/1x.webp", "/3x.webp", '3');
    } else if provider == "ffz" {
      var j := FfzMarker(src, 0);
      if j != -1 {
        assert src[..j] + "/4" + src[j + 2..] == src[..j + 1] + ['4'] + src[j + 2..];
      }
    }
  }

  lemma {:induction false} FfzMarkerAtEnd(base: string, k: nat)
    requires k <= |base| && '?' !in base
    ensures FfzMarker(base + "/1", k) == |base|
    decreases |base| - k
  {
    var s := base + "/1";
    if k < |base| {
      if k + 2 < |base| {
        assert s[k + 2] == base[k + 2];
      }
      assert s[k + 2] != '?';
      FfzMarkerAtEnd(base, k + 1);
    }
  }

  /** A FrankerFaceZ image URL ending in `/1` (with no query) becomes the
      `/4` image. */
  lemma FfzUrlUpscaled(base: string)
    requires '?' !in base
    ensures EmoteUrl3x(base + "/1", "ffz") == base + "/4"
  {
    FfzMarkerAtEnd(base, 0);
    var s := base + "/1";
    assert s[..|base|] == base;
    assert s[|base| + 2..] == "";
  }

  // ---------------------------------------------------------------------
  // Colour readability

  /** The white space `parseInt` skips (WhiteSpace and LineTerminator). */
  predicate IsJsSpace(c: char)
  {
    c == '\t' || c == '\n' || c == '\U{B}' || c == '\U{C}' || c == '\r' || c == ' '
    || c == '\U{A0}' || c == '\U{1680}' || ('\U{2000}' <= c <= '\U{200A}')
    || c == '\U{2028}' || c == '\U{2029}' || c == '\U{202F}' || c == '\U{205F}'
    || c == '\U{3000}' || c == '\U{FEFF}'
  }

  function HexDigit(c: char): (v: int)
    ensures -1 <= v < 16
  {
    if '0' <= c <= '9' then c as int - '0' as int
    else if 'a' <= c <= 'f' then c as int - 'a' as int + 10
    else if 'A' <= c <= 'F' then c as int - 'A' as int + 10
    else -1
  }

  predicate IsHex(c: char)
  {
    HexDigit(c) >= 0
  }

  function SpaceRunJs(s: string, i: nat): (n: nat)
    requires i <= |s|
    ensures i + n <= |s|
    decreases |s| - i
  {
    if i < |s| && IsJsSpace(s[i]) then 1 + SpaceRunJs(s, i + 1) else 0
  }

  function HexRun(s: string, i: nat): (n: nat)
    requires i <= |s|
    ensures i + n <= |s|
    ensures forall k :: i <= k < i + n ==> IsHex(s[k])
    ensures i + n == |s| || !IsHex(s[i + n])
    decreases |s| - i
  {
    if i < |s| && IsHex(s[i]) then 1 + HexRun(s, i + 1) else 0
  }

  predicate AllHex(ds: string)
  {
    forall k :: 0 <= k < |ds| ==> IsHex(ds[k])
  }

  function Pow16(n: nat): (r: nat)
    ensures r >= 1
  {
    if n == 0 then 1 else 16 * Pow16(n - 1)
  }

  /** The value of a run of hex digits, most significant first. */
  function HexValue(ds: string): (v: nat)
    requires AllHex(ds)
    ensures v < Pow16(|ds|)
  {
    if ds == [] then 0
    else
      assert IsHex(ds[|ds| - 1]);
      HexValue(ds[..|ds| - 1]) * 16 + HexDigit(ds[|ds| - 1])
  }

  /** `parseInt(s, 16)`: optional white space and sign, an optional `0x`,
      then the longest run of hex digits; none at all is `NaN` (`None`). */
  function ParseIntHex(s: string): Option<int>
  {
    var i := SpaceRunJs(s, 0);
    var neg := i < |s| && s[i] == '-';
    var j := if i < |s| && (s[i] == '-' || s[i] == '+') then i + 1 else i;
    var k := if j + 1 < |s| && s[j] == '0' && (s[j + 1] == 'x' || s[j + 1] == 'X') then j + 2 else j;
    var n := HexRun(s, k);
    if n == 0 then None
    else
      var v: int := HexValue(s[k..k + n]);
      Some(if neg then -v else v)
  }

  /** `isColorReadable`: no colour, or one not starting with `#`, counts as
      readable; otherwise the parsed number's three low bytes (NaN reads as
      0) must reach a weighted luminance of 30 out of 255. */
  predicate IsColorReadable(hex: string)
  {
    if hex == "" || hex[0] != '#' then true
    else
      var t := match ParseIntHex(hex[1..]) case None => 0 case Some(v) => ToInt32(v);
      Luminant(t)
  }

  predicate Luminant(t: int)
  {
    var r := (t / 0x1_0000) % 256;
    var g := (t / 0x100) % 256;
    var b := t % 256;
    r * 299 + g * 587 + b * 114 >= 30000
  }

  lemma ShiftDigit(x: int, p: int)
    ensures x * (16 * p) == (x * p) * 16
  {
  }

  lemma {:induction false} HexValueAppend(a: string, b: string)
    requires AllHex(a) && AllHex(b)
    ensures AllHex(a + b)
    ensures HexValue(a + b) == HexValue(a) * Pow16(|b|) + HexValue(b)
    decreases |b|
  {
    if b != [] {
      var b1 := b[..|b| - 1];
      var d := HexDigit(b[|b| - 1]);
      assert (a + b)[..|a + b| - 1] == a + b1;
      HexValueAppend(a, b1);
      var x, p, y := HexValue(a), Pow16(|b1|), HexValue(b1);
      assert HexValue(a + b) == (x * p + y) * 16 + d;
      assert Pow16(|b|) == 16 * p;
      ShiftDigit(x, p);
    } else {
      assert a + b == a;
    }
  }

  lemma {:induction false} HexRunOf(s: string, i: nat, n: nat)
    requires i + n <= |s|
    requires forall k :: i <= k < i + n ==> IsHex(s[k])
    requires i + n == |s| || !IsHex(s[i + n])
    ensures HexRun(s, i) == n
    decreases n
  {
    if n > 0 {
      HexRunOf(s, i + 1, n - 1);
    }
  }

  /** Text that is nothing but hex digits, not starting `0x`, parses to
      its value. */
  lemma ParseHexDigits(s: string)
    requires |s| >= 2 && AllHex(s)
    ensures ParseIntHex(s) == Some(HexValue(s))
  {
    assert IsHex(s[0]) && IsHex(s[1]);
    HexNotSign(s[0]);
    HexNotSign(s[1]);
    HexRunOf(s, 0, |s|);
    assert s[0..|s|] == s;
  }

  /** A hex digit is neither white space, a sign nor the `x` of `0x`. */
  lemma HexNotSign(c: char)
    requires IsHex(c)
    ensures !IsJsSpace(c) && c != '-' && c != '+' && c != 'x' && c != 'X'
  {
  }

  /** The bytes of `R * 65536 + G * 256 + B`. */
  lemma Bytes(r: int, g: int, b: int)
    requires 0 <= r < 256 && 0 <= g < 256 && 0 <= b < 256
    ensures var t := r * 0x1_0000 + g * 0x100 + b;
      (t / 0x1_0000) % 256 == r && (t / 0x100) % 256 == g && t % 256 == b
  {
    var t := r * 0x1_0000 + g * 0x100 + b;
    assert t / 0x1_0000 == r;
    assert t / 0x100 == r * 256 + g;
  }

  lemma LuminantBytes(r: int, g: int, b: int)
    requires 0 <= r < 256 && 0 <= g < 256 && 0 <= b < 256
    ensures Luminant(r * 0x1_0000 + g * 0x100 + b) <==> r * 299 + g * 587 + b * 114 >= 30000
  {
    Bytes(r, g, b);
  }

  lemma Recompose(r: int, g: int, b: int)
    ensures (r * 256 + g) * 256 + b == r * 0x1_0000 + g * 0x100 + b
  {
  }

  lemma SixDigitValue(rr: string, gg: string, bb: string)
    requires |rr| == 2 && |gg| == 2 && |bb| == 2 && AllHex(rr) && AllHex(gg) && AllHex(bb)
    ensures AllHex(rr + gg + bb)
    ensures HexValue(rr + gg + bb) == HexValue(rr) * 0x1_0000 + HexValue(gg) * 0x100 + HexValue(bb)
  {
    HexValueAppend(rr, gg);
    HexValueAppend(rr + gg, bb);
    assert Pow16(2) == 256;
    var r, g, b := HexValue(rr), HexValue(gg), HexValue(bb);
    var rg := HexValue(rr + gg);
    assert rg == r * 256 + g;
    assert HexValue(rr + gg + bb) == rg * 256 + b;
    Recompose(r, g, b);
  }

  /** For `#RRGGBB` the three bytes are the three digit pairs, so readability
      is the usual weighted-luminance test. */
  lemma ReadableSixDigits(rr: string, gg: string, bb: string)
    requires |rr| == 2 && |gg| == 2 && |bb| == 2 && AllHex(rr) && AllHex(gg) && AllHex(bb)
    ensures IsColorReadable("#" + rr + gg + bb)
        <==> HexValue(rr) * 299 + HexValue(gg) * 587 + HexValue(bb) * 114 >= 30000
  {
    var s := rr + gg + bb;
    assert ("#" + rr + gg + bb)[1..] == s;
    SixDigitValue(rr, gg, bb);
    ParseHexDigits(s);
    var r, g, b := HexValue(rr), HexValue(gg), HexValue(bb);
    ToInt32Small(HexValue(s));
    LuminantBytes(r, g, b);
  }

  lemma HexPairs()
    ensures AllHex("00") && AllHex("FF")
    ensures HexValue("00") == 0 && HexValue("FF") == 255
  {
    assert "00"[..1] == "0" && "FF"[..1] == "F";
  }

  /** Pure blue is too dark. */
  lemma BlueIsUnreadable()
    ensures !IsColorReadable("#0000FF")
  {
    HexPairs();
    ReadableSixDigits("00", "00", "FF");
    assert "#" + "00" + "00" + "FF" == "#0000FF";
  }

  /** White is readable. */
  lemma WhiteIsReadable()
    ensures IsColorReadable("#FFFFFF")
  {
    HexPairs();
    ReadableSixDigits("FF", "FF", "FF");
    assert "#" + "FF" + "FF" + "FF" == "#FFFFFF";
  }

  /** Text after `#` that is not hex reads as NaN, that is as black. */
  lemma NonHexIsUnreadable(rest: string)
    requires rest != [] && !IsJsSpace(rest[0]) && !IsHex(rest[0]) && rest[0] != '-' && rest[0] != '+'
    ensures !IsColorReadable("#" + rest)
  {
    assert ("#" + rest)[1..] == rest;
    assert SpaceRunJs(rest, 0) == 0 && HexRun(rest, 0) == 0;
  }

  // ---------------------------------------------------------------------
  // Fallback name colour

  /** `hash` after the loop over all of `u`: each step computes
      `c + ((hash << 5) - hash)` with `<<` acting on 32-bit integers. */
  function Hash(u: string): int
  {
    if u == [] then 0
    else
      var h := Hash(u[..|u| - 1]);
      u[|u| - 1] as int + (ToInt32(ToInt32(h) * 32) - h)
  }

  function Hue(u: string): int
  {
    (if Hash(u) < 0 then -Hash(u) else Hash(u)) % 360
  }

  function HslColor(hue: nat): string
  {
    "hsl(" + NatToString(hue) + ", 70%, 60%)"
  }

  /** `hashColor`. */
  method HashColor(username: string) returns (color: string)
    ensures 0 <= Hue(username) < 360
    ensures color == HslColor(Hue(username))
  {
    var hash := 0;
    var i := 0;
    while i < |username|
      invariant 0 <= i <= |username|
      invariant hash == Hash(username[..i])
    {
      assert username[..i + 1][..i] == username[..i];
      hash := username[i] as int + (ToInt32(ToInt32(hash) * 32) - hash);
      i := i + 1;
    }
    assert username[..|username|] == username;
    var hue := (if hash < 0 then -hash else hash) % 360;
    color := HslColor(hue);
  }

  /** The classic string hash `h * 31 + c`, taken exactly. */
  function Poly(u: string): int
  {
    if u == [] then 0 else 31 * Poly(u[..|u| - 1]) + u[|u| - 1] as int
  }

  lemma SumOfMultiples(x: int, y: int, z: int)
    requires x % TwoTo32 == 0 && y % TwoTo32 == 0 && z % TwoTo32 == 0
    ensures (x + 32 * y + 31 * z) % TwoTo32 == 0
  {
    var a, b, c := x / TwoTo32, y / TwoTo32, z / TwoTo32;
    assert x == TwoTo32 * a && y == TwoTo32 * b && z == TwoTo32 * c;
    assert x + 32 * y + 31 * z == TwoTo32 * (a + 32 * b + 31 * c);
  }

  /** `(hash << 5) - hash` is `hash * 31` modulo 2^32: the hash agrees with
      the classic string hash modulo 2^32. */
  lemma {:induction false} HashIsStringHash(u: string)
    ensures (Hash(u) - Poly(u)) % TwoTo32 == 0
  {
    if u != [] {
      var init := u[..|u| - 1];
      var h, p := Hash(init), Poly(init);
      var t := ToInt32(h);
      HashIsStringHash(init);
      ToInt32Congruent(h);
      ToInt32Congruent(t * 32);
      var x := ToInt32(t * 32) - t * 32;
      assert Hash(u) - Poly(u) == x + 32 * (t - h) + 31 * (h - p);
      SumOfMultiples(x, t - h, h - p);
    }
  }

  // ---------------------------------------------------------------------
  // Broadcast time stamps

  datatype VodTime = VodTime(h: int, m: int, s: int)

  /** `Math.floor(secs / 3600)`, `Math.floor((secs % 3600) / 60)` and
      `secs % 60`, with JavaScript's remainder. */
  function VodFields(secs: int): VodTime
  {
    VodTime(secs / 3600, JsRem(secs, 3600) / 60, JsRem(secs, 60))
  }

  function VodStamp(secs: int): string
  {
    var t := VodFields(secs);
    IntToString(t.h) + ":" + PadStart2(IntToString(t.m)) + ":" + PadStart2(IntToString(t.s))
  }

  /** For a non-negative offset the fields are hours, minutes below 60 and
      seconds below 60 that add up to the offset. */
  lemma VodFieldsRecompose(secs: int)
    requires secs >= 0
    ensures var t := VodFields(secs);
      t.h >= 0 && 0 <= t.m < 60 && 0 <= t.s < 60 && t.h * 3600 + t.m * 60 + t.s == secs
  {
    var t := VodFields(secs);
    assert secs == (secs / 3600) * 3600 + secs % 3600;
    assert secs % 3600 == (secs % 3600 / 60) * 60 + secs % 3600 % 60;
    assert secs % 3600 % 60 == secs % 60 by {
      assert secs == (secs / 3600) * 3600 + secs % 3600;
      assert 3600 * (secs / 3600) == 60 * (60 * (secs / 3600));
    }
  }

  function TwoDigits(x: int): string
    requires 0 <= x < 100
  {
    [DigitChar(x / 10), DigitChar(x % 10)]
  }

  lemma PadTwoDigits(x: int)
    requires 0 <= x < 100
    ensures PadStart2(IntToString(x)) == TwoDigits(x)
  {
    if x >= 10 {
      assert NatToString(x) == NatToString(x / 10) + [DigitChar(x % 10)];
    }
  }

  /** For a non-negative offset the stamp reads `h:mm:ss`. */
  lemma VodStampDigits(secs: int)
    requires secs >= 0
    ensures var t := VodFields(secs);
      VodStamp(secs) == NatToString(t.h) + ":" + TwoDigits(t.m) + ":" + TwoDigits(t.s)
  {
    VodFieldsRecompose(secs);
    var t := VodFields(secs);
    PadTwoDigits(t.m);
    PadTwoDigits(t.s);
  }

  // ---------------------------------------------------------------------
  // Settings spinners in the chat panel

  function Max(a: int, b: int): int
  {
    if a >= b then a else b
  }

  function Min(a: int, b: int): int
  {
    if a <= b then a else b
  }

  /** A typed value: `Math.max(min, Math.min(max, v))`. */
  function ClampSpinner(v: int, lo: int, hi: int): int
  {
    Max(lo, Min(hi, v))
  }

  /** The `−` button: `Math.max(min, v - 1)`. */
  function SpinnerDec(v: int, lo: int): int
  {
    Max(lo, v - 1)
  }

  /** The `+` button: `Math.min(max, v + 1)`. */
  function SpinnerInc(v: int, hi: int): int
  {
    Min(hi, v + 1)
  }

  /** The message-cap field: `Math.max(100, Math.min(2000, v))`. */
  function ClampCap(v: int): int
  {
    ClampSpinner(v, 100, 2000)
  }

  /** A typed value lands in range and is kept when already in range; the
      buttons move an in-range value by at most one and keep it in range. */
  lemma SpinnerStaysInRange(v: int, lo: int, hi: int)
    requires lo <= hi
    ensures lo <= ClampSpinner(v, lo, hi) <= hi
    ensures lo <= v <= hi ==> ClampSpinner(v, lo, hi) == v
    ensures lo <= v <= hi ==> lo <= SpinnerDec(v, lo) <= v && v - SpinnerDec(v, lo) <= 1
    ensures lo <= v <= hi ==> v <= SpinnerInc(v, hi) <= hi && SpinnerInc(v, hi) - v <= 1
    ensures 100 <= ClampCap(v) <= 2000
  {
  }
}
