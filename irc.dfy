/** One line of IRCv3-tagged Twitch chat turned into a structured message:
    tags, prefix, command, channel, trailing text and the sender's nick.
    The parser is total: every string yields a message, whatever its shape. */
module Irc {
  import opened Optional
  import opened JsString

  /** A tag value is either text or the JavaScript value `true` (a tag
      written without `=`). */
  datatype TagValue = Flag | Text(s: string)

  datatype Message = Message(
    tags: map<string, TagValue>,
    prefix: Option<string>,
    command: string,
    channel: Option<string>,
    trailing: Option<string>,
    username: Option<string>)

  // ---------------------------------------------------------------------
  // Tag values

  /** The four escapes this parser knows, undone by four global
      replacements in a fixed order: `\s`, then `\n`, then `\r`, then `\\`. */
  function Unescape(v: string): string
  {
    var spaces := ReplaceAll(v, "\\s", " ");
    var newlines := ReplaceAll(spaces, "\\n", "\n");
    var carriages := ReplaceAll(newlines, "\\r", "\r");
    ReplaceAll(carriages, "\\\\", "\\")
  }

  /** The escape sequence the IRCv3 message-tags specification ("Escaping
      values") assigns to a character. */
  function EscapeChar(c: char): string
  {
    match c
    case ';' => "\\:"
    case ' ' => "\\s"
    case '\\' => "\\\\"
    case '\r' => "\\r"
    case '\n' => "\\n"
    case _ => [c]
  }

  /** Escapes the characters of `chars` and leaves the others as they are. */
  function EscapeOnly(v: string, chars: set<char>): string
  {
    if v == [] then []
    else (if v[0] in chars then EscapeChar(v[0]) else [v[0]]) + EscapeOnly(v[1..], chars)
  }

  /** IRCv3 tag-value escaping, as a server applies it. */
  function Escape(v: string): string
  {
    EscapeOnly(v, {';', ' ', '\\', '\r', '\n'})
  }

  /** The key of one `key=value` pair: the text before the first `=`. */
  function TagKey(pair: string): string
  {
    var eq := IndexOf(pair, "=", 0);
    if eq == -1 then pair else Substring(pair, 0, eq)
  }

  /** The value of one pair: `true` without `=`, otherwise the unescaped
      text after the first `=`. */
  function TagVal(pair: string): TagValue
  {
    var eq := IndexOf(pair, "=", 0);
    if eq == -1 then Flag else Text(Unescape(Substring(pair, eq + 1, |pair|)))
  }

  /** The tag object filled pair by pair; a later pair with the same key
      overwrites an earlier one. */
  function TagsOf(pairs: seq<string>): map<string, TagValue>
  {
    if pairs == [] then map[]
    else
      var last := pairs[|pairs| - 1];
      TagsOf(pairs[..|pairs| - 1])[TagKey(last) := TagVal(last)]
  }

  // ---------------------------------------------------------------------
  // The line, field by field

  predicate IsTagged(raw: string)
  {
    |raw| > 0 && raw[0] == '@'
  }

  /** The `;`-separated pairs: the text from index 1 up to the first space
      (with JavaScript's `substring` semantics when there is no space). */
  function TagPairs(raw: string): seq<string>
  {
    Split(Substring(raw, 1, IndexOf(raw, " ", 0)), ";")
  }

  function TagsOfLine(raw: string): map<string, TagValue>
  {
    if IsTagged(raw) then TagsOf(TagPairs(raw)) else map[]
  }

  /** Where the text after the tag block starts. */
  function Cursor(raw: string): nat
  {
    if IsTagged(raw) then IndexOf(raw, " ", 0) + 1 else 0
  }

  predicate HasPrefix(raw: string)
  {
    Cursor(raw) < |raw| && raw[Cursor(raw)] == ':'
  }

  function PrefixOf(raw: string): Option<string>
  {
    if HasPrefix(raw) then Some(Substring(raw, Cursor(raw) + 1, IndexOf(raw, " ", Cursor(raw))))
    else None
  }

  /** The text after the tags and the prefix. */
  function RestOf(raw: string): string
  {
    var start := if HasPrefix(raw) then IndexOf(raw, " ", Cursor(raw)) + 1 else Cursor(raw);
    Substring(raw, start, |raw|)
  }

  function Params(rest: string): seq<string>
  {
    Split(rest, " ")
  }

  function CommandOf(rest: string): string
  {
    Params(rest)[0]
  }

  predicate HasChannel(rest: string)
  {
    |Params(rest)| > 1 && StartsWith(Params(rest)[1], "#")
  }

  function ChannelOf(rest: string): Option<string>
  {
    if HasChannel(rest) then Some(Substring(Params(rest)[1], 1, |Params(rest)[1]|)) else None
  }

  /** Everything after the first " :" at or after the end of the command;
      failing that, the parameters after the command and channel joined
      by single spaces; failing that, nothing. */
  function TrailingOf(rest: string): Option<string>
  {
    var parts := Params(rest);
    var paramStart := if HasChannel(rest) then 2 else 1;
    var t := IndexOf(rest, " :", |parts[0]|);
    if t != -1 then Some(Substring(rest, t + 2, |rest|))
    else if |parts| > paramStart then Some(Join(parts[paramStart..], " "))
    else None
  }

  /** The nick: the prefix up to its first `!`, or the whole prefix; absent
      when the prefix is absent or empty. */
  function UsernameOf(prefix: Option<string>): Option<string>
  {
    match prefix
    case None => None
    case Some(p) =>
      if p == "" then None
      else
        var bang := IndexOf(p, "!", 0);
        Some(if bang != -1 then Substring(p, 0, bang) else p)
  }

  function Parse(raw: string): Message
  {
    var rest := RestOf(raw);
    Message(TagsOfLine(raw), PrefixOf(raw), CommandOf(rest), ChannelOf(rest),
            TrailingOf(rest), UsernameOf(PrefixOf(raw)))
  }

  // ---------------------------------------------------------------------
  // The parser as the source writes it: a cursor moved step by step and a
  // tag object filled in a loop.

  /** The `for (const pair of ...)` loop of the parser. */
  method FillTags(pairs: seq<string>) returns (tags: map<string, TagValue>)
    ensures tags == TagsOf(pairs)
  {
    tags := map[];
    var i := 0;
    while i < |pairs|
      invariant 0 <= i <= |pairs|
      invariant tags == TagsOf(pairs[..i])
    {
      var pair := pairs[i];
      var eq := IndexOf(pair, "=", 0);
      if eq == -1 {
        tags := tags[pair := Flag];
      } else {
        tags := tags[Substring(pair, 0, eq) := Text(Unescape(Substring(pair, eq + 1, |pair|)))];
      }
      assert pairs[..i + 1][..i] == pairs[..i];
      i := i + 1;
    }
    assert pairs[..|pairs|] == pairs;
  }

  method ParseIRCMessage(raw: string) returns (msg: Message)
    ensures msg == Parse(raw)
  {
    var tags, idx := ReadTags(raw);
    var prefix, next := ReadPrefix(raw, idx);
    var rest := Substring(raw, next, |raw|);
    var command, channel, trailing := ReadBody(rest);
    var username := ReadUsername(prefix);
    msg := Message(tags, prefix, command, channel, trailing, username);
  }

  /** The tag block, when the line starts with `@`, and the index after it. */
  method ReadTags(raw: string) returns (tags: map<string, TagValue>, idx: nat)
    ensures tags == TagsOfLine(raw) && idx == Cursor(raw)
  {
    idx := 0;
    tags := map[];
    if |raw| > 0 && raw[0] == '@' {
      var spaceIdx := IndexOf(raw, " ", 0);
      var pairs := Split(Substring(raw, 1, spaceIdx), ";");
      tags := FillTags(pairs);
      idx := spaceIdx + 1;
    }
  }

  /** The prefix, when a `:` follows the tags, and where the rest starts. */
  method ReadPrefix(raw: string, idx: nat) returns (prefix: Option<string>, next: int)
    requires idx == Cursor(raw)
    ensures prefix == PrefixOf(raw) && Substring(raw, next, |raw|) == RestOf(raw)
  {
    prefix := None;
    next := idx;
    if idx < |raw| && raw[idx] == ':' {
      var spaceIdx := IndexOf(raw, " ", idx);
      prefix := Some(Substring(raw, idx + 1, spaceIdx));
      next := spaceIdx + 1;
    }
  }

  /** Command, channel and trailing text from the rest of the line. */
  method ReadBody(rest: string) returns (command: string, channel: Option<string>, trailing: Option<string>)
    ensures command == CommandOf(rest) && channel == ChannelOf(rest) && trailing == TrailingOf(rest)
  {
    var parts := Split(rest, " ");
    command := parts[0];
    channel := None;
    trailing := None;
    var paramStart := 1;
    if paramStart < |parts| && StartsWith(parts[paramStart], "#") {
      channel := Some(Substring(parts[paramStart], 1, |parts[paramStart]|));
      paramStart := paramStart + 1;
    }
    var trailingIdx := IndexOf(rest, " :", |command|);
    if trailingIdx != -1 {
      trailing := Some(Substring(rest, trailingIdx + 2, |rest|));
    } else if |parts| > paramStart {
      trailing := Some(Join(parts[paramStart..], " "));
    }
  }

  /** The nick from the prefix. */
  method ReadUsername(prefix: Option<string>) returns (username: Option<string>)
    ensures username == UsernameOf(prefix)
  {
    username := None;
    if prefix.Some? && prefix.value != "" {
      var bangIdx := IndexOf(prefix.value, "!", 0);
      username := Some(if bangIdx != -1 then Substring(prefix.value, 0, bangIdx) else prefix.value);
    }
  }

  // ---------------------------------------------------------------------
  // Tags

  /** A pair without `=` is a flag named by the whole pair. */
  lemma FlagPair(pair: string)
    requires '=' !in pair
    ensures TagKey(pair) == pair && TagVal(pair) == Flag
  {
    NoCharAfter(pair, '=', 0);
    assert pair[0..] == pair;
  }

  /** With `=`, the key is the text before the first `=` and the value is
      everything after it, `=` signs included, unescaped. */
  lemma KeyValuePair(key: string, value: string)
    requires '=' !in key
    ensures TagKey(key + "=" + value) == key
    ensures TagVal(key + "=" + value) == Text(Unescape(value))
  {
    var pair := key + "=" + value;
    assert pair[0..|key|] == key;
    FirstCharAt(pair, '=', 0, |key|);
    assert Substring(pair, |key| + 1, |pair|) == pair[|key| + 1..] == value;
  }

  /** A key maps to the value of the LAST pair that names it. */
  lemma {:induction false} TagsOfLastWins(pairs: seq<string>, i: int)
    requires 0 <= i < |pairs|
    requires forall j :: i < j < |pairs| ==> TagKey(pairs[j]) != TagKey(pairs[i])
    ensures TagKey(pairs[i]) in TagsOf(pairs)
    ensures TagsOf(pairs)[TagKey(pairs[i])] == TagVal(pairs[i])
  {
    var n := |pairs| - 1;
    if i < n {
      var init := pairs[..n];
      assert forall j :: i < j < |init| ==> init[j] == pairs[j];
      TagsOfLastWins(init, i);
    }
  }

  /** The tag object has exactly the keys the pairs name. */
  lemma {:induction false} TagsOfKeys(pairs: seq<string>)
    ensures TagsOf(pairs).Keys == set p | p in pairs :: TagKey(p)
  {
    if pairs != [] {
      var n := |pairs| - 1;
      TagsOfKeys(pairs[..n]);
      assert pairs == pairs[..n] + [pairs[n]];
      assert forall p :: p in pairs <==> p in pairs[..n] || p == pairs[n];
    }
  }

  /** Tags are read only from a line that starts with `@`. */
  lemma UntaggedLineHasNoTags(raw: string)
    requires !IsTagged(raw)
    ensures Parse(raw).tags == map[]
  {
  }

  // ---------------------------------------------------------------------
  // Escaping

  lemma ReplaceAllSkips(a: char, t: string, pat: string, rep: string)
    requires |pat| > 0 && a != pat[0]
    ensures ReplaceAll([a] + t, pat, rep) == [a] + ReplaceAll(t, pat, rep)
  {
    var s := [a] + t;
    if |s| >= |pat| {
      assert s[..|pat|][0] == a;
      assert s[1..] == t;
    }
  }

  lemma {:induction false} ReplaceAllAbsentStart(v: string, pat: string, rep: string)
    requires |pat| > 0 && pat[0] !in v
    ensures ReplaceAll(v, pat, rep) == v
  {
    if v != [] {
      ReplaceAllAbsentStart(v[1..], pat, rep);
      ReplaceAllSkips(v[0], v[1..], pat, rep);
      assert v == [v[0]] + v[1..];
    }
  }

  lemma {:induction false} EscapeOnlyNone(v: string)
    ensures EscapeOnly(v, {}) == v
  {
    if v != [] {
      EscapeOnlyNone(v[1..]);
      assert v == [v[0]] + v[1..];
    }
  }

  lemma {:induction false} EscapeWithoutSemicolonOrBackslash(v: string)
    requires ';' !in v && '\\' !in v
    ensures Escape(v) == EscapeOnly(v, {' ', '\r', '\n'})
  {
    if v != [] {
      EscapeWithoutSemicolonOrBackslash(v[1..]);
    }
  }

  lemma ReplaceAllMatches(pat: string, t: string, rep: string)
    requires |pat| > 0
    ensures ReplaceAll(pat + t, pat, rep) == rep + ReplaceAll(t, pat, rep)
  {
    assert (pat + t)[..|pat|] == pat;
    assert (pat + t)[|pat|..] == t;
  }

  /** The escape of `x` passes unchanged through the replacement that undoes
      the escape of a different character `c`. */
  lemma OtherEscapeKept(x: char, c: char, t: string)
    requires x in {' ', '\n', '\r'} && c in {' ', '\n', '\r'} && x != c
    ensures ReplaceAll(EscapeChar(x) + t, EscapeChar(c), [c]) == EscapeChar(x) + ReplaceAll(t, EscapeChar(c), [c])
  {
    var letter := EscapeChar(x)[1];
    var s := EscapeChar(x) + t;
    assert EscapeChar(x) == ['\\', letter];
    assert letter != '\\';
    assert s[..2] == EscapeChar(x) != EscapeChar(c);
    assert s[1..] == [letter] + t;
    ReplaceAllSkips(letter, t, EscapeChar(c), [c]);
  }

  /** One global replacement undoes the escape of one character `c`. */
  lemma {:induction false} UndoOneEscape(v: string, chars: set<char>, c: char)
    requires '\\' !in v
    requires c in chars && chars <= {' ', '\n', '\r'}
    ensures ReplaceAll(EscapeOnly(v, chars), EscapeChar(c), [c]) == EscapeOnly(v, chars - {c})
  {
    if v != [] {
      var x := v[0];
      var tail := EscapeOnly(v[1..], chars);
      assert '\\' !in v[1..];
      UndoOneEscape(v[1..], chars, c);
      assert EscapeChar(c)[0] == '\\';
      if x == c {
        ReplaceAllMatches(EscapeChar(c), tail, [c]);
      } else if x in chars {
        OtherEscapeKept(x, c, tail);
      } else {
        ReplaceAllSkips(x, tail, EscapeChar(c), [c]);
      }
    }
  }

  /** For a value with no backslash and no semicolon, unescaping what an
      IRCv3 server escaped gives the value back. */
  lemma UnescapeEscape(v: string)
    requires '\\' !in v && ';' !in v
    ensures Unescape(Escape(v)) == v
  {
    EscapeWithoutSemicolonOrBackslash(v);
    UndoOneEscape(v, {' ', '\r', '\n'}, ' ');
    assert {' ', '\r', '\n'} - {' '} == {'\r', '\n'};
    UndoOneEscape(v, {'\r', '\n'}, '\n');
    assert {'\r', '\n'} - {'\n'} == {'\r'};
    UndoOneEscape(v, {'\r'}, '\r');
    assert {'\r'} - {'\r'} == {};
    EscapeOnlyNone(v);
    ReplaceAllAbsentStart(v, "\\\\", "\\");
  }

  /** Sequential replacement is not the IRCv3 decoding: the value `\s`
      (backslash, s) is sent as `\\s` and read back as backslash, space. */
  lemma EscapedBackslashSIsMisread()
    ensures Escape("\\s") == "\\\\s"
    ensures Unescape(Escape("\\s")) == "\\ "
  {
    var e := "\\\\s";
    assert Escape("\\s") == e;
    assert ReplaceAll(e, "\\s", " ") == "\\ " by {
      assert e[..2] != "\\s";
      assert e[1..][..2] == "\\s";
      assert e[1..][2..] == [];
    }
    var r := "\\ ";
    assert r[..2] == r && r[1] == ' ' && r[1..] == " ";
    ReplaceAllAbsentStart(" ", "\\n", "\n");
    ReplaceAllAbsentStart(" ", "\\r", "\r");
    ReplaceAllAbsentStart(" ", "\\\\", "\\");
  }

  /** A semicolon, sent as `\:`, is never decoded. */
  lemma EscapedSemicolonIsKept()
    ensures Unescape(Escape(";")) == "\\:"
  {
    var e := "\\:";
    assert Escape(";") == e;
    assert e[..2] != "\\s" && e[..2] != "\\n" && e[..2] != "\\r" && e[..2] != "\\\\";
    ReplaceAllAbsentStart(":", "\\s", " ");
    ReplaceAllAbsentStart(":", "\\n", "\n");
    ReplaceAllAbsentStart(":", "\\r", "\r");
    ReplaceAllAbsentStart(":", "\\\\", "\\");
  }

  // ---------------------------------------------------------------------
  // Prefix and nick

  /** After the tags, a `:` opens the prefix, which runs to the next space;
      the rest of the line follows that space. */
  lemma PrefixUpToSpace(raw: string, e: nat)
    requires HasPrefix(raw)
    requires Cursor(raw) < e < |raw| && raw[e] == ' ' && ' ' !in raw[Cursor(raw)..e]
    ensures PrefixOf(raw) == Some(raw[Cursor(raw) + 1..e])
    ensures RestOf(raw) == raw[e + 1..]
  {
    FirstCharAt(raw, ' ', Cursor(raw), e);
  }

  /** With no space after the `:`, `substring(idx + 1, -1)` swaps its
      arguments: the prefix is the line up to and including the `:`, and the
      whole line is read again as the rest. */
  lemma PrefixWithoutSpace(raw: string)
    requires HasPrefix(raw) && ' ' !in raw[Cursor(raw)..]
    ensures PrefixOf(raw) == Some(raw[..Cursor(raw) + 1])
    ensures RestOf(raw) == raw
  {
    NoCharAfter(raw, ' ', Cursor(raw));
    assert raw[0..|raw|] == raw;
  }

  /** The nick is present exactly when the prefix is non-empty; it is the
      prefix up to its first `!`, or the whole prefix when there is none. */
  lemma UsernameBeforeBang(p: string)
    ensures UsernameOf(Some(p)).Some? <==> p != ""
    ensures p != "" && '!' !in p ==> UsernameOf(Some(p)) == Some(p)
    ensures p != "" && '!' in p ==>
      var u := UsernameOf(Some(p)).value;
      '!' !in u && StartsWith(p, u + "!")
  {
    IndexOfChar(p, '!', 0);
    assert p[0..] == p;
    var b := IndexOfFrom(p, "!", 0);
    if b != -1 {
      assert p[..b + 1] == p[..b] + "!";
    }
  }

  /** A line that starts with neither `@` nor `:` has no tags, no prefix and
      no nick, and is read whole as command and parameters. */
  lemma PlainLine(raw: string)
    requires raw == "" || (raw[0] != '@' && raw[0] != ':')
    ensures Parse(raw).tags == map[] && Parse(raw).prefix == None && Parse(raw).username == None
    ensures RestOf(raw) == raw
  {
    assert raw[0..|raw|] == raw;
  }

  // ---------------------------------------------------------------------
  // Command, channel, trailing

  /** The command is the first space-separated token of the rest. */
  lemma CommandIsFirstToken(rest: string)
    ensures ' ' !in CommandOf(rest)
    ensures StartsWith(rest, CommandOf(rest))
    ensures |CommandOf(rest)| == |rest| || rest[|CommandOf(rest)|] == ' '
  {
    var parts := Params(rest);
    FreeChar(parts[0], ' ');
    if |parts| > 1 {
      assert rest == parts[0] + " " + Join(parts[1..], " ");
      assert rest[..|parts[0]|] == parts[0];
    } else {
      assert rest == parts[0];
    }
  }

  /** The channel is the second token without its leading `#`, and there is
      one exactly when that token starts with `#`. */
  lemma ChannelIsSecondToken(rest: string, h: string)
    ensures ChannelOf(rest) == Some(h) <==> |Params(rest)| > 1 && Params(rest)[1] == "#" + h
    ensures ChannelOf(rest) == None <==> !(|Params(rest)| > 1 && StartsWith(Params(rest)[1], "#"))
  {
    var parts := Params(rest);
    if |parts| > 1 && StartsWith(parts[1], "#") {
      assert Substring(parts[1], 1, |parts[1]|) == parts[1][1..];
      assert parts[1] == "#" + parts[1][1..];
    }
    if |parts| > 1 && parts[1] == "#" + h {
      assert parts[1][..1] == "#";
      assert parts[1][1..] == h;
      assert Substring(parts[1], 1, |parts[1]|) == h;
    }
  }

  /** The trailing text is everything after the first " :" found at or after
      the end of the command. */
  lemma TrailingAfterSpaceColon(rest: string, t: nat)
    requires |CommandOf(rest)| <= t && Occurs(rest, " :", t)
    requires forall j :: |CommandOf(rest)| <= j < t ==> !Occurs(rest, " :", j)
    ensures TrailingOf(rest) == Some(rest[t + 2..])
  {
    CommandIsFirstToken(rest);
    var k := |Params(rest)[0]|;
    assert Clamp(k, |rest|) == k;
    assert IndexOf(rest, " :", k) == t;
    assert Substring(rest, t + 2, |rest|) == rest[t + 2..];
  }

  /** Without such a " :", the parameters after the command (and channel)
      are joined by single spaces; with none left, there is no trailing. */
  lemma TrailingFallback(rest: string)
    requires forall j :: |CommandOf(rest)| <= j <= |rest| ==> !Occurs(rest, " :", j)
    ensures var ps := if HasChannel(rest) then 2 else 1;
      TrailingOf(rest) == if |Params(rest)| > ps then Some(Join(Params(rest)[ps..], " ")) else None
  {
    CommandIsFirstToken(rest);
  }

  // ---------------------------------------------------------------------
  // Round trip on a well-formed line

  /** A chat line assembled from its fields: optional tag block, prefix,
      command, channel and trailing text. */
  function FormatLine(tagBlock: Option<string>, prefix: string, command: string,
                      channel: string, trailing: string): string
  {
    (if tagBlock.Some? then "@" + tagBlock.value + " " else "")
      + ":" + prefix + " " + command + " #" + channel + " :" + trailing
  }

  /** The first two tokens of a well-formed body are the command and the
    `#`-channel. */
  lemma BodyTokens(command: string, channel: string, trailing: string)
    requires ' ' !in command && ' ' !in channel
    ensures var parts := Params(command + " #" + channel + " :" + trailing);
      |parts| > 1 && parts[0] == command && parts[1] == "#" + channel
  {
    var rest := command + " #" + channel + " :" + trailing;
    var tail := ("#" + channel) + [' '] + (":" + trailing);
    assert rest == command + [' '] + tail;
    SplitCons(command, ' ', tail);
    assert ' ' !in "#" + channel;
    SplitCons("#" + channel, ' ', ":" + trailing);
  }

  /** Between the end of the command and the " :" before the trailing text
    there is no other " :". */
  lemma FirstSpaceColon(command: string, channel: string, trailing: string)
    requires ' ' !in channel
    ensures var rest := command + " #" + channel + " :" + trailing;
      var t := |command| + 2 + |channel|;
      && Occurs(rest, " :", t)
      && (forall j :: |command| <= j < t ==> !Occurs(rest, " :", j))
      && rest[t + 2..] == trailing
  {
    var rest := command + " #" + channel + " :" + trailing;
    var t := |command| + 2 + |channel|;
    assert rest[t..t + 2] == " :";
    forall j | |command| <= j < t
      ensures !Occurs(rest, " :", j)
    {
      if j == |command| {
        assert rest[j + 1] == '#';
      } else if j == |command| + 1 {
        assert rest[j] == '#';
      } else {
        assert rest[j] == channel[j - |command| - 2];
      }
      assert rest[j..j + 2][0] == rest[j] && rest[j..j + 2][1] == rest[j + 1];
    }
    assert rest[t + 2..] == trailing;
  }

  lemma BodyFields(command: string, channel: string, trailing: string)
    requires ' ' !in command && ' ' !in channel
    ensures var rest := command + " #" + channel + " :" + trailing;
      && CommandOf(rest) == command
      && ChannelOf(rest) == Some(channel)
      && TrailingOf(rest) == Some(trailing)
  {
    var rest := command + " #" + channel + " :" + trailing;
    BodyTokens(command, channel, trailing);
    ChannelIsSecondToken(rest, channel);
    FirstSpaceColon(command, channel, trailing);
    TrailingAfterSpaceColon(rest, |command| + 2 + |channel|);
  }

  /** A tag block without spaces is read whole, and the cursor moves past
    the space after it. */
  lemma TaggedHeader(b: string, tail: string)
    requires ' ' !in b
    ensures var raw := "@" + b + " " + tail;
      Cursor(raw) == |b| + 2 && TagsOfLine(raw) == TagsOf(Split(b, ";"))
  {
    var raw := "@" + b + " " + tail;
    assert raw[0] == '@';
    BlockEnd(b, tail);
    assert Cursor(raw) == |b| + 2;
    assert TagPairs(raw) == Split(b, ";");
  }

  /** The first space of `@b tail` follows the block. */
  lemma BlockEnd(b: string, tail: string)
    requires ' ' !in b
    ensures var raw := "@" + b + " " + tail;
      IndexOf(raw, " ", 0) == 1 + |b| && Substring(raw, 1, 1 + |b|) == b
  {
    var raw := "@" + b + " " + tail;
    var sp := 1 + |b|;
    assert raw[..sp] == "@" + b;
    FirstCharAt(raw, ' ', 0, sp);
    assert raw[1..sp] == b;
  }

  /** A `:` at the cursor, a prefix without spaces and a space: the prefix
    is read and the rest follows the space. */
  lemma PrefixPart(raw: string, prefix: string, body: string)
    requires ' ' !in prefix
    requires Cursor(raw) + 2 + |prefix| + |body| == |raw|
    requires raw[Cursor(raw)..] == ":" + prefix + " " + body
    ensures PrefixOf(raw) == Some(prefix) && RestOf(raw) == body
  {
    var c := Cursor(raw);
    var e := c + 1 + |prefix|;
    assert raw[c] == ':';
    assert raw[c..e] == ":" + prefix;
    assert raw[e] == ' ';
    PrefixUpToSpace(raw, e);
    assert raw[c + 1..e] == prefix;
    assert raw[e + 1..] == body;
  }

  /** Parsing a well-formed line gives back the fields it was built from. */
  lemma ParseFormattedLine(tagBlock: Option<string>, prefix: string, command: string,
                           channel: string, trailing: string)
    requires tagBlock.Some? ==> ' ' !in tagBlock.value
    requires ' ' !in prefix && ' ' !in command && ' ' !in channel
    ensures Parse(FormatLine(tagBlock, prefix, command, channel, trailing))
         == Message(if tagBlock.Some? then TagsOf(Split(tagBlock.value, ";")) else map[],
                    Some(prefix), command, Some(channel), Some(trailing), UsernameOf(Some(prefix)))
  {
    var header := if tagBlock.Some? then "@" + tagBlock.value + " " else "";
    var rest := command + " #" + channel + " :" + trailing;
    var line := ":" + prefix + " " + rest;
    var raw := FormatLine(tagBlock, prefix, command, channel, trailing);
    assert raw == header + line;
    if tagBlock.Some? {
      assert raw == "@" + tagBlock.value + " " + line;
      TaggedHeader(tagBlock.value, line);
    }
    assert Cursor(raw) == |header|;
    assert raw[|header|..] == line;
    PrefixPart(raw, prefix, rest);
    BodyFields(command, channel, trailing);
  }
}
