/** The per-tab chat state the content script keeps: the rendered message
    list (as `(user, msg-id, stripe)` records rather than DOM nodes), the
    seen-id set, the capped message buffer, the stripe flag, the colours
    learned from tags, the live and broadcast channel and the broadcast-time
    poller. Each handler is a function from one state to the next; the
    class in `ChatView` runs the same steps in place. */
module ChatState {
  import opened Optional
  import opened JsString
  import opened Irc
  import ChatUrl
  import ChatRender

  /** One rendered line: its `data-user`, its `data-msg-id` (when set) and
      whether it carries the even stripe. */
  datatype Line = Line(user: string, msgId: Option<string>, even: bool)

  /** What the content script posts to the background worker. */
  datatype Post =
    | ChannelChanged(channel: string)
    | VodChanged(videoId: string)
    | VodSeek(videoId: string, offset: int)
    | VodTime(videoId: string, offset: int)

  datatype View = View(
    mounted: bool,                        // the message list exists
    lines: seq<Line>,
    seen: set<TagValue>,                  // seenMsgIds
    buffer: seq<Message>,                 // messageBuffer
    msgEven: bool,
    userColors: map<string, TagValue>,
    currentChannel: Option<string>,
    vodChannel: Option<string>,
    vodId: Option<string>,
    lastVodOffset: int,
    vodPolling: bool,                     // the 500 ms poll timer is set
    messageCap: int,                      // settings.messageCap
    showBadges: bool,                     // settings.showBadges
    twitchEmotes: bool,                   // settings.emoteProviders.twitch
    posts: seq<Post>)

  /** A handler's result: the new state, and whether it ended by throwing
      (building a line from a malformed message, or pruning with a negative
      cap, which runs off the front of the list). */
  datatype Outcome = Outcome(view: View, threw: bool)

  /** The state a tab starts in, under the given settings. */
  function Initial(messageCap: int, showBadges: bool, twitchEmotes: bool): View
  {
    View(false, [], {}, [], false, map[], None, None, None, -1, false, messageCap, showBadges, twitchEmotes, [])
  }

  /** No list before the chat is mounted, no poller without a video, and
      under a positive cap neither the list nor the buffer exceeds it. */
  predicate Valid(v: View)
  {
    && (!v.mounted ==> v.lines == [])
    && (v.vodPolling ==> v.vodId.Some?)
    && (v.messageCap > 0 ==> |v.lines| <= v.messageCap && |v.buffer| <= v.messageCap)
  }

  // ---------------------------------------------------------------------
  // Values as JavaScript sees them

  /** `msg.username` used as a `dataset` value or an object key: `null`
      becomes the string "null". */
  function UserKey(username: Option<string>): string
  {
    match username
    case None => "null"
    case Some(u) => u
  }

  /** `msg.tags?.[key]` when it is truthy. */
  function TruthyTag(tags: map<string, TagValue>, key: string): Option<TagValue>
  {
    if key in tags && (tags[key].Flag? || tags[key].s != "") then Some(tags[key]) else None
  }

  /** A tag value as a string (`true` prints as "true"). */
  function TagString(t: TagValue): string
  {
    match t
    case Flag => "true"
    case Text(s) => s
  }

  /** The `data-msg-id` a line gets: set only for a truthy id. */
  function IdText(id: Option<TagValue>): Option<string>
  {
    if id.Some? then Some(TagString(id.value)) else None
  }

  /** `msg.trailing` when it is truthy. */
  predicate HasText(t: Option<string>)
  {
    t.Some? && t.value != ""
  }

  /** `isColorReadable` applied to a tag value: `true` has no `#` at index 0,
      so it counts as readable. */
  predicate ReadableTag(t: TagValue)
  {
    match t
    case Flag => true
    case Text(s) => ChatRender.IsColorReadable(s)
  }

  /** `xs.slice(start)`: a negative start counts from the end; both are
      clamped into the sequence. */
  function SliceFrom<T>(xs: seq<T>, start: int): (r: seq<T>)
    ensures |r| <= |xs|
  {
    if start < 0 then
      (if |xs| + start <= 0 then xs else xs[|xs| + start..])
    else
      (if start >= |xs| then [] else xs[start..])
  }

  /** The buffer after `push`: when longer than the cap it is cut to
      `slice(-cap)`. */
  function CapBuffer<T>(buf: seq<T>, cap: int): seq<T>
  {
    if |buf| > cap then SliceFrom(buf, -cap) else buf
  }

  /** `pruneMessages`: drop lines from the front while more than the cap;
      a negative cap empties the list (and then throws). */
  function Prune(lines: seq<Line>, cap: int): seq<Line>
  {
    if cap < 0 then []
    else if |lines| > cap then lines[|lines| - cap..]
    else lines
  }

  /** The lines whose user is not `user`, in order. */
  function DropUser(lines: seq<Line>, user: string): seq<Line>
  {
    if lines == [] then []
    else
      var last := lines[|lines| - 1];
      DropUser(lines[..|lines| - 1], user) + (if last.user == user then [] else [last])
  }

  /** The list without its first line carrying `id`. */
  function RemoveFirst(lines: seq<Line>, id: string): seq<Line>
  {
    if lines == [] then []
    else if lines[0].msgId == Some(id) then lines[1..]
    else [lines[0]] + RemoveFirst(lines[1..], id)
  }

  // ---------------------------------------------------------------------
  // handleIRCMessage

  /** The list-state part of `handleIRCMessage`. */
  function Handle(v: View, msg: Message): Outcome
  {
    if !v.mounted then Outcome(v, false)
    else if msg.command == "CLEARCHAT" then
      Outcome(v.(lines := if HasText(msg.trailing) then DropUser(v.lines, msg.trailing.value) else []), false)
    else if msg.command == "CLEARMSG" then
      var target := TruthyTag(msg.tags, "target-msg-id");
      Outcome(if target.Some? then v.(lines := RemoveFirst(v.lines, TagString(target.value))) else v, false)
    else if msg.command != "PRIVMSG" then Outcome(v, false)
    else if msg.channel != v.currentChannel && msg.channel != v.vodChannel then Outcome(v, false)
    else
      var id := TruthyTag(msg.tags, "id");
      if id.Some? && id.value in v.seen then Outcome(v, false)
      else Accept(v, msg, id)
  }

  /** A new chat line: remember its id, buffer the message and flip the
      stripe; then build the line, which throws on a bare `badges` tag,
      learn the sender's colour, finish the line, which throws when the
      name has no colour and no username or on a bad `emotes` tag; only
      then append the line and prune. */
  function Accept(v: View, msg: Message, id: Option<TagValue>): Outcome
  {
    var line := Line(UserKey(msg.username), IdText(id), v.msgEven);
    var built := Build(v, msg);
    Outcome(
      v.(seen := Remember(v.seen, id),
         buffer := CapBuffer(v.buffer + [msg], v.messageCap),
         msgEven := !v.msgEven,
         userColors := if built == BadgesThrew then v.userColors else LearnColor(v.userColors, msg),
         lines := if built == Appended then Prune(v.lines + [line], v.messageCap) else v.lines),
      built != Appended || v.messageCap < 0)
  }

  /** How far building a line gets: it throws at the badges, before the
      colour is learnt, or at the name or the body, after it; or the line
      is appended. */
  datatype Built = BadgesThrew | NameOrBodyThrew | Appended

  function Build(v: View, msg: Message): Built
  {
    if BadgesThrow(v.showBadges, msg.tags) then BadgesThrew
    else if ColorThrows(LearnColor(v.userColors, msg), msg) || EmotesThrow(v.twitchEmotes, msg.tags) then NameOrBodyThrew
    else Appended
  }

  /** The badge loop splits the `badges` tag on `,`: a bare `badges` tag is
      `true`, which has no `split`. */
  predicate BadgesThrow(showBadges: bool, tags: map<string, TagValue>)
  {
    showBadges && "badges" in tags && tags["badges"].Flag?
  }

  /** The name's colour from a readable `color` tag or from the colours
      learnt so far; `None` falls through to `hashColor(msg.username)`. */
  function KnownColor(userColors: map<string, TagValue>, msg: Message): Option<TagValue>
  {
    var color := TruthyTag(msg.tags, "color");
    if color.Some? && ReadableTag(color.value) then color
    else if UserKey(msg.username) in userColors then Some(userColors[UserKey(msg.username)])
    else None
  }

  /** `hashColor(null)` reads the length of `null`. */
  predicate ColorThrows(userColors: map<string, TagValue>, msg: Message)
  {
    msg.username.None? && KnownColor(userColors, msg).None?
  }

  /** `renderMessageBody` splits a truthy `emotes` tag on `/` and each entry
      on `:`, then splits the part after the `:`: a bare tag is `true`, and
      an entry without `:` leaves that part `undefined`. */
  predicate EmotesThrow(twitchEmotes: bool, tags: map<string, TagValue>)
  {
    twitchEmotes &&
    match TruthyTag(tags, "emotes")
    case None => false
    case Some(t) => t.Flag? || exists e :: e in Split(t.s, "/") && ':' !in e
  }

  /** Building the line throws before it is appended. */
  predicate LineThrows(v: View, msg: Message)
  {
    || BadgesThrow(v.showBadges, msg.tags)
    || ColorThrows(v.userColors, msg)
    || EmotesThrow(v.twitchEmotes, msg.tags)
  }

  /** A message with a username, no bare `badges` tag and a well-formed or
      falsy `emotes` tag renders whatever the settings and colours. */
  predicate Renderable(msg: Message)
  {
    && msg.username.Some?
    && !("badges" in msg.tags && msg.tags["badges"].Flag?)
    && !EmotesThrow(true, msg.tags)
  }

  /** The seen ids with a present id added. */
  function Remember(seen: set<TagValue>, id: Option<TagValue>): set<TagValue>
  {
    if id.Some? then seen + {id.value} else seen
  }

  /** The sender's colour recorded when the `color` tag is truthy and
      readable. */
  function LearnColor(userColors: map<string, TagValue>, msg: Message): map<string, TagValue>
  {
    var color := TruthyTag(msg.tags, "color");
    if color.Some? && ReadableTag(color.value) then userColors[UserKey(msg.username) := color.value]
    else userColors
  }

  /** A batch (`recent-messages`, `vod-comments`): handled in order until
      one throws, which ends the listener. */
  function HandleAll(v: View, msgs: seq<Message>): Outcome
    decreases |msgs|
  {
    if msgs == [] then Outcome(v, false)
    else
      var o := Handle(v, msgs[0]);
      if o.threw then o else HandleAll(o.view, msgs[1..])
  }

  // ---------------------------------------------------------------------
  // Navigation and the broadcast-time poller

  /** A new channel or video: the list, the seen ids and the replay
      buffer emptied. */
  function Reset(v: View): View
  {
    v.(lines := [], seen := {}, buffer := [])
  }

  /** `stopVodPoll` followed by `startVodPoll`'s set-up. */
  function StartVodPoll(v: View): View
  {
    v.(vodPolling := true, lastVodOffset := -1)
  }

  /** `pollChannel` for the page at `path`. */
  function PollChannel(v: View, path: string): View
  {
    var vid := ChatUrl.GetVodId(path);
    if vid != v.vodId then
      var v1 := (if v.vodId.Some? then LeaveVod(v) else v).(vodId := vid);
      if vid.Some? then EnterVod(v1, vid.value) else LiveChannel(v1, path)
    else if v.vodId.Some? then v
    else LiveChannel(v, path)
  }

  /** Leaving a VOD page: the poller stopped and the VOD channel
      forgotten. */
  function LeaveVod(v: View): View
  {
    v.(vodPolling := false, vodChannel := None, lastVodOffset := -1)
  }

  /** Entering VOD `id`: no live channel, the list, seen ids and buffer
      cleared, the page told, the poller (re)started. */
  function EnterVod(v: View, id: string): View
  {
    StartVodPoll(Reset(v.(currentChannel := None, posts := v.posts + [VodChanged(id)])))
  }

  /** The live-channel half of `pollChannel`. */
  function LiveChannel(v: View, path: string): View
  {
    SwitchChannel(v, ChatUrl.GetChannel(path))
  }

  /** A page whose channel is `ch`: a different channel resets the list,
      the seen ids and the buffer, and a named one is announced. */
  function SwitchChannel(v: View, ch: Option<string>): View
  {
    if ch == v.currentChannel then v
    else
      Reset(v.(currentChannel := ch,
               posts := if ch.Some? then v.posts + [ChannelChanged(ch.value)] else v.posts))
  }

  /** One tick of the broadcast-time poller; `video` is the whole-second
      playback position, or `None` when there is no video or it is paused. */
  function VodPollTick(v: View, video: Option<int>): View
    requires v.vodPolling && v.vodId.Some?
  {
    match video
    case None => v
    case Some(offset) =>
      if offset == v.lastVodOffset then v
      else if v.lastVodOffset >= 0 && (offset - v.lastVodOffset > 5 || v.lastVodOffset - offset > 5) then
        v.(lines := [], buffer := [], msgEven := false,
           posts := v.posts + [VodSeek(v.vodId.value, offset)], lastVodOffset := offset)
      else
        v.(posts := v.posts + [VodTime(v.vodId.value, offset)], lastVodOffset := offset)
  }

  // ---------------------------------------------------------------------
  // Properties of the helpers

  lemma {:induction false} DropUserMembers(lines: seq<Line>, user: string)
    ensures forall l :: l in DropUser(lines, user) <==> l in lines && l.user != user
  {
    if lines != [] {
      var init := lines[..|lines| - 1];
      DropUserMembers(init, user);
      assert lines == init + [lines[|lines| - 1]];
    }
  }

  lemma {:induction false} DropUserAppend(a: seq<Line>, b: seq<Line>, user: string)
    ensures DropUser(a + b, user) == DropUser(a, user) + DropUser(b, user)
    decreases |b|
  {
    if b == [] {
      assert a + b == a;
    } else {
      var b1 := b[..|b| - 1];
      assert (a + b)[..|a + b| - 1] == a + b1;
      DropUserAppend(a, b1, user);
    }
  }

  /** CLEARCHAT for a user keeps exactly the other users' lines, in order:
      it distributes over concatenation, keeps a line of another user and
      drops a line of that user. */
  lemma ClearChatKeepsOthersInOrder(a: seq<Line>, b: seq<Line>, l: Line, user: string)
    ensures forall x :: x in DropUser(a, user) <==> x in a && x.user != user
    ensures DropUser(a + b, user) == DropUser(a, user) + DropUser(b, user)
    ensures DropUser([l], user) == if l.user == user then [] else [l]
  {
    DropUserMembers(a, user);
    DropUserAppend(a, b, user);
    assert [l][..0] == [];
  }

  lemma {:induction false} DropUserShrinks(lines: seq<Line>, user: string)
    ensures |DropUser(lines, user)| <= |lines|
  {
    if lines != [] {
      DropUserShrinks(lines[..|lines| - 1], user);
    }
  }

  lemma {:induction false} RemoveFirstShrinks(lines: seq<Line>, id: string)
    ensures |RemoveFirst(lines, id)| <= |lines|
  {
    if lines != [] {
      RemoveFirstShrinks(lines[1..], id);
    }
  }

  lemma {:induction false} RemoveFirstAt(lines: seq<Line>, id: string, i: nat)
    requires i < |lines| && lines[i].msgId == Some(id)
    requires forall j :: 0 <= j < i ==> lines[j].msgId != Some(id)
    ensures RemoveFirst(lines, id) == lines[..i] + lines[i + 1..]
  {
    if i > 0 {
      RemoveFirstAt(lines[1..], id, i - 1);
      assert lines[..i] == [lines[0]] + lines[1..][..i - 1];
      assert lines[i + 1..] == lines[1..][i..];
    }
  }

  lemma {:induction false} RemoveFirstAbsent(lines: seq<Line>, id: string)
    requires forall j :: 0 <= j < |lines| ==> lines[j].msgId != Some(id)
    ensures RemoveFirst(lines, id) == lines
  {
    if lines != [] {
      RemoveFirstAbsent(lines[1..], id);
    }
  }

  /** Line `i` is the first carrying `id`. */
  predicate FirstWith(lines: seq<Line>, id: string, i: int)
  {
    0 <= i < |lines| && lines[i].msgId == Some(id) && forall j :: 0 <= j < i ==> lines[j].msgId != Some(id)
  }

  /** CLEARMSG removes the first line carrying the id and only that one;
      without such a line the list is unchanged. */
  lemma ClearMsgRemovesFirstOnly(lines: seq<Line>, id: string)
    ensures (forall j :: 0 <= j < |lines| ==> lines[j].msgId != Some(id)) ==> RemoveFirst(lines, id) == lines
    ensures forall i :: FirstWith(lines, id, i) ==> RemoveFirst(lines, id) == lines[..i] + lines[i + 1..]
  {
    if forall j :: 0 <= j < |lines| ==> lines[j].msgId != Some(id) {
      RemoveFirstAbsent(lines, id);
    }
    forall i | FirstWith(lines, id, i)
      ensures RemoveFirst(lines, id) == lines[..i] + lines[i + 1..]
    {
      RemoveFirstAt(lines, id, i);
    }
  }

  /** With a positive cap the buffer keeps the last `cap` messages; a cap of
      0 is `slice(-0)`, which keeps them all; a negative cap drops the first
      `-cap`. */
  lemma CapBufferKeepsLast<T>(buf: seq<T>, cap: int)
    ensures cap > 0 ==> CapBuffer(buf, cap) == if |buf| > cap then buf[|buf| - cap..] else buf
    ensures cap > 0 ==> |CapBuffer(buf, cap)| <= cap
    ensures cap == 0 ==> CapBuffer(buf, cap) == buf
    ensures cap < 0 ==> CapBuffer(buf, cap) == if -cap >= |buf| then [] else buf[-cap..]
  {
  }

  /** Pruning leaves the newest `cap` lines. */
  lemma PruneKeepsNewest(lines: seq<Line>, cap: int)
    ensures cap >= 0 ==> |Prune(lines, cap)| <= cap
    ensures cap >= 0 ==> Prune(lines, cap) == lines[|lines| - |Prune(lines, cap)|..]
    ensures cap >= 0 && |lines| <= cap ==> Prune(lines, cap) == lines
  {
  }

  // ---------------------------------------------------------------------
  // Properties of handleIRCMessage

  /** Before the list exists, nothing happens. */
  lemma UnmountedIgnoresAll(v: View, msg: Message)
    requires !v.mounted
    ensures Handle(v, msg) == Outcome(v, false)
  {
  }

  /** CLEARCHAT applies whatever the channel: with text it removes exactly
      that user's lines; without, it empties the list; nothing else
      changes. */
  lemma ClearChat(v: View, msg: Message)
    requires v.mounted && msg.command == "CLEARCHAT"
    ensures var o := Handle(v, msg);
      && !o.threw && o.view == v.(lines := o.view.lines)
      && (HasText(msg.trailing) ==>
            forall l :: l in o.view.lines <==> l in v.lines && l.user != msg.trailing.value)
      && (!HasText(msg.trailing) ==> o.view.lines == [])
  {
    if HasText(msg.trailing) {
      DropUserMembers(v.lines, msg.trailing.value);
    }
  }

  /** CLEARMSG with a target removes only the first line with that id;
      without a target nothing changes. */
  lemma ClearMsg(v: View, msg: Message)
    requires v.mounted && msg.command == "CLEARMSG"
    ensures var o := Handle(v, msg);
      var target := TruthyTag(msg.tags, "target-msg-id");
      && !o.threw && o.view == v.(lines := o.view.lines)
      && (target.None? ==> o.view == v)
      && (target.Some? ==>
            forall i :: FirstWith(v.lines, TagString(target.value), i) ==> o.view.lines == v.lines[..i] + v.lines[i + 1..])
  {
    var target := TruthyTag(msg.tags, "target-msg-id");
    if target.Some? {
      ClearMsgRemovesFirstOnly(v.lines, TagString(target.value));
    }
  }

  /** Other commands, and chat lines for a channel that is neither the live
      nor the broadcast channel, leave everything as it was. */
  lemma IgnoredMessages(v: View, msg: Message)
    requires msg.command != "CLEARCHAT" && msg.command != "CLEARMSG"
    requires msg.command != "PRIVMSG" || (msg.channel != v.currentChannel && msg.channel != v.vodChannel)
    ensures Handle(v, msg) == Outcome(v, false)
  {
  }

  /** A chat line whose truthy `id` was seen before is dropped with no other
      effect. */
  lemma DuplicateDropped(v: View, msg: Message)
    requires msg.command == "PRIVMSG"
    requires TruthyTag(msg.tags, "id").Some? && TruthyTag(msg.tags, "id").value in v.seen
    ensures Handle(v, msg) == Outcome(v, false)
  {
  }

  /** Learning the sender's colour never changes whether the name falls
      through to `hashColor(null)`. */
  lemma LearnColorKeepsColorThrows(userColors: map<string, TagValue>, msg: Message)
    ensures ColorThrows(LearnColor(userColors, msg), msg) == ColorThrows(userColors, msg)
  {
  }

  /** A chat line for the live or broadcast channel that is not a duplicate
      is accepted: its id (if any) joins the seen set, it ends the buffer
      and the stripe flips. Unless building the line throws, a line with
      the current stripe and its id ends the list (cap permitting); when it
      throws, the list is untouched. The handler throws exactly when the
      line throws or the cap is negative. Lines without an id are never
      deduplicated. */
  lemma AcceptedMessage(v: View, msg: Message)
    requires v.mounted && msg.command == "PRIVMSG"
    requires msg.channel == v.currentChannel || msg.channel == v.vodChannel
    requires TruthyTag(msg.tags, "id").None? || TruthyTag(msg.tags, "id").value !in v.seen
    ensures var o := Handle(v, msg);
      var id := TruthyTag(msg.tags, "id");
      var line := Line(UserKey(msg.username), IdText(id), v.msgEven);
      && o.threw == (LineThrows(v, msg) || v.messageCap < 0)
      && o.view.seen == (if id.Some? then v.seen + {id.value} else v.seen)
      && o.view.msgEven == !v.msgEven
      && (v.messageCap > 0 ==> |o.view.buffer| <= v.messageCap && o.view.buffer[|o.view.buffer| - 1] == msg)
      && (LineThrows(v, msg) ==> o.view.lines == v.lines)
      && (BadgesThrow(v.showBadges, msg.tags) ==> o.view.userColors == v.userColors)
      && (!LineThrows(v, msg) && v.messageCap > 0 ==>
            |o.view.lines| <= v.messageCap && o.view.lines[|o.view.lines| - 1] == line)
      && (!LineThrows(v, msg) && 0 <= |v.lines| < v.messageCap ==> o.view.lines == v.lines + [line])
      && o.view.currentChannel == v.currentChannel && o.view.posts == v.posts
  {
    var buf := v.buffer + [msg];
    CapBufferKeepsLast(buf, v.messageCap);
    LearnColorKeepsColorThrows(v.userColors, msg);
  }

  /** A message with a username and well-formed tags never throws while its
      line is built. */
  lemma RenderableNeverThrows(v: View, msg: Message)
    requires Renderable(msg)
    ensures !LineThrows(v, msg)
  {
  }

  /** A cap of 0 never trims the buffer, which then grows without bound,
      and leaves the list empty unless the line threw before it was
      appended. */
  lemma ZeroCapKeepsWholeBuffer(v: View, msg: Message)
    requires v.mounted && msg.command == "PRIVMSG" && v.messageCap == 0
    requires msg.channel == v.currentChannel || msg.channel == v.vodChannel
    requires TruthyTag(msg.tags, "id").None?
    ensures Handle(v, msg).view.buffer == v.buffer + [msg]
    ensures Handle(v, msg).view.lines == if LineThrows(v, msg) then v.lines else []
  {
    LearnColorKeepsColorThrows(v.userColors, msg);
  }

  /** The seen set only grows while messages are handled. */
  lemma SeenOnlyGrows(v: View, msg: Message)
    ensures v.seen <= Handle(v, msg).view.seen
    ensures Handle(v, msg).view.currentChannel == v.currentChannel
  {
    HandleChangesOnlyChat(v, msg);
  }

  /** Accepting a message changes only the list, the seen ids, the buffer,
      the stripe and the learnt colours. */
  lemma AcceptChangesOnlyChat(v: View, msg: Message, id: Option<TagValue>)
    ensures var w := Accept(v, msg, id).view;
      w == v.(lines := w.lines, seen := Remember(v.seen, id), buffer := w.buffer, msgEven := !v.msgEven,
              userColors := w.userColors)
  {
  }

  /** `handleIRCMessage` changes only the list, the seen ids, the buffer,
      the stripe and the learnt colours; the channels, the video, the poller,
      the settings and the posts stay as they were. */
  lemma HandleChangesOnlyChat(v: View, msg: Message)
    ensures var w := Handle(v, msg).view;
      w == v.(lines := w.lines, seen := w.seen, buffer := w.buffer, msgEven := w.msgEven,
              userColors := w.userColors)
  {
    if v.mounted && msg.command != "CLEARCHAT" && msg.command != "CLEARMSG" {
      AcceptChangesOnlyChat(v, msg, TruthyTag(msg.tags, "id"));
    }
  }

  /** Handling a message never changes the settings. */
  lemma HandleKeepsSettings(v: View, msg: Message)
    ensures var w := Handle(v, msg).view;
      w.messageCap == v.messageCap && w.showBadges == v.showBadges && w.twitchEmotes == v.twitchEmotes
  {
    HandleChangesOnlyChat(v, msg);
  }

  /** A batch split in two is the first part, then, unless it threw, the
      second part from where the first left off. */
  lemma {:induction false} HandleAllAppend(v: View, a: seq<Message>, b: seq<Message>)
    ensures var o := HandleAll(v, a);
      HandleAll(v, a + b) == if o.threw then o else HandleAll(o.view, b)
    decreases |a|
  {
    if a == [] {
      assert a + b == b;
    } else {
      assert (a + b)[0] == a[0] && (a + b)[1..] == a[1..] + b;
      if !Handle(v, a[0]).threw {
        HandleAllAppend(Handle(v, a[0]).view, a[1..], b);
      }
    }
  }

  /** With a non-negative cap, a batch of renderable messages never throws. */
  lemma {:induction false} RenderableBatchCompletes(v: View, msgs: seq<Message>)
    requires v.messageCap >= 0
    requires forall m :: m in msgs ==> Renderable(m)
    ensures !HandleAll(v, msgs).threw
    decreases |msgs|
  {
    if msgs != [] {
      assert msgs[0] in msgs;
      RenderableNeverThrows(v, msgs[0]);
      HandleKeepsSettings(v, msgs[0]);
      assert forall m :: m in msgs[1..] ==> m in msgs;
      RenderableBatchCompletes(Handle(v, msgs[0]).view, msgs[1..]);
    }
  }

  /** With a non-negative cap a batch of renderable messages is handled in
      full: whatever follows it is handled from the state it leaves. */
  lemma BatchHandledInFull(v: View, msgs: seq<Message>, rest: seq<Message>)
    requires v.messageCap >= 0
    requires forall m :: m in msgs ==> Renderable(m)
    ensures !HandleAll(v, msgs).threw
    ensures HandleAll(v, msgs + rest) == HandleAll(HandleAll(v, msgs).view, rest)
  {
    RenderableBatchCompletes(v, msgs);
    HandleAllAppend(v, msgs, rest);
  }

  /** With a negative cap every accepted message throws, so a batch stops
      there; the list is left empty, or untouched when the line threw before
      it was appended. */
  lemma NegativeCapStopsBatch(v: View, msg: Message, rest: seq<Message>)
    requires v.messageCap < 0 && v.mounted && msg.command == "PRIVMSG"
    requires msg.channel == v.currentChannel || msg.channel == v.vodChannel
    requires TruthyTag(msg.tags, "id").None? || TruthyTag(msg.tags, "id").value !in v.seen
    ensures Handle(v, msg).threw
    ensures HandleAll(v, [msg] + rest) == Handle(v, msg)
    ensures HandleAll(v, [msg] + rest).view.lines == if LineThrows(v, msg) then v.lines else []
  {
    assert ([msg] + rest)[0] == msg;
    LearnColorKeepsColorThrows(v.userColors, msg);
  }

  lemma AcceptKeepsValid(v: View, msg: Message, id: Option<TagValue>)
    requires Valid(v) && v.mounted
    ensures Valid(Accept(v, msg, id).view)
  {
    CapBufferKeepsLast(v.buffer + [msg], v.messageCap);
  }

  lemma HandleKeepsValid(v: View, msg: Message)
    requires Valid(v)
    ensures Valid(Handle(v, msg).view)
  {
    if !v.mounted {
    } else if msg.command == "CLEARCHAT" {
      if HasText(msg.trailing) {
        DropUserShrinks(v.lines, msg.trailing.value);
      }
    } else if msg.command == "CLEARMSG" {
      var target := TruthyTag(msg.tags, "target-msg-id");
      if target.Some? {
        RemoveFirstShrinks(v.lines, TagString(target.value));
      }
    } else {
      AcceptKeepsValid(v, msg, TruthyTag(msg.tags, "id"));
    }
  }

  /** Handling a batch keeps the state valid: in particular, under a
      positive cap neither the list nor the buffer ever exceeds it. */
  lemma {:induction false} HandleAllKeepsValid(v: View, msgs: seq<Message>)
    requires Valid(v)
    ensures Valid(HandleAll(v, msgs).view)
    ensures v.messageCap > 0 ==>
      |HandleAll(v, msgs).view.lines| <= v.messageCap && |HandleAll(v, msgs).view.buffer| <= v.messageCap
    decreases |msgs|
  {
    if msgs != [] {
      HandleKeepsValid(v, msgs[0]);
      HandleKeepsSettings(v, msgs[0]);
      HandleAllKeepsValid(Handle(v, msgs[0]).view, msgs[1..]);
    }
  }

  // ---------------------------------------------------------------------
  // Properties of navigation and the poller

  /** Entering a broadcast page clears the list, the seen set and the
      buffer, forgets the live channel, announces the video and starts the
      poller; the stripe is not reset. */
  lemma EnteringVod(v: View, path: string, id: string)
    requires ChatUrl.GetVodId(path) == Some(id) && v.vodId != Some(id)
    ensures var w := PollChannel(v, path);
      && w.lines == [] && w.seen == {} && w.buffer == []
      && w.currentChannel == None && w.vodId == Some(id)
      && w.vodPolling && w.lastVodOffset == -1
      && w.posts == v.posts + [VodChanged(id)]
      && w.msgEven == v.msgEven
  {
  }

  /** Staying on the same broadcast changes nothing. */
  lemma SameVod(v: View, path: string)
    requires v.vodId.Some? && ChatUrl.GetVodId(path) == v.vodId
    ensures PollChannel(v, path) == v
  {
  }

  /** Leaving a broadcast stops the poller and forgets its channel; the live
      channel is then read from the path. */
  lemma LeavingVod(v: View, path: string)
    requires v.vodId.Some? && ChatUrl.GetVodId(path) == None
    ensures var w := PollChannel(v, path);
      && w.vodId == None && !w.vodPolling && w.vodChannel == None
      && w.currentChannel == ChatUrl.GetChannel(path)
  {
  }

  /** On live pages a new channel clears the list, the seen set and the
      buffer, and is announced when there is one; the same channel changes
      nothing. */
  lemma LiveNavigation(v: View, path: string)
    requires v.vodId == None && ChatUrl.GetVodId(path) == None
    ensures var w := PollChannel(v, path);
      var ch := ChatUrl.GetChannel(path);
      && (ch == v.currentChannel ==> w == v)
      && (ch != v.currentChannel ==>
            && w.currentChannel == ch && w.lines == [] && w.seen == {} && w.buffer == []
            && w.msgEven == v.msgEven
            && w.posts == v.posts + (if ch.Some? then [ChannelChanged(ch.value)] else []))
  {
  }

  lemma SwitchKeepsValid(v: View, ch: Option<string>)
    requires Valid(v)
    ensures Valid(SwitchChannel(v, ch))
  {
  }

  lemma PollKeepsValid(v: View, path: string)
    requires Valid(v)
    ensures Valid(PollChannel(v, path))
  {
    var vid := ChatUrl.GetVodId(path);
    if vid != v.vodId {
      var v1 := (if v.vodId.Some? then LeaveVod(v) else v).(vodId := vid);
      assert Valid(v1.(vodPolling := false));
      if vid.None? {
        assert !v1.vodPolling;
        SwitchKeepsValid(v1, ChatUrl.GetChannel(path));
      }
    } else if v.vodId.None? {
      SwitchKeepsValid(v, ChatUrl.GetChannel(path));
    }
  }

  /** A poller tick: the same second does nothing; a jump of more than five
      seconds from a known position is a seek, which clears the list and
      buffer and resets the stripe; otherwise the time is reported. The
      position is remembered either way. */
  lemma PollerTick(v: View, offset: int)
    requires v.vodPolling && v.vodId.Some?
    ensures VodPollTick(v, None) == v
    ensures offset == v.lastVodOffset ==> VodPollTick(v, Some(offset)) == v
    ensures var w := VodPollTick(v, Some(offset));
      var seek := v.lastVodOffset >= 0 && (offset - v.lastVodOffset > 5 || v.lastVodOffset - offset > 5);
      offset != v.lastVodOffset ==>
        && w.lastVodOffset == offset
        && (seek ==> w.lines == [] && w.buffer == [] && !w.msgEven
                     && w.posts == v.posts + [VodSeek(v.vodId.value, offset)])
        && (!seek ==> w == v.(posts := v.posts + [VodTime(v.vodId.value, offset)], lastVodOffset := offset))
  {
  }

  lemma TickKeepsValid(v: View, video: Option<int>)
    requires Valid(v) && v.vodPolling && v.vodId.Some?
    ensures Valid(VodPollTick(v, video))
  {
  }
}
