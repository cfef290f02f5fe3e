/** The content script's chat state as the source keeps it: module-level
    variables and a message list edited in place. Each handler is proved to
    take the state where the `ChatState` function of the same name takes
    it. */
module ChatView {
  import opened Optional
  import opened JsString
  import opened Irc
  import ChatUrl
  import opened ChatState

  class Chat {
    var mounted: bool
    var lines: seq<Line>
    var seen: set<TagValue>
    var buffer: seq<Message>
    var msgEven: bool
    var userColors: map<string, TagValue>
    var currentChannel: Option<string>
    var vodChannel: Option<string>
    var vodId: Option<string>
    var lastVodOffset: int
    var vodPolling: bool
    var messageCap: int
    var showBadges: bool
    var twitchEmotes: bool
    var posts: seq<Post>

    function State(): View
      reads this
    {
      View(mounted, lines, seen, buffer, msgEven, userColors, currentChannel, vodChannel, vodId,
           lastVodOffset, vodPolling, messageCap, showBadges, twitchEmotes, posts)
    }

    ghost predicate Valid()
      reads this
    {
      ChatState.Valid(State())
    }

    constructor (cap: int, badgesShown: bool, twitchEmotesOn: bool)
      ensures State() == Initial(cap, badgesShown, twitchEmotesOn) && Valid()
    {
      mounted := false;
      lines := [];
      seen := {};
      buffer := [];
      msgEven := false;
      userColors := map[];
      currentChannel := None;
      vodChannel := None;
      vodId := None;
      lastVodOffset := -1;
      vodPolling := false;
      messageCap := cap;
      showBadges := badgesShown;
      twitchEmotes := twitchEmotesOn;
      posts := [];
    }

    /** `buildChatUI` creates the (empty) message list. */
    method Mount()
      requires Valid() && !mounted
      modifies this
      ensures State() == old(State()).(mounted := true) && Valid()
    {
      mounted := true;
    }

    /** CLEARCHAT for one user: every line with that `data-user` removed. */
    method ClearUser(user: string)
      modifies this`lines
      ensures lines == DropUser(old(lines), user)
    {
      var kept: seq<Line> := [];
      var i := 0;
      while i < |lines|
        invariant 0 <= i <= |lines|
        invariant kept == DropUser(lines[..i], user)
      {
        assert lines[..i + 1][..i] == lines[..i];
        if lines[i].user != user {
          kept := kept + [lines[i]];
        }
        i := i + 1;
      }
      assert lines[..|lines|] == lines;
      lines := kept;
    }

    /** CLEARMSG: the first line with that `data-msg-id` removed. */
    method ClearMessage(id: string)
      modifies this`lines
      ensures lines == RemoveFirst(old(lines), id)
    {
      var i := 0;
      while i < |lines| && lines[i].msgId != Some(id)
        invariant 0 <= i <= |lines|
        invariant forall j :: 0 <= j < i ==> lines[j].msgId != Some(id)
      {
        i := i + 1;
      }
      if i < |lines| {
        RemoveFirstAt(lines, id, i);
        lines := lines[..i] + lines[i + 1..];
      } else {
        RemoveFirstAbsent(lines, id);
      }
    }

    /** `pruneMessages`; `threw` when the list ran empty while still above
      the cap. */
    method PruneMessages() returns (threw: bool)
      modifies this
      ensures State() == old(State()).(lines := Prune(old(lines), messageCap))
      ensures threw == (messageCap < 0)
    {
      while |lines| > messageCap
        invariant Prune(lines, messageCap) == Prune(old(lines), messageCap)
        invariant State() == old(State()).(lines := lines)
        decreases |lines|
      {
        if lines == [] {
          return true;
        }
        lines := lines[1..];
      }
      return false;
    }

    /** `handleIRCMessage`, the list-state part. */
    method HandleIRCMessage(msg: Message) returns (threw: bool)
      modifies this
      ensures State() == Handle(old(State()), msg).view
      ensures threw == Handle(old(State()), msg).threw
    {
      threw := false;
      if !mounted {
        return;
      }
      if msg.command == "CLEARCHAT" {
        if msg.trailing.Some? && msg.trailing.value != "" {
          ClearUser(msg.trailing.value);
        } else {
          lines := [];
        }
        return;
      }
      if msg.command == "CLEARMSG" {
        var target := TruthyTag(msg.tags, "target-msg-id");
        if target.Some? {
          ClearMessage(TagString(target.value));
        }
        return;
      }
      if msg.command != "PRIVMSG" {
        return;
      }
      if msg.channel != currentChannel && msg.channel != vodChannel {
        return;
      }
      var id := TruthyTag(msg.tags, "id");
      if id.Some? && id.value in seen {
        return;
      }
      threw := AcceptMessage(msg, id);
    }

    /** A message that passed the filters: its id remembered, the message
      buffered, the stripe flipped; the line built, which throws on a bare
      `badges` tag; the sender's colour learnt; the rest of the line built,
      which throws for a name with no colour and no username or a bad
      `emotes` tag; the line appended with the old stripe and the list
      pruned. */
    method AcceptMessage(msg: Message, id: Option<TagValue>) returns (threw: bool)
      modifies this
      ensures State() == Accept(old(State()), msg, id).view
      ensures threw == Accept(old(State()), msg, id).threw
    {
      var line := Line(UserKey(msg.username), IdText(id), msgEven);
      RememberId(id);
      BufferMessage(msg);
      msgEven := !msgEven;
      threw := BuildLine(msg, line);
    }

    /** The line built, which throws on a bare `badges` tag; the sender's
      colour learnt; the rest of the line built, which throws for a name
      with no colour and no username or a bad `emotes` tag; the line
      appended and the list pruned. */
    method BuildLine(msg: Message, line: Line) returns (threw: bool)
      modifies this
      ensures var built := Build(old(State()), msg);
        && State() == old(State()).(
             userColors := if built == BadgesThrew then old(userColors) else ChatState.LearnColor(old(userColors), msg),
             lines := if built == Appended then Prune(old(lines) + [line], messageCap) else old(lines))
        && threw == (built != Appended || messageCap < 0)
    {
      if BadgesThrow(showBadges, msg.tags) {
        return true;
      }
      LearnColor(msg);
      if ColorThrows(userColors, msg) || EmotesThrow(twitchEmotes, msg.tags) {
        return true;
      }
      lines := lines + [line];
      threw := PruneMessages();
    }

    /** A present id joins the seen ids. */
    method RememberId(id: Option<TagValue>)
      modifies this
      ensures State() == old(State()).(seen := Remember(old(seen), id))
    {
      if id.Some? {
        seen := seen + {id.value};
      }
    }

    /** The message pushed on the replay buffer, which keeps its last
      `messageCap` entries. */
    method BufferMessage(msg: Message)
      modifies this
      ensures State() == old(State()).(buffer := CapBuffer(old(buffer) + [msg], messageCap))
    {
      buffer := buffer + [msg];
      if |buffer| > messageCap {
        buffer := SliceFrom(buffer, -messageCap);
      }
    }

    /** A readable `color` tag becomes the sender's colour. */
    method LearnColor(msg: Message)
      modifies this
      ensures State() == old(State()).(userColors := ChatState.LearnColor(old(userColors), msg))
    {
      var color := TruthyTag(msg.tags, "color");
      if color.Some? && ReadableTag(color.value) {
        userColors := userColors[UserKey(msg.username) := color.value];
      }
    }

    /** A batch of messages from one port message, in order, until one
      throws. */
    method HandleMessages(msgs: seq<Message>) returns (threw: bool)
      modifies this
      ensures State() == HandleAll(old(State()), msgs).view
      ensures threw == HandleAll(old(State()), msgs).threw
    {
      var i := 0;
      while i < |msgs|
        invariant 0 <= i <= |msgs|
        invariant HandleAll(State(), msgs[i..]) == HandleAll(old(State()), msgs)
      {
        assert msgs[i..][0] == msgs[i] && msgs[i..][1..] == msgs[i + 1..];
        threw := HandleIRCMessage(msgs[i]);
        if threw {
          return;
        }
        i := i + 1;
      }
      return false;
    }

    /** `pollChannel` for the page at `path`. */
    method PollChannel(path: string)
      modifies this
      ensures State() == ChatState.PollChannel(old(State()), path)
    {
      var vid := ChatUrl.GetVodId(path);
      if vid != vodId {
        if vodId.Some? {
          StopVod();
        }
        vodId := vid;
        if vid.Some? {
          EnterVod(vid.value);
        } else {
          LiveChannel(path);
        }
      } else if vodId.None? {
        LiveChannel(path);
      }
    }

    /** Leaving a VOD page: the poller stopped, the VOD channel forgotten. */
    method StopVod()
      modifies this
      ensures State() == LeaveVod(old(State()))
    {
      vodPolling := false;
      vodChannel := None;
      lastVodOffset := -1;
    }

    /** Entering a VOD page: the live channel dropped, the list, seen ids
      and buffer cleared, the page told, the poller started. */
    method EnterVod(id: string)
      modifies this
      ensures State() == ChatState.EnterVod(old(State()), id)
    {
      currentChannel := None;
      posts := posts + [VodChanged(id)];
      ResetChat();
      StartVodPoll();
    }

    /** The message list emptied, the seen ids forgotten, the replay
      buffer dropped. */
    method ResetChat()
      modifies this
      ensures State() == Reset(old(State()))
    {
      lines := [];
      seen := {};
      buffer := [];
    }

    /** `startVodPoll`: any previous poller stopped, the last offset
      forgotten, a new poller running. */
    method StartVodPoll()
      modifies this
      ensures State() == ChatState.StartVodPoll(old(State()))
    {
      vodPolling := true;
      lastVodOffset := -1;
    }

    /** The live-channel half of `pollChannel`: a new channel resets the
      list, the seen ids and the buffer. */
    method LiveChannel(path: string)
      modifies this
      ensures State() == ChatState.LiveChannel(old(State()), path)
    {
      var ch := ChatUrl.GetChannel(path);
      SwitchChannel(ch);
    }

    /** The page now shows channel `ch`. */
    method SwitchChannel(ch: Option<string>)
      modifies this
      ensures State() == ChatState.SwitchChannel(old(State()), ch)
    {
      if ch != currentChannel {
        currentChannel := ch;
        if ch.Some? {
          posts := posts + [ChannelChanged(ch.value)];
        }
        ResetChat();
      }
    }

    /** One tick of the 500 ms broadcast-time poller. */
    method VodPollTick(video: Option<int>)
      requires vodPolling && vodId.Some?
      modifies this
      ensures State() == ChatState.VodPollTick(old(State()), video)
    {
      if video.None? {
        return;
      }
      var offset := video.value;
      if offset == lastVodOffset {
        return;
      }
      if lastVodOffset >= 0 && (offset - lastVodOffset > 5 || lastVodOffset - offset > 5) {
        Seek(offset);
      } else {
        posts := posts + [VodTime(vodId.value, offset)];
        lastVodOffset := offset;
      }
    }

    /** A seek to `offset`: the list and buffer cleared, the stripe reset,
      the jump posted and the offset remembered. */
    method Seek(offset: int)
      requires vodId.Some?
      modifies this
      ensures State() == old(State()).(lines := [], buffer := [], msgEven := false,
                                       posts := old(posts) + [VodSeek(old(vodId).value, offset)],
                                       lastVodOffset := offset)
    {
      lines := [];
      buffer := [];
      msgEven := false;
      posts := posts + [VodSeek(vodId.value, offset)];
      lastVodOffset := offset;
    }
  }
}
