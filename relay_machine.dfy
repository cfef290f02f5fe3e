/** The relay supervisor of the background worker as a pure state machine:
    the single chat socket, its handshake, keepalive and reconnect backoff,
    the set of joined channels and the content-script ports it fans chat out
    to. Every socket, timer and port callback is an event that maps a state
    to the next one; what goes out on the socket is the `sent` log, what
    goes out to ports the `posts` log, and each scheduled reconnect wait the
    `waits` log. */
module RelayMachine {
  import opened Optional
  import opened JsString
  import opened Irc

  const InitialDelay := 1000
  const MaxDelay := 30000
  const PingInterval := 60000
  const CapRequest := "CAP REQ :twitch.tv/tags twitch.tv/commands"
  const PongReply := "PONG :tmi.twitch.tv"
  const Keepalive := "PING :converse"

  datatype Account = Account(login: string, userId: string, token: string)

  /** `WebSocket.readyState` (CONNECTING, OPEN, CLOSING, CLOSED), or no
      socket created yet. */
  datatype SocketState = NoSocket | Connecting | Open | Closing | Closed

  /** What is posted to a content-script port. `AccountInfo` carries
      `(login, userId)`, or nothing for `account: null`. */
  datatype Post = IrcMessage(msg: Message) | AccountInfo(account: Option<(string, string)>)

  datatype State = State(
    account: Option<Account>,
    socket: SocketState,
    ready: bool,
    delay: int,
    pingTimer: bool,
    pong: bool,
    joined: seq<string>,           // a JavaScript Set, in insertion order
    ports: seq<nat>,               // connected "chat" ports, by identity
    portChannel: map<nat, string>, // each port's `_channel`
    pendingReconnects: nat,        // reconnect timeouts not yet fired
    sent: seq<string>,
    posts: seq<(nat, Post)>,
    waits: seq<int>)

  function Min(a: int, b: int): int
  {
    if a <= b then a else b
  }

  predicate NoDup<T(==)>(xs: seq<T>)
  {
    forall i, j :: 0 <= i < j < |xs| ==> xs[i] != xs[j]
  }

  /** `xs.filter(x => !drop.has(x))`. */
  function Without<T(==)>(xs: seq<T>, drop: set<T>): seq<T>
  {
    if xs == [] then []
    else (if xs[0] in drop then [] else [xs[0]]) + Without(xs[1..], drop)
  }

  lemma {:induction false} WithoutMembers<T>(xs: seq<T>, drop: set<T>)
    ensures forall y :: y in Without(xs, drop) <==> y in xs && y !in drop
  {
    if xs != [] {
      WithoutMembers(xs[1..], drop);
      assert xs == [xs[0]] + xs[1..];
    }
  }

  /** Filtering keeps the original order: it distributes over concatenation. */
  lemma {:induction false} WithoutAppend<T>(xs: seq<T>, ys: seq<T>, drop: set<T>)
    ensures Without(xs + ys, drop) == Without(xs, drop) + Without(ys, drop)
  {
    if xs != [] {
      WithoutAppend(xs[1..], ys, drop);
      assert (xs + ys)[1..] == xs[1..] + ys;
    } else {
      assert xs + ys == ys;
    }
  }

  lemma {:induction false} WithoutNoDup<T>(xs: seq<T>, drop: set<T>)
    requires NoDup(xs)
    ensures NoDup(Without(xs, drop))
  {
    if xs != [] {
      WithoutNoDup(xs[1..], drop);
      WithoutMembers(xs[1..], drop);
      assert xs[0] !in xs[1..] by {
        forall k | 0 <= k < |xs| - 1
          ensures xs[1..][k] != xs[0]
        {
          assert xs[1..][k] == xs[k + 1];
        }
      }
    }
  }

  // ---------------------------------------------------------------------
  // The socket

  predicate Live(s: State)
  {
    s.socket == Connecting || s.socket == Open || s.socket == Closing
  }

  /** `ircSocket.send(line)`: a socket that is not open discards it. */
  function Send(s: State, line: string): State
  {
    if s.socket == Open then s.(sent := s.sent + [line]) else s
  }

  function SendAll(s: State, lines: seq<string>): State
  {
    if s.socket == Open then s.(sent := s.sent + lines) else s
  }

  /** `ircSocket.close()`: a connecting or open socket starts closing. */
  function Close(s: State): State
  {
    if s.socket == Connecting || s.socket == Open then s.(socket := Closing) else s
  }

  /** `connectIRC`: nothing without an account or while a socket is
      connecting or open; otherwise a new socket, not ready. */
  function ConnectIRC(s: State): State
  {
    if s.account.None? || s.socket == Connecting || s.socket == Open then s
    else s.(socket := Connecting, ready := false)
  }

  /** `init`: the active account is loaded and a connection attempted. */
  function Init(account: Option<Account>): State
  {
    ConnectIRC(State(account, NoSocket, false, InitialDelay, false, true, [], [], map[], 0, [], [], []))
  }

  /** `onopen`: capability request, then credentials. Without an account,
      reading `currentAccount.token` throws after the first send. */
  function OnOpen(s: State): State
    requires s.socket == Connecting
  {
    var s1 := Send(s.(socket := Open), CapRequest);
    match s.account
    case None => s1
    case Some(a) => Send(Send(s1, "PASS oauth:" + a.token), "NICK " + a.login)
  }

  /** `onerror`. */
  function OnError(s: State): State
  {
    Close(s)
  }

  /** `onclose`: not ready, keepalive stopped, a reconnect scheduled after
      the current delay. */
  function OnClose(s: State): State
    requires Live(s)
  {
    s.(socket := Closed, ready := false, pingTimer := false,
       pendingReconnects := s.pendingReconnects + 1, waits := s.waits + [s.delay])
  }

  function NextDelay(d: int): int
  {
    Min(d * 2, MaxDelay)
  }

  /** The reconnect timeout: the delay doubles (capped) before `connectIRC`
      runs, whether or not it connects. */
  function ReconnectTimerFires(s: State): State
    requires s.pendingReconnects > 0
  {
    ConnectIRC(s.(pendingReconnects := s.pendingReconnects - 1, delay := NextDelay(s.delay)))
  }

  /** `startIRCPing`. */
  function StartIRCPing(s: State): State
  {
    s.(pingTimer := true, pong := true)
  }

  /** One keepalive interval tick. */
  function PingTick(s: State): State
    requires s.pingTimer
  {
    if !s.ready then s
    else if !s.pong then Close(s)
    else Send(s.(pong := false), Keepalive)
  }

  // ---------------------------------------------------------------------
  // Channels and ports

  function JoinLines(chs: seq<string>): (r: seq<string>)
    ensures |r| == |chs|
  {
    seq(|chs|, i requires 0 <= i < |chs| => "JOIN #" + chs[i])
  }

  function JoinChannel(s: State, ch: string): State
  {
    if ch in s.joined then s
    else
      var s1 := s.(joined := s.joined + [ch]);
      if s.ready then Send(s1, "JOIN #" + ch) else s1
  }

  function PartChannel(s: State, ch: string): State
  {
    if ch !in s.joined then s
    else
      var s1 := s.(joined := Without(s.joined, {ch}));
      if s.ready then Send(s1, "PART #" + ch) else s1
  }

  function SendMessage(s: State, ch: string, text: string): State
  {
    if s.account.None? || !s.ready then s else Send(s, "PRIVMSG #" + ch + " :" + text)
  }

  function Deliveries(ps: seq<nat>, post: Post): (r: seq<(nat, Post)>)
    ensures |r| == |ps|
  {
    seq(|ps|, i requires 0 <= i < |ps| => (ps[i], post))
  }

  /** `broadcast`: a port whose `postMessage` throws (one in `dead`) is
      dropped; the others receive the post and stay, in order. */
  function Broadcast(s: State, post: Post, dead: set<nat>): State
  {
    var kept := Without(s.ports, dead);
    s.(ports := kept, posts := s.posts + Deliveries(kept, post))
  }

  predicate IsRelayed(command: string)
  {
    command == "PRIVMSG" || command == "CLEARCHAT" || command == "CLEARMSG"
    || command == "USERNOTICE" || command == "NOTICE"
  }

  /** The welcome numeric `001`. */
  function Welcome(s: State): State
  {
    SendAll(StartIRCPing(s.(ready := true, delay := InitialDelay)), JoinLines(s.joined))
  }

  /** A parsed inbound message. */
  function OnParsed(s: State, msg: Message, dead: set<nat>): State
  {
    var s1 := if msg.command == "001" then Welcome(s) else s;
    if msg.command == "PONG" then s1.(pong := true)
    else if msg.command == "RECONNECT" then Close(s1)
    else if IsRelayed(msg.command) then Broadcast(s1, IrcMessage(msg), dead)
    else s1
  }

  /** One line of an inbound frame: `PING` is answered without parsing. */
  function OnLine(s: State, line: string, dead: set<nat>): State
  {
    if StartsWith(line, "PING") then Send(s, PongReply) else OnParsed(s, Parse(line), dead)
  }

  /** `.filter(Boolean)` on strings. */
  function NonEmpty(parts: seq<string>): seq<string>
  {
    if parts == [] then []
    else (if parts[0] == "" then [] else [parts[0]]) + NonEmpty(parts[1..])
  }

  function FrameLines(data: string): seq<string>
  {
    NonEmpty(Split(data, "\r\n"))
  }

  function OnLines(s: State, lines: seq<string>, dead: set<nat>): State
    decreases |lines|
  {
    if lines == [] then s else OnLines(OnLine(s, lines[0], dead), lines[1..], dead)
  }

  /** `onmessage`: the lines of the frame in order. */
  function OnMessage(s: State, data: string, dead: set<nat>): State
  {
    OnLines(s, FrameLines(data), dead)
  }

  function PortConnect(s: State, id: nat, name: string): State
  {
    if name != "chat" then s else s.(ports := s.ports + [id])
  }

  function AccountSummary(a: Option<Account>): Option<(string, string)>
  {
    if a.Some? then Some((a.value.login, a.value.userId)) else None
  }

  /** A `channel-changed` message on a port: remember the channel, join it,
      tell the port which account is signed in. The previous channel of the
      port is not parted. */
  function ChannelChanged(s: State, id: nat, ch: string, dead: set<nat>): State
  {
    var s1 := JoinChannel(s.(portChannel := s.portChannel[id := ch]), ch);
    if id in dead then s1 else s1.(posts := s1.posts + [(id, AccountInfo(AccountSummary(s.account)))])
  }

  predicate Watched(ports: seq<nat>, pc: map<nat, string>, ch: string)
  {
    exists p :: p in ports && p in pc && pc[p] == ch
  }

  /** A port disconnects: it leaves the list and its channel is parted unless
      another listed port has the same channel. */
  function PortDisconnect(s: State, id: nat): State
  {
    var s1 := s.(ports := Without(s.ports, {id}));
    if id in s.portChannel && s.portChannel[id] != "" && !Watched(s1.ports, s.portChannel, s.portChannel[id])
    then PartChannel(s1, s.portChannel[id])
    else s1
  }

  /** `account-changed` (and the tail of `add-account`): switch the account,
      close the socket, reconnect, and tell every port. With one socket
      modelled, the new socket replaces the closing one. */
  function AccountChanged(s: State, a: Option<Account>, dead: set<nat>): State
  {
    var s1 := s.(account := a);
    var s2 := if s.socket != NoSocket then Close(s1) else s1;
    Broadcast(ConnectIRC(s2), AccountInfo(AccountSummary(a)), dead)
  }

  /** The `onclose` of a socket that an account switch replaced. It runs
      against the module state, whose socket is by then the new one: the
      connection is marked not ready, the keep-alive stops and one more
      reconnect is scheduled, while the new socket itself is untouched. */
  function StaleClose(s: State): State
  {
    s.(ready := false, pingTimer := false,
       pendingReconnects := s.pendingReconnects + 1, waits := s.waits + [s.delay])
  }

  // ---------------------------------------------------------------------
  // All events together

  datatype Event =
    | SocketOpen
    | SocketFrame(data: string)
    | SocketError
    | SocketClose
    | ReconnectTimer
    | PingTimer
    | PortConnected(id: nat, name: string)
    | PortChannel(id: nat, channel: string)
    | PortSend(channel: string, text: string)
    | PortDisconnected(id: nat)
    | AccountSwitched(account: Option<Account>)

  /** When the browser can deliver each event. */
  predicate Enabled(s: State, e: Event)
  {
    match e
    case SocketOpen => s.socket == Connecting
    case SocketFrame(_) => s.socket == Open
    case SocketError => Live(s)
    case SocketClose => Live(s)
    case ReconnectTimer => s.pendingReconnects > 0
    case PingTimer => s.pingTimer
    case PortConnected(id, _) => id !in s.ports && id !in s.portChannel
    case PortChannel(id, _) => id in s.ports
    case PortDisconnected(id) => id in s.ports
    case _ => true
  }

  function Step(s: State, e: Event, dead: set<nat>): State
    requires Enabled(s, e)
  {
    match e
    case SocketOpen => OnOpen(s)
    case SocketFrame(data) => OnMessage(s, data, dead)
    case SocketError => OnError(s)
    case SocketClose => OnClose(s)
    case ReconnectTimer => ReconnectTimerFires(s)
    case PingTimer => PingTick(s)
    case PortConnected(id, name) => PortConnect(s, id, name)
    case PortChannel(id, ch) => ChannelChanged(s, id, ch, dead)
    case PortSend(ch, text) => SendMessage(s, ch, text)
    case PortDisconnected(id) => PortDisconnect(s, id)
    case AccountSwitched(a) => AccountChanged(s, a, dead)
  }

  /** Channels and ports are listed once each, the supervisor is ready only
      on an open or closing socket, and the delay stays within its bounds. */
  predicate Valid(s: State)
  {
    && NoDup(s.joined)
    && NoDup(s.ports)
    && (s.ready ==> s.socket == Open || s.socket == Closing)
    && InitialDelay <= s.delay <= MaxDelay
  }

  /** The logs only grow. */
  predicate Extends(s: State, r: State)
  {
    s.sent <= r.sent && s.posts <= r.posts && s.waits <= r.waits
  }

  // ---------------------------------------------------------------------
  // Connecting and the handshake

  /** With an account, a connection is open or under way afterwards; a
      second attempt changes nothing; nothing is sent or posted. */
  lemma ConnectIRCGuard(s: State)
    ensures s.account.Some? ==> ConnectIRC(s).socket == Connecting || ConnectIRC(s).socket == Open
    ensures s.account.None? || s.socket == Connecting || s.socket == Open ==> ConnectIRC(s) == s
    ensures ConnectIRC(s).socket != s.socket ==> ConnectIRC(s).socket == Connecting && !ConnectIRC(s).ready
    ensures ConnectIRC(ConnectIRC(s)) == ConnectIRC(s)
    ensures ConnectIRC(s).sent == s.sent && ConnectIRC(s).joined == s.joined && ConnectIRC(s).delay == s.delay
  {
  }

  /** On open, exactly the capability request, the token and the nick go
      out, in that order. */
  lemma OpenSendsHandshake(s: State)
    requires s.socket == Connecting && s.account.Some?
    ensures OnOpen(s).socket == Open
    ensures OnOpen(s).sent == s.sent + [CapRequest, "PASS oauth:" + s.account.value.token,
                                        "NICK " + s.account.value.login]
    ensures OnOpen(s).(sent := s.sent, socket := s.socket) == s
  {
  }

  // ---------------------------------------------------------------------
  // Frames and lines

  lemma SplitAtFirstCrlf(p: string, q: string)
    requires Free(p, "\r\n")
    ensures Split(p + "\r\n" + q, "\r\n") == [p] + Split(q, "\r\n")
  {
    var s := p + "\r\n" + q;
    assert s[|p|..|p| + 2] == "\r\n";
    forall j | 0 <= j < |p|
      ensures !Occurs(s, "\r\n", j)
    {
      if j + 2 <= |p| {
        assert s[j..j + 2] == p[j..j + 2];
        assert !Occurs(p, "\r\n", j);
      } else {
        assert s[j + 1] == '\r';
        assert s[j..j + 2][1] == s[j + 1];
      }
    }
    assert Occurs(s, "\r\n", |p|);
    assert IndexOfFrom(s, "\r\n", 0) == |p|;
    assert s[..|p|] == p;
    assert s[|p| + 2..] == q;
  }

  /** A frame as the server writes it: every line terminated by CR LF. */
  function Frame(lines: seq<string>): string
  {
    if lines == [] then "" else lines[0] + "\r\n" + Frame(lines[1..])
  }

  /** Reading a frame gives back its lines, when none is empty or holds a
      CR LF. */
  lemma {:induction false} FrameLinesOfFrame(lines: seq<string>)
    requires forall k :: 0 <= k < |lines| ==> lines[k] != "" && Free(lines[k], "\r\n")
    ensures FrameLines(Frame(lines)) == lines
  {
    if lines == [] {
      assert Split("", "\r\n") == [""];
    } else {
      SplitAtFirstCrlf(lines[0], Frame(lines[1..]));
      FrameLinesOfFrame(lines[1..]);
      var parts := [lines[0]] + Split(Frame(lines[1..]), "\r\n");
      assert parts[1..] == Split(Frame(lines[1..]), "\r\n");
    }
  }

  lemma {:induction false} NonEmptyMembers(parts: seq<string>)
    ensures forall l :: l in NonEmpty(parts) <==> l in parts && l != ""
  {
    if parts != [] {
      NonEmptyMembers(parts[1..]);
      assert parts == [parts[0]] + parts[1..];
    }
  }

  /** Every line handled is non-empty and free of CR LF. */
  lemma FrameLinesAreClean(data: string)
    ensures forall l :: l in FrameLines(data) ==> l != "" && Free(l, "\r\n")
  {
    NonEmptyMembers(Split(data, "\r\n"));
  }

  /** A `PING` line is answered and not parsed: nothing else changes. */
  lemma PingIsAnswered(s: State, line: string, dead: set<nat>)
    requires StartsWith(line, "PING")
    ensures OnLine(s, line, dead).sent == s.sent + (if s.socket == Open then [PongReply] else [])
    ensures OnLine(s, line, dead).(sent := s.sent) == s
  {
  }

  /** `001`: ready, delay reset, keepalive restarted with the pong flag set,
      and one JOIN per joined channel in insertion order. */
  lemma WelcomeRejoins(s: State, msg: Message, dead: set<nat>)
    requires msg.command == "001" && s.socket == Open
    ensures var r := OnParsed(s, msg, dead);
      && r.ready && r.delay == InitialDelay && r.pong && r.pingTimer
      && |r.sent| == |s.sent| + |s.joined|
      && r.sent[..|s.sent|] == s.sent
      && (forall i :: 0 <= i < |s.joined| ==> r.sent[|s.sent| + i] == "JOIN #" + s.joined[i])
      && r.joined == s.joined && r.ports == s.ports && r.posts == s.posts
  {
    var r := OnParsed(s, msg, dead);
    assert r.sent == s.sent + JoinLines(s.joined);
  }

  /** Inbound `PONG` only sets the flag; `RECONNECT` only closes. */
  lemma ControlLines(s: State, msg: Message, dead: set<nat>)
    ensures msg.command == "PONG" ==> OnParsed(s, msg, dead) == s.(pong := true)
    ensures msg.command == "RECONNECT" ==> OnParsed(s, msg, dead) == Close(s)
  {
  }

  /** Lines whose command is not one of the five chat commands (and not a
      control line) leave the state unchanged. */
  lemma OtherLinesIgnored(s: State, msg: Message, dead: set<nat>)
    requires msg.command != "001" && msg.command != "PONG" && msg.command != "RECONNECT"
    requires !IsRelayed(msg.command)
    ensures OnParsed(s, msg, dead) == s
  {
  }

  /** Posts produced while handling a line. */
  predicate RelayedPosts(s: State, r: State)
    requires s.posts <= r.posts
  {
    forall k :: |s.posts| <= k < |r.posts| ==>
      r.posts[k].1.IrcMessage? && IsRelayed(r.posts[k].1.msg.command)
  }

  lemma BroadcastAppends(s: State, post: Post, dead: set<nat>)
    ensures var r := Broadcast(s, post, dead);
      s.posts <= r.posts && forall k :: |s.posts| <= k < |r.posts| ==> r.posts[k].1 == post
  {
  }

  /** A parsed message posts only when it carries a relayed command, and
    then it is broadcast. */
  lemma OnParsedRelaysOnlyChat(s: State, msg: Message, dead: set<nat>)
    ensures s.posts <= OnParsed(s, msg, dead).posts
    ensures RelayedPosts(s, OnParsed(s, msg, dead))
    ensures IsRelayed(msg.command) ==> OnParsed(s, msg, dead) == Broadcast(s, IrcMessage(msg), dead)
  {
    var s1 := if msg.command == "001" then Welcome(s) else s;
    assert s1.posts == s.posts;
    if IsRelayed(msg.command) {
      assert msg.command != "001" && msg.command != "PONG" && msg.command != "RECONNECT";
      BroadcastAppends(s, IrcMessage(msg), dead);
    } else {
      assert OnParsed(s, msg, dead).posts == s.posts;
    }
  }

  lemma OnLineRelaysOnlyChat(s: State, line: string, dead: set<nat>)
    ensures s.posts <= OnLine(s, line, dead).posts
    ensures RelayedPosts(s, OnLine(s, line, dead))
    ensures !StartsWith(line, "PING") && IsRelayed(Parse(line).command) ==>
      OnLine(s, line, dead) == Broadcast(s, IrcMessage(Parse(line)), dead)
  {
    if !StartsWith(line, "PING") {
      OnParsedRelaysOnlyChat(s, Parse(line), dead);
    }
  }

  /** Over a whole frame, every post is a chat message with one of the five
      relayed commands. */
  lemma {:induction false} OnLinesRelaysOnlyChat(s: State, lines: seq<string>, dead: set<nat>)
    ensures s.posts <= OnLines(s, lines, dead).posts
    ensures RelayedPosts(s, OnLines(s, lines, dead))
    decreases |lines|
  {
    if lines != [] {
      var s1 := OnLine(s, lines[0], dead);
      OnLineRelaysOnlyChat(s, lines[0], dead);
      OnLinesRelaysOnlyChat(s1, lines[1..], dead);
    }
  }

  // ---------------------------------------------------------------------
  // Backoff

  /** On close: not ready, keepalive stopped, a reconnect scheduled after
      the current delay, which is not changed yet. */
  lemma CloseSchedulesReconnect(s: State)
    requires Live(s)
    ensures var r := OnClose(s);
      !r.ready && !r.pingTimer && r.waits == s.waits + [s.delay] && r.delay == s.delay
      && r.pendingReconnects == s.pendingReconnects + 1 && !Live(r)
  {
  }

  /** Switching accounts on an open connection: the old socket's late close
      adds one wait of the current delay, and its timer finds the new
      socket connecting, so it only doubles the delay. */
  lemma SwitchCostsOneWait(s: State, a: Account, dead: set<nat>)
    requires s.socket == Open
    ensures var t := StaleClose(AccountChanged(s, Some(a), dead));
      && t.socket == Connecting && !t.ready
      && t.waits == s.waits + [s.delay]
      && t.pendingReconnects == s.pendingReconnects + 1
      && ReconnectTimerFires(t).socket == Connecting
      && ReconnectTimerFires(t).delay == NextDelay(s.delay)
  {
  }

  /** A late close that lands after the new connection's welcome leaves it
      open but not ready and without keep-alive: no JOIN and no chat line is
      sent any more, and the reconnect timer only doubles the delay. */
  lemma StaleCloseAfterWelcomeStalls(s: State, ch: string, text: string)
    requires s.socket == Open
    ensures var t := StaleClose(Welcome(s));
      && t.socket == Open && !t.ready && !t.pingTimer
      && JoinChannel(t, ch).sent == t.sent
      && SendMessage(t, ch, text) == t
      && PingTick(t.(pingTimer := true)) == t.(pingTimer := true)
      && ReconnectTimerFires(t) == t.(pendingReconnects := s.pendingReconnects, delay := NextDelay(InitialDelay))
  {
  }

  lemma StaleCloseKeepsValid(s: State)
    requires Valid(s)
    ensures Valid(StaleClose(s)) && Extends(s, StaleClose(s))
  {
  }

  /** When the timeout fires the delay doubles up to 30 s, even if no
      connection is attempted. */
  lemma TimerDoublesDelay(s: State)
    requires s.pendingReconnects > 0
    ensures ReconnectTimerFires(s).delay == Min(2 * s.delay, MaxDelay)
    ensures s.account.None? ==> ReconnectTimerFires(s).socket == s.socket
  {
  }

  /** A connection that closes before the welcome, and the reconnect that
      follows. */
  function Cycle(s: State): (r: State)
    requires Live(s)
    ensures r.account == s.account
    ensures s.account.Some? ==> r.socket == Connecting
  {
    ReconnectTimerFires(OnClose(s))
  }

  function Cycles(s: State, n: nat): State
    requires Live(s) && s.account.Some?
    decreases n
  {
    if n == 0 then s else Cycles(Cycle(s), n - 1)
  }

  /** The waits scheduled by `n` failures in a row from delay `d`. */
  function Waits(d: int, n: nat): (r: seq<int>)
    ensures |r| == n

    decreases n
  {
    if n == 0 then [] else [d] + Waits(NextDelay(d), n - 1)
  }

  function Pow2(n: nat): (r: nat)
    ensures r >= 1
  {
    if n == 0 then 1 else 2 * Pow2(n - 1)
  }

  lemma {:induction false} RepeatedFailures(s: State, n: nat)
    requires Live(s) && s.account.Some?
    ensures Cycles(s, n).waits == s.waits + Waits(s.delay, n)
    decreases n
  {
    if n > 0 {
      var c := Cycle(s);
      assert c.waits == s.waits + [s.delay] && c.delay == NextDelay(s.delay);
      RepeatedFailures(c, n - 1);
    }
  }

  /** The i-th wait is the delay doubled i times, capped at 30 s. */
  lemma {:induction false} WaitsAt(d: int, n: nat, i: nat)
    requires 0 < d <= MaxDelay && i < n
    ensures Waits(d, n)[i] == Min(d * Pow2(i), MaxDelay)
    decreases i
  {
    if i > 0 {
      var d1 := NextDelay(d);
      WaitsAt(d1, n - 1, i - 1);
      var p := Pow2(i - 1);
      assert Pow2(i) == 2 * p;
      if 2 * d <= MaxDelay {
        assert d * (2 * p) == (2 * d) * p;
      } else {
        assert MaxDelay * p >= MaxDelay;
        assert d * (2 * p) >= 2 * d;
      }
    }
  }

  /** From a fresh start, successive waits are 1, 2, 4, 8, 16, 30, 30 s. */
  lemma BackoffSchedule()
    ensures Waits(InitialDelay, 7) == [1000, 2000, 4000, 8000, 16000, 30000, 30000]
  {
    var w := Waits(InitialDelay, 7);
    forall i | 0 <= i < 7
      ensures w[i] == [1000, 2000, 4000, 8000, 16000, 30000, 30000][i]
    {
      WaitsAt(InitialDelay, 7, i);
    }
  }

  // ---------------------------------------------------------------------
  // Keepalive

  lemma PingTickCases(s: State)
    requires s.pingTimer
    ensures !s.ready ==> PingTick(s) == s
    ensures s.ready && !s.pong ==> PingTick(s) == Close(s) && PingTick(s).sent == s.sent
    ensures s.ready && s.pong ==>
      !PingTick(s).pong && PingTick(s).sent == s.sent + (if s.socket == Open then [Keepalive] else [])
  {
  }

  /** Two ticks with no PONG between them close the connection. */
  lemma SilentServerIsDropped(s: State)
    requires s.pingTimer && s.ready && s.pong && s.socket == Open
    ensures PingTick(s).pingTimer
    ensures PingTick(PingTick(s)).socket == Closing
    ensures PingTick(PingTick(s)).sent == s.sent + [Keepalive]
  {
  }

  // ---------------------------------------------------------------------
  // Channels

  lemma {:induction false} WithoutNothing<T>(xs: seq<T>, drop: set<T>)
    requires forall x :: x in xs ==> x !in drop
    ensures Without(xs, drop) == xs
  {
    if xs != [] {
      WithoutNothing(xs[1..], drop);
      assert xs == [xs[0]] + xs[1..];
    }
  }

  /** Joining adds the channel once; JOIN goes out only when it is new and
      the supervisor is ready; joining again changes nothing. */
  lemma JoinChannelOnce(s: State, ch: string)
    ensures var r := JoinChannel(s, ch);
      && ch in r.joined
      && r.joined == (if ch in s.joined then s.joined else s.joined + [ch])
      && r.sent == s.sent + (if ch !in s.joined && s.ready && s.socket == Open then ["JOIN #" + ch] else [])
      && JoinChannel(r, ch) == r
  {
  }

  /** Parting removes the channel and nothing else; PART goes out only when
      it was joined and the supervisor is ready; parting again changes
      nothing. */
  lemma PartChannelOnce(s: State, ch: string)
    ensures var r := PartChannel(s, ch);
      && ch !in r.joined
      && (forall c :: c != ch ==> (c in r.joined <==> c in s.joined))
      && r.sent == s.sent + (if ch in s.joined && s.ready && s.socket == Open then ["PART #" + ch] else [])
      && PartChannel(r, ch) == r
  {
    WithoutMembers(s.joined, {ch});
  }

  /** Parting a channel just joined restores the joined list. */
  lemma JoinThenPart(s: State, ch: string)
    requires ch !in s.joined
    ensures PartChannel(JoinChannel(s, ch), ch).joined == s.joined
  {
    var j := JoinChannel(s, ch);
    assert j.joined == s.joined + [ch];
    assert ch in j.joined;
    assert PartChannel(j, ch).joined == Without(s.joined + [ch], {ch});
    WithoutAppend(s.joined, [ch], {ch});
    assert Without([ch], {ch}) == [];
    WithoutNothing(s.joined, {ch});
  }

  /** A chat line goes out only with an account on a ready, open socket. */
  lemma SendMessageGuard(s: State, ch: string, text: string)
    ensures var r := SendMessage(s, ch, text);
      && (r != s <==> s.account.Some? && s.ready && s.socket == Open)
      && (r != s ==> r.sent == s.sent + ["PRIVMSG #" + ch + " :" + text])
  {
  }

  // ---------------------------------------------------------------------
  // Ports

  /** Broadcast keeps exactly the ports that accepted the post, in their
      order, and each of them gets the post once. */
  lemma BroadcastKeepsLivePorts(s: State, post: Post, dead: set<nat>)
    ensures var r := Broadcast(s, post, dead);
      && r.ports == Without(s.ports, dead)
      && (forall p :: p in r.ports <==> p in s.ports && p !in dead)
      && (forall a, b :: Without(a + b, dead) == Without(a, dead) + Without(b, dead))
      && |r.posts| == |s.posts| + |r.ports|
      && r.posts[..|s.posts|] == s.posts
      && (forall k :: 0 <= k < |r.ports| ==> r.posts[|s.posts| + k] == (r.ports[k], post))
      && r.(ports := s.ports, posts := s.posts) == s
  {
    WithoutMembers(s.ports, dead);
    forall a: seq<nat>, b: seq<nat>
      ensures Without(a + b, dead) == Without(a, dead) + Without(b, dead)
    {
      WithoutAppend(a, b, dead);
    }
  }

  /** A channel change joins the new channel and keeps every channel joined
      before, including the port's previous one. */
  lemma ChannelChangeKeepsPrevious(s: State, id: nat, ch: string, dead: set<nat>)
    ensures var r := ChannelChanged(s, id, ch, dead);
      && ch in r.joined
      && (forall c :: c in s.joined ==> c in r.joined)
      && r.portChannel == s.portChannel[id := ch]
      && r.ports == s.ports
  {
    JoinChannelFacts(s.(portChannel := s.portChannel[id := ch]), ch);
  }

  /** Joining adds the channel once, at the end, and may send a line;
    nothing else changes. */
  lemma JoinChannelFacts(s: State, ch: string)
    ensures var r := JoinChannel(s, ch);
      && r.joined == (if ch in s.joined then s.joined else s.joined + [ch])
      && r.(joined := s.joined, sent := s.sent) == s
      && s.sent <= r.sent
  {
  }

  /** Appending a channel not yet joined keeps the joined list free of
    duplicates. */
  lemma NoDupSnoc(xs: seq<string>, x: string)
    requires NoDup(xs) && x !in xs
    ensures NoDup(xs + [x])
  {
  }

  /** On disconnect the port leaves the list. Its channel is parted only if
      no remaining port watches it; no other channel is touched. */
  lemma DisconnectPartsOnlyUnwatched(s: State, id: nat)
    ensures var r := PortDisconnect(s, id);
      && (forall p :: p in r.ports <==> p in s.ports && p != id)
      && (forall c :: (c in r.joined) ==
            (c in s.joined && !(id in s.portChannel && s.portChannel[id] == c && c != ""
                               && !Watched(r.ports, s.portChannel, c))))
  {
    var kept := Without(s.ports, {id});
    WithoutMembers(s.ports, {id});
    if id in s.portChannel && s.portChannel[id] != "" && !Watched(kept, s.portChannel, s.portChannel[id]) {
      WithoutMembers(s.joined, {s.portChannel[id]});
    }
  }

  /** An account change tells every surviving port and, with an account,
      leaves a fresh connection attempt that is not ready. */
  lemma AccountChangeReconnects(s: State, a: Option<Account>, dead: set<nat>)
    ensures var r := AccountChanged(s, a, dead);
      && r.account == a
      && (a.Some? ==> r.socket == Connecting && !r.ready)
      && (a.None? && s.socket != NoSocket ==> r.socket == Close(s).socket)
      && (forall k :: |s.posts| <= k < |r.posts| ==> r.posts[k].1 == AccountInfo(AccountSummary(a)))
  {
    var s1 := s.(account := a);
    var s2 := if s.socket != NoSocket then Close(s1) else s1;
    var s3 := ConnectIRC(s2);
    assert s3.account == a && s3.posts == s.posts;
    assert s2.socket == (if s.socket != NoSocket then Close(s).socket else s.socket);
    BroadcastAppends(s3, AccountInfo(AccountSummary(a)), dead);
  }

  // ---------------------------------------------------------------------
  // The invariant

  lemma InitValid(a: Option<Account>)
    ensures Valid(Init(a))
    ensures a.Some? ==> Init(a).socket == Connecting
  {
  }

  lemma OnParsedKeepsValid(s: State, msg: Message, dead: set<nat>)
    requires Valid(s) && (s.socket == Open || s.socket == Closing)
    ensures var r := OnParsed(s, msg, dead);
      Valid(r) && (r.socket == Open || r.socket == Closing) && Extends(s, r)
  {
    var s1 := if msg.command == "001" then Welcome(s) else s;
    assert Valid(s1) && s1.socket == s.socket && Extends(s, s1);
    if msg.command != "PONG" && msg.command != "RECONNECT" && IsRelayed(msg.command) {
      WithoutNoDup(s1.ports, dead);
    }
  }

  lemma OnLineKeepsValid(s: State, line: string, dead: set<nat>)
    requires Valid(s) && (s.socket == Open || s.socket == Closing)
    ensures var r := OnLine(s, line, dead);
      Valid(r) && (r.socket == Open || r.socket == Closing) && Extends(s, r)
  {
    if !StartsWith(line, "PING") {
      OnParsedKeepsValid(s, Parse(line), dead);
    }
  }

  lemma {:induction false} OnLinesKeepsValid(s: State, lines: seq<string>, dead: set<nat>)
    requires Valid(s) && (s.socket == Open || s.socket == Closing)
    ensures Valid(OnLines(s, lines, dead)) && Extends(s, OnLines(s, lines, dead))
    decreases |lines|
  {
    if lines != [] {
      OnLineKeepsValid(s, lines[0], dead);
      OnLinesKeepsValid(OnLine(s, lines[0], dead), lines[1..], dead);
    }
  }

  lemma PortDisconnectKeepsValid(s: State, id: nat)
    requires Valid(s)
    ensures Valid(PortDisconnect(s, id)) && Extends(s, PortDisconnect(s, id))
  {
    WithoutNoDup(s.ports, {id});
    if id in s.portChannel {
      WithoutNoDup(s.joined, {s.portChannel[id]});
    }
  }

  lemma AccountChangedKeepsValid(s: State, a: Option<Account>, dead: set<nat>)
    requires Valid(s)
    ensures Valid(AccountChanged(s, a, dead)) && Extends(s, AccountChanged(s, a, dead))
  {
    var s1 := s.(account := a);
    var s2 := if s.socket != NoSocket then Close(s1) else s1;
    assert Valid(s2);
    assert Valid(ConnectIRC(s2));
    WithoutNoDup(ConnectIRC(s2).ports, dead);
  }

  lemma ChannelChangedKeepsValid(s: State, id: nat, ch: string, dead: set<nat>)
    requires Valid(s)
    ensures Valid(ChannelChanged(s, id, ch, dead)) && Extends(s, ChannelChanged(s, id, ch, dead))
  {
    var s0 := s.(portChannel := s.portChannel[id := ch]);
    JoinChannelFacts(s0, ch);
    if ch !in s0.joined {
      NoDupSnoc(s0.joined, ch);
    }
    var s1 := JoinChannel(s0, ch);
    assert Valid(s1) && Extends(s, s1);
  }

  /** The socket's own events and the timers keep the invariant. */
  lemma SocketEventKeepsValid(s: State, e: Event, dead: set<nat>)
    requires Valid(s) && Enabled(s, e)
    requires e.SocketOpen? || e.SocketError? || e.SocketClose? || e.ReconnectTimer? || e.PingTimer?
    ensures Valid(Step(s, e, dead)) && Extends(s, Step(s, e, dead))
  {
  }

  /** A port connecting or sending a chat line keeps the invariant. */
  lemma PortEventKeepsValid(s: State, e: Event, dead: set<nat>)
    requires Valid(s) && Enabled(s, e) && (e.PortConnected? || e.PortSend?)
    ensures Valid(Step(s, e, dead)) && Extends(s, Step(s, e, dead))
  {
  }

  /** Every event keeps the invariant and only appends to the logs. */
  lemma StepKeepsValid(s: State, e: Event, dead: set<nat>)
    requires Valid(s) && Enabled(s, e)
    ensures Valid(Step(s, e, dead)) && Extends(s, Step(s, e, dead))
  {
    match e
    case SocketFrame(data) => OnLinesKeepsValid(s, FrameLines(data), dead);
    case PortChannel(id, ch) => ChannelChangedKeepsValid(s, id, ch, dead);
    case PortDisconnected(id) => PortDisconnectKeepsValid(s, id);
    case AccountSwitched(a) => AccountChangedKeepsValid(s, a, dead);
    case PortConnected(_, _) => PortEventKeepsValid(s, e, dead);
    case PortSend(_, _) => PortEventKeepsValid(s, e, dead);
    case _ => SocketEventKeepsValid(s, e, dead);
  }
}
