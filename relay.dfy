/** The background worker's relay supervisor as the source writes it:
    module-level variables updated in place by socket, timer and port
    handlers. Each handler is proved to take the state where the
    `RelayMachine` event of the same name takes it, and to keep its
    invariant. */
module Relay {
  import opened Optional
  import opened JsString
  import opened Irc
  import M = RelayMachine

  class Supervisor {
    var account: Option<M.Account>
    var socket: M.SocketState
    var ready: bool
    var delay: int
    var pingTimer: bool
    var pong: bool
    var joined: seq<string>
    var ports: seq<nat>
    var portChannel: map<nat, string>
    var pendingReconnects: nat
    var sent: seq<string>
    var posts: seq<(nat, M.Post)>
    var waits: seq<int>

    function State(): M.State
      reads this
    {
      M.State(account, socket, ready, delay, pingTimer, pong, joined, ports, portChannel,
              pendingReconnects, sent, posts, waits)
    }

    ghost predicate Valid()
      reads this
    {
      M.Valid(State())
    }

    /** `init`: load the active account and connect. */
    constructor (active: Option<M.Account>)
      ensures State() == M.Init(active) && Valid()
    {
      account := active;
      socket := M.NoSocket;
      ready := false;
      delay := M.InitialDelay;
      pingTimer := false;
      pong := true;
      joined := [];
      ports := [];
      portChannel := map[];
      pendingReconnects := 0;
      sent := [];
      posts := [];
      waits := [];
      new;
      ConnectIRC();
      M.InitValid(active);
    }

    method Send(line: string)
      modifies this
      ensures State() == M.Send(old(State()), line)
    {
      if socket == M.Open {
        sent := sent + [line];
      }
    }

    method Close()
      modifies this
      ensures State() == M.Close(old(State()))
    {
      if socket == M.Connecting || socket == M.Open {
        socket := M.Closing;
      }
    }

    method ConnectIRC()
      modifies this
      ensures State() == M.ConnectIRC(old(State()))
    {
      if account.None? {
        return;
      }
      if socket == M.Connecting || socket == M.Open {
        return;
      }
      socket := M.Connecting;
      ready := false;
    }

    method OnOpen()
      requires Valid() && socket == M.Connecting
      modifies this
      ensures State() == M.OnOpen(old(State())) && Valid()
    {
      socket := M.Open;
      Send(M.CapRequest);
      if account.None? {
        return;
      }
      Send("PASS oauth:" + account.value.token);
      Send("NICK " + account.value.login);
    }

    method StartIRCPing()
      modifies this
      ensures State() == M.StartIRCPing(old(State()))
    {
      pingTimer := true;
      pong := true;
    }

    method Broadcast(post: M.Post, dead: set<nat>)
      modifies this
      ensures State() == M.Broadcast(old(State()), post, dead)
    {
      var kept: seq<nat> := [];
      var i := 0;
      while i < |ports|
        invariant 0 <= i <= |ports|
        invariant kept == M.Without(ports[..i], dead)
        invariant State() == old(State()).(posts := old(posts) + M.Deliveries(kept, post))
      {
        var p := ports[i];
        BroadcastStep(ports, i, dead);
        if p !in dead {
          DeliveriesSnoc(kept, p, post);
          PostTo(p, post);
          kept := kept + [p];
        }
        i := i + 1;
      }
      assert ports[..|ports|] == ports;
      ports := kept;
    }

    /** One successful `postMessage`. */
    method PostTo(p: nat, post: M.Post)
      modifies this
      ensures State() == old(State()).(posts := old(posts) + [(p, post)])
    {
      posts := posts + [(p, post)];
    }

    /** The welcome numeric: ready, delay reset, keepalive, rejoin. */
    method Welcome()
      modifies this
      ensures State() == M.Welcome(old(State()))
    {
      ready := true;
      delay := M.InitialDelay;
      StartIRCPing();
      ghost var before := State();
      var i := 0;
      while i < |joined|
        invariant 0 <= i <= |joined|
        invariant State() == M.SendAll(before, M.JoinLines(joined[..i]))
      {
        assert M.JoinLines(joined[..i + 1]) == M.JoinLines(joined[..i]) + ["JOIN #" + joined[i]];
        Send("JOIN #" + joined[i]);
        i := i + 1;
      }
      assert joined[..|joined|] == joined;
    }

    method OnLine(line: string, dead: set<nat>)
      modifies this
      ensures State() == M.OnLine(old(State()), line, dead)
    {
      if StartsWith(line, "PING") {
        Send(M.PongReply);
        return;
      }
      var msg := ParseIRCMessage(line);
      if msg.command == "001" {
        Welcome();
      }
      if msg.command == "PONG" {
        pong := true;
        return;
      }
      if msg.command == "RECONNECT" {
        Close();
        return;
      }
      if M.IsRelayed(msg.command) {
        Broadcast(M.IrcMessage(msg), dead);
      }
    }

    /** `onmessage`: split the frame and handle its lines in order. */
    method OnMessage(data: string, dead: set<nat>)
      requires Valid() && socket == M.Open
      modifies this
      ensures State() == M.OnMessage(old(State()), data, dead) && Valid()
    {
      var lines := M.FrameLines(data);
      var i := 0;
      while i < |lines|
        invariant 0 <= i <= |lines|
        invariant M.OnLines(State(), lines[i..], dead) == M.OnMessage(old(State()), data, dead)
      {
        assert lines[i..][1..] == lines[i + 1..];
        OnLine(lines[i], dead);
        i := i + 1;
      }
      M.StepKeepsValid(old(State()), M.SocketFrame(data), dead);
    }

    method OnError()
      requires Valid() && M.Live(State())
      modifies this
      ensures State() == M.OnError(old(State())) && Valid()
    {
      Close();
    }

    method OnClose()
      requires Valid() && M.Live(State())
      modifies this
      ensures State() == M.OnClose(old(State())) && Valid()
    {
      ready := false;
      pingTimer := false;
      socket := M.Closed;
      pendingReconnects := pendingReconnects + 1;
      waits := waits + [delay];
    }

    method ReconnectTimerFires()
      requires Valid() && pendingReconnects > 0
      modifies this
      ensures State() == M.ReconnectTimerFires(old(State())) && Valid()
    {
      pendingReconnects := pendingReconnects - 1;
      delay := if delay * 2 <= M.MaxDelay then delay * 2 else M.MaxDelay;
      ConnectIRC();
    }

    method PingTick()
      requires Valid() && pingTimer
      modifies this
      ensures State() == M.PingTick(old(State())) && Valid()
    {
      if !ready {
        return;
      }
      if !pong {
        Close();
        return;
      }
      pong := false;
      Send(M.Keepalive);
    }

    method JoinChannel(ch: string)
      requires Valid()
      modifies this
      ensures State() == M.JoinChannel(old(State()), ch) && Valid()
    {
      if ch in joined {
        return;
      }
      joined := joined + [ch];
      if ready {
        Send("JOIN #" + ch);
      }
    }

    method PartChannel(ch: string)
      requires Valid()
      modifies this
      ensures State() == M.PartChannel(old(State()), ch) && Valid()
    {
      if ch !in joined {
        return;
      }
      M.WithoutNoDup(joined, {ch});
      joined := M.Without(joined, {ch});
      if ready {
        Send("PART #" + ch);
      }
    }

    method SendMessage(ch: string, text: string)
      requires Valid()
      modifies this
      ensures State() == M.SendMessage(old(State()), ch, text) && Valid()
    {
      if account.None? || !ready {
        return;
      }
      Send("PRIVMSG #" + ch + " :" + text);
    }

    method PortConnect(id: nat, name: string)
      requires Valid() && id !in ports && id !in portChannel
      modifies this
      ensures State() == M.PortConnect(old(State()), id, name) && Valid()
    {
      if name != "chat" {
        return;
      }
      ports := ports + [id];
    }

    method ChannelChanged(id: nat, ch: string, dead: set<nat>)
      requires Valid()
      modifies this
      ensures State() == M.ChannelChanged(old(State()), id, ch, dead) && Valid()
    {
      var info := M.AccountSummary(account);
      portChannel := portChannel[id := ch];
      JoinChannel(ch);
      if id !in dead {
        posts := posts + [(id, M.AccountInfo(info))];
      }
      M.ChannelChangedKeepsValid(old(State()), id, ch, dead);
    }

    method PortDisconnect(id: nat)
      requires Valid()
      modifies this
      ensures State() == M.PortDisconnect(old(State()), id) && Valid()
    {
      M.PortDisconnectKeepsValid(State(), id);
      ports := M.Without(ports, {id});
      if id in portChannel && portChannel[id] != "" {
        var ch := portChannel[id];
        var stillWatched := exists p :: p in ports && p in portChannel && portChannel[p] == ch;
        if !stillWatched {
          PartChannel(ch);
        }
      }
    }

    /** `account-changed`, and the tail of `add-account`. */
    method AccountChanged(a: Option<M.Account>, dead: set<nat>)
      requires Valid()
      modifies this
      ensures State() == M.AccountChanged(old(State()), a, dead) && Valid()
    {
      M.AccountChangedKeepsValid(State(), a, dead);
      ghost var s0 := State();
      account := a;
      if socket != M.NoSocket {
        Close();
      }
      assert State() == if s0.socket != M.NoSocket then M.Close(s0.(account := a)) else s0.(account := a);
      ConnectIRC();
      ghost var s3 := State();
      Broadcast(M.AccountInfo(M.AccountSummary(a)), dead);
      assert State() == M.Broadcast(s3, M.AccountInfo(M.AccountSummary(a)), dead);
    }
  }

  /** The ports kept after one more port is tried. */
  lemma BroadcastStep(ports: seq<nat>, i: int, dead: set<nat>)
    requires 0 <= i < |ports|
    ensures M.Without(ports[..i + 1], dead)
         == M.Without(ports[..i], dead) + (if ports[i] in dead then [] else [ports[i]])
  {
    M.WithoutAppend(ports[..i], [ports[i]], dead);
    assert ports[..i + 1] == ports[..i] + [ports[i]];
    assert [ports[i]][1..] == [];
  }

  lemma DeliveriesSnoc(kept: seq<nat>, p: nat, post: M.Post)
    ensures M.Deliveries(kept + [p], post) == M.Deliveries(kept, post) + [(p, post)]
  {
  }

  // ---------------------------------------------------------------------
  // Recent-message history

  predicate IsHistoryCommand(command: string)
  {
    command == "PRIVMSG" || command == "CLEARCHAT" || command == "CLEARMSG"
  }

  /** Every line parsed, in order. */
  function ParseAll(raws: seq<string>): seq<Message>
  {
    seq(|raws|, i requires 0 <= i < |raws| => Parse(raws[i]))
  }

  /** The parsed lines that carry PRIVMSG, CLEARCHAT or CLEARMSG, in
      order. */
  function KeepChat(msgs: seq<Message>): seq<Message>
  {
    if msgs == [] then []
    else
      var last := msgs[|msgs| - 1];
      KeepChat(msgs[..|msgs| - 1]) + (if IsHistoryCommand(last.command) then [last] else [])
  }

  /** The history lines kept: parsed, and only the three chat commands. */
  function History(raws: seq<string>): seq<Message>
  {
    KeepChat(ParseAll(raws))
  }

  lemma {:induction false} KeepChatMembers(msgs: seq<Message>)
    ensures forall m :: m in KeepChat(msgs) <==> m in msgs && IsHistoryCommand(m.command)
    decreases |msgs|
  {
    if msgs != [] {
      var init := msgs[..|msgs| - 1];
      KeepChatMembers(init);
      assert msgs == init + [msgs[|msgs| - 1]];
    }
  }

  lemma KeepChatSnoc(msgs: seq<Message>, m: Message)
    ensures KeepChat(msgs + [m]) == KeepChat(msgs) + (if IsHistoryCommand(m.command) then [m] else [])
  {
    assert (msgs + [m])[..|msgs|] == msgs;
  }

  /** One more line adds its parse when it is a chat command. */
  lemma HistoryStep(raws: seq<string>, i: int)
    requires 0 <= i < |raws|
    ensures History(raws[..i + 1]) == History(raws[..i])
      + (if IsHistoryCommand(Parse(raws[i]).command) then [Parse(raws[i])] else [])
  {
    assert raws[..i + 1][..i] == raws[..i];
    assert ParseAll(raws[..i + 1]) == ParseAll(raws[..i]) + [Parse(raws[i])];
    KeepChatSnoc(ParseAll(raws[..i]), Parse(raws[i]));
  }

  /** A message is kept exactly when it parses from one of the lines and
      carries PRIVMSG, CLEARCHAT or CLEARMSG. */
  lemma HistoryMembers(raws: seq<string>)
    ensures forall m :: m in History(raws) <==>
      IsHistoryCommand(m.command) && exists i :: 0 <= i < |raws| && Parse(raws[i]) == m
  {
    var ps := ParseAll(raws);
    KeepChatMembers(ps);
    MapMembers(Parse, raws, ps);
  }

  /** The members of a sequence computed element by element are the images
      of the inputs. */
  lemma MapMembers<A, B>(f: A -> B, xs: seq<A>, ys: seq<B>)
    requires |ys| == |xs| && forall i :: 0 <= i < |xs| ==> ys[i] == f(xs[i])
    ensures forall y :: y in ys <==> exists i :: 0 <= i < |xs| && f(xs[i]) == y
  {
    forall y
      ensures y in ys ==> exists i :: 0 <= i < |xs| && f(xs[i]) == y
    {
      if y in ys {
        var i :| 0 <= i < |ys| && ys[i] == y;
        assert f(xs[i]) == y;
      }
    }
  }

  /** `fetchRecentMessages` after the HTTP request: a failed response is an
      error naming the status; otherwise the kept lines, in order. */
  method FetchRecentMessages(ok: bool, status: int, raws: seq<string>)
    returns (r: Result<seq<Message>>)
    ensures !ok <==> r.Err?
    ensures !ok ==> r.reason == "recent-messages: " + IntToString(status)
    ensures ok ==> r.value == History(raws)
  {
    if !ok {
      return Err("recent-messages: " + IntToString(status));
    }
    var parsed: seq<Message> := [];
    var i := 0;
    while i < |raws|
      invariant 0 <= i <= |raws|
      invariant parsed == History(raws[..i])
    {
      var msg := ParseIRCMessage(raws[i]);
      HistoryStep(raws, i);
      if IsHistoryCommand(msg.command) {
        parsed := parsed + [msg];
      }
      i := i + 1;
    }
    assert raws[..|raws|] == raws;
    return Ok(parsed);
  }
}
