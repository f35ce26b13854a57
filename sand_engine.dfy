/**
 * Falling-sands streaming engine: the connected viewer sockets, their
 * keyframe bookkeeping, the keep-alive sweep, the synchronous part of a tick
 * (change detection, delta encoding, snapshot of the recipients) and the
 * deferred fan-out of the compressed messages.
 */
module SandEngine {
  import opened Wire
  import opened Options
  import opened SandFrames

  const PING_INTERVAL_MS: nat := 20000

  /** One viewer socket and the engine's per-socket flags. */
  class Client {
    /** `readyState === OPEN` */
    var open: bool
    /** Member of the engine's `readyClients` set. */
    var ready: bool
    /** Member of the engine's `needsKeyframe` set. */
    var needsKeyframe: bool
    /** `ws._pongPending`: a ping went out and no pong came back yet. */
    var pongPending: bool

    /** A socket as the connection handler leaves it. */
    constructor ()
      ensures open && !ready && !needsKeyframe && !pongPending
    {
      open := true;
      ready := false;
      needsKeyframe := false;
      pongPending := false;
    }
  }

  /** What a socket can send: the text `ping`, or JSON whose `type` is read. */
  datatype Inbound = PingText | ReadyCommand | ResetCommand | OtherJson | NotJson

  datatype Outbound = PongText | ConfigText(width: nat, height: nat)

  /** What the message handler did besides replying. */
  datatype Reaction = Reaction(reply: Option<Outbound>, resetUniverse: bool)

  /** A snapshot entry: the socket and whether it was still waiting for its keyframe. */
  datatype Recipient = Recipient(client: Client, wantsKeyframe: bool)

  /**
   * The result of the synchronous part of a tick. Idle: no server or no
   * socket. Unchanged: nothing to send. Broadcast: the frame, whether a
   * keyframe must be encoded, the delta if one was built, and the recipients.
   */
  datatype Plan =
    | Idle
    | Unchanged
    | Broadcast(frame: seq<byte>, needKeyframe: bool, delta: Option<seq<byte>>, recipients: seq<Recipient>)

  datatype Kind = KeyframeMessage | DeltaMessage

  datatype Delivery = Delivery(recipient: Recipient, kind: Kind, payload: seq<byte>)

  predicate Distinct(cs: seq<Client>)
  {
    forall i, j :: 0 <= i < j < |cs| ==> cs[i] != cs[j]
  }

  /** The condition of the tick's `anyNeedsKeyframe` loop for one socket. */
  predicate Waiting(c: Client)
    reads c
  {
    c.open && c.ready && c.needsKeyframe
  }

  predicate SomeoneWaiting(cs: seq<Client>)
    reads cs
  {
    exists i :: 0 <= i < |cs| && Waiting(cs[i])
  }

  /** No socket appears twice among the recipients. */
  predicate DistinctClients(rs: seq<Recipient>)
  {
    forall i, j :: 0 <= i < j < |rs| ==> rs[i].client != rs[j].client
  }

  /** No socket is sent two messages. */
  predicate OnePerClient(ds: seq<Delivery>)
  {
    forall i, j :: 0 <= i < j < |ds| ==> ds[i].recipient.client != ds[j].recipient.client
  }

  /** The open, ready sockets in iteration order, each with its keyframe flag. */
  function Snapshot(cs: seq<Client>): (rs: seq<Recipient>)
    reads cs
    ensures |rs| <= |cs|
    ensures forall k :: 0 <= k < |rs| ==>
      rs[k].client in cs && rs[k].client.open && rs[k].client.ready
      && rs[k].wantsKeyframe == rs[k].client.needsKeyframe
    ensures Distinct(cs) ==> DistinctClients(rs)
    decreases |cs|
  {
    if cs == [] then []
    else
      var c := cs[|cs| - 1];
      Snapshot(cs[..|cs| - 1]) + (if c.open && c.ready then [Recipient(c, c.needsKeyframe)] else [])
  }

  /** Every open ready socket is in the snapshot. */
  lemma {:induction false} SnapshotComplete(cs: seq<Client>, i: nat)
    requires i < |cs| && cs[i].open && cs[i].ready
    ensures Recipient(cs[i], cs[i].needsKeyframe) in Snapshot(cs)
    decreases |cs|
  {
    if i < |cs| - 1 {
      assert cs[..|cs| - 1][i] == cs[i];
      SnapshotComplete(cs[..|cs| - 1], i);
    }
  }

  /** A waiting recipient in the snapshot means the keyframe is requested. */
  lemma SnapshotWaiters(cs: seq<Client>)
    ensures forall k :: 0 <= k < |Snapshot(cs)| && Snapshot(cs)[k].wantsKeyframe ==> SomeoneWaiting(cs)
  {
    var rs := Snapshot(cs);
    forall k | 0 <= k < |rs| && rs[k].wantsKeyframe
      ensures SomeoneWaiting(cs)
    {
      var c := rs[k].client;
      var i :| 0 <= i < |cs| && cs[i] == c;
      assert Waiting(cs[i]);
    }
  }

  /** Every recipient that waited for a keyframe has one encoded for it. */
  predicate KeyframeForWaiters(plan: Plan)
  {
    plan.Broadcast? ==>
      forall k :: 0 <= k < |plan.recipients| && plan.recipients[k].wantsKeyframe ==> plan.needKeyframe
  }

  /** The fan-out rule for one recipient, given the compressed messages. */
  function Choose(r: Recipient, keyframe: Option<seq<byte>>, delta: Option<seq<byte>>): (d: Option<Delivery>)
    reads r.client
    ensures d.Some? ==> d.value.recipient == r && r.client.open
  {
    if !r.client.open then None
    else if r.wantsKeyframe && keyframe.Some? then Some(Delivery(r, KeyframeMessage, keyframe.value))
    else if delta.Some? then Some(Delivery(r, DeltaMessage, delta.value))
    else if keyframe.Some? then Some(Delivery(r, KeyframeMessage, keyframe.value))
    else None
  }

  function Deliveries(rs: seq<Recipient>, keyframe: Option<seq<byte>>, delta: Option<seq<byte>>): (ds: seq<Delivery>)
    reads set k | 0 <= k < |rs| :: rs[k].client
    ensures |ds| <= |rs|
    ensures forall i :: 0 <= i < |ds| ==> ds[i].recipient in rs
    ensures DistinctClients(rs) ==> OnePerClient(ds)
    decreases |rs|
  {
    if rs == [] then []
    else
      var d := Choose(rs[|rs| - 1], keyframe, delta);
      Deliveries(rs[..|rs| - 1], keyframe, delta) + (if d.Some? then [d.value] else [])
  }

  /**
   * What the fan-out sends: each delivery goes to an open recipient; a
   * recipient waiting for a keyframe gets the keyframe whenever one was
   * compressed; a keyframe delivery carries the compressed keyframe and a
   * delta delivery the compressed delta, which is only chosen for a
   * recipient that did not wait or when no keyframe exists.
   */
  lemma {:induction false} DeliveriesSound(rs: seq<Recipient>, keyframe: Option<seq<byte>>, delta: Option<seq<byte>>)
    ensures forall d :: d in Deliveries(rs, keyframe, delta) ==>
      d.recipient in rs && d.recipient.client.open
      && (d.recipient.wantsKeyframe && keyframe.Some? ==> d.kind == KeyframeMessage)
      && (d.kind == KeyframeMessage ==> keyframe.Some? && d.payload == keyframe.value)
      && (d.kind == DeltaMessage ==> delta.Some? && d.payload == delta.value)
    decreases |rs|
  {
    if rs != [] {
      DeliveriesSound(rs[..|rs| - 1], keyframe, delta);
    }
  }

  /**
   * Every recipient still open gets a message when there is any message at
   * all, and no more than one when the recipients are distinct sockets.
   */
  lemma {:induction false} DeliveriesComplete(rs: seq<Recipient>, keyframe: Option<seq<byte>>, delta: Option<seq<byte>>, k: nat)
    requires k < |rs| && rs[k].client.open && (keyframe.Some? || delta.Some?)
    ensures exists d :: d in Deliveries(rs, keyframe, delta) && d.recipient == rs[k]
    ensures DistinctClients(rs) ==> forall i, j ::
      (0 <= i < |Deliveries(rs, keyframe, delta)| && 0 <= j < |Deliveries(rs, keyframe, delta)|
       && Deliveries(rs, keyframe, delta)[i].recipient == rs[k] && Deliveries(rs, keyframe, delta)[j].recipient == rs[k]) ==> i == j
    decreases |rs|
  {
    var init := rs[..|rs| - 1];
    if k < |rs| - 1 {
      assert init[k] == rs[k];
      DeliveriesComplete(init, keyframe, delta, k);
      var d :| d in Deliveries(init, keyframe, delta) && d.recipient == rs[k];
      assert d in Deliveries(rs, keyframe, delta);
    } else {
      var d := Choose(rs[k], keyframe, delta);
      assert d.Some? && d.value in Deliveries(rs, keyframe, delta);
    }
  }

  /** The deferred part of a tick, as a function of the plan and of the codec. */
  function FanOutResult(plan: Plan, compress: seq<byte> -> Option<seq<byte>>): (ds: seq<Delivery>)
    reads if plan.Broadcast? then set k | 0 <= k < |plan.recipients| :: plan.recipients[k].client else {}
    ensures plan.Broadcast? && DistinctClients(plan.recipients) ==> OnePerClient(ds)
  {
    if !plan.Broadcast? || plan.recipients == [] then []
    else
      var keyframe := if plan.needKeyframe then compress(EncodeKeyframe(plan.frame)) else None;
      var delta := if plan.delta.Some? then compress(plan.delta.value) else None;
      if !plan.needKeyframe && plan.delta.None? then []
      else if (plan.needKeyframe && keyframe.None?) || (plan.delta.Some? && delta.None?) then []
      else Deliveries(plan.recipients, keyframe, delta)
  }

  /** The tick's state: server, sockets and the previous frame. */
  class SandStreamer {
    /** `wss !== null` */
    var attached: bool
    /** `wss.clients`, in iteration order. */
    var clients: seq<Client>
    var prevFrame: Option<seq<byte>>

    ghost predicate Valid()
      reads this
    {
      Distinct(clients) && FrameSized(prevFrame)
    }

    function Sockets(): set<Client>
      reads this
    {
      set c | c in clients
    }

    constructor ()
      ensures Valid() && !attached && clients == [] && prevFrame == None
    {
      attached := false;
      clients := [];
      prevFrame := None;
    }

    /** `attachWebSocket`: the server exists from now on. */
    method Attach()
      modifies this`attached
      ensures attached
    {
      attached := true;
    }

    /** The connection handler: a new open socket with no pong pending. */
    method Connect() returns (c: Client)
      requires Valid() && attached
      modifies this`clients
      ensures Valid() && fresh(c) && clients == old(clients) + [c]
      ensures c.open && !c.ready && !c.needsKeyframe && !c.pongPending
    {
      c := new Client();
      clients := clients + [c];
    }

    /** The socket closed: it leaves `wss.clients`. */
    method Disconnect(c: Client)
      requires Valid() && c in clients
      modifies this`clients, c`open
      ensures Valid() && !c.open
      ensures clients == Without(old(clients), c)
    {
      c.open := false;
      clients := Without(clients, c);
    }

    /** The pong handler. */
    method OnPong(c: Client)
      modifies c`pongPending
      ensures !c.pongPending
    {
      c.pongPending := false;
    }

    /**
     * The message handler: `ping` is answered with `pong`; a ready command
     * on an open socket sends the grid size and marks the socket ready and
     * waiting for a keyframe; a reset command resets the universe; anything
     * else is ignored.
     */
    method OnMessage(c: Client, msg: Inbound) returns (r: Reaction)
      modifies c`ready, c`needsKeyframe
      ensures msg == PingText ==> r == Reaction(Some(PongText), false)
      ensures msg == ReadyCommand && old(c.open) ==>
        r == Reaction(Some(ConfigText(WIDTH, HEIGHT)), false) && c.ready && c.needsKeyframe
      ensures msg == ResetCommand ==> r == Reaction(None, true)
      ensures msg in {OtherJson, NotJson} || (msg == ReadyCommand && !old(c.open)) ==> r == Reaction(None, false)
      ensures !(msg == ReadyCommand && old(c.open)) ==>
        c.ready == old(c.ready) && c.needsKeyframe == old(c.needsKeyframe)
    {
      match msg {
        case PingText => r := Reaction(Some(PongText), false);
        case ReadyCommand =>
          if !c.open {
            r := Reaction(None, false);
          } else {
            c.needsKeyframe := true;
            c.ready := true;
            r := Reaction(Some(ConfigText(WIDTH, HEIGHT)), false);
          }
        case ResetCommand => r := Reaction(None, true);
        case OtherJson => r := Reaction(None, false);
        case NotJson => r := Reaction(None, false);
      }
    }

    /**
     * The keep-alive sweep: a socket whose previous ping is unanswered is
     * terminated, every other one is pinged and marked as waiting for a pong.
     * Two sweeps with no pong in between therefore terminate a socket.
     */
    method KeepAliveSweep() returns (pinged: seq<Client>)
      requires Valid()
      modifies Sockets()
      ensures Valid() && clients == old(clients)
      ensures pinged == old(NotPending(clients))
      ensures forall c :: c in clients ==>
        c.pongPending && c.open == (old(c.open) && !old(c.pongPending))
        && c.ready == old(c.ready) && c.needsKeyframe == old(c.needsKeyframe)
    {
      pinged := [];
      var i := 0;
      while i < |clients|
        invariant 0 <= i <= |clients|
        invariant pinged == old(NotPending(clients[..i]))
        invariant forall k :: 0 <= k < i ==>
          clients[k].pongPending && clients[k].open == (old(clients[k].open) && !old(clients[k].pongPending))
        invariant forall k :: i <= k < |clients| ==>
          clients[k].pongPending == old(clients[k].pongPending) && clients[k].open == old(clients[k].open)
        invariant forall c :: c in clients ==> c.ready == old(c.ready) && c.needsKeyframe == old(c.needsKeyframe)
      {
        var c := clients[i];
        assert clients[..i + 1][..i] == clients[..i];
        if c.pongPending {
          c.open := false;
        } else {
          c.pongPending := true;
          pinged := pinged + [c];
        }
        i := i + 1;
      }
      assert clients[..i] == clients;
    }

    /** The `anyNeedsKeyframe` loop, which stops at the first waiting socket. */
    method AnyNeedsKeyframe() returns (any: bool)
      ensures any == SomeoneWaiting(clients)
    {
      any := false;
      var i := 0;
      while i < |clients|
        invariant 0 <= i <= |clients|
        invariant !any && forall k :: 0 <= k < i ==> !Waiting(clients[k])
      {
        var c := clients[i];
        if c.open && c.ready && c.needsKeyframe {
          any := true;
          return;
        }
        i := i + 1;
      }
    }

    /** The snapshot loop: record each open ready socket and clear its keyframe flag. */
    method TakeSnapshot() returns (rs: seq<Recipient>)
      requires Valid()
      modifies Sockets()
      ensures rs == old(Snapshot(clients)) && DistinctClients(rs)
      ensures forall c :: c in clients ==>
        c.open == old(c.open) && c.ready == old(c.ready) && c.pongPending == old(c.pongPending)
        && c.needsKeyframe == (old(c.needsKeyframe) && !(old(c.open) && old(c.ready)))
    {
      rs := [];
      var i := 0;
      while i < |clients|
        invariant 0 <= i <= |clients|
        invariant rs == old(Snapshot(clients[..i]))
        invariant forall c :: c in clients ==>
          c.open == old(c.open) && c.ready == old(c.ready) && c.pongPending == old(c.pongPending)
        invariant forall k :: 0 <= k < i ==>
          clients[k].needsKeyframe == (old(clients[k].needsKeyframe) && !(old(clients[k].open) && old(clients[k].ready)))
        invariant forall k :: i <= k < |clients| ==> clients[k].needsKeyframe == old(clients[k].needsKeyframe)
      {
        var c := clients[i];
        assert clients[..i + 1][..i] == clients[..i];
        if c.open && c.ready {
          var wants := c.needsKeyframe;
          if wants {
            c.needsKeyframe := false;
          }
          rs := rs + [Recipient(c, wants)];
        }
        i := i + 1;
      }
      assert clients[..i] == clients;
      forall c | c in clients
        ensures c.needsKeyframe == (old(c.needsKeyframe) && !(old(c.open) && old(c.ready)))
      {
        var k :| 0 <= k < |clients| && clients[k] == c;
      }
    }

    /**
     * The synchronous part of a tick. With no server or no socket the
     * previous frame is forgotten. Otherwise the frame is compared with the
     * previous one, the encoding is decided as `Decide` says, the frame
     * becomes the previous one, and (unless the tick is skipped) the open
     * ready sockets are snapshotted and their keyframe flags cleared.
     */
    method Tick(cells: seq<byte>) returns (plan: Plan)
      requires Valid() && |cells| == FRAME_SIZE
      modifies this`prevFrame, Sockets()
      ensures Valid() && KeyframeForWaiters(plan)
      ensures !attached || clients == [] ==> plan == Idle && prevFrame == None
      ensures attached && clients != [] ==>
        prevFrame == Some(cells)
        && var d := Decide(cells, old(prevFrame), old(SomeoneWaiting(clients)));
           (d.Skip? ==> plan == Unchanged)
           && (d.Send? ==> plan == Broadcast(cells, d.keyframe.Some?, d.delta, old(Snapshot(clients))))
      ensures forall c :: c in clients ==>
        c.open == old(c.open) && c.ready == old(c.ready) && c.pongPending == old(c.pongPending)
        && c.needsKeyframe == (old(c.needsKeyframe) && !(plan.Broadcast? && old(c.open) && old(c.ready)))
    {
      if !attached || |clients| == 0 {
        prevFrame := None;
        return Idle;
      }
      var anyNeeds := AnyNeedsKeyframe();
      var skip, needKeyframe, delta := EncodeTick(cells, prevFrame, anyNeeds);
      prevFrame := Some(cells);
      if skip {
        return Unchanged;
      }
      SnapshotWaiters(clients);
      var rs := TakeSnapshot();
      plan := Broadcast(cells, needKeyframe, delta, rs);
    }

    /**
     * The deferred fan-out. No recipient: nothing happens. Otherwise the
     * keyframe (if requested) and the delta (if built) are compressed once
     * each; if either compression fails nothing is sent, else every
     * recipient still open receives one message by the rule of `Choose`.
     */
    method FanOut(plan: Plan, compress: seq<byte> -> Option<seq<byte>>) returns (sends: seq<Delivery>, compressions: nat)
      ensures sends == FanOutResult(plan, compress)
      ensures compressions <= 2
      ensures compressions == if !plan.Broadcast? || plan.recipients == [] then 0
        else (if plan.needKeyframe then 1 else 0) + (if plan.delta.Some? then 1 else 0)
    {
      sends := [];
      compressions := 0;
      if !plan.Broadcast? || |plan.recipients| == 0 {
        return;
      }
      var keyframe: Option<seq<byte>> := None;
      var delta: Option<seq<byte>> := None;
      var failed := false;
      if plan.needKeyframe {
        var msg := BuildKeyframe(plan.frame);
        keyframe := compress(msg[..]);
        compressions := compressions + 1;
        failed := keyframe.None?;
      }
      if plan.delta.Some? {
        delta := compress(plan.delta.value);
        compressions := compressions + 1;
        failed := failed || delta.None?;
      }
      if compressions == 0 || failed {
        return;
      }
      sends := Deliver(plan.recipients, keyframe, delta);
    }
  }

  /** One more recipient appends its `Choose` to the deliveries so far. */
  lemma DeliveriesStep(rs: seq<Recipient>, k: nat, keyframe: Option<seq<byte>>, delta: Option<seq<byte>>)
    requires k < |rs|
    ensures Deliveries(rs[..k + 1], keyframe, delta) == Deliveries(rs[..k], keyframe, delta)
      + (if Choose(rs[k], keyframe, delta).Some? then [Choose(rs[k], keyframe, delta).value] else [])
  {
    assert rs[..k + 1][..k] == rs[..k];
  }

  /** The send loop over the recorded recipients. */
  method Deliver(rs: seq<Recipient>, keyframe: Option<seq<byte>>, delta: Option<seq<byte>>) returns (sends: seq<Delivery>)
    ensures sends == Deliveries(rs, keyframe, delta)
  {
    sends := [];
    var k := 0;
    while k < |rs|
      invariant 0 <= k <= |rs|
      invariant sends == Deliveries(rs[..k], keyframe, delta)
    {
      DeliveriesStep(rs, k, keyframe, delta);
      var r := rs[k];
      if r.client.open {
        if r.wantsKeyframe && keyframe.Some? {
          sends := sends + [Delivery(r, KeyframeMessage, keyframe.value)];
        } else if delta.Some? {
          sends := sends + [Delivery(r, DeltaMessage, delta.value)];
        } else if keyframe.Some? {
          sends := sends + [Delivery(r, KeyframeMessage, keyframe.value)];
        }
      }
      k := k + 1;
    }
    assert rs[..k] == rs;
  }

  /** The sockets with no pong pending, in order: the ones the sweep pings. */
  function NotPending(cs: seq<Client>): (r: seq<Client>)
    reads cs
    ensures forall i :: 0 <= i < |r| ==> r[i] in cs && !r[i].pongPending
    ensures forall i :: 0 <= i < |cs| && !cs[i].pongPending ==> cs[i] in r
    decreases |cs|
  {
    if cs == [] then []
    else NotPending(cs[..|cs| - 1]) + (if cs[|cs| - 1].pongPending then [] else [cs[|cs| - 1]])
  }

  /** The sequence with every occurrence of `c` removed. */
  function Without(cs: seq<Client>, c: Client): (r: seq<Client>)
    ensures forall i :: 0 <= i < |r| ==> r[i] in cs && r[i] != c
    ensures forall i :: 0 <= i < |cs| && cs[i] != c ==> cs[i] in r
    ensures Distinct(cs) ==> Distinct(r)
    decreases |cs|
  {
    if cs == [] then []
    else if cs[0] == c then Without(cs[1..], c)
    else [cs[0]] + Without(cs[1..], c)
  }

  /**
   * Keyframe before delta: in a tick's broadcast, a recipient that waited for
   * its keyframe and is still open receives the keyframe and never the delta.
   */
  lemma WaitersGetKeyframe(plan: Plan, compress: seq<byte> -> Option<seq<byte>>)
    requires KeyframeForWaiters(plan)
    ensures forall d :: d in FanOutResult(plan, compress) && d.recipient.wantsKeyframe ==>
      plan.Broadcast? && d.kind == KeyframeMessage
      && compress(EncodeKeyframe(plan.frame)).Some? && d.payload == compress(EncodeKeyframe(plan.frame)).value
  {
    if plan.Broadcast? && plan.recipients != [] {
      var keyframe := if plan.needKeyframe then compress(EncodeKeyframe(plan.frame)) else None;
      var delta := if plan.delta.Some? then compress(plan.delta.value) else None;
      DeliveriesSound(plan.recipients, keyframe, delta);
      forall d | d in FanOutResult(plan, compress) && d.recipient.wantsKeyframe
        ensures d.kind == KeyframeMessage
        ensures compress(EncodeKeyframe(plan.frame)).Some? && d.payload == compress(EncodeKeyframe(plan.frame)).value
      {
        var k :| 0 <= k < |plan.recipients| && plan.recipients[k] == d.recipient;
      }
    }
  }
}
