/** How a host counts its connected and its bandwidth-limited peers while they go through the
    states of a connection: src/enet/peer.c:345-367, 374-384, 499-585 and src/enet/protocol.c:35-57,
    119-159, 761-774, 808-835, 911-934, 936-996. */
module HostCounters {
  import opened Words

  datatype State =
    | Disconnected | Connecting | AcknowledgingConnect | ConnectionPending | ConnectionSucceeded
    | Connected | DisconnectLater | Disconnecting | AcknowledgingDisconnect | Zombie

  datatype Peer = Peer(state: State, incomingBandwidth: u32)

  predicate Online(s: State) {
    s == Connected || s == DisconnectLater
  }

  function ConnectedIn(peers: seq<Peer>): nat {
    if peers == [] then 0
    else ConnectedIn(peers[..|peers| - 1]) + if Online(peers[|peers| - 1].state) then 1 else 0
  }

  function LimitedIn(peers: seq<Peer>): nat {
    if peers == [] then 0
    else
      var p := peers[|peers| - 1];
      LimitedIn(peers[..|peers| - 1]) + if Online(p.state) && p.incomingBandwidth != 0 then 1 else 0
  }

  function One(b: bool): nat {
    if b then 1 else 0
  }

  lemma {:induction false} CountsMove(peers: seq<Peer>, i: nat, q: Peer)
    requires i < |peers|
    ensures ConnectedIn(peers[i := q]) + One(Online(peers[i].state)) == ConnectedIn(peers) + One(Online(q.state))
    ensures LimitedIn(peers[i := q]) + One(Online(peers[i].state) && peers[i].incomingBandwidth != 0)
         == LimitedIn(peers) + One(Online(q.state) && q.incomingBandwidth != 0)
    decreases |peers|
  {
    var n := |peers| - 1;
    if i < n {
      CountsMove(peers[..n], i, q);
      assert peers[i := q][..n] == peers[..n][i := q];
    } else {
      assert peers[i := q][..n] == peers[..n];
    }
  }

  // ---- the state machine, with counters that could go below zero ----

  datatype Hosting = Hosting(peers: seq<Peer>, connectedPeers: int, bandwidthLimitedPeers: int)

  /** The counters are right, and a peer that has not heard from the other side has no limit. */
  predicate Counted(h: Hosting) {
    && h.connectedPeers == ConnectedIn(h.peers) && h.bandwidthLimitedPeers == LimitedIn(h.peers)
    && forall i: nat :: i < |h.peers| && (h.peers[i].state == Disconnected || h.peers[i].state == Connecting) ==>
         h.peers[i].incomingBandwidth == 0
  }

  function Put(h: Hosting, i: nat, p: Peer): Hosting
    requires i < |h.peers|
  {
    h.(peers := h.peers[i := p])
  }

  function OnConnect(h: Hosting, i: nat): Hosting
    requires i < |h.peers|
  {
    if Online(h.peers[i].state) then h
    else h.(connectedPeers := h.connectedPeers + 1,
            bandwidthLimitedPeers := h.bandwidthLimitedPeers + One(h.peers[i].incomingBandwidth != 0))
  }

  function OnDisconnect(h: Hosting, i: nat): Hosting
    requires i < |h.peers|
  {
    if !Online(h.peers[i].state) then h
    else h.(connectedPeers := h.connectedPeers - 1,
            bandwidthLimitedPeers := h.bandwidthLimitedPeers - One(h.peers[i].incomingBandwidth != 0))
  }

  function ChangeState(h: Hosting, i: nat, s: State): Hosting
    requires i < |h.peers|
  {
    var g := if Online(s) then OnConnect(h, i) else OnDisconnect(h, i);
    Put(g, i, h.peers[i].(state := s))
  }

  function Reset(h: Hosting, i: nat): Hosting
    requires i < |h.peers|
  {
    Put(OnDisconnect(h, i), i, Peer(Disconnected, 0))
  }

  /** What sending does to the peers' states: the acknowledgement of a disconnection goes out, or
      nothing is left to send to a peer that is to be disconnected later. */
  datatype Sending = Acknowledged(peer: nat) | Drained(peer: nat)

  function Sent(h: Hosting, s: Sending): Hosting {
    if s.peer >= |h.peers| || h.peers[s.peer].state == Disconnected || h.peers[s.peer].state == Zombie then h
    else match s
      case Acknowledged(i) => ChangeState(h, i, Zombie)
      case Drained(i) => if h.peers[i].state == DisconnectLater then Leaving(h, i) else h
  }

  /** enet_peer_disconnect of a connected peer. */
  function Leaving(h: Hosting, i: nat): Hosting
    requires i < |h.peers|
  {
    Put(OnDisconnect(h, i), i, h.peers[i].(state := Disconnecting))
  }

  function Flushed(h: Hosting, sent: seq<Sending>): Hosting
    decreases |sent|
  {
    if sent == [] then h else Flushed(Sent(h, sent[0]), sent[1..])
  }

  function Disconnect(h: Hosting, i: nat, sent: seq<Sending>): Hosting
    requires i < |h.peers|
  {
    var s := h.peers[i].state;
    if s == Disconnecting || s == Disconnected || s == AcknowledgingDisconnect || s == Zombie then h
    else if Online(s) then Leaving(h, i)
    else
      FlushKeepsPeers(h, sent);
      Reset(Flushed(h, sent), i)
  }

  lemma {:induction false} FlushKeepsPeers(h: Hosting, sent: seq<Sending>)
    ensures |Flushed(h, sent).peers| == |h.peers|
    decreases |sent|
  {
    if sent != [] {
      FlushKeepsPeers(Sent(h, sent[0]), sent[1..]);
    }
  }

  function FirstFree(peers: seq<Peer>): (i: nat)
    ensures i <= |peers|
    ensures i < |peers| ==> peers[i].state == Disconnected
    ensures forall k: nat :: k < i ==> peers[k].state != Disconnected
  {
    if peers == [] || peers[0].state == Disconnected then 0 else 1 + FirstFree(peers[1..])
  }

  /** enet_host_connect */
  function Connect(h: Hosting): Hosting {
    var i := FirstFree(h.peers);
    if i == |h.peers| then h else Put(h, i, h.peers[i].(state := Connecting))
  }

  /** enet_protocol_handle_connect; refused stands for its other reasons to give up. */
  function HandleConnect(h: Hosting, bandwidth: u32, refused: bool): Hosting {
    var i := FirstFree(h.peers);
    if i == |h.peers| || refused then h else Put(h, i, Peer(AcknowledgingConnect, bandwidth))
  }

  /** waiting: the application is waiting for an event. */
  function NotifyConnect(h: Hosting, i: nat, waiting: bool): Hosting
    requires i < |h.peers|
  {
    ChangeState(h, i, if waiting then Connected
                      else if h.peers[i].state == Connecting then ConnectionSucceeded else ConnectionPending)
  }

  /** The states declared before CONNECTION_SUCCEEDED. */
  predicate Early(s: State) {
    s == Disconnected || s == Connecting || s == AcknowledgingConnect || s == ConnectionPending
  }

  function NotifyDisconnect(h: Hosting, i: nat, waiting: bool): Hosting
    requires i < |h.peers|
  {
    if (h.peers[i].state != Connecting && Early(h.peers[i].state)) || waiting then Reset(h, i)
    else ChangeState(h, i, Zombie)
  }

  /** matches: the parameters are those asked for. */
  function HandleVerifyConnect(h: Hosting, i: nat, matches: bool, bandwidth: u32, waiting: bool): Hosting
    requires i < |h.peers|
  {
    if h.peers[i].state != Connecting then h
    else if !matches then ChangeState(h, i, Zombie)
    else NotifyConnect(Put(h, i, h.peers[i].(incomingBandwidth := bandwidth)), i, waiting)
  }

  /** acknowledge: the other side wants its disconnection acknowledged. */
  function HandleDisconnect(h: Hosting, i: nat, acknowledge: bool): Hosting
    requires i < |h.peers|
  {
    var s := h.peers[i].state;
    if s == Disconnected || s == Zombie || s == AcknowledgingDisconnect then h
    else if s == ConnectionSucceeded || s == Disconnecting || s == Connecting then ChangeState(h, i, Zombie)
    else if !Online(s) then Reset(h, i)
    else ChangeState(h, i, if acknowledge then AcknowledgingDisconnect else Zombie)
  }

  /** The command an acknowledgement settled. */
  datatype Settled = VerifyConnect | Disconnection | Other

  /** The end of enet_protocol_handle_acknowledge; drained: nothing is left to send. */
  function HandleAcknowledge(h: Hosting, i: nat, settled: Settled, drained: bool, waiting: bool): Hosting
    requires i < |h.peers|
  {
    match h.peers[i].state
    case AcknowledgingConnect => if settled == VerifyConnect then NotifyConnect(h, i, waiting) else h
    case Disconnecting => if settled == Disconnection then NotifyDisconnect(h, i, waiting) else h
    case DisconnectLater => if drained then Leaving(h, i) else h
    case _ => h
  }

  function HandleBandwidthLimit(h: Hosting, i: nat, bandwidth: u32): Hosting
    requires i < |h.peers|
  {
    if !Online(h.peers[i].state) then h
    else Put(h, i, h.peers[i].(incomingBandwidth := bandwidth))
      .(bandwidthLimitedPeers := h.bandwidthLimitedPeers - One(h.peers[i].incomingBandwidth != 0) + One(bandwidth != 0))
  }

  function DisconnectNow(h: Hosting, i: nat, sent: seq<Sending>): Hosting
    requires i < |h.peers|
  {
    var s := h.peers[i].state;
    FlushKeepsPeers(h, sent);
    if s == Disconnected then h
    else Reset(if s == Zombie || s == Disconnecting then h else Flushed(h, sent), i)
  }

  function LeaveLater(h: Hosting, i: nat, drained: bool, sent: seq<Sending>): Hosting
    requires i < |h.peers|
  {
    if Online(h.peers[i].state) && !drained then Put(h, i, h.peers[i].(state := DisconnectLater))
    else Disconnect(h, i, sent)
  }

  /** The peer at the head of the dispatch queue. */
  function Dispatch(h: Hosting, i: nat): Hosting
    requires i < |h.peers|
  {
    match h.peers[i].state
    case ConnectionPending => ChangeState(h, i, Connected)
    case ConnectionSucceeded => ChangeState(h, i, Connected)
    case Zombie => Reset(h, i)
    case _ => h
  }

  datatype Event =
    | Opens
    | ConnectArrives(bandwidth: u32, refused: bool)
    | VerifyConnectArrives(peer: nat, matches: bool, bandwidth: u32, waiting: bool)
    | DisconnectArrives(peer: nat, acknowledge: bool)
    | AcknowledgeArrives(peer: nat, settled: Settled, drained: bool, waiting: bool)
    | BandwidthLimitArrives(peer: nat, bandwidth: u32)
    | TimesOut(peer: nat, waiting: bool)
    | Sends(sending: Sending)
    | Dispatches(peer: nat)
    | Disconnects(peer: nat, sent: seq<Sending>)
    | DisconnectsNow(peer: nat, sent: seq<Sending>)
    | DisconnectsLater(peer: nat, drained: bool, sent: seq<Sending>)
    | Resets(peer: nat)

  predicate Possible(h: Hosting, e: Event) {
    e.Opens? || e.ConnectArrives? || e.Sends? || e.peer < |h.peers|
  }

  function Step(h: Hosting, e: Event): Hosting
    requires Possible(h, e)
  {
    match e
    case Opens => Connect(h)
    case ConnectArrives(bandwidth, refused) => HandleConnect(h, bandwidth, refused)
    case VerifyConnectArrives(i, matches, bandwidth, waiting) => HandleVerifyConnect(h, i, matches, bandwidth, waiting)
    case DisconnectArrives(i, acknowledge) => HandleDisconnect(h, i, acknowledge)
    case AcknowledgeArrives(i, settled, drained, waiting) => HandleAcknowledge(h, i, settled, drained, waiting)
    case BandwidthLimitArrives(i, bandwidth) => HandleBandwidthLimit(h, i, bandwidth)
    case TimesOut(i, waiting) => NotifyDisconnect(h, i, waiting)
    case Sends(sending) => Sent(h, sending)
    case Dispatches(i) => Dispatch(h, i)
    case Disconnects(i, sent) => Disconnect(h, i, sent)
    case DisconnectsNow(i, sent) => DisconnectNow(h, i, sent)
    case DisconnectsLater(i, drained, sent) => LeaveLater(h, i, drained, sent)
    case Resets(i) => Reset(h, i)
  }

  // ---- every step keeps the counters right ----

  lemma ChangeStateCounts(h: Hosting, i: nat, s: State)
    requires Counted(h) && i < |h.peers| && s != Disconnected && s != Connecting
    ensures Counted(ChangeState(h, i, s))
  {
    CountsMove(h.peers, i, h.peers[i].(state := s));
  }

  lemma ResetCounts(h: Hosting, i: nat)
    requires Counted(h) && i < |h.peers|
    ensures Counted(Reset(h, i))
  {
    CountsMove(h.peers, i, Peer(Disconnected, 0));
  }

  lemma LeavingCounts(h: Hosting, i: nat)
    requires Counted(h) && i < |h.peers|
    ensures Counted(Leaving(h, i))
  {
    CountsMove(h.peers, i, h.peers[i].(state := Disconnecting));
  }

  lemma ConnectCounts(h: Hosting)
    requires Counted(h)
    ensures Counted(Connect(h))
  {
    var i := FirstFree(h.peers);
    if i < |h.peers| {
      CountsMove(h.peers, i, h.peers[i].(state := Connecting));
    }
  }

  lemma HandleConnectCounts(h: Hosting, bandwidth: u32, refused: bool)
    requires Counted(h)
    ensures Counted(HandleConnect(h, bandwidth, refused))
  {
    var i := FirstFree(h.peers);
    if i < |h.peers| {
      CountsMove(h.peers, i, Peer(AcknowledgingConnect, bandwidth));
    }
  }

  lemma VerifyCounts(h: Hosting, i: nat, matches: bool, bandwidth: u32, waiting: bool)
    requires Counted(h) && i < |h.peers|
    ensures Counted(HandleVerifyConnect(h, i, matches, bandwidth, waiting))
  {
    if h.peers[i].state == Connecting {
      ChangeStateCounts(h, i, Zombie);
      var s := if waiting then Connected else ConnectionSucceeded;
      CountsMove(h.peers, i, Peer(s, bandwidth));
      assert h.peers[i := Peer(Connecting, bandwidth)][i := Peer(s, bandwidth)] == h.peers[i := Peer(s, bandwidth)];
    }
  }

  lemma LimitCounts(h: Hosting, i: nat, bandwidth: u32)
    requires Counted(h) && i < |h.peers|
    ensures Counted(HandleBandwidthLimit(h, i, bandwidth))
  {
    CountsMove(h.peers, i, h.peers[i].(incomingBandwidth := bandwidth));
  }

  lemma NotifyDisconnectCounts(h: Hosting, i: nat, waiting: bool)
    requires Counted(h) && i < |h.peers|
    ensures Counted(NotifyDisconnect(h, i, waiting))
  {
    hide Counted, ChangeState, Reset;
    ResetCounts(h, i);
    ChangeStateCounts(h, i, Zombie);
  }

  lemma SentCounts(h: Hosting, s: Sending)
    requires Counted(h)
    ensures Counted(Sent(h, s)) && |Sent(h, s).peers| == |h.peers|
  {
    hide Counted;
    if s.peer < |h.peers| {
      ChangeStateCounts(h, s.peer, Zombie);
      LeavingCounts(h, s.peer);
    }
  }

  lemma {:induction false} FlushCounts(h: Hosting, sent: seq<Sending>)
    requires Counted(h)
    ensures Counted(Flushed(h, sent)) && |Flushed(h, sent).peers| == |h.peers|
    decreases |sent|
  {
    hide Counted, Sent;
    if sent != [] {
      SentCounts(h, sent[0]);
      FlushCounts(Sent(h, sent[0]), sent[1..]);
    }
  }

  lemma DisconnectCounts(h: Hosting, i: nat, sent: seq<Sending>)
    requires Counted(h) && i < |h.peers|
    ensures Counted(Disconnect(h, i, sent)) && Counted(DisconnectNow(h, i, sent))
  {
    hide Counted, Leaving, Flushed, Reset;
    LeavingCounts(h, i);
    FlushCounts(h, sent);
    ResetCounts(Flushed(h, sent), i);
    ResetCounts(h, i);
  }

  lemma LeaveLaterCounts(h: Hosting, i: nat, drained: bool, sent: seq<Sending>)
    requires Counted(h) && i < |h.peers|
    ensures Counted(LeaveLater(h, i, drained, sent))
  {
    hide Disconnect;
    DisconnectCounts(h, i, sent);
    CountsMove(h.peers, i, h.peers[i].(state := DisconnectLater));
  }

  lemma HandlersCount(h: Hosting, i: nat, settled: Settled, drained: bool, waiting: bool, acknowledge: bool)
    requires Counted(h) && i < |h.peers|
    ensures Counted(HandleAcknowledge(h, i, settled, drained, waiting))
    ensures Counted(HandleDisconnect(h, i, acknowledge)) && Counted(Dispatch(h, i))
  {
    hide Counted, ChangeState, Reset, Leaving, NotifyDisconnect;
    ResetCounts(h, i);
    LeavingCounts(h, i);
    NotifyDisconnectCounts(h, i, waiting);
    ChangeStateCounts(h, i, Zombie);
    ChangeStateCounts(h, i, Connected);
    ChangeStateCounts(h, i, ConnectionPending);
    ChangeStateCounts(h, i, AcknowledgingDisconnect);
  }

  lemma StepCounts(h: Hosting, e: Event)
    requires Counted(h) && Possible(h, e)
    ensures Counted(Step(h, e))
  {
    hide Counted, Connect, HandleConnect, HandleVerifyConnect, HandleDisconnect, HandleAcknowledge,
         HandleBandwidthLimit,
      NotifyDisconnect, Sent, Dispatch, Disconnect, DisconnectNow, LeaveLater, Reset;
    match e {
      case Opens => ConnectCounts(h);
      case ConnectArrives(bandwidth, refused) => HandleConnectCounts(h, bandwidth, refused);
      case VerifyConnectArrives(i, matches, bandwidth, waiting) => VerifyCounts(h, i, matches, bandwidth, waiting);
      case DisconnectArrives(i, acknowledge) => HandlersCount(h, i, Other, false, false, acknowledge);
      case AcknowledgeArrives(i, settled, drained, waiting) => HandlersCount(h, i, settled, drained, waiting, false);
      case BandwidthLimitArrives(i, bandwidth) => LimitCounts(h, i, bandwidth);
      case TimesOut(i, waiting) => NotifyDisconnectCounts(h, i, waiting);
      case Sends(sending) => SentCounts(h, sending);
      case Dispatches(i) => HandlersCount(h, i, Other, false, false, false);
      case Disconnects(i, sent) => DisconnectCounts(h, i, sent);
      case DisconnectsNow(i, sent) => DisconnectCounts(h, i, sent);
      case DisconnectsLater(i, drained, sent) => LeaveLaterCounts(h, i, drained, sent);
      case Resets(i) => ResetCounts(h, i);
    }
  }

  predicate Runs(trace: seq<Hosting>, events: seq<Event>) {
    && |trace| == |events| + 1
    && forall k: nat :: k < |events| ==> Possible(trace[k], events[k]) && trace[k + 1] == Step(trace[k], events[k])
  }

  lemma {:induction false} CountsAreBounded(peers: seq<Peer>)
    ensures 0 <= LimitedIn(peers) <= ConnectedIn(peers) <= |peers|
  {
    if peers != [] {
      CountsAreBounded(peers[..|peers| - 1]);
    }
  }

  predicate Idle(peers: seq<Peer>) {
    forall i: nat :: i < |peers| ==> peers[i] == Peer(Disconnected, 0)
  }

  lemma {:induction false} NoneConnected(peers: seq<Peer>)
    requires Idle(peers)
    ensures ConnectedIn(peers) == LimitedIn(peers) == 0
  {
    if peers != [] {
      NoneConnected(peers[..|peers| - 1]);
    }
  }

  /** From a new host, in every state of every run, the counters are the numbers of connected and
      of connected bandwidth-limited peers, so neither ever goes below zero. */
  lemma {:induction false} CountersAreRight(trace: seq<Hosting>, events: seq<Event>, k: nat)
    requires Runs(trace, events) && k < |trace|
    requires Idle(trace[0].peers) && trace[0].connectedPeers == trace[0].bandwidthLimitedPeers == 0
    ensures Counted(trace[k])
    ensures 0 <= trace[k].bandwidthLimitedPeers <= trace[k].connectedPeers <= |trace[k].peers|
  {
    hide Step, Possible;
    if k == 0 {
      NoneConnected(trace[0].peers);
    } else {
      CountersAreRight(trace, events, k - 1);
      StepCounts(trace[k - 1], events[k - 1]);
    }
    CountsAreBounded(trace[k].peers);
  }

  // ---- the code ----

  class Host {
    const peers: array<Peer>
    var connectedPeers: nat
    var bandwidthLimitedPeers: nat

    ghost function View(): Hosting
      reads this, peers
    {
      Hosting(peers[..], connectedPeers, bandwidthLimitedPeers)
    }

    /** enet_host_create */
    constructor (peerCount: nat)
      ensures fresh(peers) && peers.Length == peerCount
      ensures Idle(peers[..]) && connectedPeers == bandwidthLimitedPeers == 0
      ensures Counted(View())
    {
      peers := new Peer[peerCount](i => Peer(Disconnected, 0));
      connectedPeers, bandwidthLimitedPeers := 0, 0;
      new;
      NoneConnected(peers[..]);
    }

    lemma CountsThis(i: nat)
      requires i < peers.Length && Counted(View())
      ensures Online(peers[i].state) ==> connectedPeers > 0
                                         && (peers[i].incomingBandwidth != 0 ==> bandwidthLimitedPeers > 0)
    {
      CountsMove(peers[..], i, Peer(Disconnected, 0));
    }

    /** enet_peer_on_connect */
    method PeerOnConnect(i: nat)
      requires i < peers.Length
      modifies this
      ensures View() == OnConnect(old(View()), i)
    {
      if peers[i].state != Connected && peers[i].state != DisconnectLater {
        if peers[i].incomingBandwidth != 0 {
          bandwidthLimitedPeers := bandwidthLimitedPeers + 1;
        }
        connectedPeers := connectedPeers + 1;
      }
    }

    /** enet_peer_on_disconnect: neither counter is 0 when it is decreased. */
    method PeerOnDisconnect(i: nat)
      requires i < peers.Length && (Counted(View()) || !Online(peers[i].state))
      modifies this
      ensures View() == OnDisconnect(old(View()), i)
    {
      if Online(peers[i].state) {
        CountsThis(i);
      }
      if peers[i].state == Connected || peers[i].state == DisconnectLater {
        if peers[i].incomingBandwidth != 0 {
          bandwidthLimitedPeers := bandwidthLimitedPeers - 1;
        }
        connectedPeers := connectedPeers - 1;
      }
    }

    /** enet_protocol_change_state; enet_protocol_dispatch_state does this and queues the peer. */
    method ProtocolChangeState(i: nat, state: State)
      requires i < peers.Length && (Counted(View()) || !Online(peers[i].state))
      modifies this, peers
      ensures View() == ChangeState(old(View()), i, state)
      ensures old(Counted(View())) && state != Disconnected && state != Connecting ==> Counted(View())
    {
      if Counted(View()) && state != Disconnected && state != Connecting {
        ChangeStateCounts(View(), i, state);
      }
      if state == Connected || state == DisconnectLater {
        PeerOnConnect(i);
      } else {
        PeerOnDisconnect(i);
      }
      peers[i] := peers[i].(state := state);
      assert View() == ChangeState(old(View()), i, state);
    }

    /** enet_peer_reset */
    method PeerReset(i: nat)
      requires i < peers.Length && Counted(View())
      modifies this, peers
      ensures View() == Reset(old(View()), i) && Counted(View())
    {
      ResetCounts(View(), i);
      PeerOnDisconnect(i);
      peers[i] := peers[i].(state := Disconnected);
      peers[i] := peers[i].(incomingBandwidth := 0);
      assert View() == Reset(old(View()), i);
    }

    method Leave(i: nat)
      requires i < peers.Length && Counted(View())
      modifies this, peers
      ensures View() == Leaving(old(View()), i) && Counted(View())
    {
      LeavingCounts(View(), i);
      PeerOnDisconnect(i);
      peers[i] := peers[i].(state := Disconnecting);
      assert View() == Leaving(old(View()), i);
    }

    method Send(s: Sending)
      requires Counted(View())
      modifies this, peers
      ensures View() == Sent(old(View()), s) && Counted(View())
    {
      if s.peer >= peers.Length || peers[s.peer].state == Disconnected || peers[s.peer].state == Zombie {
        return;
      }
      match s {
        case Acknowledged(i) => ProtocolChangeState(i, Zombie);
        case Drained(i) =>
          if peers[i].state == DisconnectLater {
            Leave(i);
          }
      }
    }

    /** enet_host_flush */
    method Flush(sent: seq<Sending>)
      requires Counted(View())
      modifies this, peers
      ensures View() == Flushed(old(View()), sent) && Counted(View())
    {
      hide Counted, Sent;
      var left := sent;
      while left != []
        invariant Counted(View()) && Flushed(View(), left) == Flushed(old(View()), sent)
        decreases |left|
      {
        Send(left[0]);
        left := left[1..];
      }
    }

    /** enet_peer_disconnect */
    method PeerDisconnect(i: nat, sent: seq<Sending>)
      requires i < peers.Length && Counted(View())
      modifies this, peers
      ensures View() == Disconnect(old(View()), i, sent) && Counted(View())
    {
      hide Counted, Flushed, Leaving, Reset;
      var state := peers[i].state;
      if state == Disconnecting || state == Disconnected || state == AcknowledgingDisconnect || state == Zombie {
        return;
      }
      if state == Connected || state == DisconnectLater {
        Leave(i);
      } else {
        Flush(sent);
        PeerReset(i);
      }
    }

    /** enet_peer_disconnect_now */
    method PeerDisconnectNow(i: nat, sent: seq<Sending>)
      requires i < peers.Length && Counted(View())
      modifies this, peers
      ensures View() == DisconnectNow(old(View()), i, sent) && Counted(View())
    {
      hide Counted, Flushed, Reset;
      if peers[i].state == Disconnected {
        return;
      }
      if peers[i].state != Zombie && peers[i].state != Disconnecting {
        Flush(sent);
      }
      PeerReset(i);
    }

    /** enet_peer_disconnect_later */
    method PeerDisconnectLater(i: nat, drained: bool, sent: seq<Sending>)
      requires i < peers.Length && Counted(View())
      modifies this, peers
      ensures View() == LeaveLater(old(View()), i, drained, sent) && Counted(View())
    {
      hide Disconnect;
      LeaveLaterCounts(View(), i, drained, sent);
      if (peers[i].state == Connected || peers[i].state == DisconnectLater) && !drained {
        peers[i] := peers[i].(state := DisconnectLater);
        assert View() == LeaveLater(old(View()), i, drained, sent);
      } else {
        PeerDisconnect(i, sent);
      }
    }

    method FindFree() returns (i: nat)
      ensures i == FirstFree(peers[..])
    {
      i := 0;
      while i < peers.Length
        invariant i <= peers.Length && forall k: nat :: k < i ==> peers[k].state != Disconnected
      {
        if peers[i].state == Disconnected {
          break;
        }
        i := i + 1;
      }
    }

    /** enet_host_connect */
    method HostConnect()
      requires Counted(View())
      modifies this, peers
      ensures View() == Connect(old(View())) && Counted(View())
    {
      ConnectCounts(View());
      var i := FindFree();
      if i == peers.Length {
        return;
      }
      peers[i] := peers[i].(state := Connecting);
      assert View() == Connect(old(View()));
    }

    /** enet_protocol_handle_connect */
    method ProtocolHandleConnect(bandwidth: u32, refused: bool)
      requires Counted(View())
      modifies this, peers
      ensures View() == HandleConnect(old(View()), bandwidth, refused) && Counted(View())
    {
      HandleConnectCounts(View(), bandwidth, refused);
      var i := FindFree();
      if i == peers.Length || refused {
        return;
      }
      peers[i] := peers[i].(state := AcknowledgingConnect);
      peers[i] := peers[i].(incomingBandwidth := bandwidth);
      assert View() == HandleConnect(old(View()), bandwidth, refused);
    }

    /** enet_protocol_notify_connect */
    method ProtocolNotifyConnect(i: nat, waiting: bool)
      requires i < peers.Length && Counted(View())
      modifies this, peers
      ensures View() == NotifyConnect(old(View()), i, waiting) && Counted(View())
    {
      hide Counted, ChangeState;
      if waiting {
        ProtocolChangeState(i, Connected);
      } else {
        ProtocolChangeState(i, if peers[i].state == Connecting then ConnectionSucceeded else ConnectionPending);
      }
    }

    /** enet_protocol_notify_disconnect */
    method ProtocolNotifyDisconnect(i: nat, waiting: bool)
      requires i < peers.Length && Counted(View())
      modifies this, peers
      ensures View() == NotifyDisconnect(old(View()), i, waiting) && Counted(View())
    {
      hide Counted, ChangeState, Reset;
      if peers[i].state != Connecting && Early(peers[i].state) {
        PeerReset(i);
      } else if waiting {
        PeerReset(i);
      } else {
        ProtocolChangeState(i, Zombie);
      }
    }

    /** enet_protocol_handle_verify_connect */
    method ProtocolHandleVerifyConnect(i: nat, matches: bool, bandwidth: u32, waiting: bool)
      requires i < peers.Length && Counted(View())
      modifies this, peers
      ensures View() == HandleVerifyConnect(old(View()), i, matches, bandwidth, waiting) && Counted(View())
    {
      if peers[i].state != Connecting {
        return;
      }
      if !matches {
        ProtocolChangeState(i, Zombie);
        return;
      }
      VerifyCounts(View(), i, true, bandwidth, waiting);
      peers[i] := peers[i].(incomingBandwidth := bandwidth);
      assert View() == Put(old(View()), i, old(peers[i]).(incomingBandwidth := bandwidth));
      ProtocolChangeState(i, if waiting then Connected else ConnectionSucceeded);
    }

    /** enet_protocol_handle_disconnect */
    method ProtocolHandleDisconnect(i: nat, acknowledge: bool)
      requires i < peers.Length && Counted(View())
      modifies this, peers
      ensures View() == HandleDisconnect(old(View()), i, acknowledge) && Counted(View())
    {
      hide Counted, ChangeState, Reset;
      var state := peers[i].state;
      if state == Disconnected || state == Zombie || state == AcknowledgingDisconnect {
        return;
      }
      if state == ConnectionSucceeded || state == Disconnecting || state == Connecting {
        ProtocolChangeState(i, Zombie);
      } else if state != Connected && state != DisconnectLater {
        PeerReset(i);
      } else if acknowledge {
        ProtocolChangeState(i, AcknowledgingDisconnect);
      } else {
        ProtocolChangeState(i, Zombie);
      }
    }

    /** The switch that ends enet_protocol_handle_acknowledge. */
    method ProtocolHandleAcknowledge(i: nat, settled: Settled, drained: bool, waiting: bool)
      requires i < peers.Length && Counted(View())
      modifies this, peers
      ensures View() == HandleAcknowledge(old(View()), i, settled, drained, waiting) && Counted(View())
    {
      hide Counted, NotifyConnect, NotifyDisconnect, Leaving;
      match peers[i].state {
        case AcknowledgingConnect =>
          if settled == VerifyConnect {
            ProtocolNotifyConnect(i, waiting);
          }
        case Disconnecting =>
          if settled == Disconnection {
            ProtocolNotifyDisconnect(i, waiting);
          }
        case DisconnectLater =>
          if drained {
            Leave(i);
          }
        case _ =>
      }
    }

    /** enet_protocol_handle_bandwidth_limit */
    method ProtocolHandleBandwidthLimit(i: nat, bandwidth: u32)
      requires i < peers.Length && Counted(View())
      modifies this, peers
      ensures View() == HandleBandwidthLimit(old(View()), i, bandwidth) && Counted(View())
    {
      LimitCounts(View(), i, bandwidth);
      CountsThis(i);
      if peers[i].state != Connected && peers[i].state != DisconnectLater {
        return;
      }
      if peers[i].incomingBandwidth != 0 {
        bandwidthLimitedPeers := bandwidthLimitedPeers - 1;
      }
      peers[i] := peers[i].(incomingBandwidth := bandwidth);
      if peers[i].incomingBandwidth != 0 {
        bandwidthLimitedPeers := bandwidthLimitedPeers + 1;
      }
      assert View() == HandleBandwidthLimit(old(View()), i, bandwidth);
    }

    /** What enet_protocol_dispatch_incoming_commands does to the peer it takes from its queue. */
    method ProtocolDispatch(i: nat)
      requires i < peers.Length && Counted(View())
      modifies this, peers
      ensures View() == Dispatch(old(View()), i) && Counted(View())
    {
      hide Counted, ChangeState, Reset;
      match peers[i].state {
        case ConnectionPending => ProtocolChangeState(i, Connected);
        case ConnectionSucceeded => ProtocolChangeState(i, Connected);
        case Zombie => PeerReset(i);
        case _ =>
      }
    }
  }
}
