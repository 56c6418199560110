/** The states a peer goes through, told state by state, and what a peer must have been through to be
    connected (the operations of HostCounters). */
module PeerStates {
  import opened Words
  import opened HostCounters

  /** The diagram: what an event at a peer makes of its state. */
  function Moved(s: State, e: Event): State {
    match s
    case Disconnected => Disconnected
    case Connecting => (
      match e
      case VerifyConnectArrives(_, matches, _, waiting) =>
        if !matches then Zombie else if waiting then Connected else ConnectionSucceeded
      case DisconnectArrives(_, _) => Zombie
      case TimesOut(_, waiting) => if waiting then Disconnected else Zombie
      case _ => Abandoned(s, e)
    )
    case AcknowledgingConnect => (
      match e
      case AcknowledgeArrives(_, VerifyConnect, _, waiting) => if waiting then Connected else ConnectionPending
      case DisconnectArrives(_, _) => Disconnected
      case TimesOut(_, _) => Disconnected
      case _ => Abandoned(s, e)
    )
    case ConnectionPending => (
      match e
      case Dispatches(_) => Connected
      case DisconnectArrives(_, _) => Disconnected
      case TimesOut(_, _) => Disconnected
      case _ => Abandoned(s, e)
    )
    case ConnectionSucceeded => (
      match e
      case Dispatches(_) => Connected
      case DisconnectArrives(_, _) => Zombie
      case TimesOut(_, waiting) => if waiting then Disconnected else Zombie
      case _ => Abandoned(s, e)
    )
    case Connected => MovedOnline(s, e)
    case DisconnectLater => MovedOnline(s, e)
    case Disconnecting => (
      match e
      case AcknowledgeArrives(_, Disconnection, _, waiting) => if waiting then Disconnected else Zombie
      case DisconnectArrives(_, _) => Zombie
      case TimesOut(_, waiting) => if waiting then Disconnected else Zombie
      case _ => Torn(s, e)
    )
    case AcknowledgingDisconnect => (
      match e
      case Sends(Acknowledged(_)) => Zombie
      case TimesOut(_, waiting) => if waiting then Disconnected else Zombie
      case _ => Torn(s, e)
    )
    case Zombie => (
      match e
      case Dispatches(_) => Disconnected
      case TimesOut(_, waiting) => if waiting then Disconnected else Zombie
      case Sends(_) => Zombie
      case _ => Torn(s, e)
    )
  }

  function MovedOnline(s: State, e: Event): State {
    match e
    case DisconnectArrives(_, acknowledge) => if acknowledge then AcknowledgingDisconnect else Zombie
    case TimesOut(_, waiting) => if waiting then Disconnected else Zombie
    case AcknowledgeArrives(_, _, drained, _) => if s == DisconnectLater && drained then Disconnecting else s
    case Sends(Drained(_)) => if s == DisconnectLater then Disconnecting else s
    case Disconnects(_, _) => Disconnecting
    case DisconnectsLater(_, drained, _) => if drained then Disconnecting else DisconnectLater
    case _ => Torn(s, e)
  }

  /** Given up by the application before the connection stands. */
  function Abandoned(s: State, e: Event): State {
    if e.Disconnects? || e.DisconnectsLater? then Disconnected else Torn(s, e)
  }

  function Torn(s: State, e: Event): State {
    match e
    case Sends(Acknowledged(_)) => Zombie
    case DisconnectsNow(_, _) => Disconnected
    case Resets(_) => Disconnected
    case _ => s
  }

  /** The event concerns that peer. */
  predicate Concerns(e: Event, i: nat) {
    match e
    case Opens => false
    case ConnectArrives(_, _) => false
    case Sends(sending) => sending.peer == i
    case _ => e.peer == i
  }

  predicate Flushes(e: Event) {
    e.Disconnects? || e.DisconnectsNow? || e.DisconnectsLater?
  }

  /** The peer moves to that state, and no other moves. */
  ghost predicate OnlyMoves(h: Hosting, h': Hosting, i: nat, s: State)
    requires i < |h.peers|
  {
    && |h'.peers| == |h.peers| && h'.peers[i].state == s
    && forall k: nat :: k < |h.peers| && k != i ==> h'.peers[k] == h.peers[k]
  }

  lemma ChangeMoves(h: Hosting, i: nat, s: State)
    requires i < |h.peers|
    ensures OnlyMoves(h, ChangeState(h, i, s), i, s) && OnlyMoves(h, h, i, h.peers[i].state)
    ensures OnlyMoves(h, Reset(h, i), i, Disconnected) && OnlyMoves(h, Leaving(h, i), i, Disconnecting)
  {
  }

  lemma VerifyMoves(h: Hosting, i: nat, matches: bool, bandwidth: u32, waiting: bool)
    requires i < |h.peers|
    ensures OnlyMoves(h, HandleVerifyConnect(h, i, matches, bandwidth, waiting), i,
                      Moved(h.peers[i].state, VerifyConnectArrives(i, matches, bandwidth, waiting)))
  {
  }

  lemma AnswersMove(h: Hosting, i: nat, settled: Settled, drained: bool, waiting: bool, acknowledge: bool)
    requires i < |h.peers|
    ensures OnlyMoves(h, HandleDisconnect(h, i, acknowledge), i,
                      Moved(h.peers[i].state, DisconnectArrives(i, acknowledge)))
    ensures OnlyMoves(h, HandleAcknowledge(h, i, settled, drained, waiting), i,
                      Moved(h.peers[i].state, AcknowledgeArrives(i, settled, drained, waiting)))
    ensures OnlyMoves(h, NotifyDisconnect(h, i, waiting), i, Moved(h.peers[i].state, TimesOut(i, waiting)))
    ensures OnlyMoves(h, Dispatch(h, i), i, Moved(h.peers[i].state, Dispatches(i)))
  {
    hide ChangeState, Reset, Leaving, OnlyMoves;
    ChangeMoves(h, i, Zombie);
    ChangeMoves(h, i, Connected);
    ChangeMoves(h, i, ConnectionPending);
    ChangeMoves(h, i, AcknowledgingDisconnect);
  }

  lemma LimitMoves(h: Hosting, i: nat, bandwidth: u32)
    requires i < |h.peers|
    ensures OnlyMoves(h, HandleBandwidthLimit(h, i, bandwidth), i,
                      Moved(h.peers[i].state, BandwidthLimitArrives(i, bandwidth)))
  {
  }

  lemma SendingMoves(h: Hosting, sending: Sending)
    requires sending.peer < |h.peers|
    ensures OnlyMoves(h, Sent(h, sending), sending.peer, Moved(h.peers[sending.peer].state, Sends(sending)))
  {
    hide ChangeState, Leaving, OnlyMoves;
    ChangeMoves(h, sending.peer, Zombie);
  }

  predicate MovesTo(h: Hosting, h': Hosting, i: nat, s: State)
    requires i < |h.peers|
  {
    |h'.peers| == |h.peers| && h'.peers[i].state == s
  }

  lemma EndsMove(h: Hosting, i: nat, drained: bool, sent: seq<Sending>)
    requires i < |h.peers|
    ensures MovesTo(h, Disconnect(h, i, sent), i, Moved(h.peers[i].state, Disconnects(i, sent)))
    ensures MovesTo(h, DisconnectNow(h, i, sent), i, Moved(h.peers[i].state, DisconnectsNow(i, sent)))
    ensures MovesTo(h, LeaveLater(h, i, drained, sent), i, Moved(h.peers[i].state, DisconnectsLater(i, drained, sent)))
  {
    hide Flushed;
    FlushKeepsPeers(h, sent);
  }

  /** Every event moves the peer it concerns as the diagram says, and no other, unless it sends what is
      queued for all. */
  lemma StateDiagram(h: Hosting, e: Event, i: nat)
    requires Possible(h, e) && Concerns(e, i) && i < |h.peers|
    ensures |Step(h, e).peers| == |h.peers|
    ensures Step(h, e).peers[i].state == Moved(h.peers[i].state, e)
    ensures !Flushes(e) ==> OnlyMoves(h, Step(h, e), i, Moved(h.peers[i].state, e))
  {
    hide HandleVerifyConnect, HandleDisconnect, HandleAcknowledge, HandleBandwidthLimit, NotifyDisconnect, Sent,
         Dispatch, Disconnect, DisconnectNow, LeaveLater, Moved;
    ChangeMoves(h, i, Zombie);
    match e {
      case VerifyConnectArrives(_, matches, bandwidth, waiting) => VerifyMoves(h, i, matches, bandwidth, waiting);
      case DisconnectArrives(_, acknowledge) => AnswersMove(h, i, Other, false, false, acknowledge);
      case AcknowledgeArrives(_, settled, drained, waiting) => AnswersMove(h, i, settled, drained, waiting, false);
      case BandwidthLimitArrives(_, bandwidth) => LimitMoves(h, i, bandwidth);
      case TimesOut(_, waiting) => AnswersMove(h, i, Other, false, waiting, false);
      case Sends(sending) => SendingMoves(h, sending);
      case Dispatches(_) => AnswersMove(h, i, Other, false, false, false);
      case Disconnects(_, sent) => EndsMove(h, i, false, sent);
      case DisconnectsNow(_, sent) => EndsMove(h, i, false, sent);
      case DisconnectsLater(_, drained, sent) => EndsMove(h, i, drained, sent);
      case Resets(_) => ResetMoves(h, i);
    }
  }

  lemma ResetMoves(h: Hosting, i: nat)
    requires i < |h.peers|
    ensures OnlyMoves(h, Reset(h, i), i, Moved(h.peers[i].state, Resets(i)))
  {
  }

  /** A new connection takes a free peer, the first, whichever side begins it. */
  lemma FreePeerTaken(h: Hosting, bandwidth: u32, i: nat)
    requires i < |h.peers| && h.peers[i].state == Disconnected
    requires forall k: nat :: k < i ==> h.peers[k].state != Disconnected
    ensures Step(h, Opens).peers == h.peers[i := Peer(Connecting, h.peers[i].incomingBandwidth)]
    ensures Step(h, ConnectArrives(bandwidth, false)).peers == h.peers[i := Peer(AcknowledgingConnect, bandwidth)]
  {
    assert FirstFree(h.peers) == i;
  }

  // ---- who is connected has been asked and has answered ----

  /** The connection stands, or is about to be told or to end. */
  predicate Standing(s: State) {
    s == ConnectionPending || s == ConnectionSucceeded || s == Connected || s == DisconnectLater
  }

  /** The answer of the other side that completes a connection. */
  predicate Handshake(h: Hosting, e: Event, i: nat)
    requires i < |h.peers|
  {
    || (e.VerifyConnectArrives? && e.peer == i && e.matches && h.peers[i].state == Connecting)
    || (e.AcknowledgeArrives? && e.peer == i && e.settled == VerifyConnect && h.peers[i].state == AcknowledgingConnect)
  }

  lemma {:induction false} FlushStands(h: Hosting, sent: seq<Sending>, i: nat)
    requires i < |h.peers|
    ensures |Flushed(h, sent).peers| == |h.peers|
    ensures Standing(Flushed(h, sent).peers[i].state) ==> Standing(h.peers[i].state)
    decreases |sent|
  {
    if sent != [] {
      FlushStands(Sent(h, sent[0]), sent[1..], i);
    }
  }

  lemma StandsByHandshake(h: Hosting, e: Event, i: nat)
    requires Possible(h, e) && i < |h.peers|
    ensures |Step(h, e).peers| == |h.peers|
    ensures Standing(Step(h, e).peers[i].state) ==> Standing(h.peers[i].state) || Handshake(h, e, i)
  {
    hide Step, Moved;
    if Concerns(e, i) {
      StateDiagram(h, e, i);
      StandsByDiagram(h, e, i);
    } else if Flushes(e) {
      FlushElsewhere(h, e, i);
    } else if e.Opens? || e.ConnectArrives? {
      NewElsewhere(h, e, i);
    } else {
      Elsewhere(h, e, i);
    }
  }

  lemma StandsByDiagram(h: Hosting, e: Event, i: nat)
    requires i < |h.peers| && Concerns(e, i)
    ensures Standing(Moved(h.peers[i].state, e)) ==> Standing(h.peers[i].state) || Handshake(h, e, i)
  {
  }

  lemma FlushElsewhere(h: Hosting, e: Event, i: nat)
    requires i < |h.peers| && Flushes(e) && Possible(h, e) && e.peer != i
    ensures |Step(h, e).peers| == |h.peers| && (Standing(Step(h, e).peers[i].state) ==> Standing(h.peers[i].state))
  {
    hide Flushed;
    FlushStands(h, e.sent, i);
  }

  lemma NewElsewhere(h: Hosting, e: Event, i: nat)
    requires i < |h.peers| && (e.Opens? || e.ConnectArrives?)
    ensures |Step(h, e).peers| == |h.peers| && (Standing(Step(h, e).peers[i].state) ==> Standing(h.peers[i].state))
  {
  }

  /** An event that concerns another peer leaves this one alone. */
  lemma Elsewhere(h: Hosting, e: Event, i: nat)
    requires Possible(h, e) && i < |h.peers| && !Concerns(e, i)
    requires !Flushes(e) && !e.Opens? && !e.ConnectArrives?
    ensures |Step(h, e).peers| == |h.peers| && Step(h, e).peers[i] == h.peers[i]
  {
    var k := if e.Sends? then e.sending.peer else e.peer;
    if k < |h.peers| {
      StateDiagram(h, e, k);
      hide Step, Moved;
    } else {
      assert Sent(h, e.sending) == h;
    }
  }

  /** The two sides have shaken hands, and since then the connection has stood. */
  ghost predicate ShookHands(trace: seq<Hosting>, events: seq<Event>, i: nat, k: nat)
    requires Runs(trace, events) && k <= |events| && forall l :: 0 <= l <= k ==> i < |trace[l].peers|
  {
    exists j: nat :: j < k && Handshake(trace[j], events[j], i)
                     && forall l: nat :: j < l <= k ==> Standing(trace[l].peers[i].state)
  }

  /** In every state of every run of a host, a peer is only connected, or about to be, after the other
      side's answer to this connection. */
  lemma {:induction false} ConnectedShookHands(trace: seq<Hosting>, events: seq<Event>, i: nat, k: nat)
    requires Runs(trace, events) && Idle(trace[0].peers) && i < |trace[0].peers| && k <= |events|
    ensures forall l :: 0 <= l <= k ==> i < |trace[l].peers|
    ensures Standing(trace[k].peers[i].state) ==> ShookHands(trace, events, i, k)
  {
    hide Step, Possible, Handshake;
    if k > 0 {
      ConnectedShookHands(trace, events, i, k - 1);
      StandsByHandshake(trace[k - 1], events[k - 1], i);
      if Standing(trace[k].peers[i].state) {
        if Handshake(trace[k - 1], events[k - 1], i) {
          assert forall l: nat :: k - 1 < l <= k ==> Standing(trace[l].peers[i].state);
        } else {
          var j: nat :| j < k - 1 && Handshake(trace[j], events[j], i)
                        && forall l: nat :: j < l <= k - 1 ==> Standing(trace[l].peers[i].state);
          assert forall l: nat :: j < l <= k ==> Standing(trace[l].peers[i].state);
        }
      }
    }
  }
}
