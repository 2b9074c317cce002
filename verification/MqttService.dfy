/** Signalling over MQTT: topics, and the index between clients and the peers made for them.

    A message, a refresh and a local description are atomic steps. Peer ids are fresh; which peers are connected is
    the environment's. */
module MqttService {
  import opened Text
  import opened Wrappers

  // ---- topics ----

  datatype TopicType = Offer | Answer | Ice | Unknown

  function TopicTypeToString(t: TopicType): string {
    match t case Offer => "offer" case Answer => "answer" case Ice => "ice" case Unknown => "unknown"
  }

  /** uid/type/client, or uid/type when there is no client */
  function GetTopic(uid: string, t: TopicType, client: string): string {
    if client == "" then uid + "/" + TopicTypeToString(t)
    else uid + "/" + TopicTypeToString(t) + "/" + client
  }

  function FindTopicType(uid: string, topic: string): TopicType {
    if GetTopic(uid, Offer, "") + "/" <= topic then Offer
    else if GetTopic(uid, Answer, "") + "/" <= topic then Answer
    else if GetTopic(uid, Ice, "") + "/" <= topic then Ice
    else Unknown
  }

  function FindClientId(uid: string, topic: string): string {
    var t := FindTopicType(uid, topic);
    if t == Unknown then ""
    else
      var base := GetTopic(uid, t, "");
      if |topic| <= |base| || topic[|base|] != '/' then ""
      else if |base| + 1 >= |topic| then ""
      else Before(topic[|base| + 1..], '/')
  }

  predicate IsClientId(c: string) {
    c != "" && '/' !in c
  }

  function Stem(uid: string, t: TopicType): string {
    GetTopic(uid, t, "") + "/"
  }

  lemma ClientTopic(uid: string, t: TopicType, c: string)
    requires c != ""
    ensures GetTopic(uid, t, c) == Stem(uid, t) + c
  {
  }

  lemma StemStart(uid: string, t: TopicType)
    ensures Stem(uid, t) == uid + ("/" + TopicTypeToString(t) + "/")
    ensures |Stem(uid, t)| > |uid| + 2 && Stem(uid, t)[|uid| + 1] == TopicTypeToString(t)[0]
  {
  }

  /** A topic starts with at most one of the type prefixes. */
  lemma TypesDiffer(uid: string, t: TopicType, u: TopicType, topic: string)
    requires Stem(uid, t) <= topic && Stem(uid, u) <= topic
    requires t != Unknown && u != Unknown
    ensures t == u
  {
    StemStart(uid, t);
    StemStart(uid, u);
    hide Stem;
    assert topic[|uid| + 1] == TopicTypeToString(t)[0] == TopicTypeToString(u)[0];
  }

  lemma TypeOfTopic(uid: string, t: TopicType, topic: string)
    requires t != Unknown && Stem(uid, t) <= topic
    ensures FindTopicType(uid, topic) == t
  {
    if Stem(uid, Offer) <= topic {
      TypesDiffer(uid, t, Offer, topic);
    } else if Stem(uid, Answer) <= topic {
      TypesDiffer(uid, t, Answer, topic);
    } else if Stem(uid, Ice) <= topic {
      TypesDiffer(uid, t, Ice, topic);
    }
  }

  lemma {:induction false} BeforeOfSlashFree(c: string)
    requires '/' !in c
    ensures Before(c, '/') == c
  {
    if c != "" {
      BeforeOfSlashFree(c[1..]);
    }
  }

  /** Parsing a printed topic gives back type and client, whatever the uid. */
  lemma TopicReadsBack(uid: string, t: TopicType, c: string)
    requires t != Unknown && IsClientId(c)
    ensures FindTopicType(uid, GetTopic(uid, t, c)) == t
    ensures FindClientId(uid, GetTopic(uid, t, c)) == c
  {
    ClientTopic(uid, t, c);
    TypeOfTopic(uid, t, Stem(uid, t) + c);
    BeforeOfSlashFree(c);
    hide FindTopicType;
    var base := GetTopic(uid, t, "");
    assert Stem(uid, t) == base + "/";
    assert (base + "/" + c)[|base| + 1..] == c;
  }

  /** Conversely a topic names a client only if it is a printed topic of this client, or continues one after a slash. */
  lemma OnlyPrintedTopicsParse(uid: string, topic: string)
    requires FindClientId(uid, topic) != ""
    ensures var t, c := FindTopicType(uid, topic), FindClientId(uid, topic);
            t != Unknown && IsClientId(c) &&
            (topic == GetTopic(uid, t, c) || GetTopic(uid, t, c) + "/" <= topic)
  {
    hide FindTopicType, FindClientId, GetTopic;
    var t, c := FindTopicType(uid, topic), FindClientId(uid, topic);
    var base := GetTopic(uid, t, "");
    ClientFollowsStem(uid, topic);
    ClientTopic(uid, t, c);
    var rest := topic[|base| + 1..];
    assert topic == base + "/" + rest;
    NameThenSlash(rest, c);
  }

  lemma ClientFollowsStem(uid: string, topic: string)
    requires FindClientId(uid, topic) != ""
    ensures var t, c := FindTopicType(uid, topic), FindClientId(uid, topic);
            var base := GetTopic(uid, t, "");
            t != Unknown && base + "/" <= topic && '/' !in c && c == Before(topic[|base| + 1..], '/')
  {
    hide Before, GetTopic;
    TypeIsPrefix(uid, topic);
  }

  lemma NameThenSlash(rest: string, c: string)
    requires c == Before(rest, '/')
    ensures rest == c || c + "/" <= rest
  {
    assert rest == c || rest[..|c| + 1] == c + "/";
  }

  lemma TypeIsPrefix(uid: string, topic: string)
    requires FindTopicType(uid, topic) != Unknown
    ensures Stem(uid, FindTopicType(uid, topic)) <= topic
  {
  }

  // ---- the index ----

  datatype Remote = Remote(peer: string, t: TopicType, payload: string)
  datatype Message = Message(topic: string, payload: string)

  datatype State = State(
    clientToPeer: map<string, string>,
    peerToClient: map<string, string>,
    peers: set<string>,              // the peer map
    creator: map<string, string>,    // of every peer ever made, the client it was made for
    received: seq<Remote>,           // descriptions and candidates handed to peers
    published: seq<Message>)

  const START := State(map[], map[], {}, map[], [], [])

  datatype Step =
    | Receive(topic: string, payload: Option<string>, newPeer: string)
    | Refresh(connected: set<string>)
    | LocalSdp(peer: string, kind: string, json: string)
    | LocalIce(peer: string, json: string)

  /** Ids of new peers are fresh. */
  predicate Enabled(s: State, step: Step) {
    step.Receive? ==> step.newPeer !in s.creator
  }

  /** The peer of a client that is known and still in the peer map. */
  function PeerOf(s: State, client: string): Option<string> {
    if client in s.clientToPeer && s.clientToPeer[client] in s.peers then Some(s.clientToPeer[client]) else None
  }

  function WithPeer(s: State, client: string, peer: string): State {
    s.(peers := s.peers + {peer}, clientToPeer := s.clientToPeer[client := peer],
       peerToClient := s.peerToClient[peer := client], creator := s.creator[peer := client])
  }

  function AfterReceive(uid: string, s: State, topic: string, payload: Option<string>, newPeer: string): State {
    var t, client := FindTopicType(uid, topic), FindClientId(uid, topic);
    if payload == None || t == Unknown || client == "" then s
    else
      var known := PeerOf(s, client);
      var s1 := if known == None then WithPeer(s, client, newPeer) else s;
      s1.(received := s.received + [Remote(if known == None then newPeer else known.value, t, payload.value)])
  }

  /** Everything about unconnected peers is forgotten. */
  function AfterRefresh(s: State, connected: set<string>): State {
    s.(peers := s.peers * connected,
       clientToPeer := map c | c in s.clientToPeer && s.clientToPeer[c] in connected :: s.clientToPeer[c],
       peerToClient := map p | p in s.peerToClient && p in connected :: s.peerToClient[p])
  }

  function SdpType(kind: string): TopicType {
    if kind == "offer" then Offer else if kind == "answer" then Answer else Unknown
  }

  function AfterLocal(uid: string, s: State, peer: string, t: TopicType, json: string): State {
    if peer !in s.peerToClient || t == Unknown then s
    else s.(published := s.published + [Message(GetTopic(uid, t, s.peerToClient[peer]), json)])
  }

  function Next(uid: string, s: State, step: Step): State {
    match step
    case Receive(topic, payload, newPeer) => AfterReceive(uid, s, topic, payload, newPeer)
    case Refresh(connected) => AfterRefresh(s, connected)
    case LocalSdp(peer, kind, json) => AfterLocal(uid, s, peer, SdpType(kind), json)
    case LocalIce(peer, json) => AfterLocal(uid, s, peer, Ice, json)
  }

  ghost predicate IsRun(uid: string, states: seq<State>, steps: seq<Step>) {
    && |states| == |steps| + 1 && states[0] == START
    && forall i | 0 <= i < |steps| :: Enabled(states[i], steps[i]) && states[i + 1] == Next(uid, states[i], steps[i])
  }

  /** The two maps are inverse to each other. */
  ghost predicate Inverse(s: State) {
    && (forall c | c in s.clientToPeer :: s.clientToPeer[c] in s.peerToClient && s.peerToClient[s.clientToPeer[c]] == c)
    && (forall p | p in s.peerToClient :: s.peerToClient[p] in s.clientToPeer && s.clientToPeer[s.peerToClient[p]] == p)
  }

  /** They cover exactly the peer map, and say of each peer for which client it was made. */
  ghost predicate Covers(s: State) {
    && s.peerToClient.Keys == s.peers
    && (forall p | p in s.peers :: p in s.creator && s.creator[p] == s.peerToClient[p])
    && (forall p | p in s.creator :: IsClientId(s.creator[p]))
  }

  ghost predicate Inv(s: State) {
    Inverse(s) && Covers(s)
  }

  lemma RefreshKeeps(s: State, connected: set<string>)
    requires Inv(s)
    ensures Inv(AfterRefresh(s, connected))
  {
    hide IsClientId;
  }

  lemma RefreshOfAll(s: State, connected: set<string>)
    requires Inv(s)
    ensures AfterRefresh(s, connected + s.peers) == s
  {
    hide IsClientId;
  }

  lemma WithPeerKeeps(s: State, client: string, peer: string)
    requires Inv(s) && PeerOf(s, client) == None && peer !in s.creator && IsClientId(client)
    ensures Inv(WithPeer(s, client, peer))
  {
    hide IsClientId;
  }

  lemma SameIndex(s: State, t: State)
    requires Inv(s) && t == s.(received := t.received, published := t.published)
    ensures Inv(t)
  {
    hide IsClientId;
  }

  lemma NextKeeps(uid: string, s: State, step: Step)
    requires Inv(s) && Enabled(s, step)
    ensures Inv(Next(uid, s, step))
  {
    hide Inv, FindTopicType, FindClientId, GetTopic, WithPeer;
    match step
    case Receive(topic, payload, newPeer) =>
      var client := FindClientId(uid, topic);
      if payload != None && FindTopicType(uid, topic) != Unknown && client != "" && PeerOf(s, client) == None {
        OnlyPrintedTopicsParse(uid, topic);
        WithPeerKeeps(s, client, newPeer);
        SameIndex(WithPeer(s, client, newPeer), Next(uid, s, step));
      } else {
        SameIndex(s, Next(uid, s, step));
      }
    case Refresh(connected) => RefreshKeeps(s, connected);
    case LocalSdp(peer, kind, json) => SameIndex(s, Next(uid, s, step));
    case LocalIce(peer, json) => SameIndex(s, Next(uid, s, step));
  }

  lemma {:induction false} EveryRunKeeps(uid: string, states: seq<State>, steps: seq<Step>, k: nat)
    requires IsRun(uid, states, steps) && k < |states|
    ensures Inv(states[k])
    decreases k
  {
    if k > 0 {
      hide Inv, Next, Enabled;
      EveryRunKeeps(uid, states, steps, k - 1);
      NextKeeps(uid, states[k - 1], steps[k - 1]);
    }
  }

  /** In every reachable state the maps are mutually inverse and cover exactly the peer map. */
  lemma IndexIsConsistent(uid: string, states: seq<State>, steps: seq<Step>, k: nat)
    requires IsRun(uid, states, steps) && k < |states|
    ensures Inverse(states[k]) && states[k].peerToClient.Keys == states[k].peers
    ensures states[k].clientToPeer.Values == states[k].peers
  {
    EveryRunKeeps(uid, states, steps, k);
    hide IsClientId, IsRun;
  }

  /** A refresh removes exactly the unconnected peers and their clients; the others keep their entries. */
  lemma RefreshRemovesUnconnected(s: State, connected: set<string>)
    requires Inv(s)
    ensures var t := AfterRefresh(s, connected);
            && t.peers == s.peers * connected
            && (forall c :: c in t.clientToPeer <==> c in s.clientToPeer && s.clientToPeer[c] in connected)
            && (forall c | c in t.clientToPeer :: t.clientToPeer[c] == s.clientToPeer[c])
            && (forall p :: p in t.peerToClient <==> p in s.peers && p in connected)
            && (forall p | p in t.peerToClient :: t.peerToClient[p] == s.peerToClient[p])
  {
  }

  /** What a peer says locally is published, once, under a topic that names its type and the client the peer was made
      for; of a peer that has been removed nothing is published. */
  lemma RepliesReachTheCreator(uid: string, states: seq<State>, steps: seq<Step>, k: nat, peer: string,
                               t: TopicType, json: string)
    requires IsRun(uid, states, steps) && k < |states| && t != Unknown
    ensures var s := states[k];
            var after := AfterLocal(uid, s, peer, t, json);
            if peer in s.peers then
              peer in s.creator && |after.published| == |s.published| + 1 &&
              var m := after.published[|s.published|];
              m.payload == json && FindTopicType(uid, m.topic) == t && FindClientId(uid, m.topic) == s.creator[peer]
            else after == s
  {
    EveryRunKeeps(uid, states, steps, k);
    var s := states[k];
    hide IsRun, FindTopicType, FindClientId, GetTopic;
    if peer in s.peers {
      TopicReadsBack(uid, t, s.peerToClient[peer]);
    }
  }

  /** A message for a known client goes to that client's peer; one for a new client to a new peer made for it. */
  lemma MessagesReachTheClientsPeer(uid: string, s: State, t: TopicType, c: string, payload: string, newPeer: string)
    requires Inv(s) && newPeer !in s.creator && t != Unknown && IsClientId(c)
    ensures var after := AfterReceive(uid, s, GetTopic(uid, t, c), Some(payload), newPeer);
            var peer := if c in s.clientToPeer then s.clientToPeer[c] else newPeer;
            && after.received == s.received + [Remote(peer, t, payload)]
            && peer in after.peers && c in after.clientToPeer && after.clientToPeer[c] == peer
            && after.creator[peer] == c
  {
    TopicReadsBack(uid, t, c);
    hide FindTopicType, FindClientId, GetTopic;
  }

  /** Over the wire: an offer, an answer or a candidate of a peer that is known goes out once, on the topic
      uid/offer, uid/answer or uid/ice with the client that the peer was made for; anything else goes nowhere. */
  lemma LocalsGoToTheirTopics(uid: string, states: seq<State>, steps: seq<Step>, k: nat, peer: string, kind: string,
                              json: string)
    requires IsRun(uid, states, steps) && k < |states|
    ensures var s := states[k];
            var sdp, ice := Next(uid, s, LocalSdp(peer, kind, json)), Next(uid, s, LocalIce(peer, json));
            if peer in s.peers then
              && peer in s.creator
              && ice == s.(published := s.published + [Message(uid + "/ice/" + s.creator[peer], json)])
              && sdp == if kind == "offer" || kind == "answer"
                        then s.(published := s.published + [Message(uid + "/" + kind + "/" + s.creator[peer], json)])
                        else s
            else sdp == s && ice == s
  {
    EveryRunKeeps(uid, states, steps, k);
    var s := states[k];
    hide IsRun, FindTopicType, FindClientId;
    if peer in s.peers {
      TopicsAre(uid, s.creator[peer]);
    }
  }

  lemma TopicsAre(uid: string, c: string)
    requires c != ""
    ensures GetTopic(uid, Offer, c) == uid + "/" + "offer" + "/" + c == uid + "/offer/" + c
    ensures GetTopic(uid, Answer, c) == uid + "/" + "answer" + "/" + c == uid + "/answer/" + c
    ensures GetTopic(uid, Ice, c) == uid + "/" + "ice" + "/" + c == uid + "/ice/" + c
  {
  }

  /** A message that cannot be read, or on a topic that is neither a client's printed one nor a continuation of it,
      changes nothing. */
  lemma JunkChangesNothing(uid: string, s: State, topic: string, payload: Option<string>, newPeer: string)
    requires payload == None || forall t, c | t != Unknown && IsClientId(c) ::
               topic != GetTopic(uid, t, c) && !(GetTopic(uid, t, c) + "/" <= topic)
    ensures AfterReceive(uid, s, topic, payload, newPeer) == s
  {
    if FindClientId(uid, topic) != "" {
      OnlyPrintedTopicsParse(uid, topic);
    }
    hide FindTopicType, FindClientId, GetTopic;
  }

  /** One more unconnected peer erased. */
  lemma ForgetOne(s: State, connected: set<string>, todo: set<string>, id: string)
    requires Inv(s) && todo <= s.peers && id in todo && id !in connected
    ensures var before, after := AfterRefresh(s, connected + todo), AfterRefresh(s, connected + (todo - {id}));
            && id in before.peerToClient
            && var client := before.peerToClient[id];
               && client in before.clientToPeer && before.clientToPeer[client] == id
               && after == before.(clientToPeer := before.clientToPeer - {client},
                                   peerToClient := before.peerToClient - {id},
                                   peers := before.peers - {id})
  {
    hide IsClientId;
    var before, after := AfterRefresh(s, connected + todo), AfterRefresh(s, connected + (todo - {id}));
    var client := s.peerToClient[id];
    assert after.clientToPeer == before.clientToPeer - {client};
    assert after.peerToClient == before.peerToClient - {id};
    assert after.peers == before.peers - {id};
  }

  // ---- the service ----

  class MqttService {
    const uid: string
    var clientToPeer: map<string, string>
    var peerToClient: map<string, string>
    var peers: set<string>
    ghost var creator: map<string, string>
    ghost var received: seq<Remote>
    ghost var published: seq<Message>

    constructor (uid: string)
      ensures this.uid == uid && Abstract() == START
    {
      this.uid := uid;
      clientToPeer, peerToClient, peers, creator, received, published := map[], map[], {}, map[], [], [];
    }

    ghost function Abstract(): State
      reads this
    {
      State(clientToPeer, peerToClient, peers, creator, received, published)
    }

    method OnMessage(topic: string, payload: Option<string>, newPeer: string)
      modifies this
      ensures Abstract() == AfterReceive(uid, old(Abstract()), topic, payload, newPeer)
    {
      hide FindTopicType, FindClientId, GetTopic;
      if payload == None {
        return;
      }
      var topicType := FindTopicType(uid, topic);
      if topicType == Unknown {
        return;
      }
      var clientId := FindClientId(uid, topic);
      if clientId == "" {
        return;
      }
      var peer;
      if clientId in clientToPeer && clientToPeer[clientId] in peers {
        peer := clientToPeer[clientId];
      } else {
        peer := newPeer;
        peers := peers + {peer};
        creator := creator[peer := clientId];
        clientToPeer := clientToPeer[clientId := peer];
        peerToClient := peerToClient[peer := clientId];
      }
      received := received + [Remote(peer, topicType, payload.value)];
    }

    method OnLocalSdp(peer: string, kind: string, json: string)
      modifies this
      ensures Abstract() == AfterLocal(uid, old(Abstract()), peer, SdpType(kind), json)
    {
      hide GetTopic;
      if peer !in peerToClient {
        return;
      }
      var client := peerToClient[peer];
      if kind == "offer" {
        published := published + [Message(GetTopic(uid, Offer, client), json)];
      } else if kind == "answer" {
        published := published + [Message(GetTopic(uid, Answer, client), json)];
      }
    }

    method OnLocalIce(peer: string, json: string)
      modifies this
      ensures Abstract() == AfterLocal(uid, old(Abstract()), peer, Ice, json)
    {
      hide GetTopic;
      if peer in peerToClient {
        published := published + [Message(GetTopic(uid, Ice, peerToClient[peer]), json)];
      }
    }

    /** Walks the peer map and erases unconnected peers with their entries. */
    method RefreshPeerMap(connected: set<string>)
      requires Inv(Abstract())
      modifies this
      ensures Abstract() == AfterRefresh(old(Abstract()), connected) && Inv(Abstract())
      ensures peers == old(peers) * connected && peerToClient.Keys == peers
      ensures forall p | p in peers :: peerToClient[p] == old(peerToClient)[p]
      ensures forall c :: c in clientToPeer <==> c in old(clientToPeer) && old(clientToPeer)[c] in connected
      ensures forall c | c in clientToPeer :: clientToPeer[c] == old(clientToPeer)[c]
    {
      hide IsClientId, Inv;
      ghost var s := Abstract();
      RefreshKeeps(s, connected);
      RefreshOfAll(s, connected);
      RefreshRemovesUnconnected(s, connected);
      var todo := peers;
      while todo != {}
        invariant todo <= s.peers
        invariant Abstract() == AfterRefresh(s, connected + todo)
        decreases todo
      {
        var id :| id in todo;
        if id !in connected {
          ForgetOne(s, connected, todo, id);
          if id in peerToClient {
            var client := peerToClient[id];
            if client in clientToPeer && clientToPeer[client] == id {
              clientToPeer := clientToPeer - {client};
            }
            peerToClient := peerToClient - {id};
          }
          peers := peers - {id};
        } else {
          assert connected + (todo - {id}) == connected + todo;
        }
        todo := todo - {id};
      }
      assert connected + {} == connected;
    }
  }
}
