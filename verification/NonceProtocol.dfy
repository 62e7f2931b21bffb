/**
 Clients, a network that may drop, repeat and reorder their calls, and the server that
 checks each call's nonce.

 A client numbers its calls, starting from the nonce it gave away in its key exchange;
 the server counts the calls it accepts.  A call that is delivered may be any one ever
 made, any number of times.
 */
module NonceProtocol {
  import opened Prelude
  import Decimal
  import opened Session

  /** A client; `session` and the fields after it are bookkeeping. */
  datatype Client = Client(
    id: string,
    nonce: nat,
    sent: seq<Metadata>,   // the calls that carry a nonce
    session: nat,          // the session made by its key exchange
    start: nat,            // the nonce exchanged
    delivered: seq<nat>,   // the calls delivered, by number
    accepted: seq<nat>     // those that were let through
  )

  datatype Net = Net(server: Session.State, clients: seq<Client>)

  datatype Event =
    | Join(nonce: nat, answered: bool)  // a key exchange; the client exists only if it gets the answer
    | Call(c: nat, methodName: string)
    | Deliver(c: nat, k: nat)           // the c-th client's k-th call
    | Other(action: Session.Action)     // a lookup of any id, or a call that does not carry its session's nonce

  function InitNet(): Net { Net(Session.Init(), []) }

  function CallMetadata(id: string, nonce: nat, methodName: string): Metadata {
    if IsExchange(methodName) then Metadata(Some(methodName), None, None)
    else Metadata(Some(methodName), Some(id), Some(Decimal.ToString(nonce)))
  }

  predicate Possible(n: Net, e: Event) {
    match e
    case Join(nonce, _) => nonce < ULONG_COUNT
    case Call(c, _) => c < |n.clients|
    case Deliver(c, k) => c < |n.clients| && k < |n.clients[c].sent|
    case Other(action) => action.Lookup? || (action.Process? && !NonceFits(n.server, action.metadata))
  }

  function JoinStep(n: Net, nonce: nat, answered: bool): Net {
    var client := Client(Decimal.ToString(n.server.nextPeerId), nonce, [], |n.server.sessions|, nonce, [], []);
    Net(Session.Step(n.server, Exchange(nonce)), if answered then n.clients + [client] else n.clients)
  }

  function CallStep(n: Net, c: nat, methodName: string): Net
    requires c < |n.clients|
  {
    if IsExchange(methodName) then n
    else
      var client := n.clients[c];
      n.(clients := n.clients[c := client.(nonce := Ulong(client.nonce + 1),
                                           sent := client.sent + [CallMetadata(client.id, client.nonce, methodName)])])
  }

  function DeliverStep(n: Net, c: nat, k: nat): Net
    requires c < |n.clients| && k < |n.clients[c].sent|
  {
    var client := n.clients[c];
    var m := client.sent[k];
    Net(Session.Step(n.server, Process(m)),
        n.clients[c := Delivered(client, k, ProcessResult(n.server, m) == OK)])
  }

  function Next(n: Net, e: Event): Net {
    if !Possible(n, e) then n else
    match e
    case Join(nonce, answered) => JoinStep(n, nonce, answered)
    case Call(c, methodName) => CallStep(n, c, methodName)
    case Deliver(c, k) => DeliverStep(n, c, k)
    case Other(action) => n.(server := Session.Step(n.server, action))
  }

  function RunNet(events: seq<Event>): Net {
    if events == [] then InitNet() else Next(RunNet(events[..|events| - 1]), events[|events| - 1])
  }

  // ---------- What a client's deliveries are good for ----------

  function UpTo(n: nat): seq<nat> { seq(n, i => i) }

  /** How many of 0, 1, 2 and so on are met in order. */
  function InOrder(delivered: seq<nat>): nat {
    if delivered == [] then 0
    else
      var n := InOrder(delivered[..|delivered| - 1]);
      if delivered[|delivered| - 1] == n then n + 1 else n
  }

  predicate Subsequence(a: seq<nat>, b: seq<nat>) {
    a == [] ||
    (b != [] &&
     ((a[|a| - 1] == b[|b| - 1] && Subsequence(a[..|a| - 1], b[..|b| - 1])) || Subsequence(a, b[..|b| - 1])))
  }

  lemma {:induction false} InOrderIsLongest(n: nat, delivered: seq<nat>)
    ensures Subsequence(UpTo(n), delivered) <==> n <= InOrder(delivered)
  {
    if delivered != [] && n > 0 {
      InOrderIsLongest(n, delivered[..|delivered| - 1]);
      InOrderIsLongest(n - 1, delivered[..|delivered| - 1]);
      assert UpTo(n)[..n - 1] == UpTo(n - 1);
    }
  }

  // ---------- Invariant ----------

  predicate SentWell(cl: Client, k: nat)
    requires k < |cl.sent|
  {
    && LooksUp(cl.sent[k])
    && cl.sent[k].id == Some(cl.id)
    && cl.sent[k].nonce == Some(Decimal.ToString(Ulong(cl.start + k)))
  }

  ghost predicate InvClient(server: Session.State, cl: Client) {
    && cl.session < |server.sessions|
    && cl.id == Decimal.ToString(cl.session)
    && cl.start < ULONG_COUNT
    && cl.accepted == UpTo(InOrder(cl.delivered))
    && |cl.accepted| <= |cl.sent|
    && cl.nonce == Ulong(cl.start + |cl.sent|)
    && server.sessions[cl.session].nonce == Ulong(cl.start + |cl.accepted|)
    && forall k :: 0 <= k < |cl.sent| ==> SentWell(cl, k)
  }

  ghost predicate InvNet(n: Net) {
    && InvMap(n.server)
    && (forall c :: 0 <= c < |n.clients| ==> InvClient(n.server, n.clients[c]))
    && (forall c, d :: 0 <= c < d < |n.clients| ==> n.clients[c].session != n.clients[d].session)
  }

  /** At most 2^64 key exchanges, and fewer than 2^64 calls of each client. */
  ghost predicate Bounded(n: Net) {
    && |n.server.sessions| <= ULONG_COUNT
    && forall c :: 0 <= c < |n.clients| ==> |n.clients[c].sent| < ULONG_COUNT
  }

  lemma SameText(start: nat, a: nat, b: nat)
    requires a < ULONG_COUNT && b < ULONG_COUNT
    ensures Decimal.ToString(Ulong(start + a)) == Decimal.ToString(Ulong(start + b)) <==> a == b
  {
    var x, y := Ulong(start + a), Ulong(start + b);
    if Decimal.ToString(x) == Decimal.ToString(y) {
      Decimal.Injective(x, y);
    }
  }

  /** A delivered call is let through exactly if it is the next one. */
  lemma FitsWhenNext(server: Session.State, cl: Client, k: nat)
    requires InvMap(server) && InvClient(server, cl) && k < |cl.sent| < ULONG_COUNT
    ensures NonceFits(server, cl.sent[k]) <==> k == |cl.accepted|
    ensures ProcessResult(server, cl.sent[k]) == OK <==> k == |cl.accepted|
    ensures Entry(server, cl.id) == Some(cl.session)
  {
    assert SentWell(cl, k);
    assert Entry(server, Decimal.ToString(cl.session)) == Some(cl.session);
    SameText(cl.start, k, |cl.accepted|);
  }

  lemma JoinKeepsInv(n: Net, nonce: nat, answered: bool)
    requires InvNet(n) && |n.server.sessions| < ULONG_COUNT && nonce < ULONG_COUNT
    ensures InvNet(JoinStep(n, nonce, answered))
  {
    ExchangeKeepsMap(n.server, nonce);
    var t := JoinStep(n, nonce, answered);
    forall c | 0 <= c < |t.clients| ensures InvClient(t.server, t.clients[c]) {
      if c < |n.clients| {
        assert InvClient(n.server, n.clients[c]);
      }
    }
  }

  lemma Successor(x: nat)
    ensures Ulong(Ulong(x) + 1) == Ulong(x + 1)
  {
  }

  lemma CallIsSentWell(cl: Client, methodName: string)
    requires cl.id == Decimal.ToString(cl.session) && !IsExchange(methodName)
    requires cl.nonce == Ulong(cl.start + |cl.sent|)
    ensures SentWell(cl.(sent := cl.sent + [CallMetadata(cl.id, cl.nonce, methodName)]), |cl.sent|)
  {
    Decimal.Printable(cl.session, ' ');
  }

  lemma StaysSentWell(cl: Client, m: Metadata)
    requires forall k :: 0 <= k < |cl.sent| ==> SentWell(cl, k)
    requires SentWell(cl.(sent := cl.sent + [m]), |cl.sent|)
    ensures var t := cl.(sent := cl.sent + [m]); forall k :: 0 <= k < |t.sent| ==> SentWell(t, k)
  {
    var t := cl.(sent := cl.sent + [m]);
    forall k | 0 <= k < |t.sent| ensures SentWell(t, k) {
      assert k < |cl.sent| ==> SentWell(cl, k);
    }
  }

  lemma CallKeepsClient(server: Session.State, cl: Client, methodName: string)
    requires InvClient(server, cl) && !IsExchange(methodName)
    ensures InvClient(server, cl.(nonce := Ulong(cl.nonce + 1),
                                  sent := cl.sent + [CallMetadata(cl.id, cl.nonce, methodName)]))
  {
    var m := CallMetadata(cl.id, cl.nonce, methodName);
    var t := cl.(nonce := Ulong(cl.nonce + 1), sent := cl.sent + [m]);
    CallIsSentWell(cl, methodName);
    StaysSentWell(cl, m);
    Successor(cl.start + |cl.sent|);
    forall k | 0 <= k < |t.sent| ensures SentWell(t, k) {
      assert SentWell(cl.(sent := cl.sent + [m]), k);
    }
  }

  lemma CallKeepsInv(n: Net, c: nat, methodName: string)
    requires InvNet(n) && c < |n.clients|
    ensures InvNet(CallStep(n, c, methodName))
  {
    if !IsExchange(methodName) {
      CallKeepsClient(n.server, n.clients[c], methodName);
    }
  }

  lemma OtherKeepsInv(n: Net, action: Session.Action)
    requires InvNet(n) && Possible(n, Other(action))
    ensures InvNet(Next(n, Other(action)))
  {
    OthersKeepMap(n.server, action);
    forall c | 0 <= c < |n.clients| ensures InvClient(Session.Step(n.server, action), n.clients[c]) {}
  }

  function Delivered(cl: Client, k: nat, ok: bool): Client {
    cl.(delivered := cl.delivered + [k], accepted := if ok then cl.accepted + [k] else cl.accepted)
  }

  lemma DeliveredInOrder(cl: Client, k: nat)
    requires cl.accepted == UpTo(InOrder(cl.delivered))
    ensures var t := Delivered(cl, k, k == |cl.accepted|); t.accepted == UpTo(InOrder(t.delivered))
  {
    assert (cl.delivered + [k])[..|cl.delivered|] == cl.delivered;
  }

  lemma DeliverKeepsItsClient(server: Session.State, cl: Client, k: nat)
    requires InvMap(server) && InvClient(server, cl) && k < |cl.sent| < ULONG_COUNT
    ensures InvClient(ProcessStep(server, cl.sent[k]), Delivered(cl, k, ProcessResult(server, cl.sent[k]) == OK))
  {
    FitsWhenNext(server, cl, k);
    assert SentWell(cl, k);
    OnlyItsOwnNonce(server, cl.sent[k], cl.session);
    OthersKeepMap(server, Process(cl.sent[k]));
    DeliveredInOrder(cl, k);
    DeliveredClient(server, ProcessStep(server, cl.sent[k]), cl, k);
  }

  lemma DeliveredClient(server: Session.State, after: Session.State, cl: Client, k: nat)
    requires InvClient(server, cl) && |after.sessions| == |server.sessions| && k < |cl.sent|
    requires after.sessions[cl.session].nonce ==
             if k == |cl.accepted| then Ulong(server.sessions[cl.session].nonce + 1)
             else server.sessions[cl.session].nonce
    requires var t := Delivered(cl, k, k == |cl.accepted|); t.accepted == UpTo(InOrder(t.delivered))
    ensures InvClient(after, Delivered(cl, k, k == |cl.accepted|))
  {
    Successor(cl.start + |cl.accepted|);
    var t := Delivered(cl, k, k == |cl.accepted|);
    forall j | 0 <= j < |t.sent| ensures SentWell(t, j) {
      assert SentWell(cl, j);
    }
  }

  lemma DeliverKeepsOther(server: Session.State, cl: Client, m: Metadata, id: nat)
    requires InvMap(server) && InvClient(server, cl) && m.id == Some(Decimal.ToString(id)) && id != cl.session
    ensures InvClient(ProcessStep(server, m), cl)
  {
    OthersKeepMap(server, Process(m));
    OnlyItsOwnNonce(server, m, cl.session);
    if Decimal.ToString(id) == Decimal.ToString(cl.session) {
      Decimal.Injective(id, cl.session);
    }
  }

  lemma DeliverKeepsInv(n: Net, c: nat, k: nat)
    requires InvNet(n) && Possible(n, Deliver(c, k)) && |n.clients[c].sent| < ULONG_COUNT
    ensures InvNet(DeliverStep(n, c, k))
  {
    var cl, t := n.clients[c], DeliverStep(n, c, k);
    OthersKeepMap(n.server, Process(cl.sent[k]));
    DeliverKeepsItsClient(n.server, cl, k);
    assert SentWell(cl, k);
    forall d | 0 <= d < |t.clients| ensures InvClient(t.server, t.clients[d]) {
      if d != c {
        DeliverKeepsOther(n.server, n.clients[d], cl.sent[k], cl.session);
      }
    }
  }

  lemma BoundedBefore(n: Net, e: Event)
    requires Bounded(Next(n, e))
    ensures Bounded(n)
    ensures e.Join? && Possible(n, e) ==> |n.server.sessions| < ULONG_COUNT
  {
    var t := Next(n, e);
    forall c | 0 <= c < |n.clients| ensures |n.clients[c].sent| < ULONG_COUNT {
      assert |n.clients[c].sent| <= |t.clients[c].sent|;
    }
  }

  lemma {:induction false} NetReachable(events: seq<Event>)
    requires Bounded(RunNet(events))
    ensures InvNet(RunNet(events))
  {
    if events != [] {
      var n, e := RunNet(events[..|events| - 1]), events[|events| - 1];
      BoundedBefore(n, e);
      NetReachable(events[..|events| - 1]);
      if Possible(n, e) {
        match e
        case Join(nonce, answered) => JoinKeepsInv(n, nonce, answered);
        case Call(c, methodName) => CallKeepsInv(n, c, methodName);
        case Deliver(c, k) => DeliverKeepsInv(n, c, k);
        case Other(action) => OtherKeepsInv(n, action);
      }
    }
  }

  // ---------- The protocol ----------

  /** Session and client are apart by the calls not let through. */
  ghost predicate InStep(server: Session.State, cl: Client) {
    && Entry(server, cl.id) == Some(cl.session) && cl.session < |server.sessions|
    && server.sessions[cl.session].nonce == Ulong(cl.start + |cl.accepted|)
    && cl.nonce == Ulong(cl.start + |cl.sent|)
    && |cl.accepted| <= |cl.sent|
  }

  /**
   Whatever the network does with any number of clients' calls, the calls of a client that were let
   through are its first ones, in order and once each; its session's nonce is the one exchanged plus
   their number, and never passes the client's.
   */
  lemma AcceptedAreConsecutive(events: seq<Event>, c: nat)
    requires Bounded(RunNet(events)) && c < |RunNet(events).clients|
    ensures var cl := RunNet(events).clients[c]; cl.accepted == UpTo(|cl.accepted|)
    ensures InStep(RunNet(events).server, RunNet(events).clients[c])
  {
    NetReachable(events);
    ClientInStep(RunNet(events).server, RunNet(events).clients[c]);
  }

  lemma ClientInStep(server: Session.State, cl: Client)
    requires InvMap(server) && InvClient(server, cl)
    ensures InStep(server, cl) && cl.accepted == UpTo(|cl.accepted|)
  {
    assert Entry(server, Decimal.ToString(cl.session)) == Some(cl.session);
  }

  /** The first `j` calls are let through if and only if they are delivered in order, with anything in between. */
  lemma AcceptedIfInOrder(events: seq<Event>, c: nat, j: nat)
    requires Bounded(RunNet(events)) && c < |RunNet(events).clients|
    ensures var cl := RunNet(events).clients[c];
            j <= |cl.accepted| <==> Subsequence(UpTo(j), cl.delivered)
  {
    NetReachable(events);
    assert InvClient(RunNet(events).server, RunNet(events).clients[c]);
    InOrderIsLongest(j, RunNet(events).clients[c].delivered);
  }

  lemma {:induction false} SubsequenceOfItself(s: seq<nat>)
    ensures Subsequence(s, s)
  {
    if s != [] {
      SubsequenceOfItself(s[..|s| - 1]);
    }
  }

  /** Over a network that delivers in order and loses nothing every call delivered is let through. */
  lemma LosslessInOrder(events: seq<Event>, c: nat)
    requires Bounded(RunNet(events)) && c < |RunNet(events).clients|
    requires var cl := RunNet(events).clients[c]; cl.delivered == UpTo(|cl.delivered|)
    ensures var cl := RunNet(events).clients[c]; cl.accepted == cl.delivered
  {
    NetReachable(events);
    var cl := RunNet(events).clients[c];
    assert InvClient(RunNet(events).server, cl);
    var j := |cl.delivered|;
    SubsequenceOfItself(UpTo(j));
    InOrderIsLongest(j, cl.delivered);
    InOrderIsLongest(j + 1, cl.delivered);
    if Subsequence(UpTo(j + 1), cl.delivered) {
      NoLonger(UpTo(j + 1), cl.delivered);
    }
  }

  lemma {:induction false} NoLonger(a: seq<nat>, b: seq<nat>)
    requires Subsequence(a, b)
    ensures |a| <= |b|
    ensures forall x :: x in a ==> x in b
  {
    if a != [] {
      if Subsequence(a, b[..|b| - 1]) {
        NoLonger(a, b[..|b| - 1]);
      } else {
        NoLonger(a[..|a| - 1], b[..|b| - 1]);
        assert a == a[..|a| - 1] + [b[|b| - 1]];
      }
    }
  }

  /** A call that is never delivered shuts out every later one. */
  lemma LostCallBlocks(events: seq<Event>, c: nat, k: nat)
    requires Bounded(RunNet(events)) && c < |RunNet(events).clients|
    requires k !in RunNet(events).clients[c].delivered
    ensures |RunNet(events).clients[c].accepted| <= k
  {
    NetReachable(events);
    var cl := RunNet(events).clients[c];
    assert InvClient(RunNet(events).server, cl);
    InOrderIsLongest(k + 1, cl.delivered);
    assert UpTo(k + 1)[k] in UpTo(k + 1);
    if Subsequence(UpTo(k + 1), cl.delivered) {
      NoLonger(UpTo(k + 1), cl.delivered);
    }
  }

  // ---------- What happens ----------

  /** Client `c` alone has changed, to `client`. */
  ghost predicate ClientMoved(n: Net, t: Net, c: nat, client: Client)
    requires c < |n.clients|
  {
    && |t.clients| == |n.clients| && t.clients[c] == client
    && forall d :: 0 <= d < |n.clients| && d != c ==> t.clients[d] == n.clients[d]
  }

  /** A call that does not claim to be a key exchange carries the client's id and nonce, which goes on by one. */
  lemma CallIsMade(n: Net, c: nat, methodName: string)
    requires c < |n.clients|
    ensures var t, client := Next(n, Call(c, methodName)), n.clients[c];
            && t.server == n.server
            && if methodName <= "ExchangeKey" then t == n
               else
                 var m := Metadata(Some(methodName), Some(client.id), Some(Decimal.ToString(client.nonce)));
                 ClientMoved(n, t, c, client.(nonce := (client.nonce + 1) % ULONG_COUNT, sent := client.sent + [m]))
  {
  }

  /** A call that is delivered is processed by the server, and is let through exactly if that says so. */
  lemma CallIsDelivered(n: Net, c: nat, k: nat)
    requires c < |n.clients| && k < |n.clients[c].sent|
    ensures var t, client := Next(n, Deliver(c, k)), n.clients[c];
            && t.server == Session.Step(n.server, Process(client.sent[k]))
            && ClientMoved(n, t, c, client.(
                 delivered := client.delivered + [k],
                 accepted := if ProcessResult(n.server, client.sent[k]) == OK then client.accepted + [k]
                             else client.accepted))
  {
  }

  /** A key exchange makes a session, and a client if its answer comes; other requests change the server alone. */
  lemma ClientJoins(n: Net, nonce: nat, answered: bool)
    requires nonce < ULONG_COUNT
    ensures var t, id := Next(n, Join(nonce, answered)), Decimal.ToString(n.server.nextPeerId);
            && t.server == Session.Step(n.server, Exchange(nonce))
            && t.clients ==
               if answered then n.clients + [Client(id, nonce, [], |n.server.sessions|, nonce, [], [])] else n.clients
  {
  }

  lemma OthersAreServed(n: Net, action: Session.Action)
    requires action.Lookup? || (action.Process? && !NonceFits(n.server, action.metadata))
    ensures Next(n, Other(action)) == Net(Session.Step(n.server, action), n.clients)
  {
  }

  // ---------- The client ----------

  class GrpcClient {
    var nonce: nat
    var peerId: string

    constructor (peerId: string, nonce: nat)
      ensures this.peerId == peerId && this.nonce == nonce
    {
      this.peerId, this.nonce := peerId, nonce;
    }

    /** Auth::GetMetadata; what it gives is what CallStep sends. */
    method GetMetadata(methodName: string) returns (metadata: Metadata)
      modifies this`nonce
      ensures metadata == CallMetadata(peerId, old(nonce), methodName)
      ensures nonce == if IsExchange(methodName) then old(nonce) else Ulong(old(nonce) + 1)
    {
      metadata := Metadata(Some(methodName), None, None);
      if methodName <= "ExchangeKey" {
        return;
      }
      metadata := metadata.(nonce := Some(Decimal.ToString(nonce)));
      metadata := metadata.(id := Some(peerId));
      nonce := Ulong(nonce + 1);
    }
  }
}
