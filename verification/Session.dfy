/**
 The server's sessions: the map from peer ids to session objects, the key exchange that
 adds to it, the two kinds of lookup, and the check of a call's nonce.
 */
module Session {
  import opened Prelude
  import Runs
  import Decimal

  /** unsigned long wraps around here. */
  const ULONG_COUNT := 0x1_0000_0000_0000_0000

  function Ulong(x: nat): (r: nat)
    ensures x < ULONG_COUNT ==> r == x
  {
    x % ULONG_COUNT
  }

  /** A session object; pointers to them are indices. */
  datatype Gst = Gst(nonce: nat)

  /** The metadata of a call: the first value of each key, if the key is there. */
  datatype Metadata = Metadata(methodName: Option<string>, id: Option<string>, nonce: Option<string>)

  datatype Status = OK | UNAUTHENTICATED | INVALID_ARGUMENT | NOT_FOUND

  /** `sessions` are all session objects made; a null entry of the map is None. */
  datatype State = State(clientMap: map<string, Option<nat>>, nextPeerId: nat, sessions: seq<Gst>)

  function Init(): State { State(map[], 0, []) }

  /** operator[] inserts a null entry for a key that is not there. */
  function Touch(s: State, id: string): State {
    if id in s.clientMap then s else s.(clientMap := s.clientMap[id := None])
  }

  function Entry(s: State, id: string): Option<nat> { if id in s.clientMap then s.clientMap[id] else None }

  /** What a decrypted key holds. */
  datatype Credential = Credential(uuid: string, nonce: nat)

  /**
   What becomes of a key: the authenticator's two results, the credential it yields, and whether a session object
   can be made.
   */
  datatype KeyRequest = KeyRequest(decrypted: int, result: int, credential: Option<Credential>, created: bool)

  /** The status ExchangeKey answers with; strncmp over the length of the server's own uuid takes any longer one too. */
  function ExchangeStatus(secured: bool, uuid: string, r: KeyRequest): int {
    if !secured then if r.created then 0 else -EFAULT
    else if r.decrypted < 0 then r.decrypted
    else if r.result < 0 then r.result
    else if r.credential.None? then -EFAULT
    else if !(uuid <= r.credential.value.uuid) then -EINVAL
    else if !r.created then -EFAULT
    else 0
  }

  /** ExchangeKey once the key is decrypted and the session object made. */
  function ExchangeStep(s: State, nonce: nat): State {
    State(s.clientMap[Decimal.ToString(s.nextPeerId) := Some(|s.sessions|)],
          Ulong(s.nextPeerId + 1), s.sessions + [Gst(nonce)])
  }

  function GetGstStep(s: State, id: Option<string>): State {
    if id.None? || id.value == "" then s else Touch(s, id.value)
  }

  function GetGstResult(id: Option<string>): int {
    if id.None? then -EINVAL else if id.value == "" then -ENOENT else 0
  }

  /** strncmp over the length of the method's name: the name is a prefix. */
  predicate IsExchange(methodName: string) { methodName <= "ExchangeKey" }

  /** Process gets as far as looking the session up. */
  predicate LooksUp(m: Metadata) {
    && m.methodName.Some? && m.methodName.value != "" && !IsExchange(m.methodName.value)
    && m.id.Some? && m.id.value != ""
  }

  /** The call carries the nonce its session is at. */
  predicate NonceFits(s: State, m: Metadata) {
    && LooksUp(m)
    && var gst := Entry(s, m.id.value);
       gst.Some? && gst.value < |s.sessions| && m.nonce == Some(Decimal.ToString(s.sessions[gst.value].nonce))
  }

  function ProcessResult(s: State, m: Metadata): Status {
    if m.methodName.None? || m.methodName.value == "" then UNAUTHENTICATED
    else if IsExchange(m.methodName.value) then OK
    else if m.id.None? || m.id.value == "" then INVALID_ARGUMENT
    else if Entry(s, m.id.value).None? then NOT_FOUND
    else if NonceFits(s, m) then OK
    else UNAUTHENTICATED
  }

  function Advance(s: State, gst: nat): State
    requires gst < |s.sessions|
  {
    s.(sessions := s.sessions[gst := Gst(Ulong(s.sessions[gst].nonce + 1))])
  }

  function ProcessStep(s: State, m: Metadata): State {
    if !LooksUp(m) then s
    else if NonceFits(s, m) then Advance(s, Entry(s, m.id.value).value)
    else Touch(s, m.id.value)
  }

  datatype Action =
    | Exchange(nonce: nat)
    | Lookup(id: Option<string>)  // GetGst
    | Process(metadata: Metadata)

  function Step(s: State, a: Action): State {
    match a
    case Exchange(nonce) => ExchangeStep(s, nonce)
    case Lookup(id) => GetGstStep(s, id)
    case Process(metadata) => ProcessStep(s, metadata)
  }

  function RunFrom(s: State, schedule: seq<Action>): State { Runs.From(Step, s, schedule) }

  function Run(schedule: seq<Action>): State { RunFrom(Init(), schedule) }

  // ---------- The map ----------

  /** The ids of the sessions made are the numbers below their count, each bound to its own session. */
  ghost predicate InvMap(s: State) {
    && s.nextPeerId == Ulong(|s.sessions|)
    && (forall i: nat :: i < |s.sessions| ==> Entry(s, Decimal.ToString(i)) == Some(i))
    && (forall id :: Entry(s, id).Some? ==>
          Entry(s, id).value < |s.sessions| && id == Decimal.ToString(Entry(s, id).value))
  }

  lemma ExchangeKeepsMap(s: State, nonce: nat)
    requires InvMap(s) && |s.sessions| < ULONG_COUNT
    ensures InvMap(ExchangeStep(s, nonce))
    ensures Entry(s, Decimal.ToString(s.nextPeerId)).None?
  {
    var n := |s.sessions|;
    var t := ExchangeStep(s, nonce);
    assert s.nextPeerId == n;
    var was := Entry(s, Decimal.ToString(n));
    if was.Some? {
      Decimal.Injective(n, was.value);
    }
    forall i: nat | i < |t.sessions| ensures Entry(t, Decimal.ToString(i)) == Some(i) {
      if i < n && Decimal.ToString(i) == Decimal.ToString(n) {
        Decimal.Injective(i, n);
      }
    }
    forall id | Entry(t, id).Some?
      ensures Entry(t, id).value < |t.sessions| && id == Decimal.ToString(Entry(t, id).value)
    {
      assert id == Decimal.ToString(n) || Entry(t, id) == Entry(s, id);
    }
  }

  lemma OthersKeepMap(s: State, a: Action)
    requires InvMap(s) && !a.Exchange?
    ensures InvMap(Step(s, a)) && |Step(s, a).sessions| == |s.sessions|
    ensures forall id :: Entry(Step(s, a), id) == Entry(s, id)
  {
    var t := Step(s, a);
    forall id | Entry(t, id).Some?
      ensures Entry(t, id).value < |t.sessions| && id == Decimal.ToString(Entry(t, id).value)
    {
      assert Entry(t, id) == Entry(s, id);
    }
  }

  lemma {:induction false} SessionsGrow(s: State, schedule: seq<Action>)
    ensures |s.sessions| <= |RunFrom(s, schedule).sessions|
  {
    if schedule != [] {
      SessionsGrow(s, schedule[..|schedule| - 1]);
    }
  }

  lemma {:induction false} RunKeepsMap(s: State, schedule: seq<Action>)
    requires InvMap(s) && |RunFrom(s, schedule).sessions| <= ULONG_COUNT
    ensures InvMap(RunFrom(s, schedule))
    ensures forall id :: Entry(s, id).Some? ==> Entry(RunFrom(s, schedule), id) == Entry(s, id)
  {
    if schedule != [] {
      var t, a := RunFrom(s, schedule[..|schedule| - 1]), schedule[|schedule| - 1];
      RunKeepsMap(s, schedule[..|schedule| - 1]);
      if a.Exchange? {
        ExchangeKeepsMap(t, a.nonce);
      } else {
        OthersKeepMap(t, a);
      }
    }
  }

  /**
   In every run of at most 2^64 key exchanges, among any lookups of any ids and any calls, the
   entries that are not null are exactly the decimal numbers below the count, each bound to the
   session of its own exchange.
   */
  lemma LiveEntries(schedule: seq<Action>, id: string)
    requires |Run(schedule).sessions| <= ULONG_COUNT
    ensures var s := Run(schedule);
            Entry(s, id).Some? <==> exists i: nat :: i < |s.sessions| && id == Decimal.ToString(i)
    ensures var s := Run(schedule);
            forall i: nat :: i < |s.sessions| ==> Entry(s, Decimal.ToString(i)) == Some(i)
  {
    RunKeepsMap(Init(), schedule);
    var s := Run(schedule);
    if Entry(s, id).Some? {
      var i := Entry(s, id).value;
      assert i < |s.sessions| && id == Decimal.ToString(i);
    }
  }

  /** A key exchange hands out an id no session has, if and only if fewer than 2^64 were made before. */
  lemma ExchangeIsFresh(schedule: seq<Action>)
    requires |Run(schedule).sessions| <= ULONG_COUNT
    ensures var s := Run(schedule);
            Entry(s, Decimal.ToString(s.nextPeerId)).None? <==> |s.sessions| < ULONG_COUNT
  {
    RunKeepsMap(Init(), schedule);
    var s := Run(schedule);
    if |s.sessions| < ULONG_COUNT {
      ExchangeKeepsMap(s, 0);
    } else {
      assert s.nextPeerId == 0;
      assert Entry(s, Decimal.ToString(0)) == Some(0);
    }
  }

  /** A call accepted by its nonce names a session, and its id resolves to that session from then on. */
  lemma AcceptedResolves(before: seq<Action>, m: Metadata, after: seq<Action>)
    requires LooksUp(m) && ProcessResult(Run(before), m) == OK
    requires |Run(before + after).sessions| <= ULONG_COUNT
    ensures var s, t := Run(before), Run(before + after);
            && Entry(s, m.id.value).Some? && Entry(t, m.id.value) == Entry(s, m.id.value)
            && GetGstResult(m.id) == 0
  {
    Runs.Append(Step, Init(), before, after);
    SessionsGrow(Run(before), after);
    RunKeepsMap(Init(), before);
    RunKeepsMap(Run(before), after);
  }

  /**
   Exactly which calls get through: those that claim a prefix of ExchangeKey, and those with their session's
   nonce.
   */
  lemma WhoGetsThrough(s: State, m: Metadata)
    ensures ProcessResult(s, m) == OK <==>
            (m.methodName.Some? && m.methodName.value != "" && IsExchange(m.methodName.value)) || NonceFits(s, m)
    ensures ProcessResult(s, m) == NOT_FOUND <==> LooksUp(m) && Entry(s, m.id.value).None?
  {
  }

  /**
   A call that is let through by its nonce advances its own session's nonce and no other; no other call changes
   any.
   */
  lemma OnlyItsOwnNonce(s: State, m: Metadata, i: nat)
    requires InvMap(s) && i < |s.sessions|
    ensures ProcessStep(s, m).sessions[i] ==
            if NonceFits(s, m) && m.id.value == Decimal.ToString(i) then Gst(Ulong(s.sessions[i].nonce + 1))
            else s.sessions[i]
  {
    if NonceFits(s, m) && m.id.value == Decimal.ToString(i) {
      assert Entry(s, m.id.value) == Some(i);
    }
  }

  // ---------- Key exchanges, from the key on ----------

  /** What a client sends: a key, with what becomes of it; or any other call. */
  datatype Request =
    | Key(key: KeyRequest, unset: nat)  // without an authenticator the new session's nonce is not set, and is `unset`
    | Another(action: Action)

  function Serve(secured: bool, uuid: string, s: State, q: Request): State {
    match q
    case Key(r, unset) =>
      if ExchangeStatus(secured, uuid, r) != 0 then s
      else Step(s, Exchange(if secured then r.credential.value.nonce else unset))
    case Another(action) => if action.Exchange? then s else Step(s, action)
  }

  /** The state of a server after it has served `requests`. */
  function Served(secured: bool, uuid: string, requests: seq<Request>): State {
    if requests == [] then Init()
    else Serve(secured, uuid, Served(secured, uuid, requests[..|requests| - 1]), requests[|requests| - 1])
  }

  /** The credential could be had from the key, and is for this server: its uuid begins with the server's. */
  ghost predicate ForServer(uuid: string, r: KeyRequest) {
    && r.decrypted >= 0 && r.result >= 0 && r.credential.Some?
    && exists tail :: r.credential.value.uuid == uuid + tail
  }

  /** Each failure of a key exchange has its own status and changes nothing. */
  lemma ExchangeRefuses(secured: bool, uuid: string, s: State, r: KeyRequest, unset: nat)
    ensures var status := ExchangeStatus(secured, uuid, r);
            && (secured && r.decrypted < 0 ==> status == r.decrypted)
            && (secured && r.decrypted >= 0 && r.result < 0 ==> status == r.result)
            && (secured && r.decrypted >= 0 && r.result >= 0 && r.credential.None? ==> status == -EFAULT)
            && (secured && r.decrypted >= 0 && r.result >= 0 && r.credential.Some? && !ForServer(uuid, r) ==>
                  status == -EINVAL)
            && ((secured ==> ForServer(uuid, r)) && !r.created ==> status == -EFAULT)
            && (status != 0 ==> Serve(secured, uuid, s, Key(r, unset)) == s)
  {
    if r.credential.Some? {
      PrefixHasTail(uuid, r);
    }
  }

  lemma PrefixHasTail(uuid: string, r: KeyRequest)
    requires r.credential.Some?
    ensures uuid <= r.credential.value.uuid <==> exists tail :: r.credential.value.uuid == uuid + tail
  {
    var whole := r.credential.value.uuid;
    if uuid <= whole {
      assert whole == uuid + whole[|uuid|..];
    }
  }

  /**
   A key exchange makes a session exactly if its credential is for this server, where there is an authenticator,
   and the object could be made: a new one with the credential's nonce, under the next id.
   */
  lemma WhoGetsASession(secured: bool, uuid: string, s: State, r: KeyRequest, unset: nat)
    ensures var t := Serve(secured, uuid, s, Key(r, unset));
            if r.created && (secured ==> ForServer(uuid, r)) then
              && ExchangeStatus(secured, uuid, r) == 0
              && t.sessions == s.sessions + [Gst(if secured then r.credential.value.nonce else unset)]
              && Entry(t, Decimal.ToString(s.nextPeerId)) == Some(|s.sessions|)
              && (forall id :: id != Decimal.ToString(s.nextPeerId) ==> Entry(t, id) == Entry(s, id))
              && t.nextPeerId == (s.nextPeerId + 1) % 0x1_0000_0000_0000_0000
            else ExchangeStatus(secured, uuid, r) != 0 && t == s
  {
    if r.credential.Some? {
      PrefixHasTail(uuid, r);
    }
  }

  lemma OtherRequests(secured: bool, uuid: string, s: State, action: Action)
    ensures |Serve(secured, uuid, s, Another(action)).sessions| == |s.sessions|
  {
  }

  /** In every run of a server with an authenticator each session was made for a credential that is for this server. */
  lemma {:induction false} EverySessionIsForServer(uuid: string, requests: seq<Request>, i: nat) returns (k: nat)
    requires i < |Served(true, uuid, requests).sessions|
    ensures k < |requests| && requests[k].Key? && requests[k].key.created && ForServer(uuid, requests[k].key)
    ensures |Served(true, uuid, requests[..k]).sessions| == i
  {
    var n := |requests| - 1;
    var s, q := Served(true, uuid, requests[..n]), requests[n];
    if i < |s.sessions| {
      k := EverySessionIsForServer(uuid, requests[..n], i);
      assert requests[..n][..k] == requests[..k];
    } else {
      k := n;
      match q
      case Key(r, unset) => WhoGetsASession(true, uuid, s, r, unset);
      case Another(action) => OtherRequests(true, uuid, s, action);
    }
  }

  // ---------- What the other calls do ----------

  /** A lookup of an id resolves it and leaves an entry, a null one if there was none. */
  lemma LookupLeavesEntry(s: State, id: Option<string>)
    ensures var t := Step(s, Lookup(id));
            && (id.None? ==> GetGstResult(id) == -EINVAL && t == s)
            && (id == Some("") ==> GetGstResult(id) == -ENOENT && t == s)
            && (id.Some? && id.value != "" ==>
                  && GetGstResult(id) == 0
                  && t.clientMap == s.clientMap[id.value := Entry(s, id.value)]
                  && t.sessions == s.sessions && t.nextPeerId == s.nextPeerId)
  {
  }

  /** The name of the method claims to be that of a key exchange, by a part of it at least. */
  ghost predicate Claims(name: string) { name != "" && exists tail :: name + tail == "ExchangeKey" }

  /** The statuses of a call in their order, and the map after it. */
  lemma ProcessAnswers(s: State, m: Metadata)
    ensures var t, status := Step(s, Process(m)), ProcessResult(s, m);
            && (m.methodName.None? || m.methodName == Some("") ==> status == UNAUTHENTICATED && t == s)
            && (m.methodName.Some? && Claims(m.methodName.value) ==> status == OK && t == s)
            && (m.methodName.Some? && m.methodName.value != "" && !Claims(m.methodName.value) ==>
                  if m.id.None? || m.id == Some("") then status == INVALID_ARGUMENT && t == s
                  else
                    && t.clientMap == s.clientMap[m.id.value := Entry(s, m.id.value)]
                    && t.nextPeerId == s.nextPeerId
                    && (Entry(s, m.id.value).None? ==> status == NOT_FOUND && t.sessions == s.sessions)
                    && (Entry(s, m.id.value).Some? && Entry(s, m.id.value).value < |s.sessions| ==>
                          var g := Entry(s, m.id.value).value;
                          var nonce := s.sessions[g].nonce;
                          if m.nonce == Some(Decimal.ToString(nonce)) then
                            && status == OK
                            && t.sessions == s.sessions[g := Gst((nonce + 1) % 0x1_0000_0000_0000_0000)]
                          else status == UNAUTHENTICATED && t.sessions == s.sessions))
  {
    if m.methodName.Some? {
      ClaimsIsExchange(m.methodName.value);
    }
  }

  lemma ClaimsIsExchange(name: string)
    ensures name != "" && IsExchange(name) <==> Claims(name)
  {
    if IsExchange(name) {
      assert name + "ExchangeKey"[|name|..] == "ExchangeKey";
    }
  }

  // ---------- The server ----------

  class GrpcServer {
    const secured: bool   // there is an authenticator
    const uuid: string
    var clientMap: map<string, Option<nat>>
    var nextPeerId: nat
    var sessions: seq<Gst>

    ghost function View(): State
      reads this
    {
      State(clientMap, nextPeerId, sessions)
    }

    ghost predicate Valid()
      reads this
    {
      forall id :: id in clientMap && clientMap[id].Some? ==> clientMap[id].value < |sessions|
    }

    constructor (secured: bool, uuid: string)
      ensures Valid() && View() == Init() && this.secured == secured && this.uuid == uuid
    {
      this.secured, this.uuid := secured, uuid;
      clientMap, nextPeerId, sessions := map[], 0, [];
    }

    /**
     ExchangeKey; without an authenticator the new session's nonce is not set and stays what it happens to be,
     `unset`.
     */
    method ExchangeKey(r: KeyRequest, unset: nat) returns (status: int, id: string)
      requires Valid()
      modifies this
      ensures Valid()
      ensures status == ExchangeStatus(secured, uuid, r)
      ensures View() == old(Serve(secured, uuid, View(), Key(r, unset)))
      ensures id == if status == 0 then Decimal.ToString(old(nextPeerId)) else ""
      ensures status == 0 <==> r.created && (secured ==> ForServer(uuid, r))
    {
      WhoGetsASession(secured, uuid, View(), r, unset);
      id := "";
      var nonce := unset;
      if secured {
        if r.decrypted < 0 {
          return r.decrypted, id;
        }
        if r.result < 0 {
          return r.result, id;
        }
        if r.credential.None? {
          return -EFAULT, id;
        }
        var cred := r.credential.value;
        if !(uuid <= cred.uuid) {
          return -EINVAL, id;
        }
        nonce := cred.nonce;
      }
      if !r.created {
        return -EFAULT, id;
      }
      id := Decimal.ToString(nextPeerId);
      sessions := sessions + [Gst(nonce)];
      clientMap := clientMap[id := Some(|sessions| - 1)];
      nextPeerId := Ulong(nextPeerId + 1);
      status := 0;
    }

    method GetGst(id: Option<string>) returns (ret: int, gst: Option<nat>)
      requires Valid()
      modifies this
      ensures Valid() && View() == old(Step(View(), Lookup(id)))
      ensures ret == GetGstResult(id) && (ret == 0 ==> gst == Entry(old(View()), id.value))
    {
      gst := None;
      if id.None? {
        return -EINVAL, gst;
      }
      var peerId := id.value;
      if peerId == "" {
        return -ENOENT, gst;
      }
      if peerId !in clientMap {
        clientMap := clientMap[peerId := None];
      }
      gst := clientMap[peerId];
      ret := 0;
    }

    /** Auth::Process. */
    method Authenticate(m: Metadata) returns (status: Status)
      requires Valid()
      modifies this
      ensures Valid() && View() == old(Step(View(), Process(m)))
      ensures status == old(ProcessResult(View(), m))
    {
      if m.methodName.None? || m.methodName.value == "" {
        return UNAUTHENTICATED;
      }
      if IsExchange(m.methodName.value) {
        return OK;
      }
      if m.id.None? || m.id.value == "" {
        return INVALID_ARGUMENT;
      }
      var peerId := m.id.value;
      if peerId !in clientMap {
        clientMap := clientMap[peerId := None];
      }
      var gst := clientMap[peerId];
      if gst.None? {
        return NOT_FOUND;
      }
      var nonce := sessions[gst.value].nonce;
      if m.nonce.None? || m.nonce.value == "" {
        Decimal.Printable(nonce, ' ');
        return UNAUTHENTICATED;
      }
      if Decimal.ToString(nonce) != m.nonce.value {
        return UNAUTHENTICATED;
      }
      sessions := sessions[gst.value := Gst(Ulong(nonce + 1))];
      status := OK;
    }
  }
}
