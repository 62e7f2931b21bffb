/**
 CommandObject: command records passed between threads by writing their addresses,
 eight bytes each, to a byte stream.

 Send and Recv retry a short write or read once.  The sender and the receiver are
 separate threads, so the four system calls are separate steps, and each may move
 any number of bytes: `Run` over an arbitrary schedule covers every fragmentation
 and every interleaving.
 */
module CommandStream {

  type Byte = b: int | 0 <= b < 256
  // An address that fits the eight bytes of a pointer; 0 is nullptr.
  type Address = nat

  const ADDRESS_SIZE := 8

  // ---------- Pointers as bytes ----------

  /** The low `n` bytes of `a`, the lowest first. */
  function Bytes(a: nat, n: nat): (bs: seq<Byte>)
    ensures |bs| == n
  {
    if n == 0 then [] else [a % 256] + Bytes(a / 256, n - 1)
  }

  function Number(bs: seq<Byte>): nat {
    if bs == [] then 0 else bs[0] + 256 * Number(bs[1..])
  }

  function Limit(n: nat): nat { if n == 0 then 1 else 256 * Limit(n - 1) }

  lemma {:induction false} NumberOfBytes(a: nat, n: nat)
    requires a < Limit(n)
    ensures Number(Bytes(a, n)) == a
  {
    if n > 0 {
      NumberOfBytes(a / 256, n - 1);
    }
  }

  function Encode(a: Address): seq<Byte> { Bytes(a, ADDRESS_SIZE) }

  function Decode(bs: seq<Byte>): Address { Number(bs) }

  predicate Representable(a: Address) { 0 < a < Limit(ADDRESS_SIZE) }

  /** The bytes of several pointers, one after the other. */
  function EncodeAll(addrs: seq<Address>): (bs: seq<Byte>)
    ensures |bs| == ADDRESS_SIZE * |addrs|
  {
    if addrs == [] then [] else Encode(addrs[0]) + EncodeAll(addrs[1..])
  }

  // ---------- States ----------

  datatype Command = Command(id: int, data: int)

  datatype Sender =
    | NotSending
    | Sending(addr: Address)                  // record allocated, nothing written
    | Resending(addr: Address, written: nat)  // short write, to be retried once

  datatype Receiver =
    | NotReceiving
    | Rereading(buffer: seq<Byte>)            // short read, to be retried once

  datatype State = State(
    stream: seq<Byte>,
    heap: map<Address, Command>,
    sender: Sender,
    receiver: Receiver,
    // bookkeeping
    inflight: seq<Address>,    // sent, not yet received
    sent: seq<Command>,        // Sends that returned 0
    received: seq<Command>,    // Recvs that returned 0
    torn: bool,                // some call gave up with part of a pointer moved
    fault: bool                // a record used or freed when not live
  )

  function Init(): State { State([], map[], NotSending, NotReceiving, [], [], [], false, false) }

  datatype Action =
    | Allocate(cmd: Command, addr: Address)  // Send: NewCommandData
    | Write(n: int)                          // Send: first write, of `n` bytes or an error if negative
    | Rewrite(n: int)                        // Send: the retry
    | Read(n: int)                           // Recv: first read
    | Reread(n: int)                         // Recv: the retry

  predicate Enabled(s: State, a: Action) {
    match a
    case Allocate(_, addr) => s.sender.NotSending? && addr !in s.heap && Representable(addr)
    case Write(n) => s.sender.Sending? && n <= ADDRESS_SIZE
    case Rewrite(n) => s.sender.Resending? && n <= ADDRESS_SIZE - s.sender.written
    case Read(n) => s.receiver.NotReceiving? && n <= ADDRESS_SIZE && n <= |s.stream|
    case Reread(n) => s.receiver.Rereading? && n <= ADDRESS_SIZE - |s.receiver.buffer| && n <= |s.stream|
  }

  function AllocateStep(s: State, cmd: Command, addr: Address): State {
    s.(heap := s.heap[addr := cmd], sender := Sending(addr))
  }

  /** The record at `addr` is completely written: Send returns 0. */
  function SendDone(s: State, addr: Address): State {
    if addr in s.heap then
      s.(sender := NotSending, inflight := s.inflight + [addr], sent := s.sent + [s.heap[addr]])
    else s.(fault := true)
  }

  /** Send gives up with `written` bytes of the pointer in the stream: it frees the record and returns an error. */
  function SendFailed(s: State, addr: Address, written: nat): State {
    if addr in s.heap then
      s.(sender := NotSending, heap := s.heap - {addr}, torn := s.torn || written > 0)
    else s.(fault := true)
  }

  function WriteStep(s: State, n: int): State
    requires s.sender.Sending? && n <= ADDRESS_SIZE
  {
    var addr := s.sender.addr;
    if n < 0 then SendFailed(s, addr, 0)
    else
      var t := s.(stream := s.stream + Encode(addr)[..n]);
      if n == ADDRESS_SIZE then SendDone(t, addr) else t.(sender := Resending(addr, n))
  }

  function RewriteStep(s: State, n: int): State
    requires s.sender.Resending? && n <= ADDRESS_SIZE - s.sender.written
  {
    var addr, written := s.sender.addr, s.sender.written;
    if n < 0 then SendFailed(s, addr, written)
    else
      var t := s.(stream := s.stream + Encode(addr)[written..written + n]);
      if written + n == ADDRESS_SIZE then SendDone(t, addr) else SendFailed(t, addr, written + n)
  }

  /** The bytes of a pointer have been read: Recv copies the record, frees it and returns 0. */
  function RecvDone(s: State, bytes: seq<Byte>): State {
    var addr := Decode(bytes);
    if addr == 0 then
      s.(receiver := NotReceiving, torn := true)  // "Invalid command received"
    else if addr in s.heap then
      s.(receiver := NotReceiving,
         received := s.received + [s.heap[addr]],
         heap := s.heap - {addr},
         inflight := if s.inflight == [] then [] else s.inflight[1..])
    else s.(receiver := NotReceiving, fault := true)
  }

  function ReadStep(s: State, n: int): State
    requires s.receiver.NotReceiving? && n <= ADDRESS_SIZE && n <= |s.stream|
  {
    if n < 0 then s
    else
      var t := s.(stream := s.stream[n..]);
      if n == ADDRESS_SIZE then RecvDone(t, s.stream[..n]) else t.(receiver := Rereading(s.stream[..n]))
  }

  function RereadStep(s: State, n: int): State
    requires s.receiver.Rereading? && n <= ADDRESS_SIZE - |s.receiver.buffer| && n <= |s.stream|
  {
    if n < 0 then s.(receiver := NotReceiving, torn := s.torn || s.receiver.buffer != [])
    else
      var bytes := s.receiver.buffer + s.stream[..n];
      var t := s.(stream := s.stream[n..]);
      if |bytes| == ADDRESS_SIZE then RecvDone(t, bytes)
      else t.(receiver := NotReceiving, torn := s.torn || bytes != [])
  }

  function Step(s: State, a: Action): State {
    if !Enabled(s, a) then s else
    match a
    case Allocate(cmd, addr) => AllocateStep(s, cmd, addr)
    case Write(n) => WriteStep(s, n)
    case Rewrite(n) => RewriteStep(s, n)
    case Read(n) => ReadStep(s, n)
    case Reread(n) => RereadStep(s, n)
  }

  function Run(schedule: seq<Action>): State {
    if schedule == [] then Init() else Step(Run(schedule[..|schedule| - 1]), schedule[|schedule| - 1])
  }

  // ---------- Invariant ----------

  /** What the receiver has taken of the pointer it is reading. */
  function Taken(s: State): seq<Byte> {
    if s.receiver.Rereading? then s.receiver.buffer else []
  }

  /** What the sender has written of the pointer it is writing. */
  function Given(s: State): seq<Byte> {
    if s.sender.Resending? && s.sender.written <= ADDRESS_SIZE then Encode(s.sender.addr)[..s.sender.written] else []
  }

  function SenderAddrs(s: State): set<Address> {
    if s.sender.NotSending? then {} else {s.sender.addr}
  }

  function Commands(heap: map<Address, Command>, addrs: seq<Address>): seq<Command>
    requires forall a :: a in addrs ==> a in heap
  {
    if addrs == [] then [] else [heap[addrs[0]]] + Commands(heap, addrs[1..])
  }

  ghost predicate Distinct(addrs: seq<Address>) {
    forall i, j :: 0 <= i < j < |addrs| ==> addrs[i] != addrs[j]
  }

  /** Every live record is in flight or the sender's. */
  ghost predicate Owned(s: State) {
    && (forall a :: a in s.heap ==> Representable(a))
    && Distinct(s.inflight)
    && (forall a :: a in s.inflight ==> a in s.heap && a !in SenderAddrs(s))
    && SenderAddrs(s) <= s.heap.Keys
    && (forall a :: a in s.heap ==> a in s.inflight || a in SenderAddrs(s))
  }

  ghost predicate Framed(s: State) {
    && (s.sender.Resending? ==> s.sender.written < ADDRESS_SIZE)
    && (s.receiver.Rereading? ==> |s.receiver.buffer| < ADDRESS_SIZE)
    && Taken(s) + s.stream == EncodeAll(s.inflight) + Given(s)
  }

  ghost predicate Inv(s: State) {
    && !s.fault
    && Owned(s)
    && Framed(s)
    && s.sent == s.received + Commands(s.heap, s.inflight)
  }

  // ---------- Lemmas ----------

  lemma {:induction false} EncodeAllSnoc(addrs: seq<Address>, a: Address)
    ensures EncodeAll(addrs + [a]) == EncodeAll(addrs) + Encode(a)
  {
    if addrs == [] {
      assert addrs + [a] == [a];
      assert EncodeAll([a]) == Encode(a) + EncodeAll([]);
    } else {
      assert (addrs + [a])[1..] == addrs[1..] + [a];
      EncodeAllSnoc(addrs[1..], a);
    }
  }

  lemma {:induction false} CommandsSnoc(heap: map<Address, Command>, addrs: seq<Address>, a: Address)
    requires a in heap && forall x :: x in addrs ==> x in heap
    ensures forall x :: x in addrs + [a] ==> x in heap
    ensures Commands(heap, addrs + [a]) == Commands(heap, addrs) + [heap[a]]
  {
    if addrs == [] {
      assert addrs + [a] == [a];
    } else {
      assert (addrs + [a])[1..] == addrs[1..] + [a];
      CommandsSnoc(heap, addrs[1..], a);
    }
  }

  lemma {:induction false} CommandsAgree(h: map<Address, Command>, h': map<Address, Command>, addrs: seq<Address>)
    requires forall a :: a in addrs ==> a in h && a in h' && h[a] == h'[a]
    ensures Commands(h, addrs) == Commands(h', addrs)
  {
    if addrs != [] {
      CommandsAgree(h, h', addrs[1..]);
    }
  }

  /**
   A stream that starts where a pointer starts, or after `taken` of it was read, goes on with the first one in
   flight.
   */
  lemma {:induction false} FrontPointer(taken: seq<Byte>, stream: seq<Byte>, addrs: seq<Address>, given: seq<Byte>,
                                        n: nat)
    requires taken + stream == EncodeAll(addrs) + given && |given| < ADDRESS_SIZE
    requires n <= |stream| && |taken| + n == ADDRESS_SIZE
    ensures addrs != [] && taken + stream[..n] == Encode(addrs[0])
    ensures stream[n..] == EncodeAll(addrs[1..]) + given
  {
    var all := taken + stream;
    assert addrs != [];
    assert all == Encode(addrs[0]) + (EncodeAll(addrs[1..]) + given);
    assert taken + stream[..n] == all[..ADDRESS_SIZE] && stream[n..] == all[ADDRESS_SIZE..];
  }

  lemma DecodeEncode(a: Address)
    requires Representable(a)
    ensures Decode(Encode(a)) == a
  {
    NumberOfBytes(a, ADDRESS_SIZE);
  }

  // ---------- Every step keeps the invariant, until a pointer is torn ----------

  lemma AllocateKeepsInv(s: State, cmd: Command, addr: Address)
    requires Inv(s) && s.sender.NotSending? && addr !in s.heap && Representable(addr)
    ensures Inv(AllocateStep(s, cmd, addr))
  {
    CommandsAgree(s.heap, AllocateStep(s, cmd, addr).heap, s.inflight);
  }

  /** The bytes moved when the sender puts the rest of its pointer into the stream. */
  lemma LastBytes(taken: seq<Byte>, stream: seq<Byte>, addrs: seq<Address>, addr: Address, written: nat)
    requires written <= ADDRESS_SIZE
    requires taken + stream == EncodeAll(addrs) + Encode(addr)[..written]
    ensures taken + (stream + Encode(addr)[written..]) == EncodeAll(addrs + [addr]) + []
  {
    EncodeAllSnoc(addrs, addr);
    assert Encode(addr) == Encode(addr)[..written] + Encode(addr)[written..];
    assert taken + (stream + Encode(addr)[written..]) == (taken + stream) + Encode(addr)[written..];
  }

  lemma SendDoneKeepsOwned(s: State, t: State, addr: Address)
    requires Owned(s) && !s.sender.NotSending? && s.sender.addr == addr
    requires t.heap == s.heap && t.sender == s.sender && t.inflight == s.inflight
    ensures Owned(SendDone(t, addr))
  {
    var u := SendDone(t, addr);
    assert addr in s.heap && u.inflight == s.inflight + [addr];
    assert forall a :: a in u.inflight <==> a in s.inflight || a == addr;
  }

  lemma SendDoneKeepsFramed(s: State, t: State, addr: Address, written: nat)
    requires Framed(s) && (s.sender == Sending(addr) || s.sender == Resending(addr, written)) && addr in s.heap
    requires s.sender == Sending(addr) ==> written == 0
    requires written <= ADDRESS_SIZE && t == s.(stream := s.stream + Encode(addr)[written..])
    ensures Framed(SendDone(t, addr))
  {
    assert Given(s) == Encode(addr)[..written];
    LastBytes(Taken(s), s.stream, s.inflight, addr, written);
  }

  /** The sender has put the rest of its pointer into the stream. */
  lemma SendDoneKeepsInv(s: State, t: State, addr: Address, written: nat)
    requires Inv(s) && (s.sender == Sending(addr) || s.sender == Resending(addr, written))
    requires s.sender == Sending(addr) ==> written == 0
    requires written <= ADDRESS_SIZE && t == s.(stream := s.stream + Encode(addr)[written..])
    ensures Inv(SendDone(t, addr))
  {
    SendDoneKeepsOwned(s, t, addr);
    CommandsSnoc(s.heap, s.inflight, addr);
    SendDoneKeepsFramed(s, t, addr, written);
    assert SendDone(t, addr).sent == s.received + Commands(s.heap, s.inflight + [addr]);
  }

  lemma SendFailedKeepsInv(s: State, addr: Address)
    requires Inv(s) && (s.sender == Sending(addr) || s.sender == Resending(addr, 0))
    ensures Inv(SendFailed(s, addr, 0))
  {
    CommandsAgree(s.heap, s.heap - {addr}, s.inflight);
  }

  lemma ShortWriteKeepsInv(s: State, n: int)
    requires Inv(s) && s.sender.Sending? && 0 <= n < ADDRESS_SIZE
    ensures Inv(WriteStep(s, n)) && WriteStep(s, n).torn == s.torn
  {
    var t, addr := WriteStep(s, n), s.sender.addr;
    assert t == s.(stream := s.stream + Encode(addr)[..n], sender := Resending(addr, n));
    ShortWriteIsFramed(Taken(s), s.stream, EncodeAll(s.inflight), Encode(addr)[..n]);
    assert Owned(t);
  }

  lemma ShortWriteIsFramed(taken: seq<Byte>, stream: seq<Byte>, whole: seq<Byte>, given: seq<Byte>)
    requires taken + stream == whole + []
    ensures taken + (stream + given) == whole + given
  {
    assert taken + (stream + given) == (taken + stream) + given;
    assert whole + [] == whole;
  }

  lemma WriteKeepsInv(s: State, n: int)
    requires Inv(s) && s.sender.Sending? && n <= ADDRESS_SIZE
    ensures Inv(WriteStep(s, n)) && WriteStep(s, n).torn == s.torn
  {
    var addr := s.sender.addr;
    if n < 0 {
      SendFailedKeepsInv(s, addr);
    } else if n == ADDRESS_SIZE {
      assert Encode(addr)[..n] == Encode(addr)[0..];
      SendDoneKeepsInv(s, s.(stream := s.stream + Encode(addr)[0..]), addr, 0);
    } else {
      ShortWriteKeepsInv(s, n);
    }
  }

  /** The bytes of an address that are moved once a retry of `n` bytes, or a failed one, follows `before` bytes. */
  function Moved(before: nat, n: int): int { before + if n < 0 then 0 else n }

  predicate Inside(moved: int) { 0 < moved < ADDRESS_SIZE }

  /** The retry of a Send or a Recv ends it with part of an address moved. */
  predicate GivesUpInside(s: State, a: Action) {
    && Enabled(s, a)
    && match a
       case Rewrite(n) => Inside(Moved(s.sender.written, n))
       case Reread(n) => Inside(Moved(|s.receiver.buffer|, n))
       case _ => false
  }

  lemma RewriteKeepsInv(s: State, n: int)
    requires Inv(s) && s.sender.Resending? && n <= ADDRESS_SIZE - s.sender.written
    requires !Inside(Moved(s.sender.written, n))
    ensures Inv(RewriteStep(s, n)) && RewriteStep(s, n).torn == s.torn
  {
    var addr, written := s.sender.addr, s.sender.written;
    if n <= 0 && written == 0 {
      assert s.stream + Encode(addr)[written..written] == s.stream;
      SendFailedKeepsInv(s, addr);
    } else if n >= 0 && written + n == ADDRESS_SIZE {
      assert Encode(addr)[written..written + n] == Encode(addr)[written..];
      SendDoneKeepsInv(s, s.(stream := s.stream + Encode(addr)[written..]), addr, written);
    }
  }

  lemma FreeFirstKeepsOwned(s: State, u: State)
    requires Owned(s) && s.inflight != []
    requires u.heap == s.heap - {s.inflight[0]} && u.inflight == s.inflight[1..] && u.sender == s.sender
    ensures Owned(u)
  {
    var first := s.inflight[0];
    assert s.inflight == [first] + u.inflight;
    assert forall a :: a in u.inflight ==> a in s.inflight && a != first;
  }

  /** The receiver has the whole of a pointer: it is the first one in flight. */
  lemma RecvDoneKeepsInv(s: State, n: nat)
    requires Inv(s) && n <= |s.stream| && |Taken(s)| + n == ADDRESS_SIZE
    ensures s.inflight != [] && s.inflight[0] in s.heap
    ensures var u := RecvDone(s.(stream := s.stream[n..]), Taken(s) + s.stream[..n]);
            && Inv(u) && u.torn == s.torn
            && u.received == s.received + [s.heap[s.inflight[0]]] && u.heap == s.heap - {s.inflight[0]}
  {
    FrontPointer(Taken(s), s.stream, s.inflight, Given(s), n);
    var first := s.inflight[0];
    DecodeEncode(first);
    var u := RecvDone(s.(stream := s.stream[n..]), Taken(s) + s.stream[..n]);
    assert u == s.(stream := s.stream[n..], receiver := NotReceiving, received := s.received + [s.heap[first]],
                   heap := s.heap - {first}, inflight := s.inflight[1..]);
    FreeFirstKeepsOwned(s, u);
    FirstReceived(s.heap, u.heap, s.inflight, s.received);
    assert [] + u.stream == u.stream;
  }

  lemma FirstReceived(h: map<Address, Command>, h': map<Address, Command>, addrs: seq<Address>, received: seq<Command>)
    requires addrs != [] && Distinct(addrs)
    requires forall a :: a in addrs ==> a in h
    requires h' == h - {addrs[0]}
    ensures forall a :: a in addrs[1..] ==> a in h'
    ensures received + Commands(h, addrs) == (received + [h[addrs[0]]]) + Commands(h', addrs[1..])
  {
    assert addrs == [addrs[0]] + addrs[1..];
    assert forall a :: a in addrs[1..] ==> a in addrs && a != addrs[0];
    CommandsAgree(h, h', addrs[1..]);
  }

  lemma ShortReadKeepsInv(s: State, n: nat)
    requires Inv(s) && s.receiver.NotReceiving? && n < ADDRESS_SIZE && n <= |s.stream|
    ensures Inv(ReadStep(s, n)) && ReadStep(s, n).torn == s.torn
  {
    var t := ReadStep(s, n);
    assert t == s.(stream := s.stream[n..], receiver := Rereading(s.stream[..n]));
    assert Taken(t) + t.stream == s.stream == Taken(s) + s.stream;
    assert Owned(t);
  }

  lemma ReadKeepsInv(s: State, n: int)
    requires Inv(s) && s.receiver.NotReceiving? && n <= ADDRESS_SIZE && n <= |s.stream|
    ensures Inv(ReadStep(s, n)) && ReadStep(s, n).torn == s.torn
  {
    if n == ADDRESS_SIZE {
      assert Taken(s) + s.stream[..n] == s.stream[..n];
      RecvDoneKeepsInv(s, n);
    } else if 0 <= n {
      ShortReadKeepsInv(s, n);
    }
  }

  lemma RereadKeepsInv(s: State, n: int)
    requires Inv(s) && s.receiver.Rereading? && n <= ADDRESS_SIZE - |s.receiver.buffer| && n <= |s.stream|
    requires !Inside(Moved(|s.receiver.buffer|, n))
    ensures Inv(RereadStep(s, n)) && RereadStep(s, n).torn == s.torn
  {
    if n >= 0 && |s.receiver.buffer| + n == ADDRESS_SIZE {
      RecvDoneKeepsInv(s, n);
    } else if n <= 0 && s.receiver.buffer == [] {
      assert s.stream[0..] == s.stream;
    }
  }

  lemma StepKeepsInv(s: State, a: Action)
    requires Inv(s) && !GivesUpInside(s, a)
    ensures Inv(Step(s, a)) && Step(s, a).torn == s.torn
  {
    if Enabled(s, a) {
      match a
      case Allocate(cmd, addr) => AllocateKeepsInv(s, cmd, addr);
      case Write(n) => WriteKeepsInv(s, n);
      case Rewrite(n) => RewriteKeepsInv(s, n);
      case Read(n) => ReadKeepsInv(s, n);
      case Reread(n) => RereadKeepsInv(s, n);
    }
  }

  /** A sender that gives up inside an address leaves more bytes than the addresses in flight have. */
  lemma TornRewrite(s: State, n: int)
    requires Inv(s) && s.sender.Resending? && n <= ADDRESS_SIZE - s.sender.written
    requires Inside(Moved(s.sender.written, n))
    ensures !Framed(RewriteStep(s, n)) && RewriteStep(s, n).torn
  {
    var t := RewriteStep(s, n);
    assert |Taken(t) + t.stream| == |EncodeAll(t.inflight)| + Moved(s.sender.written, n);
  }

  /** A receiver that does so takes some away. */
  lemma TornReread(s: State, n: int)
    requires Inv(s) && s.receiver.Rereading? && n <= ADDRESS_SIZE - |s.receiver.buffer| && n <= |s.stream|
    requires Inside(Moved(|s.receiver.buffer|, n))
    ensures !Framed(RereadStep(s, n)) && RereadStep(s, n).torn
  {
    var t := RereadStep(s, n);
    assert t == s.(stream := if n < 0 then s.stream else s.stream[n..], receiver := NotReceiving, torn := true);
    assert |Taken(s) + s.stream| == |EncodeAll(s.inflight) + Given(s)|;
    assert |Taken(t) + t.stream| == |EncodeAll(t.inflight) + Given(t)| - Moved(|s.receiver.buffer|, n);
  }

  /**
   Exactly the retries that give up inside an address break the framing: every other step keeps it, with
   all that rests on it, and after such a one the stream does not start where an address starts.
   */
  lemma FramedExactlyUnless(s: State, a: Action)
    requires Inv(s)
    ensures Framed(Step(s, a)) <==> !GivesUpInside(s, a)
    ensures Inv(Step(s, a)) <==> !GivesUpInside(s, a)
    ensures Step(s, a).torn <==> s.torn || GivesUpInside(s, a)
  {
    if !GivesUpInside(s, a) {
      StepKeepsInv(s, a);
    } else {
      match a
      case Rewrite(n) => TornRewrite(s, n);
      case Reread(n) => TornReread(s, n);
    }
  }

  lemma {:induction false} Reachable(schedule: seq<Action>)
    ensures Run(schedule).torn || Inv(Run(schedule))
  {
    if schedule != [] {
      var s, a := Run(schedule[..|schedule| - 1]), schedule[|schedule| - 1];
      Reachable(schedule[..|schedule| - 1]);
      if !s.torn {
        FramedExactlyUnless(s, a);
      }
    }
  }

  // ---------- Framing ----------

  /**
   As long as no call gave up in the middle of a pointer - in particular as long as
   every call returned 0 - the commands received are a prefix of the commands sent, the
   rest is in flight, and the live records are exactly those in flight and the sender's own:
   nothing was freed twice, and what was received, or could not be sent, was freed.
   */
  lemma Framing(schedule: seq<Action>)
    requires !Run(schedule).torn
    ensures var s := Run(schedule);
            && !s.fault
            && s.received <= s.sent
            && |s.sent| == |s.received| + |s.inflight|
            && s.heap.Keys == (set a | a in s.inflight) + SenderAddrs(s)
            && Distinct(s.inflight)
            && (s.receiver.NotReceiving? && s.sender.NotSending? ==> s.stream == EncodeAll(s.inflight))
  {
    Reachable(schedule);
    var s := Run(schedule);
    CommandsLength(s.heap, s.inflight);
    assert forall a :: a in s.heap <==> a in s.inflight || a in SenderAddrs(s);
    if s.receiver.NotReceiving? && s.sender.NotSending? {
      assert [] + s.stream == s.stream && EncodeAll(s.inflight) + [] == EncodeAll(s.inflight);
    }
  }

  lemma {:induction false} CommandsLength(heap: map<Address, Command>, addrs: seq<Address>)
    requires forall a :: a in addrs ==> a in heap
    ensures |Commands(heap, addrs)| == |addrs|
  {
    if addrs != [] {
      CommandsLength(heap, addrs[1..]);
    }
  }

  // ---------- A channel is a queue ----------

  /** The call of which this is a part returns an error. */
  predicate Fails(s: State, a: Action) {
    match a
    case Allocate(_, _) => false
    case Write(n) => n < 0
    case Rewrite(n) => s.sender.Resending? && (n < 0 || s.sender.written + n != ADDRESS_SIZE)
    case Read(n) => n < 0
    case Reread(n) => s.receiver.Rereading? && (n < 0 || |s.receiver.buffer| + n != ADDRESS_SIZE)
  }

  /** The commands sent and not yet received, the next one first. */
  function Waiting(s: State): seq<Command> {
    if |s.received| <= |s.sent| then s.sent[|s.received|..] else []
  }

  /** The command that is being sent. */
  function BeingSent(s: State): Command
    requires !s.sender.NotSending? && s.sender.addr in s.heap
  {
    s.heap[s.sender.addr]
  }

  lemma AllocateMoves(s: State, cmd: Command, addr: Address)
    requires Inv(s) && Enabled(s, Allocate(cmd, addr))
    ensures var t := Step(s, Allocate(cmd, addr));
            Inv(t) && Waiting(t) == Waiting(s) && !t.sender.NotSending? && BeingSent(t) == cmd
  {
    AllocateKeepsInv(s, cmd, addr);
  }

  /** A write that does not fail either completes the Send, or leaves it to the retry. */
  lemma WriteMoves(s: State, a: Action)
    requires Inv(s) && Enabled(s, a) && (a.Write? || a.Rewrite?) && !Fails(s, a)
    ensures var t := Step(s, a);
            && Inv(t)
            && if t.sender.NotSending? then Waiting(t) == Waiting(s) + [BeingSent(s)]
               else Waiting(t) == Waiting(s) && BeingSent(t) == BeingSent(s)
  {
    StepKeepsInv(s, a);
    WriteQueues(s, a);
  }

  lemma WriteQueues(s: State, a: Action)
    requires Enabled(s, a) && (a.Write? || a.Rewrite?) && !Fails(s, a)
    requires s.sender.addr in s.heap && |s.received| <= |s.sent|
    ensures var t := Step(s, a);
            && t.received == s.received && t.heap == s.heap
            && if t.sender.NotSending? then t.sent == s.sent + [BeingSent(s)]
               else t.sent == s.sent && t.sender.addr == s.sender.addr
  {
  }

  lemma WholeReadMoves(s: State, n: nat, u: State)
    requires Inv(s) && n <= |s.stream| && |Taken(s)| + n == ADDRESS_SIZE
    requires u == RecvDone(s.(stream := s.stream[n..]), Taken(s) + s.stream[..n])
    ensures Inv(u) && u.sender == s.sender && (!s.sender.NotSending? ==> BeingSent(u) == BeingSent(s))
    ensures Waiting(s) != [] && u.received == s.received + [Waiting(s)[0]] && Waiting(u) == Waiting(s)[1..]
  {
    RecvDoneKeepsInv(s, n);
    assert u.sent == s.sent && u.sender == s.sender;
    assert s.sent == s.received + Commands(s.heap, s.inflight);
    assert u.sent == u.received + Commands(u.heap, u.inflight);
  }

  lemma PartReadMoves(s: State, t: State)
    requires Inv(s) && Inv(t) && t == s.(stream := t.stream, receiver := t.receiver)
    ensures Waiting(t) == Waiting(s) && (!s.sender.NotSending? ==> BeingSent(t) == BeingSent(s))
  {
  }

  /**
   A read that does not fail either takes the first command, or leaves it to the retry; a command being sent is
   not touched.
   */
  lemma ReadMoves(s: State, a: Action)
    requires Inv(s) && Enabled(s, a) && (a.Read? || a.Reread?) && !Fails(s, a)
    ensures var t := Step(s, a);
            && Inv(t) && t.sender == s.sender
            && (!s.sender.NotSending? ==> BeingSent(t) == BeingSent(s))
            && if |t.received| > |s.received| then
                 Waiting(s) != [] && t.received == s.received + [Waiting(s)[0]] && Waiting(t) == Waiting(s)[1..]
               else Waiting(t) == Waiting(s)
  {
    match a
    case Read(n) =>
      if n == ADDRESS_SIZE {
        assert Taken(s) + s.stream[..n] == s.stream[..n];
        WholeReadMoves(s, n, ReadStep(s, n));
      } else {
        ReadKeepsInv(s, n);
        PartReadMoves(s, ReadStep(s, n));
      }
    case Reread(n) => WholeReadMoves(s, n, RereadStep(s, n));
  }

  /** A call that fails between two addresses leaves the queue as it was, and frees what was being sent. */
  lemma FailureMovesNothing(s: State, a: Action)
    requires Inv(s) && Enabled(s, a) && Fails(s, a) && !GivesUpInside(s, a)
    ensures var t := Step(s, a);
            && Inv(t) && Waiting(t) == Waiting(s) && t.received == s.received
            && (if a.Write? || a.Rewrite? then t.sender.NotSending? else t.sender == s.sender)
            && (a.Read? || a.Reread? ==> t.heap == s.heap)
  {
    StepKeepsInv(s, a);
    FailureQueues(s, a);
  }

  lemma FailureQueues(s: State, a: Action)
    requires Enabled(s, a) && Fails(s, a)
    requires !s.sender.NotSending? ==> s.sender.addr in s.heap
    ensures var t := Step(s, a);
            && t.sent == s.sent && t.received == s.received
            && (if a.Write? || a.Rewrite? then t.sender.NotSending? else t.sender == s.sender && t.heap == s.heap)
  {
  }

  // ---------- What the writes and reads do ----------

  /** The record at `addr` was not sent: it is freed, and its Send is over. */
  ghost predicate NotSent(s: State, t: State, addr: Address) {
    && t.sender.NotSending? && t.heap == s.heap - {addr}
    && t.inflight == s.inflight && t.sent == s.sent && t.receiver == s.receiver && t.received == s.received
  }

  /** All of its address is in the stream, and its Send is over. */
  ghost predicate IsSent(s: State, t: State, addr: Address) {
    && t.sender.NotSending? && addr in s.heap && t.heap == s.heap
    && t.inflight == s.inflight + [addr] && t.sent == s.sent + [s.heap[addr]]
    && t.receiver == s.receiver && t.received == s.received
  }

  /** The first write of a Send: it fails, or puts the whole address into the stream, or a part of it and is retried. */
  lemma SendWrites(s: State, n: int)
    requires Enabled(s, Write(n)) && s.sender.addr in s.heap
    ensures var t, addr := Step(s, Write(n)), s.sender.addr;
            && (n < 0 ==> NotSent(s, t, addr) && t.stream == s.stream && t.torn == s.torn)
            && (n == ADDRESS_SIZE ==> IsSent(s, t, addr) && t.stream == s.stream + Encode(addr) && t.torn == s.torn)
            && (0 <= n < ADDRESS_SIZE ==>
                  t == s.(stream := s.stream + Encode(addr)[..n], sender := Resending(addr, n)))
  {
    assert Encode(s.sender.addr)[..ADDRESS_SIZE] == Encode(s.sender.addr);
  }

  /** The retry: it puts the rest of the address into the stream, or gives up with what is there. */
  lemma SendRetries(s: State, n: int)
    requires Enabled(s, Rewrite(n)) && s.sender.addr in s.heap && s.sender.written < ADDRESS_SIZE
    ensures var t, addr, written := Step(s, Rewrite(n)), s.sender.addr, s.sender.written;
            && (n < 0 ==> NotSent(s, t, addr) && t.stream == s.stream && (t.torn <==> s.torn || written > 0))
            && (n == ADDRESS_SIZE - written ==>
                  IsSent(s, t, addr) && t.stream == s.stream + Encode(addr)[written..] && t.torn == s.torn)
            && (0 <= n < ADDRESS_SIZE - written ==>
                  && NotSent(s, t, addr) && t.stream == s.stream + Encode(addr)[written..written + n]
                  && (t.torn <==> s.torn || written + n > 0))
  {
    assert Encode(s.sender.addr)[s.sender.written..ADDRESS_SIZE] == Encode(s.sender.addr)[s.sender.written..];
  }

  /** The bytes of a record's address, or of no record's, have been read. */
  ghost predicate IsReceived(s: State, t: State, bytes: seq<Byte>) {
    var addr := Decode(bytes);
    && t.receiver.NotReceiving? && t.sender == s.sender && t.sent == s.sent
    && (addr != 0 && addr in s.heap ==>
          && t.received == s.received + [s.heap[addr]] && t.heap == s.heap - {addr}
          && t.inflight == (if s.inflight == [] then [] else s.inflight[1..]) && t.fault == s.fault)
    && (addr == 0 ==> t.received == s.received && t.heap == s.heap && t.torn && t.fault == s.fault)
    && (addr != 0 && addr !in s.heap ==> t.received == s.received && t.heap == s.heap && t.fault)
  }

  /** The first read of a Recv, and the retry, which gives up unless it has the whole address then. */
  lemma RecvReads(s: State, n: int)
    ensures Enabled(s, Read(n)) ==>
              var t := Step(s, Read(n));
              && (n < 0 ==> t == s)
              && (n == ADDRESS_SIZE ==> IsReceived(s, t, s.stream[..n]) && t.stream == s.stream[n..])
              && (0 <= n < ADDRESS_SIZE ==>
                    t == s.(stream := s.stream[n..], receiver := Rereading(s.stream[..n])))
    ensures Enabled(s, Reread(n)) ==>
              var t, before := Step(s, Reread(n)), s.receiver.buffer;
              && (n < 0 ==> t == s.(receiver := NotReceiving, torn := s.torn || before != []))
              && (0 <= n == ADDRESS_SIZE - |before| ==>
                    IsReceived(s, t, before + s.stream[..n]) && t.stream == s.stream[n..])
              && (0 <= n < ADDRESS_SIZE - |before| ==>
                    t == s.(stream := s.stream[n..], receiver := NotReceiving,
                            torn := s.torn || before + s.stream[..n] != []))
  {
  }

  // ---------- A torn address ----------

  /**
   One torn pointer is enough to break framing: a Send that gave up after one byte, then a complete
   one, and the receiver reads an address that is no record's.
   */
  lemma TornPointerBreaksFraming(c: Command)
    ensures var t := Step(Step(Step(Init(), Allocate(c, 1)), Write(1)), Rewrite(-1));
            var u := Step(Step(Step(t, Allocate(c, 2)), Write(ADDRESS_SIZE)), Read(ADDRESS_SIZE));
            t.torn && u.sent == [c] && u.received == [] && u.fault
  {
    var t := Step(Step(Step(Init(), Allocate(c, 1)), Write(1)), Rewrite(-1));
    assert Encode(1)[..1] == [1];
    assert t == Init().(stream := [1], torn := true);
    SendAfterTorn(t, c);
    ReadAfterTorn(Step(Step(t, Allocate(c, 2)), Write(ADDRESS_SIZE)));
  }

  lemma SendAfterTorn(t: State, c: Command)
    requires t == Init().(stream := [1], torn := true)
    ensures Step(Step(t, Allocate(c, 2)), Write(ADDRESS_SIZE)) ==
            t.(stream := [1] + Encode(2), heap := map[2 := c], inflight := [2], sent := [c])
  {
    assert Representable(2) && Encode(2)[..ADDRESS_SIZE] == Encode(2);
  }

  lemma ReadAfterTorn(v: State)
    requires v.stream == [1] + Encode(2) && v.receiver.NotReceiving? && v.heap.Keys == {2} && v.received == []
    ensures var u := Step(v, Read(ADDRESS_SIZE));
            u.fault && u.received == [] && u.sent == v.sent
  {
    SmallPointer(2);
    assert v.stream[..ADDRESS_SIZE] == [1, 2, 0, 0, 0, 0, 0, 0];
    NumberOf513();
    RecvReads(v, ADDRESS_SIZE);
  }

  lemma SmallPointer(b: Byte)
    ensures Encode(b) == [b, 0, 0, 0, 0, 0, 0, 0]
  {
    assert forall n: nat :: n > 0 ==> Bytes(0, n) == [0] + Bytes(0, n - 1);
    assert Bytes(0, 3) == [0, 0, 0];
    assert Bytes(0, 6) == [0, 0, 0] + Bytes(0, 3);
    assert Bytes(b, 8) == [b] + Bytes(0, 7);
  }

  lemma NumberOf513()
    ensures Decode([1, 2, 0, 0, 0, 0, 0, 0]) == 513
  {
    var z: seq<Byte> := [0, 0, 0, 0, 0, 0];
    assert z[1..] == [0, 0, 0, 0, 0] && z[1..][1..] == [0, 0, 0, 0] && z[1..][1..][1..] == [0, 0, 0];
    assert Number([0, 0, 0]) == 0;
    assert Number(z) == 0;
    assert ([1, 2] + z)[1..] == [2] + z && ([2] + z)[1..] == z;
    assert Number([2] + z) == 2 && Number([1, 2] + z) == 513;
    assert [1, 2] + z == [1, 2, 0, 0, 0, 0, 0, 0];
  }

  // ---------- The channel ----------

  /**
   The two ends of a channel and the byte stream between them.  Each method is one system
   call of Send or Recv with what surrounds it; `moved` is the call's result.
   */
  class Channel {
    var stream: seq<Byte>
    var heap: map<Address, Command>
    var sender: Sender
    var receiver: Receiver
    ghost var inflight: seq<Address>
    ghost var sent: seq<Command>
    ghost var received: seq<Command>
    ghost var torn: bool
    var fault: bool

    ghost function View(): State
      reads this
    {
      State(stream, heap, sender, receiver, inflight, sent, received, torn, fault)
    }

    constructor ()
      ensures View() == Init()
    {
      stream, heap, sender, receiver := [], map[], NotSending, NotReceiving;
      inflight, sent, received, torn, fault := [], [], [], false, false;
    }

    /** Send: allocate the record. */
    method NewCommandData(id: int, data: int, addr: Address)
      requires sender.NotSending? && addr !in heap
      modifies this
      ensures View() == AllocateStep(old(View()), Command(id, data), addr)
    {
      heap := heap[addr := Command(id, data)];
      sender := Sending(addr);
    }

    /** Send: the first write; a short one is left to the retry. */
    method FirstWrite(moved: int) returns (ret: int)
      requires sender.Sending? && moved <= ADDRESS_SIZE
      modifies this
      ensures View() == WriteStep(old(View()), moved)
      ensures ret == if moved == ADDRESS_SIZE then 0 else moved
    {
      var addr := sender.addr;
      ret := moved;
      if moved < 0 {
        Abandon(addr, 0);
      } else {
        stream := stream + Encode(addr)[..moved];
        if moved == ADDRESS_SIZE {
          Complete(addr);
          ret := 0;
        } else {
          sender := Resending(addr, moved);
        }
      }
    }

    /** Send: the retry, which has to write all that is left. */
    method SecondWrite(moved: int) returns (ok: bool)
      requires sender.Resending? && moved <= ADDRESS_SIZE - sender.written
      modifies this
      ensures View() == RewriteStep(old(View()), moved)
      ensures ok == (moved == ADDRESS_SIZE - old(sender.written))
    {
      var addr, written := sender.addr, sender.written;
      if moved < 0 {
        Abandon(addr, written);
      } else {
        stream := stream + Encode(addr)[written..written + moved];
        if written + moved == ADDRESS_SIZE {
          Complete(addr);
        } else {
          Abandon(addr, written + moved);
        }
      }
      ok := written + moved == ADDRESS_SIZE;
    }

    method Complete(addr: Address)
      modifies this
      ensures View() == SendDone(old(View()), addr)
    {
      if addr in heap {
        inflight, sent := inflight + [addr], sent + [heap[addr]];
        sender := NotSending;
      } else {
        fault := true;
      }
    }

    method Abandon(addr: Address, written: nat)
      modifies this
      ensures View() == SendFailed(old(View()), addr, written)
    {
      if addr in heap {
        sender, heap, torn := NotSending, heap - {addr}, torn || written > 0;
      } else {
        fault := true;
      }
    }

    /** Recv: the first read. */
    method FirstRead(moved: int) returns (cmd: Command)
      requires receiver.NotReceiving? && moved <= ADDRESS_SIZE && moved <= |stream|
      modifies this
      ensures View() == ReadStep(old(View()), moved)
      ensures moved == ADDRESS_SIZE && received != old(received) ==> received == old(received) + [cmd]
    {
      cmd := Command(0, 0);
      if moved < 0 {
        return;
      }
      var bytes := stream[..moved];
      stream := stream[moved..];
      if moved == ADDRESS_SIZE {
        cmd := Take(bytes);
      } else {
        receiver := Rereading(bytes);
      }
    }

    /** Recv: the retry, which has to read all that is left. */
    method SecondRead(moved: int) returns (cmd: Command)
      requires receiver.Rereading? && moved <= ADDRESS_SIZE - |receiver.buffer| && moved <= |stream|
      modifies this
      ensures View() == RereadStep(old(View()), moved)
      ensures received != old(received) ==> received == old(received) + [cmd]
    {
      cmd := Command(0, 0);
      var bytes := receiver.buffer;
      if moved >= 0 {
        bytes := bytes + stream[..moved];
        stream := stream[moved..];
      }
      if moved >= 0 && |bytes| == ADDRESS_SIZE {
        cmd := Take(bytes);
      } else {
        receiver, torn := NotReceiving, torn || bytes != [];
      }
    }

    /** Recv: copy the record out and free it. */
    method Take(bytes: seq<Byte>) returns (cmd: Command)
      modifies this
      ensures View() == RecvDone(old(View()), bytes)
      ensures received != old(received) ==> received == old(received) + [cmd]
    {
      var addr := Decode(bytes);
      receiver := NotReceiving;
      cmd := Command(0, 0);
      if addr == 0 {
        torn := true;
      } else if addr in heap {
        cmd := heap[addr];
        received := received + [cmd];
        heap := heap - {addr};
        inflight := if inflight == [] then [] else inflight[1..];
      } else {
        fault := true;
      }
    }
  }
}
