/** Tensor infos on the wire, and copies of them, with every name and every dimensions array allocated on its own. */
module TensorWire {
  import opened Prelude
  import opened TensorType

  /** A message of the protocol: a string field that was not set reads as the empty string. */
  datatype Message = Message(type_: Type, size: int, name: string, dims: seq<int>)

  /** A tensor info in memory; `name` may be null, and `dims` is until it is allocated. */
  datatype Slot = Slot(type_: Type, size: int, name: array?<char>, dims: array?<int>)

  // ---------- What is sent and what is made of it ----------

  function Sent(info: TensorInfo): Message {
    Message(info.type_, info.size, if info.name.Some? then info.name.value else "", info.dims)
  }

  function Received(m: Message): TensorInfo {
    TensorInfo(m.type_, m.size, Some(m.name), m.dims)
  }

  function SentAll(infos: seq<TensorInfo>): (r: seq<Message>)
    ensures |r| == |infos|
  {
    seq(|infos|, i requires 0 <= i < |infos| => Sent(infos[i]))
  }

  function ReceivedAll(ms: seq<Message>): (r: seq<TensorInfo>)
    ensures |r| == |ms|
  {
    seq(|ms|, i requires 0 <= i < |ms| => Received(ms[i]))
  }

  /** A null name becomes the empty one. */
  function Named(infos: seq<TensorInfo>): (r: seq<TensorInfo>)
    ensures |r| == |infos|
  {
    seq(|infos|, i requires 0 <= i < |infos| =>
      infos[i].(name := Some(if infos[i].name.Some? then infos[i].name.value else "")))
  }

  lemma NamedAt(infos: seq<TensorInfo>, i: nat)
    requires i < |infos|
    ensures Named(infos)[i] == infos[i].(name := Some(infos[i].name.GetOr("")))
  {
  }

  /** Everything but null names survives the wire, and a second passage changes nothing more. */
  lemma WireRoundTrip(infos: seq<TensorInfo>, ms: seq<Message>)
    ensures ReceivedAll(SentAll(infos)) == Named(infos)
    ensures SentAll(ReceivedAll(ms)) == ms
    ensures SentAll(Named(infos)) == SentAll(infos) && Named(Named(infos)) == Named(infos)
    ensures Named(infos) == infos <==> forall i :: 0 <= i < |infos| ==> infos[i].name.Some?
  {
    if forall i :: 0 <= i < |infos| ==> infos[i].name.Some? {
      assert Named(infos) == infos;
    } else {
      var i :| 0 <= i < |infos| && !infos[i].name.Some?;
      assert Named(infos)[i] != infos[i];
    }
    assert SentAll(ReceivedAll(ms)) == ms;
    assert Named(Named(infos)) == Named(infos);
  }

  /** What the receiver makes of two lists is the same exactly if they differ in nothing but null and empty names. */
  lemma SameOnTheWire(xs: seq<TensorInfo>, ys: seq<TensorInfo>)
    ensures SentAll(xs) == SentAll(ys) <==> Named(xs) == Named(ys)
  {
    WireRoundTrip(xs, []);
    WireRoundTrip(ys, []);
  }

  // ---------- Infos in memory ----------

  ghost function NameOf(name: array?<char>): Option<string>
    reads name
  {
    if name == null then None else Some(name[..])
  }

  ghost function Value(s: Slot): TensorInfo
    requires s.dims != null
    reads s.name, s.dims
  {
    TensorInfo(s.type_, s.size, NameOf(s.name), s.dims[..])
  }

  /** What is allocated for the infos at `info`. */
  function Arrays(info: array<Slot>): set<object?>
    reads info
  {
    (set i | 0 <= i < info.Length :: info[i].dims as object?) +
    (set i | 0 <= i < info.Length :: info[i].name as object?)
  }

  /** The memory at `info` holds `infos`. */
  ghost predicate Holds(info: array<Slot>, infos: seq<TensorInfo>)
    reads info, Arrays(info)
  {
    && info.Length == |infos|
    && (forall i :: 0 <= i < info.Length ==> info[i].dims != null)
    && (forall i :: 0 <= i < info.Length ==> Value(info[i]) == infos[i])
  }

  /** No two infos have one dimensions array or one name. */
  ghost predicate Apart(a: Slot, b: Slot) {
    a.dims != b.dims && (a.name == null || a.name != b.name)
  }

  ghost predicate Unshared(info: array<Slot>)
    reads info
  {
    forall i, j :: 0 <= i < j < info.Length ==> Apart(info[i], info[j])
  }

  /** The info is `value`, in memory of its own. */
  twostate predicate Own(new s: Slot, value: TensorInfo)
    reads s.name, s.dims
  {
    s.dims != null && fresh(s.dims) && (s.name != null ==> fresh(s.name)) && Value(s) == value
  }

  /** Peer::Model::DupTensorInfo. */
  method DupTensorInfo(src: array<Slot>, ghost infos: seq<TensorInfo>) returns (dest: array<Slot>)
    requires Holds(src, infos)
    ensures fresh(dest) && fresh(Arrays(dest) - {null}) && Unshared(dest)
    ensures Holds(dest, infos) && Holds(src, infos)
  {
    dest := new Slot[src.Length];
    for i := 0 to src.Length
      invariant forall k :: 0 <= k < i ==> Own(dest[k], infos[k])
      invariant forall k, l :: 0 <= k < l < i ==> Apart(dest[k], dest[l])
      invariant Holds(src, infos)
    {
      assert Value(src[i]) == infos[i];
      var slot := DupSlot(src[i]);
      dest[i] := slot;
    }
  }

  method DupSlot(s: Slot) returns (d: Slot)
    requires s.dims != null
    ensures d.dims != null && fresh(d.dims) && (d.name != null ==> fresh(d.name))
    ensures Value(d) == Value(s) == old(Value(s))
  {
    d := NewSlot(s.type_, s.size, if s.name != null then Some(s.name[..]) else None, s.dims[..]);
  }

  /** One info with its name and its dimensions array allocated. */
  method NewSlot(type_: Type, size: int, name: Option<string>, dims: seq<int>) returns (s: Slot)
    ensures s.dims != null && fresh(s.dims) && (s.name != null ==> fresh(s.name))
    ensures Value(s) == TensorInfo(type_, size, name, dims)
  {
    var copiedName: array?<char> := null;
    if name.Some? {
      copiedName := Copy(name.value);
    }
    var copiedDims := Copy(dims);
    s := Slot(type_, size, copiedName, copiedDims);
  }

  /** An allocation and the loop that fills it: of a dimensions array, and of a name in strdup. */
  method Copy<T(0)>(data: seq<T>) returns (copy: array<T>)
    ensures fresh(copy) && copy[..] == data
  {
    copy := new T[|data|];
    for j := 0 to |data|
      invariant copy[..j] == data[..j]
    {
      copy[j] := data[j];
    }
  }

  // ---------- The client ----------

  /** The place of the first info without dimensions, or the length. */
  function FirstEmpty(infos: seq<TensorInfo>): (i: nat)
    ensures i <= |infos|
    ensures forall j :: 0 <= j < i ==> infos[j].dims != []
    ensures i < |infos| ==> infos[i].dims == []
  {
    if infos == [] || infos[0].dims == [] then 0 else 1 + FirstEmpty(infos[1..])
  }

  /** Peer::GrpcClient::SetRequest: the request is filled up to the first info without dimensions. */
  method SetRequest(info: array<Slot>, ghost infos: seq<TensorInfo>) returns (ret: int, request: seq<Message>)
    requires Holds(info, infos)
    ensures ret == if FirstEmpty(infos) < |infos| then -EINVAL else 0
    ensures request == if ret == 0 then SentAll(infos) else SentAll(infos)[..FirstEmpty(infos) + 1]
  {
    request := [];
    for i := 0 to info.Length
      invariant request == SentAll(infos)[..i] && i <= FirstEmpty(infos)
    {
      assert infos[i] == Value(info[i]);
      var m := Message(info[i].type_, info[i].size, "", []);
      if info[i].name != null {
        m := m.(name := info[i].name[..]);
      }
      if info[i].dims.Length <= 0 {
        return -EINVAL, request + [m];
      }
      m := m.(dims := info[i].dims[..]);
      request := request + [m];
    }
    ret := 0;
  }

  /** Peer::GrpcClient::GetTensorInfoFromResponse, which asserts that there is an info. */
  method GetTensorInfoFromResponse(tensorInfos: seq<Message>) returns (info: array<Slot>)
    requires |tensorInfos| > 0
    ensures fresh(info) && fresh(Arrays(info) - {null}) && Unshared(info)
    ensures Holds(info, ReceivedAll(tensorInfos))
  {
    info := RequestToInfo(tensorInfos);
  }

  // ---------- The server ----------

  /** Peer::GrpcServer::RequestToInfo. */
  method RequestToInfo(request: seq<Message>) returns (info: array<Slot>)
    ensures fresh(info) && fresh(Arrays(info) - {null}) && Unshared(info)
    ensures Holds(info, ReceivedAll(request))
  {
    info := new Slot[|request|];
    for i := 0 to |request|
      invariant forall k :: 0 <= k < i ==> Own(info[k], Received(request[k]))
      invariant forall k, l :: 0 <= k < l < i ==> Apart(info[k], info[l])
    {
      var slot := NewSlot(request[i].type_, request[i].size, Some(request[i].name), request[i].dims);
      info[i] := slot;
    }
  }

  /** Peer::GrpcServer::InfoToResponse, for the status 0 of infos that are there. */
  method InfoToResponse(info: array<Slot>, ghost infos: seq<TensorInfo>) returns (response: seq<Message>)
    requires Holds(info, infos)
    ensures response == SentAll(infos)
  {
    response := [];
    for i := 0 to info.Length
      invariant response == SentAll(infos)[..i]
    {
      assert infos[i] == Value(info[i]);
      response := response + [Message(info[i].type_, info[i].size,
                                      if info[i].name != null then info[i].name[..] else "", info[i].dims[..])];
    }
  }

  // ---------- Over the wire and back ----------

  /** The client's Set: its list is in the server's memory as it was, but for null names. */
  method SetOnServer(info: array<Slot>, ghost infos: seq<TensorInfo>) returns (ret: int, stored: array?<Slot>)
    requires Holds(info, infos)
    ensures ret == 0 <==> FirstEmpty(infos) == |infos|
    ensures ret == 0 ==> stored != null && fresh(stored) && fresh(Arrays(stored) - {null}) && Unshared(stored)
    ensures ret == 0 ==> Holds(stored, Named(infos))
    ensures Holds(info, infos)
  {
    var request;
    stored := null;
    ret, request := SetRequest(info, infos);
    if ret == 0 {
      WireRoundTrip(infos, []);
      stored := RequestToInfo(request);
    }
  }

  /** The client's Get: what the server has is in the client's memory as it was, but for null names. */
  method GetFromServer(stored: array<Slot>, ghost infos: seq<TensorInfo>) returns (got: array<Slot>)
    requires Holds(stored, infos) && infos != []
    ensures fresh(got) && fresh(Arrays(got) - {null}) && Unshared(got) && Holds(got, Named(infos))
    ensures Holds(stored, infos)
  {
    var response := InfoToResponse(stored, infos);
    WireRoundTrip(infos, []);
    got := GetTensorInfoFromResponse(response);
  }

  /** A list that is set and got again comes back as it was, but for null names. */
  method SetAndGet(info: array<Slot>, ghost infos: seq<TensorInfo>) returns (ret: int, got: array?<Slot>)
    requires Holds(info, infos) && infos != []
    ensures ret == 0 <==> FirstEmpty(infos) == |infos|
    ensures ret == 0 ==>
              && got != null && fresh(got) && fresh(Arrays(got) - {null}) && Unshared(got)
              && Holds(got, Named(infos))
    ensures Holds(info, infos)
  {
    var stored;
    got := null;
    ret, stored := SetOnServer(info, infos);
    if ret == 0 {
      WireRoundTrip(infos, []);
      got := GetFromServer(stored, Named(infos));
    }
  }
}
