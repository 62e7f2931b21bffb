/**
 The tensor infos of one session: what the server has stored, and what the client has
 cached of it, for input and output each.

 A call is one step.  Its outcome says whether the request reached the server and the
 reply the client; a call whose reply is lost fails at the client all the same.
 */
module PeerCache {
  import opened Prelude
  import opened TensorType
  import opened TensorWire

  datatype Side = INPUT | OUTPUT

  /** The infos kept for one side: none at all, or a list that may be empty. */
  type Kept = Option<seq<TensorInfo>>

  datatype Pair = Pair(input: Kept, output: Kept)

  function Get(p: Pair, side: Side): Kept { if side.INPUT? then p.input else p.output }

  function Put(p: Pair, side: Side, kept: Kept): Pair {
    if side.INPUT? then p.(input := kept) else p.(output := kept)
  }

  datatype Outcome = Answered | NotDelivered | ReplyLost

  datatype State = State(cache: Pair, store: Pair)

  function Init(): State { State(Pair(None, None), Pair(None, None)) }

  datatype Action =
    | LoadModel(outcome: Outcome)
    | Set(side: Side, infos: seq<TensorInfo>, outcome: Outcome)
    | Fetch(side: Side, outcome: Outcome)  // the client's GetInputTensorInfo and GetOutputTensorInfo
    | Prepare(extracted: Pair)             // the server's, with what could be extracted from the pipeline

  /** There is a list, and it has an info. */
  predicate Filled(k: Kept) { k.Some? && k.value != [] }

  predicate Sendable(infos: seq<TensorInfo>) { FirstEmpty(infos) == |infos| }

  /** The server asserts that it has infos to answer with, and the client that it got some. */
  predicate Enabled(s: State, a: Action) {
    match a
    case Fetch(side, outcome) => Filled(Get(s.cache, side)) || outcome.NotDelivered? || Filled(Get(s.store, side))
    case Prepare(extracted) =>
      && (extracted.input.Some? ==> extracted.input.value != [])
      && (extracted.output.Some? ==> extracted.output.value != [])
    case _ => true
  }

  function SetStep(s: State, side: Side, infos: seq<TensorInfo>, outcome: Outcome): State {
    if !Sendable(infos) || outcome.NotDelivered? then s
    else
      var t := s.(store := Put(s.store, side, Some(Named(infos))));
      if outcome.ReplyLost? then t else t.(cache := Put(s.cache, side, Some(infos)))
  }

  function SetResult(infos: seq<TensorInfo>, outcome: Outcome): int {
    if !Sendable(infos) then -EINVAL else if outcome.Answered? then 0 else -EFAULT
  }

  function FetchStep(s: State, side: Side, outcome: Outcome): State {
    if Filled(Get(s.cache, side)) || !outcome.Answered? then s
    else
      match Get(s.store, side)
      case None => s
      case Some(stored) => s.(cache := Put(s.cache, side, Some(Named(stored))))
  }

  function PrepareSide(stored: Kept, extracted: Kept): Kept {
    if !Filled(stored) && extracted.Some? then extracted else stored
  }

  function PrepareStep(s: State, extracted: Pair): State {
    s.(store := Pair(PrepareSide(s.store.input, extracted.input), PrepareSide(s.store.output, extracted.output)))
  }

  function Step(s: State, a: Action): State {
    if !Enabled(s, a) then s else
    match a
    case LoadModel(outcome) => if outcome.Answered? then s.(cache := Pair(None, None)) else s
    case Set(side, infos, outcome) => SetStep(s, side, infos, outcome)
    case Fetch(side, outcome) => FetchStep(s, side, outcome)
    case Prepare(extracted) => PrepareStep(s, extracted)
  }

  function Run(schedule: seq<Action>): State {
    if schedule == [] then Init() else Step(Run(schedule[..|schedule| - 1]), schedule[|schedule| - 1])
  }

  // ---------- Coherence ----------

  /** What the client has cached, if anything, is what the server has, but for null names. */
  predicate Coherent(s: State, side: Side) {
    var cached, stored := Get(s.cache, side), Get(s.store, side);
    Filled(cached) ==> Filled(stored) && Named(cached.value) == Named(stored.value)
  }

  /** A Set that reached the server with a list other than the cached one, and whose reply was lost. */
  predicate Splits(s: State, side: Side, a: Action) {
    && a.Set? && a.side == side && a.outcome.ReplyLost? && Sendable(a.infos)
    && var cached := Get(s.cache, side);
       Filled(cached) && Named(cached.value) != Named(a.infos)
  }

  /** A step makes a coherent side incoherent exactly if it is such a Set. */
  lemma StepSplits(s: State, side: Side, a: Action)
    requires Coherent(s, side)
    ensures Coherent(Step(s, a), side) <==> !Splits(s, side, a)
  {
    if a.Set? {
      WireRoundTrip(a.infos, []);
    }
    var stored := Get(s.store, side);
    if stored.Some? {
      WireRoundTrip(stored.value, []);
    }
  }

  /** A Set or LoadModel that is answered makes the side coherent again, whatever it was. */
  lemma AnswerRepairs(s: State, side: Side, a: Action)
    requires a.LoadModel? || (a.Set? && a.side == side && Sendable(a.infos))
    requires a.outcome.Answered?
    ensures Coherent(Step(s, a), side)
  {
    if a.Set? {
      WireRoundTrip(a.infos, []);
    }
  }

  /** No Set with another list loses its reply on this side. */
  ghost predicate NeverSplits(schedule: seq<Action>, side: Side) {
    forall i :: 0 <= i < |schedule| ==> !Splits(Run(schedule[..i]), side, schedule[i])
  }

  ghost predicate CoherentAt(schedule: seq<Action>, i: nat, side: Side)
    requires i <= |schedule|
  {
    Coherent(Run(schedule[..i]), side)
  }

  /** The side is coherent after every step. */
  ghost predicate StaysCoherent(schedule: seq<Action>, side: Side) {
    forall i :: 0 <= i <= |schedule| ==> CoherentAt(schedule, i, side)
  }

  /**
   Every run of LoadModel, Set, Fetch and the server's Prepare, answered or not, is coherent after
   every step on a side exactly if no step of it is a Set with another list and a lost reply.
   */
  lemma {:induction false} CoherentRuns(schedule: seq<Action>, side: Side)
    ensures NeverSplits(schedule, side) <==> StaysCoherent(schedule, side)
  {
    if schedule == [] {
      assert schedule[..0] == [];
    } else {
      var n := |schedule| - 1;
      CoherentRuns(schedule[..n], side);
      PrefixNeverSplits(schedule, side);
      PrefixStaysCoherent(schedule, side);
      assert schedule[..n + 1] == schedule;
      if StaysCoherent(schedule[..n], side) {
        PrefixCoherentAt(schedule, n, n, side);
        assert CoherentAt(schedule[..n], n, side);
        StepSplits(Run(schedule[..n]), side, schedule[n]);
      }
    }
  }

  lemma PrefixCoherentAt(schedule: seq<Action>, n: nat, i: nat, side: Side)
    requires i <= n <= |schedule|
    ensures CoherentAt(schedule[..n], i, side) == CoherentAt(schedule, i, side)
  {
    assert schedule[..n][..i] == schedule[..i];
  }

  lemma PrefixStaysCoherent(schedule: seq<Action>, side: Side)
    requires schedule != []
    ensures var n := |schedule| - 1;
            StaysCoherent(schedule, side) <==> StaysCoherent(schedule[..n], side) && CoherentAt(schedule, n + 1, side)
  {
    var n := |schedule| - 1;
    forall i | 0 <= i <= n ensures CoherentAt(schedule[..n], i, side) == CoherentAt(schedule, i, side) {
      PrefixCoherentAt(schedule, n, i, side);
    }
  }

  lemma PrefixNeverSplits(schedule: seq<Action>, side: Side)
    requires schedule != []
    ensures var n := |schedule| - 1;
            NeverSplits(schedule, side) <==>
            NeverSplits(schedule[..n], side) && !Splits(Run(schedule[..n]), side, schedule[n])
  {
    var n := |schedule| - 1;
    forall i | 0 <= i <= n ensures schedule[..n][..i] == schedule[..i] {
    }
    if NeverSplits(schedule[..n], side) && !Splits(Run(schedule[..n]), side, schedule[n]) {
      forall i | 0 <= i < |schedule| ensures !Splits(Run(schedule[..i]), side, schedule[i]) {
        if i < n {
          assert schedule[..n][i] == schedule[i];
        }
      }
    }
    if NeverSplits(schedule, side) {
      forall i | 0 <= i < n ensures !Splits(Run(schedule[..n][..i]), side, schedule[..n][i]) {
        assert schedule[..n][i] == schedule[i];
      }
    }
  }

  /** On a coherent side a Fetch answered from the cache gives what the server would have sent. */
  lemma CachedIsFresh(s: State, side: Side)
    requires Coherent(s, side) && Filled(Get(s.cache, side))
    ensures Named(Get(s.cache, side).value) == ReceivedAll(SentAll(Get(s.store, side).value))
  {
    WireRoundTrip(Get(s.store, side).value, []);
  }

  /**
   After another LoadModel and Prepare a side that was stored keeps what it had, and one that was not takes what
   was extracted from the new model; so a Fetch gets the new model's infos exactly if there were none, or the same.
   */
  lemma StoreOutlivesModel(s: State, side: Side, extracted: Pair)
    requires Enabled(s, Prepare(extracted)) && Get(extracted, side).Some?
    ensures var t := Step(Step(Step(s, LoadModel(Answered)), Prepare(extracted)), Fetch(side, Answered));
            var stored, new_ := Get(s.store, side), Get(extracted, side);
            && Get(t.store, side) == (if Filled(stored) then stored else new_)
            && Get(t.cache, side) == Some(Named(Get(t.store, side).value))
            && (Get(t.cache, side) == Some(Named(new_.value)) <==>
                !Filled(stored) || Named(stored.value) == Named(new_.value))
  {
    var t := Step(Step(s, LoadModel(Answered)), Prepare(extracted));
    assert Filled(Get(t.store, side)) && !Filled(Get(t.cache, side));
  }

  /** A run that ends with the two sides apart: the Fetch gives the client's old list, not the server's new one. */
  lemma LostReplySplits(side: Side, old_: seq<TensorInfo>, new_: seq<TensorInfo>)
    requires old_ != [] && new_ != [] && Sendable(old_) && Sendable(new_) && Named(old_) != Named(new_)
    ensures var s := Run([Set(side, old_, Answered), Set(side, new_, ReplyLost), Fetch(side, Answered)]);
            !Coherent(s, side) && Get(s.cache, side) == Some(old_) && Get(s.store, side) == Some(Named(new_))
  {
    var schedule := [Set(side, old_, Answered), Set(side, new_, ReplyLost), Fetch(side, Answered)];
    assert schedule[..2] == [schedule[0], schedule[1]];
    assert schedule[..2][..1] == [schedule[0]] && [schedule[0]][..0] == [];
    WireRoundTrip(new_, []);
    assert Run(schedule[..1]) == Step(Init(), schedule[0]);
    assert Run(schedule[..2]) == Step(Run(schedule[..1]), schedule[1]) by {
      assert schedule[..2][..1] == schedule[..1];
    }
  }

  // ---------- What the calls do ----------

  function Opposite(side: Side): Side { if side.INPUT? then OUTPUT else INPUT }

  ghost predicate OtherSideKept(s: State, t: State, side: Side) {
    && Get(t.cache, Opposite(side)) == Get(s.cache, Opposite(side))
    && Get(t.store, Opposite(side)) == Get(s.store, Opposite(side))
  }

  /**
   A Set with an info that has no dimensions is not sent.  One that is delivered is stored, with its null names empty;
   it is cached, and returns 0, only if its reply comes.
   */
  lemma SetStoresAndCaches(s: State, side: Side, infos: seq<TensorInfo>, outcome: Outcome)
    ensures var t, ret := Step(s, Set(side, infos, outcome)), SetResult(infos, outcome);
            if exists i :: 0 <= i < |infos| && infos[i].dims == [] then ret == -EINVAL && t == s
            else
              && OtherSideKept(s, t, side)
              && ret == (if outcome.Answered? then 0 else -EFAULT)
              && Get(t.cache, side) == (if outcome.Answered? then Some(infos) else Get(s.cache, side))
              && Get(t.store, side) == (if outcome.NotDelivered? then Get(s.store, side) else Some(Named(infos)))
  {
  }

  /** A Fetch is answered from the cache if that has an info; otherwise what the server has is cached once it comes. */
  lemma FetchCaches(s: State, side: Side, outcome: Outcome)
    requires Enabled(s, Fetch(side, outcome))
    ensures var t := Step(s, Fetch(side, outcome));
            var cached, stored := Get(s.cache, side), Get(s.store, side);
            && OtherSideKept(s, t, side) && t.store == s.store
            && if (cached.Some? && |cached.value| > 0) || !outcome.Answered? then t == s
               else stored.Some? && Get(t.cache, side) == Some(ReceivedAll(SentAll(stored.value)))
  {
    if Get(s.store, side).Some? {
      WireRoundTrip(Get(s.store, side).value, []);
    }
  }

  /** A LoadModel that is answered clears the cache, a Prepare of the server fills what is not there. */
  lemma LoadModelClears(s: State, outcome: Outcome, extracted: Pair, side: Side)
    ensures Step(s, LoadModel(outcome)).store == s.store
    ensures Get(Step(s, LoadModel(outcome)).cache, side) == if outcome.Answered? then None else Get(s.cache, side)
    ensures Enabled(s, Prepare(extracted)) ==>
              var t, stored := Step(s, Prepare(extracted)), Get(s.store, side);
              && t.cache == s.cache
              && Get(t.store, side) ==
                 if stored.Some? && |stored.value| > 0 then stored
                 else if Get(extracted, side).Some? then Get(extracted, side) else stored
  {
  }

  // ---------- The model objects ----------

  /** Peer::Model as far as it keeps tensor infos: the client's cache, and the server's store. */
  class Model {
    var inputTensorInfo: Kept
    var outputTensorInfo: Kept

    ghost function View(): Pair
      reads this
    {
      Pair(inputTensorInfo, outputTensorInfo)
    }

    constructor ()
      ensures View() == Pair(None, None)
    {
      inputTensorInfo, outputTensorInfo := None, None;
    }

    method GetTensorInfo(side: Side) returns (info: Kept)
      ensures info == Get(View(), side)
    {
      info := if side == INPUT then inputTensorInfo else outputTensorInfo;
    }

    method SetTensorInfo(side: Side, info: Kept)
      modifies this
      ensures View() == Put(old(View()), side, info)
    {
      if side == INPUT {
        inputTensorInfo := info;
      } else {
        outputTensorInfo := info;
      }
    }
  }

  /** The client's half of a session, and the server's model it talks to. */
  class Session {
    const client: Model
    const server: Model

    ghost predicate Valid() { client != server }

    ghost function View(): State
      reads client, server
    {
      State(client.View(), server.View())
    }

    constructor ()
      ensures Valid() && fresh(client) && fresh(server) && View() == Init()
    {
      client := new Model();
      server := new Model();
    }

    method LoadModelCall(outcome: Outcome, status: int) returns (ret: int)
      requires Valid()
      modifies client
      ensures View() == old(Step(View(), LoadModel(outcome)))
      ensures ret == if outcome.Answered? then status else -EFAULT
    {
      if outcome != Answered {
        return -EFAULT;
      }
      client.SetTensorInfo(INPUT, None);
      client.SetTensorInfo(OUTPUT, None);
      ret := status;
    }

    method SetCall(side: Side, infos: seq<TensorInfo>, outcome: Outcome) returns (ret: int)
      requires Valid()
      modifies client, server
      ensures View() == old(Step(View(), Set(side, infos, outcome)))
      ensures ret == SetResult(infos, outcome)
    {
      if FirstEmpty(infos) < |infos| {
        return -EINVAL;
      }
      if outcome == NotDelivered {
        return -EFAULT;
      }
      WireRoundTrip(infos, []);
      server.SetTensorInfo(side, Some(ReceivedAll(SentAll(infos))));
      if outcome == ReplyLost {
        return -EFAULT;
      }
      client.SetTensorInfo(side, Some(infos));
      ret := 0;
    }

    method FetchCall(side: Side, outcome: Outcome) returns (ret: int, info: Kept)
      requires Valid() && Enabled(View(), Fetch(side, outcome))
      modifies client
      ensures View() == old(Step(View(), Fetch(side, outcome)))
      ensures ret == if old(Filled(Get(View().cache, side))) || outcome.Answered? then 0 else -EFAULT
      ensures ret == 0 ==> info == Get(View().cache, side) && Filled(info)
    {
      info := client.GetTensorInfo(side);
      if info.Some? && |info.value| > 0 {
        return 0, info;
      }
      if outcome != Answered {
        return -EFAULT, None;
      }
      var stored := server.GetTensorInfo(side);
      WireRoundTrip(stored.value, []);
      info := Some(ReceivedAll(SentAll(stored.value)));
      client.SetTensorInfo(side, info);
      ret := 0;
    }

    /** The server's Prepare. */
    method FillFromPipeline(extracted: Pair)
      requires Valid() && Enabled(View(), Prepare(extracted))
      modifies server
      ensures View() == old(Step(View(), Prepare(extracted)))
    {
      var info := server.GetTensorInfo(INPUT);
      if (info.None? || |info.value| <= 0) && extracted.input.Some? {
        server.SetTensorInfo(INPUT, extracted.input);
      }
      info := server.GetTensorInfo(OUTPUT);
      if (info.None? || |info.value| <= 0) && extracted.output.Some? {
        server.SetTensorInfo(OUTPUT, extracted.output);
      }
    }
  }
}
