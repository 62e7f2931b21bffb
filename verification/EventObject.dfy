/**
 The handler registry of an event object: adding, removing, and the dispatch loop,
 which edits the list of handlers while it walks it.
 */
module EventObject {
  import opened Prelude

  const EAGAIN := 11

  const NONE: bv32 := 0x00
  const READ: bv32 := 0x10
  const WRITE: bv32 := 0x20
  const ERROR: bv32 := 0x40

  /** `handler` and `data` stand for the two pointers. */
  datatype HandlerData = HandlerData(handler: nat, mask: bv32, data: nat, inUse: bool, isDeleted: bool)

  datatype Key = Key(handler: nat, mask: bv32, data: nat)

  datatype EventData = EventData(mask: bv32, data: nat)

  /** One call of a handler: the intersected mask, the event as it was fetched, the handler's own data. */
  datatype Call = Call(handler: nat, mask: bv32, event: EventData, data: nat)

  /** What a callback does: it may remove its own registration any number of times, then returns CANCEL or RENEW. */
  datatype Answer = Answer(removals: nat, cancel: bool)

  /** Callbacks answer by the number of the call. */
  type Callbacks = nat -> Answer

  datatype Select = NoEvents | Failed(errno: int) | Ready(error: bool, read: bool, write: bool)

  datatype Fetched = Fetched(cancel: bool, event: EventData)

  type Fetcher = bv32 -> Fetched

  // ---------- Adding and removing ----------

  function Both(x: bv32, y: bv32): bv32 { x & y }

  predicate Common(x: bv32, y: bv32) { Both(x, y) != 0 }

  predicate Overlaps(h: HandlerData, k: Key) {
    h.handler == k.handler && Common(h.mask, k.mask) && h.data == k.data
  }

  predicate Matches(h: HandlerData, k: Key) {
    h.handler == k.handler && h.mask == k.mask && h.data == k.data
  }

  predicate Taken(hs: seq<HandlerData>, k: Key) { exists h :: h in hs && Overlaps(h, k) }

  function Registered(k: Key): HandlerData { HandlerData(k.handler, k.mask, k.data, false, false) }

  function KeyOf(h: HandlerData): Key { Key(h.handler, h.mask, h.data) }

  function AddResult(hs: seq<HandlerData>, k: Key): int { if Taken(hs, k) then -EALREADY else 0 }

  function AfterAdd(hs: seq<HandlerData>, k: Key): seq<HandlerData> {
    if Taken(hs, k) then hs else hs + [Registered(k)]
  }

  /** The place of the first entry that matches, or the length. */
  function First(hs: seq<HandlerData>, k: Key): (i: nat)
    ensures i <= |hs|
    ensures forall j :: 0 <= j < i ==> !Matches(hs[j], k)
    ensures i < |hs| ==> Matches(hs[i], k)
  {
    if hs == [] || Matches(hs[0], k) then 0 else 1 + First(hs[1..], k)
  }

  function RemoveResult(hs: seq<HandlerData>, k: Key): int {
    var i := First(hs, k);
    if i == |hs| then -ENOENT else if hs[i].isDeleted then -EALREADY else 0
  }

  function AfterRemove(hs: seq<HandlerData>, k: Key): seq<HandlerData> {
    var i := First(hs, k);
    if i == |hs| || hs[i].isDeleted then hs
    else if hs[i].inUse then hs[i := hs[i].(isDeleted := true)]
    else hs[..i] + hs[i + 1..]
  }

  // ---------- Dispatch ----------

  predicate Meets(h: HandlerData, event: EventData) { Common(h.mask, event.mask) }

  function CallOf(h: HandlerData, event: EventData): Call {
    Call(h.handler, Both(event.mask, h.mask), event, h.data)
  }

  /** The calls an event makes: those of the handlers it meets, in order. */
  function CallsOf(hs: seq<HandlerData>, event: EventData): seq<Call> {
    if hs == [] then []
    else
      var n := |hs| - 1;
      CallsOf(hs[..n], event) + (if Meets(hs[n], event) then [CallOf(hs[n], event)] else [])
  }

  predicate Leaves(answer: Answer) { answer.cancel || answer.removals > 0 }

  /** The handler at `i` is still there after the dispatch. */
  predicate Survives(hs: seq<HandlerData>, event: EventData, answers: Callbacks, i: nat)
    requires i < |hs|
  {
    Meets(hs[i], event) ==> !Leaves(answers(|CallsOf(hs[..i], event)|))
  }

  function Survivors(hs: seq<HandlerData>, event: EventData, answers: Callbacks): seq<HandlerData> {
    if hs == [] then []
    else
      var n := |hs| - 1;
      Survivors(hs[..n], event, answers) + (if Survives(hs, event, answers, n) then [hs[n]] else [])
  }

  // ---------- Invariant ----------

  ghost predicate Pairwise<T(!new)>(s: seq<T>, ok: (T, T) -> bool) {
    forall i, j :: 0 <= i < j < |s| ==> ok(s[i], s[j])
  }

  lemma PairwiseErase<T(!new)>(s: seq<T>, ok: (T, T) -> bool, i: nat)
    requires Pairwise(s, ok) && i < |s|
    ensures Pairwise(s[..i] + s[i + 1..], ok)
  {
    var t := s[..i] + s[i + 1..];
    forall k, l | 0 <= k < l < |t| ensures ok(t[k], t[l]) {
      assert ok(s[if k < i then k else k + 1], s[if l < i then l else l + 1]);
    }
  }

  lemma PairwiseUpdate<T(!new)>(s: seq<T>, ok: (T, T) -> bool, i: nat, x: T)
    requires Pairwise(s, ok) && i < |s| && forall y :: (ok(s[i], y) ==> ok(x, y)) && (ok(y, s[i]) ==> ok(y, x))
    ensures Pairwise(s[i := x], ok)
  {
    var t := s[i := x];
    forall k, l | 0 <= k < l < |t| ensures ok(t[k], t[l]) {
      assert ok(s[k], s[l]);
    }
  }

  /** Two entries of one handler and one data have no event type in common. */
  predicate Apart(g: HandlerData, h: HandlerData) {
    g.handler == h.handler && g.data == h.data ==> !Common(g.mask, h.mask)
  }

  ghost predicate Disjoint(hs: seq<HandlerData>) { Pairwise(hs, Apart) }

  /** No dispatch is under way. */
  predicate Quiet(hs: seq<HandlerData>) {
    forall h :: h in hs ==> !h.inUse && !h.isDeleted
  }

  lemma AddKeepsDisjoint(hs: seq<HandlerData>, k: Key)
    requires Disjoint(hs)
    ensures Disjoint(AfterAdd(hs, k))
  {
    if !Taken(hs, k) {
      forall i | 0 <= i < |hs| ensures Apart(hs[i], Registered(k)) {
        assert hs[i] in hs;
      }
    }
  }

  lemma SetFlagsKeepsDisjoint(hs: seq<HandlerData>, i: nat, inUse: bool, isDeleted: bool)
    requires Disjoint(hs) && i < |hs|
    ensures Disjoint(hs[i := hs[i].(inUse := inUse, isDeleted := isDeleted)])
  {
    var h := hs[i].(inUse := inUse, isDeleted := isDeleted);
    forall y ensures (Apart(hs[i], y) ==> Apart(h, y)) && (Apart(y, hs[i]) ==> Apart(y, h)) {}
    PairwiseUpdate(hs, Apart, i, h);
  }

  lemma RemoveKeepsDisjoint(hs: seq<HandlerData>, k: Key)
    requires Disjoint(hs)
    ensures Disjoint(AfterRemove(hs, k))
  {
    var i := First(hs, k);
    if i < |hs| {
      PairwiseErase(hs, Apart, i);
      SetFlagsKeepsDisjoint(hs, i, hs[i].inUse, true);
    }
  }

  lemma NoLaterMatch(hs: seq<HandlerData>, k: Key, i: nat, j: nat)
    requires Disjoint(hs) && k.mask != 0 && i < j < |hs| && Matches(hs[i], k)
    ensures !Matches(hs[j], k)
  {
    assert Apart(hs[i], hs[j]);
  }

  /** With a mask that is not zero an entry is matched at most once. */
  lemma OneMatch(hs: seq<HandlerData>, k: Key, i: nat, j: nat)
    requires Disjoint(hs) && k.mask != 0
    requires i < |hs| && j < |hs| && Matches(hs[i], k) && Matches(hs[j], k)
    ensures i == j
  {
    if i < j {
      NoLaterMatch(hs, k, i, j);
    } else if j < i {
      NoLaterMatch(hs, k, j, i);
    }
  }

  /** With mask zero the same registration is accepted again and again. */
  lemma ZeroMaskIsNeverTaken(hs: seq<HandlerData>, handler: nat, data: nat)
    ensures AddResult(hs, Key(handler, 0, data)) == 0
  {
    forall h: HandlerData ensures !Overlaps(h, Key(handler, 0, data)) {
      assert h.mask & 0 == 0;
    }
  }

  /** Taking back a registration just made restores the list. */
  lemma RemoveUndoesAdd(hs: seq<HandlerData>, k: Key)
    requires AddResult(hs, k) == 0 && k.mask != 0
    ensures RemoveResult(AfterAdd(hs, k), k) == 0 && AfterRemove(AfterAdd(hs, k), k) == hs
  {
    var added := hs + [Registered(k)];
    var i := First(added, k);
    assert Matches(added[|hs|], k);
    if i < |hs| {
      assert added[i] in hs && Overlaps(added[i], k);
    }
    assert added[..|hs|] + added[|hs| + 1..] == hs;
  }

  // ---------- What a dispatch calls and leaves ----------

  lemma {:induction false} CallsPrefix(hs: seq<HandlerData>, event: EventData, i: nat, j: nat)
    requires i <= j <= |hs|
    ensures |CallsOf(hs[..i], event)| <= |CallsOf(hs[..j], event)|
    ensures CallsOf(hs[..i], event) == CallsOf(hs[..j], event)[..|CallsOf(hs[..i], event)|]
  {
    if i < j {
      CallsPrefix(hs, event, i, j - 1);
      assert hs[..j][..j - 1] == hs[..j - 1];
    }
  }

  lemma BitsOfBoth(x: bv32, y: bv32)
    ensures Both(x, y) == x & y && (Common(x, y) <==> x & y != 0)
  {
  }

  /**
   The entry at `i`, if it has a bit in common with the event, makes the call whose number is the number of such
   entries before it: of its own handler, with the bits in common, the event as it was fetched, and its own data.
   */
  lemma CallAt(hs: seq<HandlerData>, event: EventData, i: nat)
    requires i < |hs| && Common(hs[i].mask, event.mask)
    ensures var n, all := |CallsOf(hs[..i], event)|, CallsOf(hs, event);
            && n < |all|
            && all[n].handler == hs[i].handler && all[n].data == hs[i].data
            && all[n].mask == Both(event.mask, hs[i].mask) && all[n].event == event
  {
    assert hs[..i + 1][..i] == hs[..i];
    CallsPrefix(hs, event, i + 1, |hs|);
    assert hs[..|hs|] == hs;
  }

  /** Every call is made by an entry the event meets. */
  lemma {:induction false} CallFrom(hs: seq<HandlerData>, event: EventData, n: nat) returns (i: nat)
    requires n < |CallsOf(hs, event)|
    ensures i < |hs| && Meets(hs[i], event) && |CallsOf(hs[..i], event)| == n
  {
    var last := |hs| - 1;
    if n < |CallsOf(hs[..last], event)| {
      i := CallFrom(hs[..last], event, n);
      assert hs[..last][..i] == hs[..i];
    } else {
      i := last;
    }
  }

  lemma {:induction false} SurvivorsPrefix(hs: seq<HandlerData>, event: EventData, answers: Callbacks, i: nat, j: nat)
    requires i <= j <= |hs|
    ensures var a, b := Survivors(hs[..i], event, answers), Survivors(hs[..j], event, answers);
            |a| <= |b| && a == b[..|a|]
  {
    if i < j {
      SurvivorsPrefix(hs, event, answers, i, j - 1);
      assert hs[..j][..j - 1] == hs[..j - 1];
    }
  }

  /** What it is to survive: not to be called, or neither to return CANCEL nor to remove one's own registration. */
  lemma SurvivesWhen(hs: seq<HandlerData>, event: EventData, answers: Callbacks, i: nat)
    requires i < |hs|
    ensures Survives(hs, event, answers, i) <==>
              || !Common(hs[i].mask, event.mask)
              || (var answer := answers(|CallsOf(hs[..i], event)|); !answer.cancel && answer.removals == 0)
  {
  }

  /** An entry that survives keeps its place behind the surviving entries before it. */
  lemma SurvivorAt(hs: seq<HandlerData>, event: EventData, answers: Callbacks, i: nat)
    requires i < |hs| && Survives(hs, event, answers, i)
    ensures var n, all := |Survivors(hs[..i], event, answers)|, Survivors(hs, event, answers);
            n < |all| && all[n] == hs[i]
  {
    assert hs[..i + 1][..i] == hs[..i];
    SurvivorsPrefix(hs, event, answers, i + 1, |hs|);
    assert hs[..|hs|] == hs;
  }

  /** Every entry that is left is an old one that survives. */
  lemma {:induction false} SurvivorFrom(hs: seq<HandlerData>, event: EventData, answers: Callbacks, n: nat)
      returns (i: nat)
    requires n < |Survivors(hs, event, answers)|
    ensures i < |hs| && Survives(hs, event, answers, i) && |Survivors(hs[..i], event, answers)| == n
  {
    var last := |hs| - 1;
    if n < |Survivors(hs[..last], event, answers)| {
      i := SurvivorFrom(hs[..last], event, answers, n);
      assert hs[..last][..i] == hs[..i];
    } else {
      i := last;
    }
  }

  lemma AllOfTheBit(bit: bv32, x: bv32)
    requires bit & (bit - 1) == 0
    ensures x & bit == 0 || x & bit == bit
  {
  }

  /** An event of one bit never calls one handler with one data twice. */
  lemma OneCallPerBit(hs: seq<HandlerData>, event: EventData, m: nat, n: nat)
    requires Disjoint(hs) && event.mask & (event.mask - 1) == 0
    requires m < n < |CallsOf(hs, event)|
    ensures var calls := CallsOf(hs, event); calls[m].handler != calls[n].handler || calls[m].data != calls[n].data
  {
    var i := CallFrom(hs, event, m);
    var j := CallFrom(hs, event, n);
    CallAt(hs, event, i);
    CallAt(hs, event, j);
    if j <= i {
      CallsPrefix(hs, event, j, i);
    }
    assert Apart(hs[i], hs[j]);
    AllOfTheBit(event.mask, hs[i].mask);
    AllOfTheBit(event.mask, hs[j].mask);
  }

  // ---------- Every run ----------

  datatype Op = Add(k: Key) | Remove(k: Key) | Dispatch(event: EventData, answers: Callbacks)

  function After(hs: seq<HandlerData>, op: Op): seq<HandlerData> {
    match op
    case Add(k) => AfterAdd(hs, k)
    case Remove(k) => AfterRemove(hs, k)
    case Dispatch(event, answers) => Survivors(hs, event, answers)
  }

  function Run(ops: seq<Op>): seq<HandlerData> {
    if ops == [] then [] else After(Run(ops[..|ops| - 1]), ops[|ops| - 1])
  }

  lemma {:induction false} SurvivorsAreDisjoint(hs: seq<HandlerData>, event: EventData, answers: Callbacks)
    requires Disjoint(hs)
    ensures Disjoint(Survivors(hs, event, answers))
    ensures forall h :: h in Survivors(hs, event, answers) ==> h in hs
  {
    if hs != [] {
      var n := |hs| - 1;
      assert Disjoint(hs[..n]) by {
        forall i, j | 0 <= i < j < n ensures Apart(hs[..n][i], hs[..n][j]) {
          assert Apart(hs[i], hs[j]);
        }
      }
      SurvivorsAreDisjoint(hs[..n], event, answers);
      var kept := Survivors(hs[..n], event, answers);
      forall i | 0 <= i < |kept| ensures Apart(kept[i], hs[n]) {
        assert kept[i] in kept;
        var j :| 0 <= j < n && hs[j] == kept[i];
        assert Apart(hs[j], hs[n]);
      }
    }
  }

  /**
   After every run of additions, removals and dispatches, no two entries of one handler and one
   data share an event type, so that a removal with a non-zero mask has at most one entry to choose.
   */
  lemma {:induction false} RegistryInvariant(ops: seq<Op>)
    ensures Disjoint(Run(ops)) && Quiet(Run(ops))
    ensures forall k: Key, i: nat, j: nat ::
              k.mask != 0 && i < |Run(ops)| && j < |Run(ops)| && Matches(Run(ops)[i], k) && Matches(Run(ops)[j], k) ==>
                i == j
  {
    if ops != [] {
      var hs, op := Run(ops[..|ops| - 1]), ops[|ops| - 1];
      RegistryInvariant(ops[..|ops| - 1]);
      match op
      case Add(k) => AddKeepsDisjoint(hs, k);
      case Remove(k) => RemoveKeepsDisjoint(hs, k);
      case Dispatch(event, answers) => SurvivorsAreDisjoint(hs, event, answers);
    }
    forall k: Key, i: nat, j: nat
      | k.mask != 0 && i < |Run(ops)| && j < |Run(ops)| && Matches(Run(ops)[i], k) && Matches(Run(ops)[j], k)
      ensures i == j
    {
      OneMatch(Run(ops), k, i, j);
    }
  }

  // ---------- The event object ----------

  /** An addition is refused exactly if an entry of the handler and data has one of its event types already. */
  lemma AddingAppends(hs: seq<HandlerData>, k: Key)
    ensures var taken := exists i :: 0 <= i < |hs| &&
                           hs[i].handler == k.handler && hs[i].data == k.data && hs[i].mask & k.mask != 0;
            && AddResult(hs, k) == (if taken then -EALREADY else 0)
            && AfterAdd(hs, k) ==
               if taken then hs else hs + [HandlerData(k.handler, k.mask, k.data, false, false)]
  {
    if i :| 0 <= i < |hs| && hs[i].handler == k.handler && hs[i].data == k.data && hs[i].mask & k.mask != 0 {
      assert Overlaps(hs[i], k);
    }
  }

  predicate IsOf(h: HandlerData, k: Key) { h.handler == k.handler && h.data == k.data && h.mask == k.mask }

  /** A removal finds the first entry of just that handler, data and mask, and erases or marks it. */
  lemma RemovingErasesOrMarks(left: seq<HandlerData>, h: HandlerData, right: seq<HandlerData>, k: Key)
    requires IsOf(h, k) && forall x :: x in left ==> !IsOf(x, k)
    ensures var hs := left + [h] + right;
            && RemoveResult(hs, k) == (if h.isDeleted then -EALREADY else 0)
            && AfterRemove(hs, k) ==
               if h.isDeleted then hs
               else if h.inUse then left + [h.(isDeleted := true)] + right
               else left + right
  {
    var hs := left + [h] + right;
    assert hs[|left|] == h && forall j :: 0 <= j < |left| ==> hs[j] in left;
    assert First(hs, k) == |left|;
  }

  lemma RemovingFindsNone(hs: seq<HandlerData>, k: Key)
    requires forall x :: x in hs ==> !IsOf(x, k)
    ensures RemoveResult(hs, k) == -ENOENT && AfterRemove(hs, k) == hs
  {
    assert First(hs, k) < |hs| ==> IsOf(hs[First(hs, k)], k);
  }

  /** A handler being called that removes its own registration finds that very entry, and marks it. */
  lemma SelfRemovalMarks(hs: seq<HandlerData>, i: nat)
    requires Disjoint(hs) && i < |hs| && hs[i].mask != 0 && hs[i].inUse
    ensures First(hs, KeyOf(hs[i])) == i
    ensures AfterRemove(hs, KeyOf(hs[i])) == hs[i := hs[i].(isDeleted := true)]
    ensures RemoveResult(hs, KeyOf(hs[i])) == if hs[i].isDeleted then -EALREADY else 0
  {
    OneMatch(hs, KeyOf(hs[i]), First(hs, KeyOf(hs[i])), i);
  }

  function SelectedMask(selected: Select): bv32 {
    match selected
    case Ready(error, read, write) =>
      (if error then ERROR else NONE) | (if read then READ else NONE) | (if write then WRITE else NONE)
    case _ => NONE
  }

  /** Each of what select reports is the bit of its own, and nothing else is. */
  lemma SelectedBits(error: bool, read: bool, write: bool)
    ensures var mask := SelectedMask(Ready(error, read, write));
            && (mask & 0x40 != 0 <==> error) && (mask & 0x10 != 0 <==> read) && (mask & 0x20 != 0 <==> write)
            && mask & 0xFFFFFF8F == 0
  {
  }

  /** The walk's list is what is left of the entries passed, then those to come: one more is passed. */
  lemma Passed(hs: seq<HandlerData>, event: EventData, answers: Callbacks, k: nat)
    requires k < |hs|
    ensures var left, now := Survivors(hs[..k], event, answers), Survivors(hs[..k + 1], event, answers);
            var list := left + hs[k..];
            && list[|left|] == hs[k]
            && now + hs[k + 1..] ==
               (if Survives(hs, event, answers, k) then list else list[..|left|] + list[|left| + 1..])
            && |now| == (if Survives(hs, event, answers, k) then |left| + 1 else |left|)
    ensures CallsOf(hs[..k + 1], event) ==
            CallsOf(hs[..k], event) + (if Meets(hs[k], event) then [CallOf(hs[k], event)] else [])
    ensures Survives(hs, event, answers, k) == (Meets(hs[k], event) ==> !Leaves(answers(|CallsOf(hs[..k], event)|)))
  {
    var left := Survivors(hs[..k], event, answers);
    assert hs[..k + 1][..k] == hs[..k];
    assert hs[k..] == [hs[k]] + hs[k + 1..];
    assert (left + hs[k..])[|left| + 1..] == hs[k + 1..];
  }

  /** The walk has passed the first `k` entries of `hs`, is at index `i` of its list, and has made `calls`. */
  ghost predicate Walked(hs: seq<HandlerData>, event: EventData, answers: Callbacks, k: nat,
                         list: seq<HandlerData>, i: nat, calls: seq<Call>)
  {
    && k <= |hs| && i == |Survivors(hs[..k], event, answers)|
    && list == Survivors(hs[..k], event, answers) + hs[k..]
    && calls == CallsOf(hs[..k], event)
  }

  /** The walk goes on by one entry, which is met or not and leaves the list or not. */
  lemma WalkOn(hs: seq<HandlerData>, event: EventData, answers: Callbacks, k: nat,
               list: seq<HandlerData>, i: nat, calls: seq<Call>)
    requires Walked(hs, event, answers, k, list, i, calls) && i < |list| && Disjoint(list)
    ensures k < |hs| && list[i] in hs && Disjoint(list[..i] + list[i + 1..])
    ensures !Meets(list[i], event) ==> Walked(hs, event, answers, k + 1, list, i + 1, calls)
    ensures Meets(list[i], event) ==>
              var calls' := calls + [CallOf(list[i], event)];
              if Leaves(answers(|calls|)) then Walked(hs, event, answers, k + 1, list[..i] + list[i + 1..], i, calls')
              else Walked(hs, event, answers, k + 1, list, i + 1, calls')
  {
    Passed(hs, event, answers, k);
    PairwiseErase(list, Apart, i);
  }

  lemma WalkEnds(hs: seq<HandlerData>, event: EventData, answers: Callbacks, k: nat,
                 list: seq<HandlerData>, i: nat, calls: seq<Call>)
    requires Walked(hs, event, answers, k, list, i, calls) && i >= |list|
    ensures list == Survivors(hs, event, answers) && calls == CallsOf(hs, event)
  {
    assert hs[..k] == hs;
  }

  class EventObject {
    var handlers: seq<HandlerData>
    const handle: int

    constructor (handle: int)
      ensures this.handle == handle && handlers == []
    {
      this.handle := handle;
      handlers := [];
    }

    method AddHandler(k: Key) returns (ret: int)
      modifies this
      ensures ret == old(AddResult(handlers, k)) && handlers == old(AfterAdd(handlers, k))
    {
      for i := 0 to |handlers|
        invariant handlers == old(handlers)
        invariant forall j :: 0 <= j < i ==> !Overlaps(handlers[j], k)
      {
        if Overlaps(handlers[i], k) {
          return -EALREADY;
        }
      }
      handlers := handlers + [HandlerData(k.handler, k.mask, k.data, false, false)];
      ret := 0;
    }

    method RemoveHandler(k: Key) returns (ret: int)
      modifies this
      ensures ret == old(RemoveResult(handlers, k)) && handlers == old(AfterRemove(handlers, k))
    {
      for i := 0 to |handlers|
        invariant handlers == old(handlers)
        invariant i <= First(handlers, k)
      {
        var info := handlers[i];
        if Matches(info, k) {
          if info.isDeleted {
            return -EALREADY;
          }
          if info.inUse {
            handlers := handlers[i := info.(isDeleted := true)];
            return 0;
          }
          handlers := handlers[..i] + handlers[i + 1..];
          return 0;
        }
      }
      ret := -ENOENT;
    }

    /** The loop of FetchEventData. */
    method Dispatch(event: EventData, answers: Callbacks) returns (calls: seq<Call>)
      requires Disjoint(handlers) && Quiet(handlers)
      modifies this
      ensures calls == CallsOf(old(handlers), event)
      ensures handlers == Survivors(old(handlers), event, answers)
    {
      ghost var was, k := handlers, 0;
      calls := [];
      var i := 0;
      while i < |handlers|
        invariant Walked(was, event, answers, k, handlers, i, calls)
        invariant Disjoint(handlers)
        decreases |was| - k
      {
        WalkOn(was, event, answers, k, handlers, i, calls);
        k := k + 1;
        if Meets(handlers[i], event) {
          var call, erased := Invoke(i, event, answers(|calls|));
          calls := calls + [call];
          if erased {
            continue;
          }
        }
        i := i + 1;
      }
      WalkEnds(was, event, answers, k, handlers, i, calls);
    }

    /** The body of that loop for an entry the event meets. */
    method Invoke(i: nat, event: EventData, answer: Answer) returns (call: Call, erased: bool)
      requires Disjoint(handlers) && i < |handlers| && Meets(handlers[i], event)
      requires !handlers[i].inUse && !handlers[i].isDeleted
      modifies this
      ensures call == CallOf(old(handlers[i]), event)
      ensures erased == Leaves(answer)
      ensures handlers == if erased then old(handlers[..i] + handlers[i + 1..]) else old(handlers)
    {
      var info := handlers[i];
      handlers := handlers[i := info.(inUse := true)];
      SetFlagsKeepsDisjoint(old(handlers), i, true, false);
      call := Call(info.handler, Both(event.mask, info.mask), event, info.data);
      RemoveSelf(i, answer.removals);
      info := handlers[i].(inUse := false);
      handlers := handlers[i := info];
      erased := answer.cancel || info.isDeleted;
      if erased {
        handlers := handlers[..i] + handlers[i + 1..];
      }
    }

    /** A callback at work on its own registration. */
    method RemoveSelf(i: nat, removals: nat)
      requires Disjoint(handlers) && i < |handlers|
      requires handlers[i].mask != 0 && handlers[i].inUse && !handlers[i].isDeleted
      modifies this
      ensures handlers == old(handlers[i := handlers[i].(isDeleted := removals > 0)])
    {
      for n := 0 to removals
        invariant handlers == old(handlers[i := handlers[i].(isDeleted := n > 0)])
        invariant Disjoint(handlers)
      {
        SelfRemovalMarks(handlers, i);
        RemoveKeepsDisjoint(handlers, KeyOf(handlers[i]));
        var ret := RemoveHandler(KeyOf(handlers[i]));
      }
    }

    method FetchEventData(fetcher: Option<Fetcher>, selected: Select, answers: Callbacks)
      returns (ret: int, calls: seq<Call>)
      requires Disjoint(handlers) && Quiet(handlers)
      modifies this
      ensures fetcher.None? ==> ret == -EINVAL
      ensures fetcher.Some? && handle >= 0 && selected.NoEvents? ==> ret == -EAGAIN
      ensures fetcher.Some? && handle >= 0 && selected.Failed? ==> ret == -selected.errno
      ensures fetcher.None? || (handle >= 0 && !selected.Ready?) ==> calls == [] && handlers == old(handlers)
      ensures fetcher.Some? && (handle < 0 || selected.Ready?) ==>
                var fetched := fetcher.value(if handle < 0 then NONE else SelectedMask(selected));
                && ret == 0
                && calls == (if fetched.cancel then [] else CallsOf(old(handlers), fetched.event))
                && handlers ==
                   (if fetched.cancel then old(handlers) else Survivors(old(handlers), fetched.event, answers))
    {
      calls := [];
      if fetcher.None? {
        return -EINVAL, calls;
      }
      var mask := NONE;
      if handle >= 0 {
        match selected
        case NoEvents => return -EAGAIN, calls;
        case Failed(errno) => return -errno, calls;
        case Ready(error, read, write) => mask := SelectedMask(selected);
      }
      var fetched := fetcher.value(mask);
      if !fetched.cancel {
        calls := Dispatch(fetched.event, answers);
      }
      ret := 0;
    }
  }
}
