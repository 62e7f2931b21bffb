/**
 The nonce check with the server's threads taken apart.

 Process reads the nonce of a session, compares it with the call's and stores the next one, with nothing
 held in between.  Each of the three is a step of its thread here, and any number of threads take
 them in any order, among key exchanges and lookups.  What the undivided check promises of a session -
 that its calls get through in order and once each - then holds exactly as long as no call is let
 through between the read and the store of another.
 */
module NonceThreads {
  import opened Prelude
  import Runs
  import Decimal
  import opened Session

  type Thread = nat

  /** Where a thread is in Process; `at` is bookkeeping, the calls of the session let through when it read the nonce. */
  datatype Pc =
    | Waiting
    | Loaded(gst: nat, nonce: nat, carried: Option<string>, at: nat)  // GetNonce has returned
    | Passed(gst: nat, nonce: nat, at: nat)                           // the nonces are equal

  /** Bookkeeping: a call that was let through, by its session and nonce. */
  datatype Pass = Pass(gst: nat, nonce: nat)

  datatype Server = Server(state: Session.State, pcs: map<Thread, Pc>, passed: seq<Pass>)

  function At(s: Server, t: Thread): Pc { if t in s.pcs then s.pcs[t] else Waiting }

  datatype Act =
    | Load(t: Thread, metadata: Metadata)  // a call is taken up as far as GetNonce
    | Compare(t: Thread)
    | Store(t: Thread)                     // SetNonce, and the call is let through
    | Rest(action: Session.Action)         // a key exchange or a lookup

  predicate Enabled(s: Server, a: Act) {
    match a
    case Load(t, _) => At(s, t).Waiting?
    case Compare(t) => At(s, t).Loaded?
    case Store(t) => At(s, t).Passed?
    case Rest(action) => !action.Process?
  }

  /** The session whose nonce a call is compared with, if it gets that far. */
  function Target(s: Session.State, m: Metadata): Option<nat> {
    if !LooksUp(m) then None
    else
      var gst := Entry(s, m.id.value);
      if gst.Some? && gst.value < |s.sessions| then gst else None
  }

  function LoadStep(s: Server, t: Thread, m: Metadata): Server {
    var state := if LooksUp(m) then Touch(s.state, m.id.value) else s.state;
    match Target(s.state, m)
    case None => s.(state := state)
    case Some(g) =>
      var loaded := Loaded(g, s.state.sessions[g].nonce, m.nonce, |Nonces(s.passed, g)|);
      s.(state := state, pcs := s.pcs[t := loaded])
  }

  function CompareStep(s: Server, t: Thread): Server
    requires At(s, t).Loaded?
  {
    var pc := s.pcs[t];
    var fits := pc.carried == Some(Decimal.ToString(pc.nonce));
    s.(pcs := s.pcs[t := if fits then Passed(pc.gst, pc.nonce, pc.at) else Waiting])
  }

  function StoreStep(s: Server, t: Thread): Server
    requires At(s, t).Passed?
  {
    var pc := s.pcs[t];
    var sessions := s.state.sessions;
    Server(if pc.gst < |sessions| then s.state.(sessions := sessions[pc.gst := Gst(Ulong(pc.nonce + 1))]) else s.state,
           s.pcs[t := Waiting],
           s.passed + [Pass(pc.gst, pc.nonce)])
  }

  function Step(s: Server, a: Act): Server {
    if !Enabled(s, a) then s else
    match a
    case Load(t, m) => LoadStep(s, t, m)
    case Compare(t) => CompareStep(s, t)
    case Store(t) => StoreStep(s, t)
    case Rest(action) => s.(state := Session.Step(s.state, action))
  }

  function RunFrom(s: Server, schedule: seq<Act>): Server { Runs.From(Step, s, schedule) }

  // ---------- The calls let through ----------

  /** The nonces of the calls of session `g` that were let through. */
  function Nonces(passed: seq<Pass>, g: nat): seq<nat> {
    if passed == [] then []
    else
      var p := passed[|passed| - 1];
      Nonces(passed[..|passed| - 1], g) + if p.gst == g then [p.nonce] else []
  }

  function Through(s: Server, g: nat): seq<nat> { Nonces(s.passed, g) }

  lemma NoncesSnoc(passed: seq<Pass>, p: Pass, g: nat)
    ensures Nonces(passed + [p], g) == Nonces(passed, g) + if p.gst == g then [p.nonce] else []
  {
    assert (passed + [p])[..|passed|] == passed;
  }

  /** `n` numbers from `start` on, wrapped around. */
  function Counted(start: nat, n: nat): seq<nat> {
    seq<nat>(n, i requires 0 <= i < n => Ulong(start + i))
  }

  predicate Once(nonces: seq<nat>) { forall i, j :: 0 <= i < j < |nonces| ==> nonces[i] != nonces[j] }

  /** The thread stores although a call of the session was let through since it read the nonce. */
  predicate Overtaken(s: Server, a: Act, g: nat) {
    a.Store? && At(s, a.t).Passed? && At(s, a.t).gst == g && At(s, a.t).at != |Through(s, g)|
  }

  ghost predicate NoneOvertaken(s: Server, schedule: seq<Act>, g: nat) {
    forall k :: 0 <= k < |schedule| ==> !Overtaken(RunFrom(s, schedule[..k]), schedule[k], g)
  }

  // ---------- Invariant ----------

  predicate IsAt(s: Server, t: Thread, g: nat) { !At(s, t).Waiting? && At(s, t).gst == g }

  predicate InOrder(s: Server, g: nat, start: nat) {
    && g < |s.state.sessions|
    && s.state.sessions[g].nonce == Ulong(start + |Through(s, g)|)
    && Through(s, g) == Counted(start, |Through(s, g)|)
  }

  ghost predicate ReadWell(s: Server, g: nat, start: nat) {
    forall t :: IsAt(s, t, g) ==> At(s, t).at <= |Through(s, g)| && At(s, t).nonce == Ulong(start + At(s, t).at)
  }

  ghost predicate Inv(s: Server, g: nat, start: nat) { InOrder(s, g, start) && ReadWell(s, g, start) }

  predicate LoadsFrom(s: Server, a: Act, g: nat) {
    a.Load? && Enabled(s, a) && Target(s.state, a.metadata) == Some(g)
  }

  /** No thread is at session `g`, and no call was let through yet; its nonce is `start`. */
  ghost predicate Begins(s: Server, g: nat, start: nat) {
    && g < |s.state.sessions| && s.state.sessions[g].nonce == start < ULONG_COUNT
    && s.passed == [] && forall t :: !IsAt(s, t, g)
  }

  lemma OtherSteps(s: Server, a: Act, g: nat)
    requires Enabled(s, a) && g < |s.state.sessions| && !(a.Store? && At(s, a.t).gst == g)
    ensures var t := Step(s, a);
            g < |t.state.sessions| && t.state.sessions[g] == s.state.sessions[g] && Through(t, g) == Through(s, g)
  {
    if a.Store? {
      NoncesSnoc(s.passed, Pass(At(s, a.t).gst, At(s, a.t).nonce), g);
    }
  }

  lemma StoreMoves(s: Server, t: Thread, g: nat)
    requires g < |s.state.sessions| && At(s, t).Passed? && At(s, t).gst == g
    ensures var u, nonce := StoreStep(s, t), At(s, t).nonce;
            && |u.state.sessions| == |s.state.sessions| && u.state.sessions[g].nonce == Ulong(nonce + 1)
            && Through(u, g) == Through(s, g) + [nonce]
  {
    NoncesSnoc(s.passed, Pass(g, At(s, t).nonce), g);
  }

  /** A thread is at a session because it was, with the same nonce, or has just read it. */
  lemma ArrivesByLoad(s: Server, a: Act, g: nat)
    requires Enabled(s, a) && g < |s.state.sessions|
    ensures var u := Step(s, a);
            forall t :: IsAt(u, t, g) ==>
              if IsAt(s, t, g) then At(u, t).nonce == At(s, t).nonce && At(u, t).at == At(s, t).at
              else LoadsFrom(s, a, g) && t == a.t &&
                   At(u, t).nonce == s.state.sessions[g].nonce && At(u, t).at == |Through(s, g)|
    ensures a.Store? ==> !IsAt(Step(s, a), a.t, g)
  {
  }

  lemma CountedSnoc(start: nat, n: nat)
    ensures Counted(start, n) + [Ulong(start + n)] == Counted(start, n + 1)
    ensures Ulong(Ulong(start + n) + 1) == Ulong(start + n + 1)
  {
  }

  lemma StepKeepsOrder(s: Server, a: Act, g: nat, start: nat)
    requires Inv(s, g, start) && Enabled(s, a) && !Overtaken(s, a, g)
    ensures InOrder(Step(s, a), g, start)
  {
    if a.Store? && At(s, a.t).gst == g {
      StoreMoves(s, a.t, g);
      CountedSnoc(start, |Through(s, g)|);
      assert IsAt(s, a.t, g);
    } else {
      OtherSteps(s, a, g);
    }
  }

  lemma StepKeepsReads(s: Server, a: Act, g: nat, start: nat)
    requires Inv(s, g, start) && Enabled(s, a)
    ensures ReadWell(Step(s, a), g, start)
  {
    ArrivesByLoad(s, a, g);
    ThroughGrows(s, a, g);
  }

  lemma StepKeepsInv(s: Server, a: Act, g: nat, start: nat)
    requires Inv(s, g, start) && !Overtaken(s, a, g)
    ensures Inv(Step(s, a), g, start)
  {
    if Enabled(s, a) {
      StepKeepsOrder(s, a, g, start);
      StepKeepsReads(s, a, g, start);
    }
  }

  /**
   A store that was overtaken lets a call through that was let through before, and sets the nonce back to the
   one after it, so that all that were let through since fit again.
   */
  lemma OvertakenSetsBack(s: Server, a: Act, g: nat, start: nat)
    requires Inv(s, g, start) && Overtaken(s, a, g) && |Through(s, g)| < ULONG_COUNT
    ensures var was, now, at := Through(s, g), Through(Step(s, a), g), At(s, a.t).at;
            && at < |was| && now == was + [was[at]] && was[at] != Ulong(start + |was|)
            && Step(s, a).state.sessions[g].nonce == Ulong(start + at + 1)
  {
    StoreMoves(s, a.t, g);
    CountedSnoc(start, At(s, a.t).at);
    Apart(start, At(s, a.t).at, |Through(s, g)|);
  }

  /** Numbers less than 2^64 apart do not wrap to the same. */
  lemma Apart(start: nat, i: nat, j: nat)
    requires i < j < i + ULONG_COUNT
    ensures Ulong(start + i) != Ulong(start + j)
  {
    var q, r := (start + i) / ULONG_COUNT, (start + j) / ULONG_COUNT;
    assert Ulong(start + i) == Ulong(start + j) ==> j - i == (r - q) * ULONG_COUNT;
  }

  lemma CountedOnce(start: nat, n: nat)
    requires n <= ULONG_COUNT
    ensures Once(Counted(start, n))
  {
    forall i, j | 0 <= i < j < n ensures Counted(start, n)[i] != Counted(start, n)[j] {
      Apart(start, i, j);
    }
  }

  lemma ThroughGrows(s: Server, a: Act, g: nat)
    ensures Through(s, g) <= Through(Step(s, a), g)
  {
    if Enabled(s, a) && a.Store? {
      NoncesSnoc(s.passed, Pass(At(s, a.t).gst, At(s, a.t).nonce), g);
    }
  }

  // ---------- When calls get through in order and once ----------

  predicate OutOfOrder(p: seq<nat>, start: nat, i: nat, j: nat) {
    i < j < |p| && p[i] == p[j] && p[j] != Ulong(start + j)
  }

  lemma NoneOvertakenSnoc(s: Server, front: seq<Act>, a: Act, g: nat)
    ensures NoneOvertaken(s, front + [a], g) <==> NoneOvertaken(s, front, g) && !Overtaken(RunFrom(s, front), a, g)
  {
    var all := front + [a];
    assert all[..|front|] == front && all[|front|] == a;
    assert forall k :: 0 <= k < |front| ==> all[..k] == front[..k] && all[k] == front[k];
  }

  lemma OvertakenStep(s: Server, a: Act, g: nat, start: nat)
    requires Inv(s, g, start) && |Through(Step(s, a), g)| <= ULONG_COUNT
    ensures if Overtaken(s, a, g) then exists i, j :: OutOfOrder(Through(Step(s, a), g), start, i, j)
            else Inv(Step(s, a), g, start)
  {
    if Overtaken(s, a, g) {
      StoreMoves(s, a.t, g);
      OvertakenSetsBack(s, a, g, start);
      assert OutOfOrder(Through(Step(s, a), g), start, At(s, a.t).at, |Through(s, g)|);
    } else {
      StepKeepsInv(s, a, g, start);
    }
  }

  /** The first store that is overtaken leaves its mark on the calls let through, for good. */
  lemma {:induction false} OvertakenOrNot(s: Server, schedule: seq<Act>, g: nat, start: nat)
    requires Begins(s, g, start) && |Through(RunFrom(s, schedule), g)| <= ULONG_COUNT
    ensures NoneOvertaken(s, schedule, g) ==> Inv(RunFrom(s, schedule), g, start)
    ensures var p := Through(RunFrom(s, schedule), g);
            !NoneOvertaken(s, schedule, g) ==> exists i, j :: OutOfOrder(p, start, i, j)
  {
    if schedule != [] {
      var front, a := schedule[..|schedule| - 1], schedule[|schedule| - 1];
      var u := RunFrom(s, front);
      assert schedule == front + [a];
      NoneOvertakenSnoc(s, front, a, g);
      ThroughGrows(u, a, g);
      OvertakenOrNot(s, front, g, start);
      if NoneOvertaken(s, front, g) {
        OvertakenStep(u, a, g, start);
      } else {
        var i, j :| OutOfOrder(Through(u, g), start, i, j);
        assert OutOfOrder(Through(Step(u, a), g), start, i, j);
      }
    }
  }

  /**
   In every run of any threads that lets at most 2^64 calls of a session through, these are let through in the order
   of their nonces, and none twice, and either holds exactly if no store of the session was overtaken.
   */
  lemma OnceExactlyUnlessOvertaken(s: Server, schedule: seq<Act>, g: nat, start: nat)
    requires Begins(s, g, start) && |Through(RunFrom(s, schedule), g)| <= ULONG_COUNT
    ensures var p := Through(RunFrom(s, schedule), g);
            && (p == Counted(start, |p|) <==> NoneOvertaken(s, schedule, g))
            && (Once(p) <==> NoneOvertaken(s, schedule, g))
  {
    OvertakenOrNot(s, schedule, g, start);
    CountedOnce(start, |Through(RunFrom(s, schedule), g)|);
  }

  // ---------- One thread at a time ----------

  /** Whenever a thread reads the nonce of `g` no other one is between its read and its store. */
  ghost predicate OneAtATime(s: Server, schedule: seq<Act>, g: nat) {
    forall k :: 0 <= k < |schedule| ==> !Intrudes(RunFrom(s, schedule[..k]), schedule[k], g)
  }

  ghost predicate Intrudes(s: Server, a: Act, g: nat) {
    LoadsFrom(s, a, g) && exists t :: IsAt(s, t, g)
  }

  ghost predicate Alone(s: Server, g: nat) {
    && (forall t, u :: IsAt(s, t, g) && IsAt(s, u, g) ==> t == u)
    && (forall t :: IsAt(s, t, g) ==> At(s, t).at == |Through(s, g)|)
  }

  lemma StepKeepsAlone(s: Server, a: Act, g: nat)
    requires g < |s.state.sessions| && Alone(s, g) && !Intrudes(s, a, g)
    ensures Alone(Step(s, a), g) && !Overtaken(s, a, g) && g < |Step(s, a).state.sessions|
  {
    if Enabled(s, a) {
      ArrivesByLoad(s, a, g);
      if a.Store? && At(s, a.t).gst == g {
        StoreMoves(s, a.t, g);
        assert IsAt(s, a.t, g);
      } else {
        OtherSteps(s, a, g);
      }
    }
  }

  /** With one thread at a time at a session no store of it is overtaken. */
  lemma {:induction false} OneAtATimeIsEnough(s: Server, schedule: seq<Act>, g: nat)
    requires g < |s.state.sessions| && Alone(s, g) && OneAtATime(s, schedule, g)
    ensures NoneOvertaken(s, schedule, g)
    ensures Alone(RunFrom(s, schedule), g) && g < |RunFrom(s, schedule).state.sessions|
  {
    if schedule != [] {
      var front, a := schedule[..|schedule| - 1], schedule[|schedule| - 1];
      assert schedule == front + [a];
      assert forall k :: 0 <= k < |front| ==> schedule[..k] == front[..k] && schedule[k] == front[k];
      OneAtATimeIsEnough(s, front, g);
      NoneOvertakenSnoc(s, front, a, g);
      StepKeepsAlone(RunFrom(s, front), a, g);
    }
  }

  /** A call taken up, compared and stored without a break is a Process of the undivided check. */
  lemma UnbrokenIsProcess(s: Server, t: Thread, m: Metadata)
    requires InvMap(s.state) && At(s, t).Waiting?
    ensures var u := RunFrom(s, [Load(t, m), Compare(t)] + [Store(t)]);
            && u.state == Session.Step(s.state, Process(m)) && At(u, t).Waiting?
            && (NonceFits(s.state, m) <==> u.passed != s.passed)
  {
    Runs.Two(Step, s, Load(t, m), Compare(t));
    Runs.Snoc(Step, s, [Load(t, m), Compare(t)], Store(t));
  }

  /** Key exchanges and lookups are what they are without the threads, and pass them by. */
  lemma RestIsServed(s: Server, action: Session.Action)
    requires !action.Process?
    ensures Step(s, Rest(action)) == Server(Session.Step(s.state, action), s.pcs, s.passed)
  {
  }

  // ---------- One call let through twice ----------

  /** Two threads that take one call up at the same time both let it through: it need only be delivered twice. */
  lemma CallLetThroughTwice(s: Server, t: Thread, u: Thread, m: Metadata)
    requires t != u && At(s, t).Waiting? && At(s, u).Waiting? && NonceFits(s.state, m)
    ensures var g := Entry(s.state, m.id.value).value;
            var nonce := s.state.sessions[g].nonce;
            Through(RunFrom(s, [Load(t, m), Load(u, m), Compare(t), Compare(u)] + [Store(t), Store(u)]), g) ==
            Through(s, g) + [nonce] + [nonce]
  {
    var g := Entry(s.state, m.id.value).value;
    var first := [Load(t, m), Load(u, m), Compare(t), Compare(u)];
    Runs.Append(Step, s, first, [Store(t), Store(u)]);
    Runs.Four(Step, s, Load(t, m), Load(u, m), Compare(t), Compare(u));
    var v := RunFrom(s, first);
    Runs.Two(Step, v, Store(t), Store(u));
    StoreMoves(v, t, g);
    StoreMoves(StoreStep(v, t), u, g);
  }
}
