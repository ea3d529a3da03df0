/** What is sure when nothing is lost: whoever works goes on working, and a recovery loses nobody it has reached. */
module Fairness {
  import opened Replica
  import opened Protocol
  import opened Invariant
  import opened Requests
  import opened Recoveries
  import opened Durability
  import opened Progress
  import opened Sealing

  // ---- the outside ----

  datatype Happening = Crashes(id: nat) | Connects(id: nat)

  /** What the outside has in store for one moment: the fate of an exchange, if there is one, and what else
      happens. */
  datatype Weather = Weather(fate: Fate, happenings: seq<Happening>)

  /** Everything gets through, and nobody crashes. */
  predicate Fine(w: Weather) {
    w.fate == Heard && forall k {:trigger w.happenings[k]} :: 0 <= k < |w.happenings| ==> w.happenings[k].Connects?
  }

  /** One thing happens.  A connection comes about if the participant waits for one and no recovery is going on. */
  function Happens(s: Sys, h: Happening): (t: Sys)
    requires Wf(s)
    ensures Wf(t) && |t.parts| == |s.parts|
  {
    match h
    case Crashes(id) => if id < |s.parts| then Lose(s, id) else s
    case Connects(id) => if Enabled(s, Reconnect(id)) then Step(s, Reconnect(id)) else s
  }

  /** One thing after another. */
  function Happened(s: Sys, hs: seq<Happening>): (t: Sys)
    requires Wf(s)
    ensures Wf(t) && |t.parts| == |s.parts|
  {
    if hs == [] then s else Happens(Happened(s, hs[..|hs| - 1]), hs[|hs| - 1])
  }

  lemma HappensNext(s: Sys, hs: seq<Happening>, k: nat)
    requires Wf(s) && k < |hs|
    ensures Happened(s, hs[..k + 1]) == Happens(Happened(s, hs[..k]), hs[k])
  {
    assert hs[..k + 1][..k] == hs[..k];
  }

  /** So it is from moment `t0` on, up to moment `t1`. */
  ghost predicate Clear(weather: nat -> Weather, t0: nat, t1: nat) {
    forall x {:trigger Open(x)} :: x == t1 ==> ClearOf(weather, t0, x)
  }

  ghost predicate ClearOf(weather: nat -> Weather, t0: nat, t1: nat) {
    forall t {:trigger weather(t)} :: t0 <= t < t1 ==> Fine(weather(t))
  }

  lemma ClearBefore(weather: nat -> Weather, t0: nat, t1: nat)
    requires t0 < t1 && Clear(weather, t0, t1)
    ensures Clear(weather, t0, t1 - 1) && Fine(weather(t1 - 1))
  {
    assert Open(t1);
    assert ClearOf(weather, t0, t1 - 1);
  }

  // ---- what it leaves alone ----

  /** Nobody crashes, and if it is an exchange it is heard. */
  predicate Kind(a: Action) {
    !a.Crash? && (a.Exchange? ==> a.fate == Heard)
  }

  /** Whoever was live in `s0` is live in `s`. */
  ghost predicate LiveKept(s0: Sys, s: Sys) {
    && Wf(s0) && Wf(s) && |s0.parts| == |s.parts|
    && forall j {:trigger Live(s, j)} {:trigger Live(s0, j)} :: 0 <= j < |s.parts| && Live(s0, j) ==> Live(s, j)
  }

  predicate InService(ph: Phase) {
    ph.Vote? || ph.Commit? || ph.Read?
  }

  lemma ReadMoved(s: Sys, id: nat, fate: Fate)
    requires Wf(s) && s.ph.Read? && id < |s.parts|
    ensures Moved(s, ReadExchange(s, id, fate))
  {
    ReadEffect(s, id, fate);
    SendShape(s, id, ReadRequest(s.ph.cmd), fate);
  }

  /** A request being served does not make anybody work, or stop working but to wait. */
  lemma ServingMoves(s: Sys, a: Action, j: nat)
    requires Wf(s) && InService(s.ph) && Enabled(s, a) && a != Restart && j < |s.parts| && Live(s, j)
    ensures Step(s, a).pst[j] == P_WORKING || Step(s, a).pst[j] == P_WAITING
  {
    if a.Exchange? && s.ph.Read? {
      if a.id == s.ph.next { ReadMoved(s, a.id, a.fate); }
    } else if (a.Exchange? || a.Advance?) && !s.ph.Read? {
      MoveKeeps(s, a);
    }
  }

  lemma LiveStays(s: Sys, W: Master, a: Action, j: nat)
    requires Inv(s, W) && InService(s.ph) && Enabled(s, a) && a != Restart && Kind(a) && j < |s.parts| && Live(s, j)
    ensures Live(Step(s, a), j)
  {
    StepStays(s, W, a, j);
    ServingMoves(s, a, j);
  }

  lemma ServingKeeps(s0: Sys, s: Sys, W: Master, a: Action)
    requires Inv(s, W) && InService(s.ph) && Enabled(s, a) && a != Restart && Kind(a) && LiveKept(s0, s)
    ensures LiveKept(s0, Step(s, a))
  {
    forall j | 0 <= j < |s.parts| && Live(s0, j) ensures Live(Step(s, a), j) {
      LiveStays(s, W, a, j);
    }
  }

  lemma CalmStep(s0: Sys, top: nat, s: Sys, W: Master, a: Action)
    requires Wf(s0) && Inv(s, W) && Recovering(s.ph) && |s.parts| == |s0.parts| && Calm(s0, top, s)
    requires Enabled(s, a) && a != Restart && Kind(a)
    ensures Calm(s0, top, Step(s, a))
  {
    match a
    case Exchange(id, _) => CalmExchange(s0, top, s, W, id);
    case Advance => CalmAdvance(s0, top, s, W);
    case _ =>
  }

  // ---- what a client gets then ----

  ghost predicate SomebodyLive(s: Sys) {
    Wf(s) && exists j {:trigger Live(s, j)} :: 0 <= j < |s.parts| && Live(s, j)
  }

  /** With somebody working all along, a well-formed update does not fail. */
  lemma UpdateSucceeds(s0: Sys, cmd: seq<string>, s: Sys, agreed: bool)
    requires LiveKept(s0, s) && SomebodyLive(s0) && UpdateMeans(s0, cmd, s, agreed) && WellFormed(cmd)
    ensures s.ph.reply != ErrorReply
  {
    var j :| 0 <= j < |s0.parts| && Live(s0, j);
    assert Live(s, j) && s.parts[j] == s.parts[j];
  }

  /** And a well-formed read gets a value. */
  lemma ReadSucceeds(s0: Sys, cmd: seq<string>, s: Sys, agreed: bool)
    requires LiveKept(s0, s) && SomebodyLive(s0) && ReadMeans(s0, cmd, s, agreed) && |cmd| == 2
    ensures s.ph.reply.ValueReply?
  {
    var j :| 0 <= j < |s0.parts| && Live(s0, j);
    assert Live(s, j) && s.parts[j] == s.parts[j];
  }
}
