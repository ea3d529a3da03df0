/** The coordinator itself: its operations as the loops they are, run against the participants behind its
    links.  Every operation is a run of the step system, and achieves what a run achieves. */
module Coordination {
  import opened Kv
  import opened Replica
  import opened Options
  import opened Protocol
  import opened Invariant
  import opened RecoveryInvariant
  import opened Requests
  import opened Recoveries
  import opened Fairness
  import opened Rounds
  import opened Sealing

  class Coordinator {
    const pnum: nat
    // the participants, and the links to them
    var parts: seq<Part>
    var up: seq<bool>
    // what the outside does, moment by moment
    const weather: nat -> Weather
    var clock: nat
    // the coordinator
    var txid: nat
    const lg: Logger
    var working: bool
    var pstate: seq<PState>
    var maxTxidTB: map<nat, nat>
    var recoveryMutex: bool
    // tasks and results of the worker threads; a participant is in `busy` while its worker has a task
    var busy: set<nat>
    var ptask: map<nat, Log>
    var pworkingRet: map<nat, int>
    var pworkingDataRet: map<nat, Reply>
    var pRtask: map<nat, Log>
    var precoveryRet: map<nat, int>
    var precoveryDataRet: map<nat, Reply>
    // the run so far
    ghost var trace: seq<Action>
    ghost var master: Master
    ghost var ph: Phase
    ghost var table: map<nat, nat>
    ghost var restarted: bool
    ghost var goal: Goal
    ghost var op: Sys
    ghost var since: nat

    ghost function World(): Sys
      reads this`parts, this`up, this`pstate, this`txid, lg`l, this`maxTxidTB, this`working, this`restarted, this`ph
    {
      Sys(parts, up, pstate, txid, lg.l, maxTxidTB, working, restarted, ph)
    }

    /** The state of the step system.  While the transaction ids are being queried, the table is the one
        that the answers make, collected or not. */
    ghost function State(): Sys
      reads this`parts, this`up, this`pstate, this`txid, lg`l, this`maxTxidTB, this`working, this`restarted, this`ph
      reads this`table
    {
      Sys(parts, up, pstate, txid, lg.l, if ph.Query? then table else maxTxidTB, working, restarted, ph)
    }

    ghost predicate Valid()
      reads this, lg
    {
      && |parts| == pnum && |up| == pnum && |pstate| == pnum
      && recoveryMutex == Recovering(ph)
      && Sound()
    }

    /** The run so far is one of the step system, and leads to this state. */
    ghost predicate Sound()
      reads this`parts, this`up, this`pstate, this`txid, lg`l, this`maxTxidTB, this`working, this`restarted, this`ph
      reads this`table, this`trace, this`master, this`goal, this`op, this`since, this`clock
    {
      forall n: nat {:trigger Open(n)} :: n == pnum ==>
        since <= clock && Lawful(n, trace, State(), master, goal, op, Fair())
    }

    /** From moment `t0` on everything has got through, and nobody has crashed. */
    ghost predicate FineFrom(t0: nat)
      reads this`clock
    {
      Clear(weather, t0, clock)
    }

    /** So it has been since the operation began. */
    ghost predicate Fair()
      reads this`clock, this`since
    {
      Clear(weather, since, clock)
    }

    /** The updates of the run so far have begun where they fit. */
    ghost predicate Agreed()
      reads this`trace
    {
      CanRun(Init(pnum), trace) && Guarded(Init(pnum), trace)
    }

    /** The coordinator starts, after whatever has happened before. */
    constructor (n: nat, replicas: seq<Part>, outside: nat -> Weather, ghost before: seq<Action>)
      requires CanRun(Init(n), before) && Run(Init(n), before).parts == replicas
      ensures Valid() && fresh(lg) && pnum == n && weather == outside && ph == Idle(NoReply)
      ensures State() == Step(Run(Init(n), before), Restart)
    {
      pnum, weather, clock, since := n, outside, 0, 0;
      parts, up, pstate := replicas, seq(n, _ => false), seq(n, _ => P_WAITING);
      txid, maxTxidTB, working := TXID_START, map[], false;
      lg := new Logger();
      recoveryMutex, busy := false, {};
      ptask, pworkingRet, pworkingDataRet := map[], map[], map[];
      pRtask, precoveryRet, precoveryDataRet := map[], map[], map[];
      ph, table, restarted, goal, op := Idle(NoReply), map[], true, NoGoal, Init(n);
      trace := before + [Restart];
      var W := LawfulRestart(n, before, NoGoal, Init(n), Clear(outside, 0, 0));
      master := W;
      new;
      assert Open(pnum);
    }

    /** The fields are those of `t`, but for what only the step system has. */
    ghost predicate Shows(t: Sys)
      reads this, lg
    {
      && |parts| == |up| == |pstate| == pnum
      && t == Sys(parts, up, pstate, txid, lg.l, t.tb, working, restarted, t.ph)
      && (!t.ph.Query? ==> maxTxidTB == t.tb) && recoveryMutex == Recovering(t.ph)
    }

    ghost method Install(a: Action, after: Sys, W: Master)
      requires since <= clock && Lawful(pnum, trace + [a], after, W, goal, op, Fair()) && Shows(after)
      modifies this`trace, this`master, this`ph, this`table
      ensures Valid() && State() == after && ph == after.ph && trace == old(trace) + [a]
    {
      trace, master, ph, table := trace + [a], W, after.ph, after.tb;
      assert Open(pnum);
    }

    /** Adds the step just made to the run. */
    ghost method Record(before: Sys, a: Action, after: Sys)
      requires Lawful(pnum, trace, before, master, goal, op, Fair()) && Moves(before, a, after) && Shows(after)
      requires a != Restart && (before.ph.Idle? ==> after.ph.Idle?)
      requires since <= clock && (Fair() ==> Kind(a))
      modifies this`trace, this`master, this`ph, this`table
      ensures Valid() && State() == after && ph == after.ph && trace == old(trace) + [a]
      ensures !before.ph.Idle? && after.ph.Idle? ==> Done(goal, op, after, Agreed(), Fair())
    {
      var W := LawfulStep(pnum, trace, before, master, goal, op, a, after, Fair());
      LawfulAgreed(pnum, trace + [a], after, W, goal, op, Fair());
      Install(a, after, W);
    }

    /** Adds the first step of an operation. */
    ghost method Begin(before: Sys, a: Action, after: Sys, g: Goal)
      requires Lawful(pnum, trace, before, master, goal, op, Fair()) && Begins(g, before, a, after) && Shows(after)
      modifies this`trace, this`master, this`goal, this`op, this`since, this`ph, this`table
      ensures Valid() && since == clock && ph == after.ph && (ph.Query? ==> table == after.tb)
      ensures trace == old(trace) + [a] && goal == g && op == before
    {
      var W := LawfulStart(pnum, trace, before, master, goal, op, a, after, g, Fair(), Clear(weather, clock, clock));
      goal, op, since := g, before, clock;
      Install(a, after, W);
    }

    // ---- the environment ----

    method Lost(id: nat)
      requires Valid() && id < pnum && !Fair()
      modifies this`parts, this`up, this`ph, this`table, this`trace, this`master
      ensures Valid() && ph == old(ph) && (ph.Query? ==> table == old(table)) && old(trace) <= trace
      ensures State() == Happens(old(State()), Crashes(id))
    {
      ghost var s := State();
      assert Open(pnum);
      parts, up := parts[id := INITIAL], up[id := false];
      MovesIs(s, Crash(id), Lose(s, id));
      Record(s, Crash(id), Lose(s, id));
    }

    /** A keep-alive thread connects to a participant that waits. */
    method KeepAlive(id: nat)
      requires Valid() && id < pnum
      modifies this`up, this`pstate, this`ph, this`table, this`trace, this`master
      ensures Valid() && ph == old(ph) && (ph.Query? ==> table == old(table)) && old(trace) <= trace
      ensures State() == Happens(old(State()), Connects(id))
      ensures if old(pstate)[id] == P_WAITING && !recoveryMutex
              then pstate == old(pstate)[id := P_TEMP] && up == old(up)[id := true]
                  && trace == old(trace) + [Reconnect(id)]
              else pstate == old(pstate) && up == old(up) && trace == old(trace)
    {
      if pstate[id] == P_WAITING && !recoveryMutex { Connect(id); }
    }

    method Connect(id: nat)
      requires Valid() && id < pnum && pstate[id] == P_WAITING && !recoveryMutex
      modifies this`up, this`pstate, this`ph, this`table, this`trace, this`master
      ensures Valid() && ph == old(ph) && State() == Happens(old(State()), Connects(id))
      ensures pstate == old(pstate)[id := P_TEMP] && up == old(up)[id := true] && trace == old(trace) + [Reconnect(id)]
    {
      ghost var s := State();
      assert Open(pnum);
      up, pstate := up[id := true], pstate[id := P_TEMP];
      ghost var t := s.(up := up, pst := pstate);
      MovesIs(s, Reconnect(id), t);
      Record(s, Reconnect(id), t);
    }

    /** A moment passes. */
    method Pass() returns (w: Weather)
      requires Valid()
      modifies this`clock
      ensures Valid() && clock == old(clock) + 1 && w == weather(old(clock)) && (Fair() ==> Fine(w))
    {
      assert Open(pnum);
      w := weather(clock);
      clock := clock + 1;
      if Fair() { ClearBefore(weather, since, clock); }
      LawfulLess(pnum, trace, State(), master, goal, op, Clear(weather, since, clock - 1), Fair());
    }

    method Happen(h: Happening)
      requires Valid() && (h.Crashes? ==> !Fair())
      modifies this`parts, this`up, this`pstate, this`ph, this`table, this`trace, this`master
      ensures Valid() && ph == old(ph) && (ph.Query? ==> table == old(table)) && old(trace) <= trace
      ensures State() == Happens(old(State()), h)
    {
      match h {
        case Crashes(id) => if id < pnum { Lost(id); }
        case Connects(id) => if id < pnum { KeepAlive(id); }
      }
    }

    method AllHappen(hs: seq<Happening>)
      requires Valid() && (Fair() ==> forall k {:trigger hs[k]} :: 0 <= k < |hs| ==> hs[k].Connects?)
      modifies this`parts, this`up, this`pstate, this`ph, this`table, this`trace, this`master
      ensures Valid() && ph == old(ph) && (ph.Query? ==> table == old(table)) && old(trace) <= trace
      ensures State() == Happened(old(State()), hs)
    {
      ghost var s := State();
      var k := 0;
      assert hs[..0] == [];
      while k < |hs|
        invariant k <= |hs| && Valid() && ph == old(ph) && (ph.Query? ==> table == old(table)) && old(trace) <= trace
        invariant State() == Happened(s, hs[..k])
      {
        HappensNext(s, hs, k);
        Happen(hs[k]);
        k := k + 1;
      }
      assert hs[..k] == hs;
    }

    /** Whatever happens outside: participants crash, and the keep-alive threads reconnect those that wait. */
    method Others()
      requires Valid()
      modifies this`clock, this`parts, this`up, this`pstate, this`ph, this`table, this`trace, this`master
      ensures Valid() && ph == old(ph) && (ph.Query? ==> table == old(table)) && old(trace) <= trace
      ensures clock == old(clock) + 1 && State() == Happened(old(State()), weather(old(clock)).happenings)
    {
      var w := Pass();
      AllHappen(w.happenings);
    }

    /** The fate the outside has for an exchange of this moment; one that is not made is as good as heard. */
    ghost function FateNow(made: bool): Fate
      reads this`clock
    {
      if made then weather(clock).fate else Heard
    }

    /** Sends a message and waits for the answer.  Either may be lost; then the link is closed, and the
        participant keeps what it has. */
    method SendAndRecv(id: nat, task: Log) returns (rc: int, rmsg: Reply)
      requires id < |parts| == |up| == |pstate|
      modifies this`clock, this`parts, this`up
      ensures clock == old(clock) + 1
      ensures var (s1, r) := Send(old(World()), id, task, weather(old(clock)).fate);
        && s1 == World().(pst := if r.None? then pstate[id := P_WAITING] else pstate)
        && rc == (if r.Some? then KV_OK else KV_NETWORK) && (r.Some? ==> rmsg == r.value)
    {
      var fate := weather(clock).fate;
      SendShape(World(), id, task, fate);
      clock := clock + 1;
      if !up[id] || fate.Undelivered? {
        up := up[id := false];
        return KV_NETWORK, NoReply;
      }
      var a := Answer(parts[id], task);
      if a.1 == AssertionFailure {
        parts, up := parts[id := INITIAL], up[id := false];
        return KV_NETWORK, NoReply;
      }
      parts := parts[id := a.0];
      if fate.Heard? { return KV_OK, a.1; }
      up := up[id := false];
      return KV_NETWORK, NoReply;
    }

    /** One round of a working thread. */
    method PWorking(id: nat) returns (ghost fate: Fate)
      requires id < |parts| == |up| == |pstate| && id in ptask
      modifies this`clock, this`parts, this`up, this`pstate, this`busy, this`pworkingRet, this`pworkingDataRet
      ensures busy == old(busy) - {id}
      ensures fate == old(FateNow(pstate[id] == P_WORKING))
      ensures clock == old(clock) + if old(pstate)[id] == P_WORKING then 1 else 0
      ensures PWorked(old(World()), World(), id, ptask[id], fate,
                      old(pworkingRet), pworkingRet, old(pworkingDataRet), pworkingDataRet)
    {
      fate := FateNow(pstate[id] == P_WORKING);
      DoTask(id);
      PWorkedIs(old(World()), World(), id, ptask[id], fate,
                old(pworkingRet), pworkingRet, old(pworkingDataRet), pworkingDataRet);
      busy := busy - {id};
    }

    method DoTask(id: nat)
      requires id < |parts| == |up| == |pstate| && id in ptask
      modifies this`clock, this`parts, this`up, this`pstate, this`pworkingRet, this`pworkingDataRet
      ensures clock == old(clock) + if old(pstate)[id] == P_WORKING then 1 else 0
      ensures PWorkedOf(old(World()), World(), id, ptask[id], old(FateNow(pstate[id] == P_WORKING)),
                        old(pworkingRet), pworkingRet, old(pworkingDataRet), pworkingDataRet)
    {
      if pstate[id] != P_WORKING {
        pworkingRet := pworkingRet[id := RET_SKIP];
      } else {
        var task := ptask[id];
        var rc, rmsg := SendAndRecv(id, task);
        pworkingRet := pworkingRet[id := rc];
        pworkingDataRet := pworkingDataRet[id := rmsg];
        if rc != KV_OK {
          pstate := pstate[id := P_WAITING];
        }
      }
    }

    /** The recovery thread of participant `id` has something to send. */
    ghost predicate Handing(id: nat)
      requires id < |pstate| && id in pRtask
      reads this
    {
      && pstate[id] == P_RECOVERY
      && (pRtask[id].id >= TXID_START ==> pRtask[id].id == Entry(maxTxidTB, id) + 1)
    }

    /** One round of a recovery thread. */
    method PRecovery(id: nat) returns (ghost fate: Fate)
      requires id < |parts| == |up| == |pstate| && id in pRtask
      modifies this`clock, this`parts, this`up, this`pstate, this`busy, this`maxTxidTB, this`precoveryRet,
               this`precoveryDataRet
      ensures busy == old(busy) - {id}
      ensures fate == old(FateNow(Handing(id))) && clock == old(clock) + if old(Handing(id)) then 1 else 0
      ensures PRecovered(old(World()), World(), id, pRtask[id], fate,
                         old(precoveryRet), precoveryRet, old(precoveryDataRet), precoveryDataRet)
    {
      fate := FateNow(Handing(id));
      DoRecoveryTask(id);
      PRecoveredIs(old(World()), World(), id, pRtask[id], fate,
                   old(precoveryRet), precoveryRet, old(precoveryDataRet), precoveryDataRet);
      busy := busy - {id};
    }

    method DoRecoveryTask(id: nat)
      requires id < |parts| == |up| == |pstate| && id in pRtask
      modifies this`clock, this`parts, this`up, this`pstate, this`maxTxidTB, this`precoveryRet, this`precoveryDataRet
      ensures clock == old(clock) + if old(Handing(id)) then 1 else 0
      ensures PRecoveredOf(old(World()), World(), id, pRtask[id], old(FateNow(Handing(id))),
                           old(precoveryRet), precoveryRet, old(precoveryDataRet), precoveryDataRet)
    {
      if pstate[id] != P_RECOVERY {
        precoveryRet := precoveryRet[id := RET_SKIP];
        return;
      }
      if pRtask[id].id >= TXID_START && pRtask[id].id != Entry(maxTxidTB, id) + 1 {
        maxTxidTB := maxTxidTB[id := Entry(maxTxidTB, id)];
        precoveryRet := precoveryRet[id := RET_SKIP];
        return;
      }
      HandOver(id, pRtask[id]);
    }

    method HandOver(id: nat, task: Log)
      requires id < |parts| == |up| == |pstate|
      requires pstate[id] == P_RECOVERY && (task.id >= TXID_START ==> task.id == Entry(maxTxidTB, id) + 1)
      modifies this`clock, this`parts, this`up, this`pstate, this`maxTxidTB, this`precoveryRet, this`precoveryDataRet
      ensures clock == old(clock) + 1
      ensures PRecoveredOf(old(World()), World(), id, task, weather(old(clock)).fate,
                           old(precoveryRet), precoveryRet, old(precoveryDataRet), precoveryDataRet)
    {
      var rc, rmsg := SendAndRecv(id, task);
      precoveryRet := precoveryRet[id := rc];
      precoveryDataRet := precoveryDataRet[id := rmsg];
      if rc != KV_OK {
        pstate := pstate[id := P_WAITING];
        maxTxidTB := maxTxidTB - {id};
      } else if rmsg != ErrorReply {
        maxTxidTB := maxTxidTB[id := Entry(maxTxidTB, id) + 1];
      }
    }

    /** In `s` an exchange has been made with fate `d`, and is to be added to the run. */
    ghost predicate Told(s: Sys, d: Fate)
      reads this`trace, this`master, this`goal, this`op, this`since, this`clock
    {
      forall n: nat {:trigger Open(n)} :: n == pnum ==>
        since <= clock && Lawful(n, trace, s, master, goal, op, Fair()) && (Fair() ==> d == Heard)
    }

    /** An exchange has been made at moment `t0`, or not, and if all is fine it has been heard. */
    lemma FairTurn(t0: nat, s: Sys, d: Fate, made: bool)
      requires d == (if made then weather(t0).fate else Heard) && clock == t0 + (if made then 1 else 0)
      requires since <= t0 && Lawful(pnum, trace, s, master, goal, op, Clear(weather, since, t0))
      ensures Told(s, d)
    {
      if made && Fair() { ClearBefore(weather, since, clock); }
      LawfulLess(pnum, trace, s, master, goal, op, Clear(weather, since, t0), Fair());
    }

    /** A working thread's turn. */
    method WorkTurn(id: nat) returns (ghost d: Fate)
      requires Valid() && id < pnum && id in ptask
      modifies this`clock, this`parts, this`up, this`pstate, this`busy, this`pworkingRet, this`pworkingDataRet
      ensures busy == old(busy) - {id} && Told(old(State()), d)
      ensures PWorked(old(World()), World(), id, ptask[id], d,
                      old(pworkingRet), pworkingRet, old(pworkingDataRet), pworkingDataRet)
    {
      assert Open(pnum);
      d := PWorking(id);
      FairTurn(old(clock), old(State()), d, old(pstate)[id] == P_WORKING);
    }

    /** A recovery thread's turn. */
    method HandTurn(id: nat) returns (ghost d: Fate)
      requires Valid() && id < pnum && id in pRtask
      modifies this`clock, this`parts, this`up, this`pstate, this`busy, this`maxTxidTB, this`precoveryRet,
               this`precoveryDataRet
      ensures busy == old(busy) - {id} && Told(old(State()), d)
      ensures PRecovered(old(World()), World(), id, pRtask[id], d,
                         old(precoveryRet), precoveryRet, old(precoveryDataRet), precoveryDataRet)
    {
      assert Open(pnum);
      d := PRecovery(id);
      FairTurn(old(clock), old(State()), d, old(Handing(id)));
    }

    /** Adds the exchange to the run. */
    ghost method RecordTurn(before: Sys, id: nat, d: Fate, after: Sys)
      requires Told(before, d) && Moves(before, Exchange(id, d), after) && Shows(after)
      requires before.ph.Idle? ==> after.ph.Idle?
      modifies this`trace, this`master, this`ph, this`table
      ensures Valid() && State() == after && ph == after.ph && trace == old(trace) + [Exchange(id, d)]
      ensures !before.ph.Idle? && after.ph.Idle? ==> Done(goal, op, after, Agreed(), Fair())
    {
      assert Open(pnum);
      Record(before, Exchange(id, d), after);
    }

    // ---- updates ----

    /** A round of an update is going on, the first `k` tasks given out. */
    ghost predicate InRound(k: nat)
      reads this, lg
    {
      Round(pnum, k, State(), busy, ptask, pworkingRet, pworkingDataRet)
    }

    method RoundWork(k: nat, id: nat)
      requires Valid() && (ph.Vote? || ph.Commit?) && InRound(k) && id in busy
      modifies this`clock, this`parts, this`up, this`pstate, this`busy, this`pworkingRet, this`pworkingDataRet, this`ph,
               this`table,
               this`trace, this`master
      ensures Valid() && InRound(k) && busy == old(busy) - {id} && old(trace) <= trace
      ensures GoesOn(old(ph), ph)
      ensures KeepDone(old(ph.pending), old(pworkingRet), old(pworkingDataRet), pworkingRet, pworkingDataRet)
    {
      ghost var s := State();
      ghost var d, t := RoundTurn(k, id);
      RecordTurn(s, id, d, t);
    }

    /** The worker's turn, and the step `t` it makes. */
    method RoundTurn(k: nat, id: nat) returns (ghost d: Fate, ghost t: Sys)
      requires Valid() && (ph.Vote? || ph.Commit?) && InRound(k) && id in busy
      modifies this`clock, this`parts, this`up, this`pstate, this`busy, this`pworkingRet, this`pworkingDataRet
      ensures Moves(old(State()), Exchange(id, d), t) && Wf(t) && |t.parts| == pnum && t == World().(ph := t.ph)
      ensures Told(old(State()), d)
      ensures busy == old(busy) - {id} && Round(pnum, k, t, busy, ptask, pworkingRet, pworkingDataRet)
      ensures GoesOn(ph, t.ph) && KeepDone(ph.pending, old(pworkingRet), old(pworkingDataRet), pworkingRet,
                                           pworkingDataRet)
    {
      ghost var s := State();
      RoundBusy(pnum, k, s, busy, ptask, pworkingRet, pworkingDataRet, id);
      d := WorkTurn(id);
      t := RoundWorks(pnum, k, s, old(busy), ptask, old(pworkingRet), old(pworkingDataRet),
                      id, d, World(), pworkingRet, pworkingDataRet);
    }

    /** The environment has no hand in a round. */
    method Environment(k: nat)
      requires Valid() && (ph.Vote? || ph.Commit?) && InRound(k)
      modifies this`clock, this`parts, this`up, this`pstate, this`ph, this`table, this`trace, this`master
      ensures Valid() && InRound(k) && ph == old(ph) && old(trace) <= trace
    {
      ghost var s := State();
      Others();
      RoundAnyWorld(pnum, k, s, State(), busy, ptask, pworkingRet, pworkingDataRet);
    }

    /** Some working thread that has a task runs. */
    method SomeWork(k: nat)
      requires Valid() && (ph.Vote? || ph.Commit?) && InRound(k) && busy != {}
      modifies this`clock, this`parts, this`up, this`pstate, this`busy, this`pworkingRet, this`pworkingDataRet, this`ph,
               this`table,
               this`trace, this`master
      ensures Valid() && InRound(k) && busy < old(busy) && old(trace) <= trace && GoesOn(old(ph), ph)
      ensures KeepDone(old(ph.pending), old(pworkingRet), old(pworkingDataRet), pworkingRet, pworkingDataRet)
    {
      Environment(k);
      var j :| j in busy;
      RoundWork(k, j);
    }

    /** Working threads run, in any order; at least that of participant `wait` if it has a task. */
    method RoundWorkers(k: nat, wait: nat)
      requires Valid() && (ph.Vote? || ph.Commit?) && InRound(k)
      modifies this`clock, this`parts, this`up, this`pstate, this`busy, this`pworkingRet, this`pworkingDataRet, this`ph,
               this`table,
               this`trace, this`master
      ensures Valid() && InRound(k) && wait !in busy && busy <= old(busy) && old(trace) <= trace && GoesOn(old(ph), ph)
      ensures KeepDone(old(ph.pending), old(pworkingRet), old(pworkingDataRet), pworkingRet, pworkingDataRet)
    {
      while busy != {}
        invariant Valid() && InRound(k) && busy <= old(busy) && old(trace) <= trace && GoesOn(old(ph), ph)
        invariant KeepDone(old(ph.pending), old(pworkingRet), old(pworkingDataRet), pworkingRet, pworkingDataRet)
        decreases busy
      {
        var more := *;
        if wait !in busy && !more { break; }
        SomeWork(k);
      }
    }

    method Post(task: Log, id: nat)
      requires Valid() && (ph.Vote? || ph.Commit?) && InRound(id) && id < pnum && task == RoundRequest(State())
      modifies this`busy, this`ptask
      ensures Valid() && InRound(id + 1)
    {
      RoundPosts(pnum, id, State(), busy, ptask, pworkingRet, pworkingDataRet, task);
      ptask := ptask[id := task];
      busy := busy + {id};
    }

    /** Working threads run, or not. */
    method AnyWork(k: nat)
      requires Valid() && (ph.Vote? || ph.Commit?) && InRound(k)
      modifies this`clock, this`parts, this`up, this`pstate, this`busy, this`pworkingRet, this`pworkingDataRet, this`ph,
               this`table,
               this`trace, this`master
      ensures Valid() && InRound(k) && old(trace) <= trace && GoesOn(old(ph), ph)
    {
      RoundWorkers(k, pnum);
    }

    method GiveOne(task: Log, id: nat)
      requires Valid() && (ph.Vote? || ph.Commit?) && InRound(id) && id < pnum && task == RoundRequest(State())
      modifies this`clock, this`parts, this`up, this`pstate, this`busy, this`ptask, this`pworkingRet,
               this`pworkingDataRet, this`ph,
               this`table, this`trace, this`master
      ensures Valid() && InRound(id + 1) && old(trace) <= trace && GoesOn(old(ph), ph)
    {
      ghost var before, phase := trace, ph;
      Post(task, id);
      assert trace == before && ph == phase;
      AnyWork(id + 1);
    }

    /** Gives every participant its task of the round. */
    method GiveOut(task: Log)
      requires Valid() && (ph.Vote? || ph.Commit?) && InRound(0) && task == RoundRequest(State())
      modifies this`clock, this`parts, this`up, this`pstate, this`busy, this`ptask, this`pworkingRet,
               this`pworkingDataRet, this`ph,
               this`table, this`trace, this`master
      ensures Valid() && InRound(pnum) && old(trace) <= trace
      ensures GoesOn(old(ph), ph)
    {
      var id := 0;
      while id < pnum
        invariant id <= pnum && Valid() && InRound(id) && old(trace) <= trace
        invariant GoesOn(old(ph), ph)
      {
        GiveOne(task, id);
        id := id + 1;
      }
    }

    /** Waits for the result of participant `id`; the results collected before stay. */
    method Collect(id: nat)
      requires Valid() && (ph.Vote? || ph.Commit?) && InRound(pnum) && id < pnum
      requires forall j {:trigger j in busy} :: 0 <= j < id ==> j !in busy
      modifies this`clock, this`parts, this`up, this`pstate, this`busy, this`pworkingRet, this`pworkingDataRet, this`ph,
               this`table,
               this`trace, this`master
      ensures Valid() && InRound(pnum) && id !in busy && old(trace) <= trace
      ensures GoesOn(old(ph), ph)
      ensures forall j {:trigger j in busy} :: 0 <= j <= id ==> j !in busy
      ensures HasYes(pworkingRet, pworkingDataRet, id) == old(HasYes(pworkingRet, pworkingDataRet, id))
      ensures LastGood(pworkingRet, pworkingDataRet, id) == old(LastGood(pworkingRet, pworkingDataRet, id))
    {
      ghost var pending, ret, data := ph.pending, pworkingRet, pworkingDataRet;
      forall j {:trigger j in pending} | 0 <= j < id ensures j !in pending {
        RoundBusy(pnum, pnum, State(), busy, ptask, pworkingRet, pworkingDataRet, j);
      }
      RoundWorkers(pnum, id);
      HasYesKept(pending, ret, data, pworkingRet, pworkingDataRet, id);
    }

    ghost method EndVote(vote: bool)
      requires Valid() && ph.Vote? && ph.pending == {} && ph.yes == vote
      modifies this`ph, this`table, this`trace, this`master
      ensures Valid() && old(trace) <= trace
      ensures if vote then ph == Commit(old(ph.cmd), Ids(pnum), map[])
              else ph == Idle(ErrorReply) && Done(goal, op, State(), Agreed(), Fair())
    {
      ghost var s := State();
      assert Open(pnum);
      ghost var t := s.(ph := if vote then Commit(s.ph.cmd, Ids(pnum), map[]) else Idle(ErrorReply));
      VoteEnds(s, t);
      Record(s, Advance, t);
    }

    /** The vote round. */
    method VoteRound() returns (vote: bool)
      requires Valid() && ph.Vote? && !ph.yes && ph.pending == Ids(pnum) && busy == {}
      modifies this`clock, this`parts, this`up, this`pstate, this`busy, this`ptask, this`pworkingRet,
               this`pworkingDataRet, this`ph,
               this`table, this`trace, this`master
      ensures Valid() && busy == {} && old(trace) <= trace
      ensures if vote then ph == Commit(old(ph.cmd), Ids(pnum), map[])
              else ph == Idle(ErrorReply) && Done(goal, op, State(), Agreed(), Fair())
    {
      RoundBegins(pnum, State(), ptask, pworkingRet, pworkingDataRet);
      GiveOut(Log(txid, LOG_PRE, NoEvent));
      vote := false;
      var id := 0;
      while id < pnum
        invariant id <= pnum && Valid() && InRound(pnum) && ph.Vote? && ph.cmd == old(ph.cmd) && old(trace) <= trace
        invariant forall j {:trigger j in busy} :: 0 <= j < id ==> j !in busy
        invariant vote == HasYes(pworkingRet, pworkingDataRet, id)
      {
        Collect(id);
        if VotedYes(pworkingRet, pworkingDataRet, id) { vote := true; }
        id := id + 1;
      }
      ghost var s := State();
      RoundNobodyBusy(pnum, s, busy, ptask, pworkingRet, pworkingDataRet);
      RoundOver(pnum, s, ptask, pworkingRet, pworkingDataRet);
      EndVote(vote);
    }

    /** The commit round. */
    method CommitRound(cmd: seq<string>) returns (commit: bool, rc: Reply)
      requires Valid() && ph == Commit(cmd, Ids(pnum), map[]) && busy == {}
      modifies this`clock, this`parts, this`up, this`pstate, this`busy, this`ptask, this`pworkingRet,
               this`pworkingDataRet, this`ph,
               this`table, this`trace, this`master
      ensures Valid() && busy == {} && old(trace) <= trace && ph.Commit? && ph.cmd == cmd && ph.pending == {}
      ensures LastSuccess(ph.rets, pnum) == (if commit then Some(rc) else None)
    {
      RoundBegins(pnum, State(), ptask, pworkingRet, pworkingDataRet);
      GiveOut(Log(txid, LOG_COMMIT, Command(cmd)));
      commit, rc := false, ErrorReply;
      var id := 0;
      while id < pnum
        invariant id <= pnum && Valid() && InRound(pnum) && ph.Commit? && ph.cmd == cmd && old(trace) <= trace
        invariant forall j {:trigger j in busy} :: 0 <= j < id ==> j !in busy
        invariant LastGood(pworkingRet, pworkingDataRet, id) == if commit then Some(rc) else None
      {
        Collect(id);
        if Succeeded(pworkingRet, pworkingDataRet, id) {
          commit, rc := true, pworkingDataRet[id];
        }
        id := id + 1;
      }
      RoundNobodyBusy(pnum, State(), busy, ptask, pworkingRet, pworkingDataRet);
      RoundOver(pnum, State(), ptask, pworkingRet, pworkingDataRet);
    }

    method EndUpdate(commit: bool, answer: Reply) returns (rc: Reply)
      requires Valid() && ph.Commit? && ph.pending == {}
          && LastSuccess(ph.rets, pnum) == (if commit then Some(answer) else None)
      modifies lg`l, this`txid, this`ph, this`table, this`trace, this`master
      ensures Valid() && ph == Idle(rc) && Done(goal, op, State(), Agreed(), Fair()) && old(trace) <= trace
    {
      ghost var s := State();
      assert Open(pnum);
      LawfulCommit(pnum, trace, s, master, goal, op, Fair());
      if commit {
        lg.ChageLogState(txid, LOG_COMMIT);
        txid := txid + 1;
        rc := answer;
      } else {
        rc := ErrorReply;
      }
      ghost var t := s.(log := lg.l, txid := txid, ph := Idle(rc));
      CommitEnds(s, t);
      Record(s, Advance, t);
    }

    method BeginUpdate(cmd: seq<string>)
      requires Valid() && ph.Idle? && working && IsWrite(cmd)
      modifies lg`l, this`ph, this`table, this`trace, this`master, this`goal, this`op, this`since
      ensures Valid() && ph == Vote(cmd, Ids(pnum), false) && trace == old(trace) + [StartUpdate(cmd)]
      ensures goal == UpdateGoal(cmd) && op == old(State()) && since == clock
    {
      ghost var s := State();
      assert Open(pnum);
      lg.WriteLog(Log(txid, LOG_PRE, Command(cmd)));
      ghost var t := s.(log := lg.l, ph := Vote(cmd, Ids(pnum), false));
      UpdateStarts(s, cmd, t);
      Begin(s, StartUpdate(cmd), t, UpdateGoal(cmd));
    }

    method RunUpdate(cmd: seq<string>) returns (rc: Reply)
      requires Valid() && ph == Vote(cmd, Ids(pnum), false) && busy == {}
      modifies this`clock, this`parts, this`up, this`pstate, this`busy, this`ptask, this`pworkingRet,
               this`pworkingDataRet,
               lg`l, this`txid, this`ph, this`table, this`trace, this`master
      ensures Valid() && ph == Idle(rc) && busy == {} && old(trace) <= trace
      ensures Done(goal, op, State(), Agreed(), Fair())
    {
      var vote := VoteRound();
      if vote {
        rc := RunCommit(cmd);
      } else {
        rc := ErrorReply;
      }
    }

    method RunCommit(cmd: seq<string>) returns (rc: Reply)
      requires Valid() && ph == Commit(cmd, Ids(pnum), map[]) && busy == {}
      modifies this`clock, this`parts, this`up, this`pstate, this`busy, this`ptask, this`pworkingRet,
               this`pworkingDataRet,
               lg`l, this`txid, this`ph, this`table, this`trace, this`master
      ensures Valid() && ph == Idle(rc) && busy == {} && old(trace) <= trace
      ensures Done(goal, op, State(), Agreed(), Fair())
    {
      var commit, answer := CommitRound(cmd);
      rc := EndUpdate(commit, answer);
    }

    /** An update: whatever fails on the way, the answer means what it says. */
    method UpdateDB(cmd: seq<string>) returns (rc: Reply)
      requires Valid() && ph.Idle? && working && IsWrite(cmd) && busy == {}
      modifies this, lg
      ensures Valid() && ph == Idle(rc) && busy == {} && old(trace) + [StartUpdate(cmd)] <= trace
      ensures UpdateMeans(old(State()), cmd, State(), Agreed())
      ensures FineFrom(old(clock)) && WellFormed(cmd) && SomebodyLive(old(State())) ==> rc != ErrorReply
    {
      BeginUpdate(cmd);
      rc := RunUpdate(cmd);
      DoneIs(goal, op, State(), Agreed(), Fair());
      if Fair() && WellFormed(cmd) && SomebodyLive(op) { UpdateSucceeds(op, cmd, State(), Agreed()); }
    }

    // ---- reads ----

    method BeginRead(cmd: seq<string>)
      requires Valid() && ph.Idle? && working && IsRead(cmd)
      modifies this`ph, this`table, this`trace, this`master, this`goal, this`op, this`since
      ensures Valid() && ph == Read(cmd, 0) && trace == old(trace) + [StartRead(cmd)]
      ensures goal == ReadGoal(cmd) && op == old(State()) && since == clock
    {
      ghost var s := State();
      assert Open(pnum);
      ghost var t := s.(ph := Read(cmd, 0));
      ReadStarts(s, cmd, t);
      Begin(s, StartRead(cmd), t, ReadGoal(cmd));
    }

    /** One participant is asked. */
    method ReadWork(cmd: seq<string>, id: nat)
      requires Valid() && ph == Read(cmd, id) && id < pnum
      requires id in ptask && ptask[id] == Log(SUPER_TXID, LOG_COMMIT, Command(cmd))
      modifies this`clock, this`parts, this`up, this`pstate, this`busy, this`pworkingRet, this`pworkingDataRet,
               this`ph, this`table, this`trace, this`master
      ensures Valid() && busy == old(busy) - {id} && old(trace) <= trace
      ensures ph == ReadPhase(cmd, id, pworkingRet, pworkingDataRet)
      ensures (ph.Idle? ==> Done(goal, op, State(), Agreed(), Fair()))
    {
      ghost var s := State();
      ghost var d := WorkTurn(id);
      ghost var t := ReadResult(s, d, World(), old(pworkingRet), pworkingRet, old(pworkingDataRet), pworkingDataRet);
      RecordTurn(s, id, d, t);
    }

    method AskOne(cmd: seq<string>, id: nat)
      requires Valid() && ph == Read(cmd, id) && id < pnum && busy == {}
      modifies this`clock, this`parts, this`up, this`pstate, this`busy, this`ptask, this`pworkingRet,
               this`pworkingDataRet,
               this`ph, this`table, this`trace, this`master
      ensures Valid() && busy == {} && old(trace) <= trace
      ensures ph == ReadPhase(cmd, id, pworkingRet, pworkingDataRet)
      ensures (ph.Idle? ==> Done(goal, op, State(), Agreed(), Fair()))
    {
      Others();
      ptask := ptask[id := Log(SUPER_TXID, LOG_COMMIT, Command(cmd))];
      busy := {id};
      ReadWork(cmd, id);
    }

    ghost method EndRead()
      requires Valid() && ph.Read? && ph.next >= pnum
      modifies this`ph, this`table, this`trace, this`master
      ensures Valid() && ph == Idle(ErrorReply) && old(trace) <= trace && Done(goal, op, State(), Agreed(), Fair())
    {
      ghost var s := State();
      assert Open(pnum);
      ghost var t := s.(ph := Idle(ErrorReply));
      ReadEnds(s, t);
      Record(s, Advance, t);
    }

    method RunRead(cmd: seq<string>) returns (rc: Reply)
      requires Valid() && ph == Read(cmd, 0) && busy == {}
      modifies this`clock, this`parts, this`up, this`pstate, this`busy, this`ptask, this`pworkingRet,
               this`pworkingDataRet,
               this`ph, this`table, this`trace, this`master
      ensures Valid() && ph == Idle(rc) && busy == {} && old(trace) <= trace
      ensures Done(goal, op, State(), Agreed(), Fair())
    {
      var id := 0;
      while id < pnum
        invariant id <= pnum && Valid() && ph == Read(cmd, id) && busy == {} && old(trace) <= trace
      {
        AskOne(cmd, id);
        if Answered(pworkingRet, pworkingDataRet, id) {
          return pworkingDataRet[id];
        }
        id := id + 1;
      }
      rc := ErrorReply;
      EndRead();
    }

    /** A read: the first participant that answers answers for all. */
    method Request(cmd: seq<string>) returns (rc: Reply)
      requires Valid() && ph.Idle? && working && IsRead(cmd) && busy == {}
      modifies this, lg
      ensures Valid() && ph == Idle(rc) && busy == {} && old(trace) + [StartRead(cmd)] <= trace
      ensures ReadMeans(old(State()), cmd, State(), Agreed())
      ensures FineFrom(old(clock)) && |cmd| == 2 && SomebodyLive(old(State())) ==> rc.ValueReply?
    {
      BeginRead(cmd);
      rc := RunRead(cmd);
      DoneIs(goal, op, State(), Agreed(), Fair());
      if Fair() && |cmd| == 2 && SomebodyLive(op) { ReadSucceeds(op, cmd, State(), Agreed()); }
    }

    // ---- recovery: the query round ----

    ghost predicate InQuery(k: nat, c: nat)
      reads this, lg
    {
      Querying(pnum, k, c, State(), busy, pRtask, precoveryRet, precoveryDataRet, maxTxidTB)
    }

    method QueryWork(k: nat, c: nat, id: nat)
      requires Valid() && ph.Query? && InQuery(k, c) && id in busy && id >= c
      modifies this`clock, this`parts, this`up, this`pstate, this`busy, this`maxTxidTB, this`precoveryRet,
               this`precoveryDataRet,
               this`ph, this`table, this`trace, this`master
      ensures Valid() && ph.Query? && ph.low == old(ph.low) && InQuery(k, c) && busy == old(busy) - {id}
      ensures old(trace) <= trace
      ensures KeepLow(old(maxTxidTB), maxTxidTB, c)
    {
      ghost var s := State();
      ghost var d, t := QueryTurn(k, c, id);
      RecordTurn(s, id, d, t);
    }

    /** The recovery thread's turn, and the step `t` it makes. */
    method QueryTurn(k: nat, c: nat, id: nat) returns (ghost d: Fate, ghost t: Sys)
      requires Valid() && ph.Query? && InQuery(k, c) && id in busy && id >= c
      modifies this`clock, this`parts, this`up, this`pstate, this`busy, this`maxTxidTB, this`precoveryRet,
               this`precoveryDataRet
      ensures Moves(old(State()), Exchange(id, d), t) && Wf(t) && |t.parts| == pnum
      ensures Told(old(State()), d)
      ensures t == World().(ph := t.ph, tb := t.tb) && t.ph.Query? && t.ph.low == ph.low
      ensures busy == old(busy) - {id} && KeepLow(old(maxTxidTB), maxTxidTB, c)
      ensures Querying(pnum, k, c, t, busy, pRtask, precoveryRet, precoveryDataRet, maxTxidTB)
    {
      ghost var s, tb := State(), maxTxidTB;
      QueryingBusy(pnum, k, c, s, busy, pRtask, precoveryRet, precoveryDataRet, tb, id);
      d := HandTurn(id);
      t := QueryWorks(pnum, k, c, s, old(busy), pRtask, old(precoveryRet), old(precoveryDataRet), tb,
                      id, d, World(), precoveryRet, precoveryDataRet);
    }

    method SomeQueryWork(k: nat, c: nat)
      requires Valid() && ph.Query? && InQuery(k, c) && busy != {}
      requires forall j {:trigger j in busy} :: j in busy ==> j >= c
      modifies this`clock, this`parts, this`up, this`pstate, this`busy, this`maxTxidTB, this`precoveryRet,
               this`precoveryDataRet,
               this`ph, this`table, this`trace, this`master
      ensures Valid() && ph.Query? && ph.low == old(ph.low) && InQuery(k, c) && busy < old(busy) && old(trace) <= trace
      ensures KeepLow(old(maxTxidTB), maxTxidTB, c)
    {
      ghost var s := State();
      Others();
      QueryingAnyWorld(pnum, k, c, s, State(), busy, pRtask, precoveryRet, precoveryDataRet, maxTxidTB);
      var j :| j in busy;
      QueryWork(k, c, j);
    }

    /** Recovery threads run, in any order; at least that of participant `wait` if it has a task. */
    method QueryWorkers(k: nat, c: nat, wait: nat)
      requires Valid() && ph.Query? && InQuery(k, c) && forall j {:trigger j in busy} :: j in busy ==> j >= c
      modifies this`clock, this`parts, this`up, this`pstate, this`busy, this`maxTxidTB, this`precoveryRet,
               this`precoveryDataRet,
               this`ph, this`table, this`trace, this`master
      ensures Valid() && ph.Query? && ph.low == old(ph.low) && InQuery(k, c) && wait !in busy && busy <= old(busy)
      ensures old(trace) <= trace
      ensures KeepLow(old(maxTxidTB), maxTxidTB, c)
    {
      while busy != {}
        invariant Valid() && ph.Query? && ph.low == old(ph.low) && InQuery(k, c) && busy <= old(busy)
        invariant old(trace) <= trace
        invariant KeepLow(old(maxTxidTB), maxTxidTB, c)
        decreases busy
      {
        var more := *;
        if wait !in busy && !more { break; }
        SomeQueryWork(k, c);
      }
    }

    method PostQuery(id: nat)
      requires Valid() && ph.Query? && InQuery(id, 0) && id < pnum
      modifies this`busy, this`pRtask
      ensures Valid() && InQuery(id + 1, 0)
    {
      QueryingPosts(pnum, id, State(), busy, pRtask, precoveryRet, precoveryDataRet, maxTxidTB);
      pRtask := pRtask[id := Log(RECOVERY_TXID, LOG_PRE, NoEvent)];
      busy := busy + {id};
    }

    method GiveOutQueries()
      requires Valid() && ph.Query? && InQuery(0, 0)
      modifies this`clock, this`parts, this`up, this`pstate, this`busy, this`maxTxidTB, this`pRtask, this`precoveryRet,
               this`precoveryDataRet,
               this`ph, this`table, this`trace, this`master
      ensures Valid() && ph.Query? && ph.low == old(ph.low) && InQuery(pnum, 0) && old(trace) <= trace
    {
      var id := 0;
      while id < pnum
        invariant id <= pnum && Valid() && ph.Query? && ph.low == old(ph.low) && InQuery(id, 0) && old(trace) <= trace
      {
        PostQuery(id);
        id := id + 1;
        QueryWorkers(id, 0, pnum);
      }
    }

    /** Waits for the answer of participant `id` and puts it into the table. */
    method CollectQuery(id: nat, consistance: bool) returns (agrees: bool)
      requires Valid() && ph.Query? && InQuery(pnum, id) && id < pnum
      requires forall j {:trigger j in busy} :: j in busy ==> j >= id
      requires txid >= TXID_START && (consistance == Agree(maxTxidTB, txid - 1, id))
      modifies this`clock, this`parts, this`up, this`pstate, this`busy, this`maxTxidTB, this`precoveryRet,
               this`precoveryDataRet,
               this`ph, this`table, this`trace, this`master
      ensures Valid() && ph.Query? && ph.low == old(ph.low) && InQuery(pnum, id + 1) && old(trace) <= trace
      ensures forall j {:trigger j in busy} :: j in busy ==> j >= id + 1
      ensures agrees == Agree(maxTxidTB, txid - 1, id + 1)
    {
      QueryWorkers(pnum, id, id);
      AgreeKept(old(maxTxidTB), maxTxidTB, txid - 1, id);
      agrees := TakeAnswer(id, consistance);
    }

    /** The answer of participant `id` is put into the table. */
    method TakeAnswer(id: nat, consistance: bool) returns (agrees: bool)
      requires Valid() && ph.Query? && InQuery(pnum, id) && id < pnum && id !in busy
      requires txid >= TXID_START && (consistance == Agree(maxTxidTB, txid - 1, id))
      modifies this`maxTxidTB
      ensures Valid() && InQuery(pnum, id + 1) && agrees == Agree(maxTxidTB, txid - 1, id + 1)
    {
      ghost var s := State();
      assert Open(pnum);
      QueryCollects(pnum, id, State(), busy, pRtask, precoveryRet, precoveryDataRet, maxTxidTB);
      agrees := consistance;
      ghost var tb := maxTxidTB;
      if precoveryRet[id] == KV_OK && precoveryDataRet[id] != NoReply {
        maxTxidTB := maxTxidTB[id := precoveryDataRet[id].t];
        if maxTxidTB[id] != txid - 1 { agrees := false; }
      }
      AgreeKept(tb, maxTxidTB, txid - 1, id);
      assert State() == s;
    }

    method CollectQueries() returns (consistance: bool)
      requires Valid() && ph.Query? && InQuery(pnum, 0) && txid >= TXID_START
      modifies this`clock, this`parts, this`up, this`pstate, this`busy, this`maxTxidTB, this`precoveryRet,
               this`precoveryDataRet,
               this`ph, this`table, this`trace, this`master
      ensures Valid() && ph.Query? && ph.low == old(ph.low) && InQuery(pnum, pnum) && old(trace) <= trace
      ensures forall j {:trigger j in busy} :: j in busy ==> j >= pnum
      ensures consistance == Agree(maxTxidTB, txid - 1, pnum)
    {
      consistance := true;
      var id := 0;
      while id < pnum
        invariant id <= pnum && Valid() && ph.Query? && ph.low == old(ph.low) && InQuery(pnum, id)
        invariant old(trace) <= trace
        invariant forall j {:trigger j in busy} :: j in busy ==> j >= id
        invariant consistance == Agree(maxTxidTB, txid - 1, id)
      {
        consistance := CollectQuery(id, consistance);
        id := id + 1;
      }
    }

    method QueryRound() returns (consistance: bool)
      requires Valid() && ph.Query? && ph.pending == Ids(pnum) && ph.same && table == map[] && maxTxidTB == map[]
      requires busy == {}
      requires txid >= TXID_START
      modifies this`clock, this`parts, this`up, this`pstate, this`busy, this`maxTxidTB, this`pRtask, this`precoveryRet,
               this`precoveryDataRet,
               this`ph, this`table, this`trace, this`master
      ensures Valid() && ph == Query(old(ph.low), {}, consistance) && table == maxTxidTB && busy == {}
      ensures old(trace) <= trace
    {
      QueryingBegins(pnum, State(), pRtask, precoveryRet, precoveryDataRet);
      GiveOutQueries();
      consistance := CollectQueries();
      QueryNobodyBusy(pnum, pnum, State(), busy, pRtask, precoveryRet, precoveryDataRet, maxTxidTB);
      QueryOver(pnum, State(), busy, pRtask, precoveryRet, precoveryDataRet, maxTxidTB);
    }

    // ---- recovery ----

    /** Everybody connected is put into recovery. */
    method Recall()
      requires |pstate| == pnum
      modifies this`pstate
      ensures |pstate| == pnum
      ensures forall i {:trigger pstate[i]} :: 0 <= i < pnum ==> pstate[i] == Recalled(old(pstate)[i])
    {
      var id := 0;
      while id < pnum
        invariant id <= pnum && |pstate| == pnum
        invariant forall i {:trigger pstate[i]} :: 0 <= i < pnum ==>
            pstate[i] == if i < id then Recalled(old(pstate)[i]) else old(pstate)[i]
      {
        if pstate[id] == P_TEMP || pstate[id] == P_WORKING {
          pstate := pstate[id := P_RECOVERY];
        }
        id := id + 1;
      }
    }

    method BeginRecovery(minID: nat)
      requires Valid() && Enabled(State(), StartRecovery(minID))
      modifies this`pstate, this`maxTxidTB, this`working, this`recoveryMutex, this`restarted,
               this`ph, this`table, this`trace, this`master, this`goal, this`op, this`since
      ensures Valid() && ph == Query(minID, Ids(pnum), true) && table == map[] && maxTxidTB == map[]
      ensures trace == old(trace) + [StartRecovery(minID)] && goal == RecoveryGoal && op == old(State())
      ensures since == clock
    {
      ghost var s := State();
      assert Open(pnum);
      ghost var t := StopServing(minID);
      Begin(s, StartRecovery(minID), t, RecoveryGoal);
    }

    /** The coordinator serves nobody from here on; `t` is the step that this makes. */
    method StopServing(minID: nat) returns (ghost t: Sys)
      requires Valid() && Enabled(State(), StartRecovery(minID))
      modifies this`pstate, this`maxTxidTB, this`working, this`recoveryMutex, this`restarted
      ensures Begins(RecoveryGoal, old(State()), StartRecovery(minID), t) && Shows(t)
      ensures t.ph == Query(minID, Ids(pnum), true) && t.tb == map[] && maxTxidTB == map[]
    {
      ghost var s := State();
      maxTxidTB := map[];
      working := false;
      recoveryMutex, restarted := true, false;
      Recall();
      t := s.(pst := pstate, tb := map[], serving := false, restarted := false, ph := Query(minID, Ids(pnum), true));
      RecoveryStarts(s, minID, t);
    }

    /** The least transaction id of the table and `min`. */
    method LeastEntry(min: nat) returns (minID: nat)
      ensures minID == Least(maxTxidTB, min, pnum)
    {
      minID := min;
      var id := 0;
      while id < pnum
        invariant id <= pnum && minID == Least(maxTxidTB, min, id)
      {
        if id in maxTxidTB && maxTxidTB[id] < minID { minID := maxTxidTB[id]; }
        id := id + 1;
      }
    }

    /** The participant with the longest log, if it is longer than the coordinator's. */
    method GetRecoveryLeader() returns (leader: Option<nat>, maxID: nat)
      requires txid > 0
      ensures (leader, maxID) == Leader(maxTxidTB, txid - 1, pnum)
    {
      maxID := txid - 1;
      leader := None;
      var id := 0;
      while id < pnum
        invariant id <= pnum && (leader, maxID) == Leader(maxTxidTB, txid - 1, id)
      {
        if id in maxTxidTB && maxTxidTB[id] > maxID {
          maxID := maxTxidTB[id];
          leader := Some(id);
        }
        id := id + 1;
      }
    }

    /** The leader is put into the working state. */
    method Follow(leader: nat, high: nat)
      requires Valid() && ph.Pick? && txid > 0 && (Some(leader), high) == Leader(maxTxidTB, txid - 1, pnum)
      modifies this`pstate, this`maxTxidTB, this`ph, this`table, this`trace, this`master
      ensures Valid() && old(trace) <= trace
      ensures leader < pnum && ph == Ask(leader, old(ph.low), high) && |maxTxidTB| < |old(maxTxidTB)|
    {
      ghost var s := State();
      assert Open(pnum);
      ghost var t := TakeLeader(leader, high);
      Record(s, Advance, t);
    }

    /** The leader leaves the table; `t` is the step that this makes. */
    method TakeLeader(leader: nat, high: nat) returns (ghost t: Sys)
      requires Valid() && ph.Pick? && txid > 0 && (Some(leader), high) == Leader(maxTxidTB, txid - 1, pnum)
      modifies this`pstate, this`maxTxidTB
      ensures Moves(old(State()), Advance, t) && Shows(t)
      ensures leader < pnum && t.ph == Ask(leader, ph.low, high) && |maxTxidTB| < |old(maxTxidTB)|
    {
      ghost var s := State();
      LeaderFacts(maxTxidTB, txid - 1, pnum);
      FewerLeft(maxTxidTB, leader);
      pstate := pstate[leader := P_WORKING];
      maxTxidTB := maxTxidTB - {leader};
      t := s.(pst := pstate, tb := maxTxidTB, ph := Ask(leader, s.ph.low, high));
      PickMoves(s, Some(leader), high, t);
    }

    /** Nobody is ahead of the coordinator any more. */
    ghost method StopFollowing()
      requires Valid() && ph.Pick? && txid > 0 && Leader(maxTxidTB, txid - 1, pnum).0 == None
      modifies this`ph, this`table, this`trace, this`master
      ensures Valid() && old(trace) <= trace && ph == Refill(TXID_START, 0)
    {
      ghost var s := State();
      assert Open(pnum);
      ghost var t := s.(ph := Refill(TXID_START, 0));
      PickMoves(s, None, Leader(maxTxidTB, txid - 1, pnum).1, t);
      Record(s, Advance, t);
    }

    lemma LeaderThere()
      requires Valid() && ph.Ask? && ph.low <= ph.high
      ensures LeaderReady(State())
    {
      assert Open(pnum);
      LawfulReady(pnum, trace, State(), master, goal, op, Fair());
    }

    /** The leader's worker asks for entry `minID`. */
    method AskOnly(leader: nat, minID: nat, maxID: nat) returns (rc: Reply, ghost d: Fate, ghost t: Sys)
      requires Valid() && ph == Ask(leader, minID, maxID) && leader < pnum && minID <= maxID
      requires leader in ptask && ptask[leader] == Log(ASK_DATA_TXID, LOG_COMMIT, Number(minID))
      modifies this`clock, this`parts, this`up, this`pstate, this`busy, this`pworkingRet, this`pworkingDataRet
      ensures busy == old(busy) - {leader} && (rc == NoReply || rc.LogReply?)
      ensures Moves(old(State()), Exchange(leader, d), t) && Wf(t) && |t.parts| == pnum
      ensures Told(old(State()), d)
      ensures t == World().(log := if rc.LogReply? && rc.l.id == txid then lg.l[txid := rc.l] else lg.l,
                            txid := if rc.LogReply? && rc.l.id == txid then txid + 1 else txid,
                            ph := AskPhase(leader, minID, maxID, rc))
    {
      ghost var s := State();
      LeaderThere();
      d := WorkTurn(leader);
      ghost var reply;
      reply, t := AskMade(s, d, World(), old(pworkingRet), pworkingRet, old(pworkingDataRet), pworkingDataRet);
      rc := if Answered(pworkingRet, pworkingDataRet, leader) then pworkingDataRet[leader] else NoReply;
    }

    /** The leader is asked for entry `minID`, and the coordinator takes the answer into its log. */
    method AskWork(leader: nat, minID: nat, maxID: nat) returns (rc: Reply)
      requires Valid() && ph == Ask(leader, minID, maxID) && leader < pnum && minID <= maxID
      requires leader in ptask && ptask[leader] == Log(ASK_DATA_TXID, LOG_COMMIT, Number(minID))
      modifies this`clock, this`parts, this`up, this`pstate, this`busy, this`pworkingRet, this`pworkingDataRet,
               this`txid, lg`l, this`ph, this`table, this`trace, this`master
      ensures Valid() && busy == old(busy) - {leader} && old(trace) <= trace
      ensures ph == AskPhase(leader, minID, maxID, rc)
    {
      ghost var s := State();
      ghost var d, t;
      rc, d, t := AskAndHear(leader, minID, maxID);
      RecordTurn(s, leader, d, t);
    }

    /** The leader's answer goes into the coordinator's log; `t` is the step that this makes. */
    method AskAndHear(leader: nat, minID: nat, maxID: nat) returns (rc: Reply, ghost d: Fate, ghost t: Sys)
      requires Valid() && ph == Ask(leader, minID, maxID) && leader < pnum && minID <= maxID
      requires leader in ptask && ptask[leader] == Log(ASK_DATA_TXID, LOG_COMMIT, Number(minID))
      modifies this`clock, this`parts, this`up, this`pstate, this`busy, this`pworkingRet, this`pworkingDataRet,
               this`txid, lg`l
      ensures busy == old(busy) - {leader}
      ensures Told(old(State()), d)
      ensures Moves(old(State()), Exchange(leader, d), t) && Shows(t) && t.ph == AskPhase(leader, minID, maxID, rc)
    {
      rc, d, t := AskOnly(leader, minID, maxID);
      Hear(rc);
    }

    /** The coordinator takes over the entry it lacks. */
    method Hear(rc: Reply)
      requires rc == NoReply || rc.LogReply?
      modifies this`txid, lg`l
      ensures if rc.LogReply? && rc.l.id == old(txid) then txid == old(txid) + 1 && lg.l == old(lg.l)[rc.l.id := rc.l]
              else txid == old(txid) && lg.l == old(lg.l)
    {
      if rc.LogReply? {
        var tempLog := rc.l;
        if tempLog.id == txid {
          lg.WriteLog(tempLog);
          txid := txid + 1;
        }
      }
    }

    /** Asks the leader for entry `minID`. */
    method AskLeader(leader: nat, minID: nat, maxID: nat) returns (rc: Reply)
      requires Valid() && ph == Ask(leader, minID, maxID) && leader < pnum && minID <= maxID && busy == {}
      modifies this`clock, this`parts, this`up, this`pstate, this`busy, this`ptask, this`pworkingRet,
               this`pworkingDataRet,
               this`txid, lg`l, this`ph, this`table, this`trace, this`master
      ensures Valid() && busy == {} && old(trace) <= trace
      ensures ph == AskPhase(leader, minID, maxID, rc)
    {
      Others();
      ptask := ptask[leader := Log(ASK_DATA_TXID, LOG_COMMIT, Number(minID))];
      rc := AskWork(leader, minID, maxID);
    }

    lemma NextTabled()
      requires Valid() && ph.Push? && ph.next < pnum
      ensures Tabled(State(), ph.next)
    {
      assert Open(pnum);
      LawfulTabled(pnum, trace, State(), master, goal, op, Fair());
    }

    /** Hands entry `e` to participant `id`; `t` is the step that this makes. */
    method PushTurn(e: Log, id: nat) returns (ghost d: Fate, ghost t: Sys)
      requires Valid() && ph.Push? && ph.entry == e && ph.next == id && id < pnum && id in pRtask && pRtask[id] == e
      modifies this`clock, this`parts, this`up, this`pstate, this`busy, this`maxTxidTB, this`precoveryRet,
               this`precoveryDataRet
      ensures busy == old(busy) - {id} && Told(old(State()), d) && Moves(old(State()), Exchange(id, d), t) && Shows(t)
      ensures t.ph == Push(ph.leader, ph.low, ph.high, e, id + 1) && |t.tb| <= |old(maxTxidTB)|
    {
      ghost var s := State();
      NextTabled();
      d := HandTurn(id);
      t := PushMoves(s, d, World(), old(precoveryRet), precoveryRet, old(precoveryDataRet), precoveryDataRet);
    }

    method PushWork(e: Log, id: nat)
      requires Valid() && ph.Push? && ph.entry == e && ph.next == id && id < pnum && id in pRtask && pRtask[id] == e
      modifies this`clock, this`parts, this`up, this`pstate, this`busy, this`maxTxidTB, this`precoveryRet,
               this`precoveryDataRet,
               this`ph, this`table, this`trace, this`master
      ensures Valid() && ph == Push(old(ph.leader), old(ph.low), old(ph.high), e, id + 1) && busy == old(busy) - {id}
      ensures old(trace) <= trace
      ensures |maxTxidTB| <= |old(maxTxidTB)|
    {
      ghost var s := State();
      ghost var d, t := PushTurn(e, id);
      RecordTurn(s, id, d, t);
    }

    method PushOne(leader: nat, minID: nat, maxID: nat, e: Log, id: nat)
      requires Valid() && ph == Push(leader, minID, maxID, e, id) && id < pnum && busy == {}
      modifies this`clock, this`parts, this`up, this`pstate, this`busy, this`maxTxidTB, this`pRtask, this`precoveryRet,
               this`precoveryDataRet,
               this`ph, this`table, this`trace, this`master
      ensures Valid() && ph == Push(leader, minID, maxID, e, id + 1) && busy == {} && |maxTxidTB| <= |old(maxTxidTB)|
      ensures old(trace) <= trace
    {
      Others();
      pRtask := pRtask[id := e];
      PushWork(e, id);
    }

    method PushAll(leader: nat, minID: nat, maxID: nat, e: Log)
      requires Valid() && ph == Push(leader, minID, maxID, e, 0) && busy == {}
      modifies this`clock, this`parts, this`up, this`pstate, this`busy, this`maxTxidTB, this`pRtask, this`precoveryRet,
               this`precoveryDataRet,
               this`ph, this`table, this`trace, this`master
      ensures Valid() && ph == Ask(leader, minID + 1, maxID) && busy == {} && |maxTxidTB| <= |old(maxTxidTB)|
      ensures old(trace) <= trace
    {
      var id := 0;
      while id < pnum
        invariant id <= pnum && Valid() && ph == Push(leader, minID, maxID, e, id) && busy == {}
        invariant |maxTxidTB| <= |old(maxTxidTB)| && old(trace) <= trace
      {
        PushOne(leader, minID, maxID, e, id);
        id := id + 1;
      }
      EndPush();
    }

    /** Everybody has been handed the entry. */
    ghost method EndPush()
      requires Valid() && ph.Push? && ph.next >= pnum
      modifies this`ph, this`table, this`trace, this`master
      ensures Valid() && ph == old(Ask(ph.leader, ph.low + 1, ph.high)) && old(trace) <= trace
    {
      ghost var s := State();
      assert Open(pnum);
      ghost var t := s.(ph := Ask(s.ph.leader, s.ph.low + 1, s.ph.high));
      PushEnds(s, t);
      Record(s, Advance, t);
    }

    /** Takes over entries `min` to `maxID` from the leader, and hands each to everybody who lacks it; stops
        where the leader is lost. */
    method FollowLeader(leader: nat, min: nat, maxID: nat) returns (minID: nat)
      requires Valid() && ph == Ask(leader, min, maxID) && leader < pnum && busy == {}
      modifies this`clock, this`parts, this`up, this`pstate, this`busy, this`ptask, this`pworkingRet,
               this`pworkingDataRet,
               this`maxTxidTB, this`pRtask, this`precoveryRet, this`precoveryDataRet,
               this`txid, lg`l, this`ph, this`table, this`trace, this`master
      ensures Valid() && ph == Pick(minID) && busy == {} && |maxTxidTB| <= |old(maxTxidTB)| && old(trace) <= trace
    {
      minID := min;
      while minID <= maxID
        invariant Valid() && ph == Ask(leader, minID, maxID) && busy == {}
        invariant |maxTxidTB| <= |old(maxTxidTB)| && old(trace) <= trace
        decreases maxID + 1 - minID
      {
        var rc := AskLeader(leader, minID, maxID);
        if !rc.LogReply? { return; }
        PushAll(leader, minID, maxID, rc.l);
        minID := minID + 1;
      }
      StopAsking();
    }

    /** The leader has handed over all it has. */
    ghost method StopAsking()
      requires Valid() && ph.Ask? && ph.low > ph.high
      modifies this`ph, this`table, this`trace, this`master
      ensures Valid() && ph == Pick(old(ph.low)) && old(trace) <= trace
    {
      ghost var s := State();
      assert Open(pnum);
      ghost var t := s.(ph := Pick(s.ph.low));
      AskEnds(s, t);
      Record(s, Advance, t);
    }

    /** Recovery from the participants: leader after leader, until nobody is ahead.  The table never grows
        and every leader leaves it, so this ends however often a leader is lost. */
    method RecoveryFromP(min: nat)
      requires Valid() && ph == Pick(min) && busy == {}
      modifies this`clock, this`parts, this`up, this`pstate, this`busy, this`ptask, this`pworkingRet,
               this`pworkingDataRet,
               this`maxTxidTB, this`pRtask, this`precoveryRet, this`precoveryDataRet,
               this`txid, lg`l, this`ph, this`table, this`trace, this`master
      ensures Valid() && ph.Refill? && ph.tid >= txid && busy == {} && old(trace) <= trace
    {
      var minID := min;
      while true
        invariant Valid() && ph == Pick(minID) && busy == {} && old(trace) <= trace
        decreases |maxTxidTB|
      {
        TxidsStartAbove();
        var leader, maxID := GetRecoveryLeader();
        if leader.None? {
          break;
        }
        minID := FollowNext(leader.value, minID, maxID);
      }
      StopFollowing();
      RecoveryFromC();
    }

    method FollowNext(leader: nat, min: nat, maxID: nat) returns (minID: nat)
      requires Valid() && ph == Pick(min) && busy == {} && txid > 0
      requires (Some(leader), maxID) == Leader(maxTxidTB, txid - 1, pnum)
      modifies this`clock, this`parts, this`up, this`pstate, this`busy, this`ptask, this`pworkingRet,
               this`pworkingDataRet,
               this`maxTxidTB, this`pRtask, this`precoveryRet, this`precoveryDataRet,
               this`txid, lg`l, this`ph, this`table, this`trace, this`master
      ensures Valid() && ph == Pick(minID) && busy == {} && |maxTxidTB| < |old(maxTxidTB)| && old(trace) <= trace
    {
      Follow(leader, maxID);
      minID := FollowLeader(leader, min, maxID);
    }

    method RefillWork(tid: nat, id: nat)
      requires Valid() && ph == Refill(tid, id) && tid < txid && id < pnum && tid in lg.l && id in pRtask
      requires pRtask[id] == lg.l[tid]
      modifies this`clock, this`parts, this`up, this`pstate, this`busy, this`maxTxidTB, this`precoveryRet,
               this`precoveryDataRet,
               this`ph, this`table, this`trace, this`master
      ensures Valid() && ph == Refill(tid, id + 1) && busy == old(busy) - {id} && old(trace) <= trace
    {
      ghost var s := State();
      ghost var d := HandTurn(id);
      ghost var t := RefillMoves(s, d, World(), old(precoveryRet), precoveryRet, old(precoveryDataRet),
                                 precoveryDataRet);
      RecordTurn(s, id, d, t);
    }

    /** The entry to be handed out next is in the coordinator's log. */
    lemma EntryThere()
      requires Valid() && ph.Refill? && ph.tid < txid
      ensures ph.tid in lg.l
    {
      assert Open(pnum);
      LawfulLeader(pnum, trace, State(), master, goal, op, Fair());
    }

    method RefillOne(tid: nat, id: nat)
      requires Valid() && ph == Refill(tid, id) && tid < txid && id < pnum && busy == {}
      modifies this`clock, this`parts, this`up, this`pstate, this`busy, this`maxTxidTB, this`pRtask, this`precoveryRet,
               this`precoveryDataRet,
               this`ph, this`table, this`trace, this`master
      ensures Valid() && ph == Refill(tid, id + 1) && busy == {} && old(trace) <= trace
    {
      Others();
      EntryThere();
      var e := lg.GetLogByTXID(tid);
      pRtask := pRtask[id := e];
      RefillWork(tid, id);
    }

    method RefillAll(tid: nat)
      requires Valid() && ph == Refill(tid, 0) && tid < txid && busy == {}
      modifies this`clock, this`parts, this`up, this`pstate, this`busy, this`maxTxidTB, this`pRtask, this`precoveryRet,
               this`precoveryDataRet,
               this`ph, this`table, this`trace, this`master
      ensures Valid() && ph == Refill(tid + 1, 0) && busy == {} && old(trace) <= trace
    {
      var id := 0;
      while id < pnum
        invariant id <= pnum && Valid() && ph == Refill(tid, id) && busy == {} && old(trace) <= trace
      {
        RefillOne(tid, id);
        id := id + 1;
      }
      EndRefill();
    }

    /** Everybody has been handed the entry. */
    ghost method EndRefill()
      requires Valid() && ph.Refill? && ph.next >= pnum && ph.tid < txid
      modifies this`ph, this`table, this`trace, this`master
      ensures Valid() && ph == Refill(old(ph.tid) + 1, 0) && old(trace) <= trace
    {
      ghost var s := State();
      assert Open(pnum);
      ghost var t := s.(ph := Refill(s.ph.tid + 1, 0));
      RefillGoesOn(s, t);
      Record(s, Advance, t);
    }

    /** Recovery from the coordinator's own log. */
    method RecoveryFromC()
      requires Valid() && ph == Refill(TXID_START, 0) && busy == {}
      modifies this`clock, this`parts, this`up, this`pstate, this`busy, this`maxTxidTB, this`pRtask, this`precoveryRet,
               this`precoveryDataRet,
               this`ph, this`table, this`trace, this`master
      ensures Valid() && ph.Refill? && ph.tid >= txid && busy == {} && old(trace) <= trace
    {
      var tid := TXID_START;
      while tid < txid
        invariant Valid() && ph == Refill(tid, 0) && busy == {} && old(trace) <= trace
        decreases txid - tid
      {
        RefillAll(tid);
        tid := tid + 1;
      }
    }

    /** Everybody the table shows up to date works again. */
    method Release()
      requires |pstate| == pnum && txid > 0
      modifies this`pstate
      ensures |pstate| == pnum
      ensures forall i {:trigger pstate[i]} :: 0 <= i < pnum ==>
                pstate[i] == if i in maxTxidTB && maxTxidTB[i] + 1 == txid then P_WORKING else old(pstate)[i]
    {
      var id := 0;
      while id < pnum
        invariant id <= pnum && |pstate| == pnum
        invariant forall i {:trigger pstate[i]} :: 0 <= i < pnum ==>
                    pstate[i] == if i < id && i in maxTxidTB && maxTxidTB[i] + 1 == txid then P_WORKING
                                 else old(pstate)[i]
      {
        if id in maxTxidTB && maxTxidTB[id] == txid - 1 { pstate := pstate[id := P_WORKING]; }
        id := id + 1;
      }
    }

    lemma TxidsStartAbove()
      requires Valid()
      ensures txid >= TXID_START
    {
      assert Open(pnum);
      LawfulLeader(pnum, trace, State(), master, goal, op, Fair());
    }

    /** Nothing is left to be done in the recovery. */
    ghost predicate Finishing()
      reads this
    {
      (ph.Query? && ph.pending == {} && ph.same && table == maxTxidTB) || (ph.Refill? && ph.tid >= txid)
    }

    method EndRecovery()
      requires Valid() && busy == {} && Finishing()
      modifies this`pstate, this`working, this`recoveryMutex, this`ph, this`table, this`trace, this`master
      ensures Valid() && ph == Idle(NoReply) && working && Done(goal, op, State(), Agreed(), Fair())
      ensures old(trace) <= trace
    {
      ghost var s := State();
      assert Open(pnum);
      ghost var t := ServeAgain();
      Record(s, Advance, t);
    }

    /** The coordinator serves again; `t` is the step that this makes. */
    method ServeAgain() returns (ghost t: Sys)
      requires Valid() && Finishing()
      modifies this`pstate, this`working, this`recoveryMutex
      ensures Moves(old(State()), Advance, t) && Shows(t) && t.ph == Idle(NoReply) && working
    {
      ghost var s := State();
      TxidsStartAbove();
      Release();
      working, recoveryMutex := true, false;
      t := s.(pst := pstate, serving := true, ph := Idle(NoReply));
      FinishMoves(s, t);
    }

    /** A recovery.  `minID` is the transaction id before the coordinator's own, as it was when the wait for
        participants began. */
    method Recovery(minID: nat)
      requires Valid() && Enabled(State(), StartRecovery(minID)) && busy == {}
      modifies this, lg
      ensures Valid() && ph == Idle(NoReply) && working && busy == {} && old(trace) + [StartRecovery(minID)] <= trace
      ensures RecoveryMeans(old(State()), State(), Agreed())
      ensures FineFrom(old(clock)) && AllLinked(old(State())) ==>
                AllAt(old(State()), Longest(old(State()), pnum), State())
    {
      BeginRecovery(minID);
      RunRecovery(minID);
      DoneIs(goal, op, State(), Agreed(), Fair());
    }

    method RunRecovery(minID: nat)
      requires Valid() && ph == Query(minID, Ids(pnum), true) && table == map[] && maxTxidTB == map[] && busy == {}
      modifies this`clock, this`parts, this`up, this`pstate, this`busy, this`ptask, this`pworkingRet,
               this`pworkingDataRet,
               this`maxTxidTB, this`pRtask, this`precoveryRet, this`precoveryDataRet,
               this`txid, lg`l, this`working, this`recoveryMutex, this`ph, this`table, this`trace, this`master
      ensures Valid() && ph == Idle(NoReply) && working && busy == {} && old(trace) <= trace
      ensures Done(goal, op, State(), Agreed(), Fair())
    {
      TxidsStartAbove();
      var consistance := QueryRound();
      Complete(minID, consistance);
    }

    method Complete(minID: nat, consistance: bool)
      requires Valid() && ph == Query(minID, {}, consistance) && table == maxTxidTB && busy == {}
      modifies this`clock, this`parts, this`up, this`pstate, this`busy, this`ptask, this`pworkingRet,
               this`pworkingDataRet,
               this`maxTxidTB, this`pRtask, this`precoveryRet, this`precoveryDataRet,
               this`txid, lg`l, this`working, this`recoveryMutex, this`ph, this`table, this`trace, this`master
      ensures Valid() && ph == Idle(NoReply) && working && busy == {} && old(trace) <= trace
      ensures Done(goal, op, State(), Agreed(), Fair())
    {
      BringUp(minID, consistance);
      EndRecovery();
    }

    /** Everybody who answered is at the same log, or is brought to it. */
    method BringUp(minID: nat, consistance: bool)
      requires Valid() && ph == Query(minID, {}, consistance) && table == maxTxidTB && busy == {}
      modifies this`clock, this`parts, this`up, this`pstate, this`busy, this`ptask, this`pworkingRet,
               this`pworkingDataRet,
               this`maxTxidTB, this`pRtask, this`precoveryRet, this`precoveryDataRet,
               this`txid, lg`l, this`ph, this`table, this`trace, this`master
      ensures Valid() && Finishing() && busy == {} && old(trace) <= trace
    {
      if !consistance {
        var min := LeastEntry(minID);
        StartPicking(min + 1);
        RecoveryFromP(min + 1);
      }
    }

    ghost method StartPicking(low: nat)
      requires Valid() && ph.Query? && ph.pending == {} && !ph.same && table == maxTxidTB
      requires low == Least(maxTxidTB, ph.low, pnum) + 1
      modifies this`ph, this`table, this`trace, this`master
      ensures Valid() && ph == Pick(low) && old(trace) <= trace
    {
      ghost var s := State();
      assert Open(pnum);
      ghost var t := s.(ph := Pick(low));
      QueryEnds(s, t);
      Record(s, Advance, t);
    }
  }
}
