/**
 Admission of code-mode programs and of the reads one program dispatches
 (apps/agent/src/research-code-mode.ts). Promises run interleaved: a waiter that
 was woken resumes later, and a new call may take the free slot before it.
 */
module CodeMode {
  import opened Wrappers

  const HOST_PROGRAMS := 8

  const CALLS := 32

  const PARALLEL := 4

  const CUMULATIVE_BYTES := 8 * 1024 * 1024

  datatype Dispatched = Running(call: nat) | Queued(call: nat) | Refused

  /** The reads of one program. `woken` are waiters whose promise is resolved and whose code has not resumed yet. */
  class ProgramReads {
    var calls: nat
    var parallel: nat
    var receivedBytes: nat
    var waiting: seq<nat>
    var aborted: bool
    var running: set<nat>
    var woken: set<nat>

    ghost predicate Valid()
      reads this
    {
      parallel == |running| && parallel <= PARALLEL
      && (forall c :: c in waiting ==> c !in woken && c !in running)
      && (forall i, j :: 0 <= i < j < |waiting| ==> waiting[i] != waiting[j])
      && woken !! running
      && (forall c :: c in waiting || c in woken || c in running ==> 0 < c <= calls)
      && (|running| + |woken| + |waiting| > 0 ==> calls <= CALLS || aborted)
      && (aborted ==> waiting == [])
      && NoLostWakeup()
    }

    /** While a call waits, the calls running and the waiters already woken fill every slot. */
    ghost predicate NoLostWakeup()
      reads this
    {
      waiting != [] ==> parallel + |woken| >= PARALLEL
    }

    /** The call was dispatched and has not ended. */
    ghost predicate Unfinished(call: nat)
      reads this
    {
      call in running || call in woken || call in waiting
    }

    constructor ()
      ensures Valid() && calls == 0 && parallel == 0 && waiting == [] && woken == {} && running == {} && !aborted
    {
      calls, parallel, receivedBytes, waiting, aborted, running, woken := 0, 0, 0, [], false, {}, {};
    }

    /** fail() and the abort listener: everybody who waits is woken, to throw. */
    method Abort()
      requires Valid()
      modifies `aborted, `waiting, `woken
      ensures Valid() && aborted && waiting == []
      ensures forall c :: c in woken <==> c in old(woken) || c in old(waiting)
    {
      aborted := true;
      woken := woken + (set c | c in waiting);
      waiting := [];
    }

    /** The slot loop, entered or entered again: run, or wait behind the others. */
    method TakeSlot(call: nat) returns (runs: bool)
      requires Valid() && !aborted && 0 < call <= calls <= CALLS
      requires call !in waiting && call !in running && call !in woken
      modifies `parallel, `waiting, `running
      ensures Valid()
      ensures runs <==> old(parallel) < PARALLEL
      ensures runs ==> running == old(running) + {call} && waiting == old(waiting)
      ensures !runs ==> running == old(running) && waiting == old(waiting) + [call]
    {
      if parallel >= PARALLEL {
        waiting := waiting + [call];
        return false;
      }
      parallel := parallel + 1;
      running := running + {call};
      runs := true;
    }

    method Dispatch(tooLarge: bool) returns (r: Dispatched)
      requires Valid()
      modifies this
      ensures Valid()
      ensures old(aborted) ==> r == Refused && calls == old(calls)
      ensures !old(aborted) ==> calls == old(calls) + 1
      ensures !old(aborted) && (tooLarge || old(calls) >= CALLS) ==> r == Refused && aborted
      ensures !old(aborted) && !tooLarge && old(calls) < CALLS ==>
        !aborted && r == if old(parallel) < PARALLEL then Running(calls) else Queued(calls)
      ensures r.Running? ==> running == old(running) + {r.call} && waiting == old(waiting)
      ensures r.Queued? ==> running == old(running) && waiting == old(waiting) + [r.call]
    {
      if aborted {
        return Refused;
      }
      calls := calls + 1;
      if calls > CALLS || tooLarge {
        aborted := true;
        woken := woken + (set c | c in waiting);
        waiting := [];
        return Refused;
      }
      var runs := TakeSlot(calls);
      r := if runs then Running(calls) else Queued(calls);
    }

    /** A woken waiter resumes: it throws if the program was aborted, and tries for a slot again if not. */
    method Resume(call: nat) returns (r: Dispatched)
      requires Valid() && call in woken
      modifies this
      ensures Valid() && aborted == old(aborted)
      ensures forall c :: Unfinished(c) <==> old(Unfinished(c)) && !(aborted && c == call)
      ensures aborted ==>
        r == Refused && woken == old(woken) - {call} && running == old(running) && waiting == old(waiting)
      ensures !aborted ==>
        woken == old(woken) - {call}
        && r == (if old(parallel) < PARALLEL then Running(call) else Queued(call))
        && running == (if old(parallel) < PARALLEL then old(running) + {call} else old(running))
        && waiting == (if old(parallel) < PARALLEL then old(waiting) else old(waiting) + [call])
    {
      if aborted {
        woken := woken - {call};
        return Refused;
      }
      if parallel >= PARALLEL {
        woken := woken - {call};
        waiting := waiting + [call];
        return Queued(call);
      }
      woken := woken - {call};
      parallel := parallel + 1;
      running := running + {call};
      r := Running(call);
    }

    /** A read ends, well or not; its slot goes to the first waiter, if there is one. */
    method Finish(call: nat, bytes: nat, fatal: bool)
      requires Valid() && call in running
      modifies this
      ensures Valid()
      ensures running == old(running) - {call} && parallel == old(parallel) - 1
      ensures forall c :: Unfinished(c) <==> old(Unfinished(c)) && c != call
      ensures aborted == (old(aborted) || fatal || old(receivedBytes) + bytes > CUMULATIVE_BYTES)
      ensures aborted ==> waiting == []
      ensures old(aborted) ==> old(waiting) == [] && woken == old(woken)
      ensures !aborted && old(waiting) == [] ==> waiting == [] && woken == old(woken)
      ensures !aborted && old(waiting) != [] ==> waiting == old(waiting)[1..] && woken == old(woken) + {old(waiting)[0]}
    {
      receivedBytes := receivedBytes + bytes;
      if fatal || receivedBytes > CUMULATIVE_BYTES {
        Abort();
      }
      running := running - {call};
      parallel := parallel - 1;
      if |waiting| > 0 {
        woken := woken + {waiting[0]};
        waiting := waiting[1..];
      }
    }

    /**
     Whatever order the remaining steps take, once no new call comes every waiter
     gets its slot: with nothing left running or woken, nobody is left waiting,
     and unless the program was aborted each waiter has run.
     */
    method Drain() returns (ran: set<nat>)
      requires Valid()
      modifies this
      ensures Valid() && running == {} && woken == {} && waiting == []
      ensures !aborted ==> !old(aborted) && forall c :: c in ran <==> old(Unfinished(c))
    {
      hide Valid;
      ran := {};
      while running != {} || woken != {}
        invariant Valid() && (old(aborted) ==> aborted)
        invariant !aborted ==> forall c :: c in ran || Unfinished(c) <==> old(Unfinished(c))
        decreases !aborted, |running| + |woken| + |waiting|, |woken|
      {
        if {
          case woken != {} =>
            var call :| call in woken;
            var _ := Resume(call);
          case running != {} =>
            var call :| call in running;
            var bytes: nat, fatal: bool := *, *;
            Finish(call, bytes, fatal);
            ran := ran + {call};
        }
      }
      QuietMeansEmpty();
    }

    /** Nothing running and nobody woken: nobody waits. */
    lemma QuietMeansEmpty()
      requires Valid() && running == {} && woken == {}
      ensures waiting == []
    {
    }
  }

  datatype Admission = Admitted | LimitExceeded | CapacityBusy

  /** One host: how many programs are admitted and unfinished, and which runs have one. */
  class ProgramHost {
    var hostPrograms: nat
    var active: set<nat>

    ghost predicate Valid()
      reads this
    {
      hostPrograms == |active| && hostPrograms <= HOST_PROGRAMS
    }

    constructor ()
      ensures Valid() && active == {}
    {
      hostPrograms, active := 0, {};
    }

    /** The admission of execute(): at most one program per run, at most eight per host. */
    method Enter(run: nat, withinBudget: bool) returns (r: Admission)
      requires Valid()
      modifies this
      ensures Valid()
      ensures r.Admitted? <==> withinBudget && run !in old(active) && |old(active)| < HOST_PROGRAMS
      ensures r.LimitExceeded? <==> !withinBudget
      ensures active == if r.Admitted? then old(active) + {run} else old(active)
    {
      if !withinBudget {
        return LimitExceeded;
      }
      if run in active || hostPrograms >= HOST_PROGRAMS {
        return CapacityBusy;
      }
      active := active + {run};
      hostPrograms := hostPrograms + 1;
      r := Admitted;
    }

    /** The finally clause: only an admitted program gives its place back. */
    method Leave(run: nat, admission: Admission)
      requires Valid() && (admission.Admitted? ==> run in active)
      modifies this
      ensures Valid()
      ensures active == if admission.Admitted? then old(active) - {run} else old(active)
    {
      if admission.Admitted? {
        active := active - {run};
        hostPrograms := hostPrograms - 1;
      }
    }
  }
}
