/**
  The lease calls as the source writes them: ordered conditional reads and writes on one
  shared object, with other instances free to act between any two of them.
 */
module LeaseObject {
  import opened Options
  import opened LeaseProtocol
  import opened LeaseSafety

  /** What the backend does to one call; `Unseen` takes effect and still reports a failure. */
  datatype Fault = NoFault | Unseen | Lost

  datatype PutResult = Stored(tag: nat) | AlreadyExists | Precondition | BackendError

  datatype ClaimResult =
    | Acquired(tag: nat, payload: Write)
    | HeldByOther(payload: Write)
    | ClaimBackendError

  datatype HeartbeatResult = Refreshed(tag: nat) | LeadershipLost | HeartbeatBackendError

  class LeaseStore {
    const timing: Timing
    var now: nat
    var history: seq<Write>

    constructor (timing: Timing)
      ensures this.timing == timing && history == [] && now == 0 && WellKept()
    {
      this.timing := timing;
      history, now := [], 0;
    }

    ghost predicate WellKept()
      reads this
    {
      HistoryInv(timing, State(now, history, []))
    }

    /** Other instances run for a while: time passes and legal writes are appended. */
    method Interfere(quiet: bool)
      requires WellKept()
      modifies this
      ensures WellKept() && old(now) <= now && old(history) <= history
      ensures quiet ==> now == old(now) && history == old(history)
    {
      if !quiet {
        assert history + [] == history;
        assert HistoryInv(timing, State(now, history + [], []));
        var later, more :| now <= later && HistoryInv(timing, State(later, history + more, []));
        now, history := later, history + more;
      }
    }

    method PutCreate(holder: nat, built: nat, fault: Fault) returns (r: PutResult)
      requires WellKept() && built <= now
      modifies this`history
      ensures WellKept() && old(history) <= history
      ensures r.Stored? <==> fault.NoFault? && old(history) == []
      ensures r.AlreadyExists? <==> !fault.Lost? && old(history) != []
      ensures history == if !fault.Lost? && old(history) == [] then [Write(holder, built, now)] else old(history)
      ensures r.Stored? ==> r.tag == 0
      ensures !r.Precondition?
    {
      if fault.Lost? { return BackendError; }
      if history != [] { return AlreadyExists; }
      history := [Write(holder, built, now)];
      r := if fault.Unseen? then BackendError else Stored(0);
    }

    method PutUpdate(tag: nat, holder: nat, built: nat, fault: Fault) returns (r: PutResult)
      requires WellKept() && built <= now && tag < |history|
      requires tag == |history| - 1 ==>
                 history[tag].built <= built && TakeoverExpired(timing, history[tag], Write(holder, built, now))
      modifies this`history
      ensures WellKept() && old(history) <= history
      ensures r.Stored? <==> fault.NoFault? && tag == |old(history)| - 1
      ensures r.Precondition? <==> !fault.Lost? && tag != |old(history)| - 1
      ensures history == if !fault.Lost? && tag == |old(history)| - 1 then old(history) + [Write(holder, built, now)]
                         else old(history)
      ensures r.Stored? ==> r.tag == |old(history)|
      ensures !r.AlreadyExists?
    {
      if fault.Lost? { return BackendError; }
      if tag != |history| - 1 { return Precondition; }
      history := history + [Write(holder, built, now)];
      r := if fault.Unseen? then BackendError else Stored(|history| - 1);
    }

    /** `None` is a backend error, or an object that is not there. */
    method Get(fails: bool) returns (r: Option<nat>)
      ensures r == if fails || history == [] then None else Some(|history| - 1)
    {
      r := if fails || history == [] then None else Some(|history| - 1);
    }
  }

  class ObjectStoreLease {
    const store: LeaseStore
    const holder: nat

    constructor (store: LeaseStore, holder: nat)
      ensures this.store == store && this.holder == holder
    {
      this.store, this.holder := store, holder;
    }

    /** What an acquired lease rests on: one own write, over nothing or over an expired payload. */
    ghost predicate Won(r: ClaimResult, earlier: seq<Write>)
      reads store
    {
      && r.Acquired? && |earlier| <= r.tag < |store.history|
      && r.payload == store.history[r.tag] && r.payload.holder == holder
      && (r.tag > 0 ==> Expired(store.timing, store.history[r.tag - 1], r.payload.built))
    }

    /** The payload was built during the call, undisturbed at its start: it is live for a whole lease from there. */
    ghost predicate Fresh(r: ClaimResult, start: nat, quiet: bool)
      requires r.Acquired?
      reads store
    {
      && start <= r.payload.built <= r.payload.landed <= store.now
      && (quiet ==> r.payload.built == start)
      && forall at: nat :: at < start + store.timing.lease ==> !Expired(store.timing, r.payload, at)
    }

    /** A refused claim reports a write that was live at `then`, or that arrived later. */
    ghost predicate Refused(r: ClaimResult, earlier: seq<Write>, then_: nat)
      reads store
    {
      && r.HeldByOther?
      && exists n :: 0 <= n < |store.history| && store.history[n] == r.payload
           && (!Expired(store.timing, r.payload, then_) || |earlier| <= n)
    }

    /** The optimistic create; `HeldByOther` only says that the object exists. */
    method TryCreate(quiet: bool, fault: Fault) returns (r: ClaimResult)
      requires store.WellKept()
      modifies store
      ensures store.WellKept() && old(store.history) <= store.history && old(store.now) <= store.now
      ensures r.Acquired? ==> Won(r, old(store.history)) && store.history == [r.payload]
      ensures r.Acquired? ==> Fresh(r, old(store.now), quiet)
      ensures r.HeldByOther? ==> store.history != []
      ensures r.HeldByOther? && quiet ==> store.history == old(store.history) && store.now == old(store.now)
      ensures quiet && fault.NoFault? ==> if old(store.history) == [] then r.Acquired? else r.HeldByOther?
    {
      var built := store.now;
      store.Interfere(quiet);
      var put := store.PutCreate(holder, built, fault);
      if put.Stored? { return Acquired(put.tag, store.history[put.tag]); }
      if put.BackendError? { return ClaimBackendError; }
      store.Interfere(quiet);
      r := HeldByOther(store.history[0]);
    }

    /**
      Create; if the object exists, read it and steal it if it has expired.  Without faults
      and interference the claim succeeds exactly when there is no lease or an expired one.
     */
    method TryClaim(quiet: bool, createFault: Fault, readFails: bool, stealFault: Fault, rereadFails: bool)
      returns (r: ClaimResult)
      requires store.WellKept()
      modifies store
      ensures store.WellKept() && old(store.history) <= store.history && old(store.now) <= store.now
      ensures r.Acquired? ==> Won(r, old(store.history))
      ensures r.Acquired? ==> Fresh(r, old(store.now), quiet)
      ensures r.HeldByOther? ==> Refused(r, old(store.history), old(store.now))
      ensures quiet && createFault.NoFault? && !readFails && stealFault.NoFault? ==>
                if old(store.history) == []
                   || Expired(store.timing, old(store.history[|store.history| - 1]), old(store.now))
                then r.Acquired? && store.history == old(store.history) + [r.payload]
                else r == HeldByOther(old(store.history[|store.history| - 1])) && store.history == old(store.history)
    {
      r := TryCreate(quiet, createFault);
      if !r.HeldByOther? { return; }
      ghost var mid, midNow := store.history, store.now;
      r := ReadAndSteal(quiet, readFails, stealFault, rereadFails);
      if r.HeldByOther? { RefusedEarlier(r, mid, midNow, old(store.history), old(store.now)); }
    }

    lemma RefusedEarlier(r: ClaimResult, mid: seq<Write>, midNow: nat, earlier: seq<Write>, earlierNow: nat)
      requires Refused(r, mid, midNow) && |earlier| <= |mid| && earlierNow <= midNow
      ensures Refused(r, earlier, earlierNow)
    {
      var n :| 0 <= n < |store.history| && store.history[n] == r.payload
               && (!Expired(store.timing, r.payload, midNow) || |mid| <= n);
      assert !Expired(store.timing, r.payload, earlierNow) || |earlier| <= n;
    }

    method ReadAndSteal(quiet: bool, readFails: bool, stealFault: Fault, rereadFails: bool) returns (r: ClaimResult)
      requires store.WellKept() && store.history != []
      modifies store
      ensures store.WellKept() && old(store.history) <= store.history && old(store.now) <= store.now
      ensures r.Acquired? ==> Won(r, old(store.history))
      ensures r.Acquired? ==> Fresh(r, old(store.now), quiet)
      ensures r.HeldByOther? ==> Refused(r, old(store.history), old(store.now))
      ensures quiet ==> store.now == old(store.now)
      ensures quiet && !readFails && stealFault.NoFault? ==>
                if Expired(store.timing, old(store.history[|store.history| - 1]), old(store.now))
                then r.Acquired? && store.history == old(store.history) + [r.payload]
                else r == HeldByOther(old(store.history[|store.history| - 1])) && store.history == old(store.history)
    {
      var read := store.Get(readFails);
      if read.None? { return ClaimBackendError; }
      var tag := read.value;
      var existing := store.history[tag];
      store.Interfere(quiet);
      assert store.history[tag] == existing;
      if existing.built + store.timing.lease > store.now { return HeldByOther(existing); }
      r := Steal(tag, quiet, stealFault, rereadFails);
    }

    /** Write over the payload under `tag`, seen expired; if someone else got there first, report them. */
    method Steal(tag: nat, quiet: bool, stealFault: Fault, rereadFails: bool) returns (r: ClaimResult)
      requires store.WellKept() && tag < |store.history| && Expired(store.timing, store.history[tag], store.now)
      modifies store
      ensures store.WellKept() && old(store.history) <= store.history && old(store.now) <= store.now
      ensures r.Acquired? ==> Won(r, old(store.history)) && r.tag == tag + 1
      ensures r.Acquired? ==> Fresh(r, old(store.now), quiet)
      ensures r.HeldByOther? ==> tag + 1 < |store.history| && r.payload == store.history[|store.history| - 1]
      ensures quiet ==> store.now == old(store.now)
      ensures quiet && stealFault.NoFault? && tag == |old(store.history)| - 1 ==>
                r.Acquired? && store.history == old(store.history) + [r.payload]
    {
      var built := store.now;
      store.Interfere(quiet);
      var put := store.PutUpdate(tag, holder, built, stealFault);
      if put.Stored? { return Acquired(put.tag, store.history[put.tag]); }
      if put.BackendError? { return ClaimBackendError; }
      store.Interfere(quiet);
      var read := store.Get(rereadFails);
      if read.None? { return ClaimBackendError; }
      r := HeldByOther(store.history[read.value]);
    }

    /** Refresh under the tag of the caller's own last write. */
    method Heartbeat(tag: nat, quiet: bool, fault: Fault) returns (r: HeartbeatResult)
      requires store.WellKept() && tag < |store.history| && store.history[tag].holder == holder
      modifies store
      ensures store.WellKept() && old(store.history) <= store.history && old(store.now) <= store.now
      ensures r.Refreshed? ==>
                && r.tag == tag + 1 && |store.history| == r.tag + 1 && |old(store.history)| == tag + 1
                && store.history[r.tag] == Write(holder, old(store.now), store.now)
      ensures r.LeadershipLost? ==> tag < |store.history| - 1
      ensures r.HeartbeatBackendError? ==> !fault.NoFault?
      ensures quiet ==> (r.LeadershipLost? <==> !fault.Lost? && tag < |old(store.history)| - 1)
    {
      var built := store.now;
      store.Interfere(quiet);
      var put := store.PutUpdate(tag, holder, built, fault);
      match put
      case Stored(newTag) => r := Refreshed(newTag);
      case Precondition => r := LeadershipLost;
      case BackendError => r := HeartbeatBackendError;
      case AlreadyExists => assert false;
    }
  }
}
