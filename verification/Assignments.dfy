/**
 The assignment state machine and its leases (kernel/control/assignment.go).
 */
module Assignments {
  import opened Outcomes

  datatype AssignmentState =
    | Planned | Leased | Preparing | Running | Paused | Collecting
    | AwaitingGates | Accepted | Failed | Canceled | Expired

  /** The transition table. */
  function Targets(from: AssignmentState): set<AssignmentState> {
    match from
    case Planned => {Leased, Canceled}
    case Leased => {Preparing, Expired, Canceled}
    case Preparing => {Running, Failed, Expired, Canceled}
    case Running => {Paused, Collecting, Failed, Canceled}
    case Paused => {Running, Failed, Canceled}
    case Collecting => {AwaitingGates, Failed}
    case AwaitingGates => {Accepted, Failed}
    case Accepted => {}
    case Failed => {Planned}
    case Canceled => {}
    case Expired => {Planned}
  }

  predicate CanMove(from: AssignmentState, to: AssignmentState) {
    from == to || to in Targets(from)
  }

  datatype Lease = Lease(owner: string, expiresAt: int)

  class Assignment {
    const id: string
    const workPackageId: string
    const workerId: string
    var state: AssignmentState
    var lease: Option<Lease>
    var attempt: nat

    constructor (id: string, workPackageId: string, workerId: string)
      ensures this.id == id && this.workPackageId == workPackageId && this.workerId == workerId
      ensures state == Planned && lease == None && attempt == 0
    {
      this.id, this.workPackageId, this.workerId := id, workPackageId, workerId;
      state, lease, attempt := Planned, None, 0;
    }

    method Transition(to: AssignmentState) returns (ok: bool)
      modifies this`state
      ensures ok <==> CanMove(old(state), to)
      ensures state == if ok then to else old(state)
    {
      if state == to {
        return true;
      }
      if to !in Targets(state) {
        return false;
      }
      state := to;
      return true;
    }

    method LeaseFor(owner: string, now: int, ttl: int)
      modifies this`lease
      ensures lease == Some(Lease(owner, now + ttl))
    {
      lease := Some(Lease(owner, now + ttl));
    }

    /** Only a leased or preparing assignment past its lease expires. An unset
        lease has expired: its time is the zero time. */
    method Expire(now: int) returns (ok: bool)
      modifies this`state
      ensures ok
      ensures state == if (old(state).Leased? || old(state).Preparing?) && (lease.None? || now >= lease.value.expiresAt)
                       then Expired else old(state)
    {
      if state != Leased && state != Preparing {
        return true;
      }
      if lease.Some? && now < lease.value.expiresAt {
        return true;
      }
      ok := Transition(Expired);
    }

    /** An expired or failed assignment starts over with the next attempt. */
    method Retry() returns (ok: bool)
      modifies this
      ensures ok <==> old(state).Expired? || old(state).Failed?
      ensures ok ==> state == Planned && attempt == old(attempt) + 1 && lease == None
      ensures !ok ==> unchanged(this)
    {
      if state != Expired && state != Failed {
        return false;
      }
      ok := Transition(Planned);
      attempt := attempt + 1;
      lease := None;
    }
  }

  // ----- whole lives

  /** The states an assignment passes through, one transition at a time. */
  ghost predicate IsLife(life: seq<AssignmentState>) {
    && life != [] && life[0] == Planned
    && forall i :: 0 <= i < |life| - 1 ==> CanMove(life[i], life[i + 1])
  }

  /** The way of an attempt that is accepted. */
  const LINE := [Planned, Leased, Preparing, Running, Collecting, AwaitingGates, AssignmentState.Accepted]

  /** One state of the line after the other. */
  predicate OnLine(i: int, from: AssignmentState, to: AssignmentState) {
    0 <= i < |LINE| - 1 && LINE[i] == from && LINE[i + 1] == to
  }

  lemma LineExactly(from: AssignmentState, to: AssignmentState)
    ensures (exists i :: OnLine(i, from, to)) <==>
              (from == Planned && to == Leased) || (from == Leased && to == Preparing)
              || (from == Preparing && to == Running) || (from == Running && to == Collecting)
              || (from == Collecting && to == AwaitingGates)
                  || (from == AwaitingGates && to == AssignmentState.Accepted)
  {
    assert from in LINE && to in LINE && Stage(to) == Stage(from) + 1 ==> OnLine(Stage(from), from, to);
  }

  /** The moves there are: on along the line; into a pause and out of it; canceled
      before collecting; failed between preparation and acceptance; expired while the
      lease counts; and planned anew after failing or expiring. */
  lemma MovesExactly(from: AssignmentState, to: AssignmentState)
    ensures CanMove(from, to) <==>
              || from == to
              || (exists i :: OnLine(i, from, to))
              || (from == Running && to == Paused) || (from == Paused && to == Running)
              || (to == Canceled && from in {Planned, Leased, Preparing, Running, Paused})
              || (to == Failed && from in {Preparing, Running, Paused, Collecting, AwaitingGates})
              || (to == Expired && from in {Leased, Preparing})
              || (to == Planned && from in {Failed, Expired})
  {
    LineExactly(from, to);
    hide OnLine;
  }

  /** The cycle of one attempt. */
  function Stage(s: AssignmentState): nat {
    match s
    case Planned => 0
    case Leased => 1
    case Preparing => 2
    case Running => 3
    case Paused => 3
    case Collecting => 4
    case AwaitingGates => 5
    case Accepted => 6
    case Failed => 6
    case Canceled => 6
    case Expired => 6
  }

  /** An accepted assignment has, since it was last planned, gone through
      leasing, preparation, running, collection and gates in that order: for
      every stage s there is a point j from which the life climbs from s without
      falling back. */
  lemma {:induction false} AcceptedHasRun(life: seq<AssignmentState>, i: nat, s: nat) returns (j: nat)
    requires IsLife(life) && i < |life|
    requires Stage(life[i]) < 6 || life[i].Accepted?
    requires s <= Stage(life[i])
    ensures j <= i && Stage(life[j]) == s
    ensures forall k :: j <= k <= i ==> s <= Stage(life[k]) <= Stage(life[i])
    decreases i
  {
    if s == Stage(life[i]) {
      j := i;
    } else {
      assert CanMove(life[i - 1], life[i]);
      j := AcceptedHasRun(life, i - 1, s);
    }
  }

  /** Accepted and canceled are final. */
  lemma {:induction false} FinalStates(life: seq<AssignmentState>, i: nat, j: nat)
    requires IsLife(life) && i <= j < |life|
    requires life[i].Accepted? || life[i].Canceled?
    ensures life[j] == life[i]
    decreases j - i
  {
    if i < j {
      assert CanMove(life[i], life[i + 1]);
      FinalStates(life, i + 1, j);
    }
  }
}
