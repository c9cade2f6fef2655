/**
 Deletion of a Cloud SQL instance and, with the last resource, of the network made for it
 (deleteCloudSQLInstance of pkg/providers/gcp/provider_postgres.go and the delete methods of
 pkg/providers/gcp/cluster_network_provider.go). Cloud operations are asynchronous: a call may
 only start one, and a later reconcile finds it still pending.
 */
module GcpTeardown {
  import opened Wrappers

  // ---------------------------------------------------------------- state

  /** Other stands for anything else Cloud SQL may be busy with, such as an export or a backup. */
  datatype Operation = Idle | Unprotecting | Deleting | Other

  /** A Cloud SQL instance with the operation pending on it; shown: its state reads PENDING_DELETE. */
  datatype Instance = Instance(protected: bool, operation: Operation, shown: bool)

  /** The service connection: the ranges it reserves, and whether its deletion is pending. */
  datatype Connection = Connection(ranges: seq<string>, deleting: bool)

  /** others: how many more Postgres and Redis resources there are. */
  datatype State = State(
    instance: Option<Instance>,
    peering: bool,
    connection: Option<Connection>,
    range: bool,
    finalizer: bool,
    others: nat)

  /** PENDING_DELETE is shown only while the deletion is pending. */
  predicate Coherent(s: State) {
    s.instance.Some? && s.instance.value.shown ==> s.instance.value.operation.Deleting?
  }

  predicate PendingOperation(s: State) {
    || (s.instance.Some? && !s.instance.value.operation.Idle?)
    || (s.connection.Some? && s.connection.value.deleting)
  }

  /** The operator's address range; its name is a function of the cluster. */
  const OWN_RANGE: string := "range"

  predicate Reserves(c: Connection) {
    OWN_RANGE in c.ranges
  }

  /** The test in DeleteNetworkIpRange: it looks at the first reserved range only. */
  predicate Refuses(c: Connection) {
    c.ranges != [] && c.ranges[0] == OWN_RANGE
  }

  /** The test lets the deletion through: some other range comes first. */
  predicate Yields(c: Connection) {
    c.ranges != [] && c.ranges[0] != OWN_RANGE
  }

  /** The first-range test protects the range exactly for connections that do not reserve it further down only. */
  lemma RefusalIsExactIff(c: Connection)
    ensures (Reserves(c) ==> Refuses(c)) <==> c.ranges == [] || c.ranges[0] == OWN_RANGE || OWN_RANGE !in c.ranges[1..]
  {
    if c.ranges != [] {
      assert c.ranges == [c.ranges[0]] + c.ranges[1..];
    }
  }

  lemma SecondRangeIsNotProtected()
    ensures var c := Connection(["other", OWN_RANGE], true); Reserves(c) && !Refuses(c)
  {
    assert Connection(["other", OWN_RANGE], true).ranges[1] == OWN_RANGE;
  }

  // ---------------------------------------------------------------- the measure

  function InstanceSteps(i: Option<Instance>): nat {
    match i
    case None => 0
    case Some(j) =>
      match j.operation
      case Deleting => 1
      case Unprotecting => 4
      case Idle => if j.protected then 5 else 2
      case Other => if j.protected then 6 else 3
  }

  function ConnectionSteps(c: Option<Connection>): nat {
    match c
    case None => 0
    case Some(d) => if d.deleting then 1 else 2
  }

  function Bit(b: bool): nat {
    if b then 1 else 0
  }

  /** Steps that deletion protection, instance, peering, connection, range and finalizer are away from being gone. */
  function Measure(s: State): nat {
    InstanceSteps(s.instance) + Bit(s.peering) + ConnectionSteps(s.connection) + Bit(s.range) + Bit(s.finalizer)
  }

  lemma GoneIffZero(s: State)
    ensures Measure(s) == 0 <==> s.instance.None? && !s.peering && s.connection.None? && !s.range && !s.finalizer
  {
  }

  // ---------------------------------------------------------------- the cloud

  /** All pending operations finish. */
  function Settled(s: State): State {
    s.(instance :=
         match s.instance
         case None => None
         case Some(i) =>
           (match i.operation
            case Deleting => None
            case Unprotecting => Some(Instance(false, Idle, false))
            case Other => Some(i.(operation := Idle))
            case Idle => s.instance),
       connection := if s.connection.Some? && s.connection.value.deleting then None else s.connection)
  }

  lemma SettlingLowers(s: State)
    ensures PendingOperation(s) ==> Measure(Settled(s)) < Measure(s)
    ensures !PendingOperation(s) ==> Settled(s) == s
    ensures Coherent(s) ==> Coherent(Settled(s))
  {
  }

  datatype Answer = Accepted | Conflict | Refused

  class Project {
    var state: State
    /** Whether calls are never refused; pending operations remain possible. */
    const reliable: bool

    constructor (s: State, reliable: bool)
      ensures state == s && this.reliable == reliable
    {
      state, this.reliable := s, reliable;
    }

    method Answers() returns (ok: bool)
      ensures reliable ==> ok
    {
      ok := *;
      if reliable {
        ok := true;
      }
    }

    /**
     ModifyInstance, DeleteInstance: start an operation, or answer with a conflict while one is
     pending. The deletion of a protected instance is refused.
     */
    method StartOperation(op: Operation) returns (r: Answer)
      requires state.instance.Some? && (op.Unprotecting? || op.Deleting?)
      requires Coherent(state)
      modifies this
      ensures Coherent(state)
      ensures r.Accepted? ==>
                && old(state).instance.value.operation.Idle?
                && state.instance.Some? && state.instance.value.operation == op
                && state == old(state).(instance := state.instance)
                && state.instance.value.protected == old(state).instance.value.protected
      ensures !r.Accepted? ==> state == old(state)
      ensures r.Accepted? && op.Deleting? ==> !old(state).instance.value.protected
      ensures r.Conflict? ==> !state.instance.value.operation.Idle?
      ensures reliable && !(op.Deleting? && old(state).instance.value.protected) ==> !r.Refused?
    {
      var ok := Answers();
      if !ok {
        return Refused;
      }
      if !state.instance.value.operation.Idle? {
        return Conflict;
      }
      if op.Deleting? && state.instance.value.protected {
        return Refused;
      }
      var shown: bool := *;
      state := state.(instance := Some(state.instance.value.(operation := op, shown := shown && op.Deleting?)));
      return Accepted;
    }

    /** RemovePeering waits for its operation. */
    method RemovePeering() returns (ok: bool)
      modifies this
      ensures state == if ok then old(state).(peering := false) else old(state)
      ensures reliable ==> ok
    {
      ok := Answers();
      if ok {
        state := state.(peering := false);
      }
    }

    /**
     ConnectionsDelete: refused, started, or done; a connection whose deletion is done may be listed
     a while longer.
     */
    method DeleteConnection() returns (ok: bool, done: bool)
      requires state.connection.Some?
      modifies this
      ensures !ok ==> state == old(state)
      ensures ok ==> state == old(state).(connection := None)
                     || state == old(state).(connection := Some(old(state).connection.value.(deleting := true)))
      ensures reliable ==> ok
    {
      ok := Answers();
      done := *;
      if ok {
        var gone: bool := *;
        if gone {
          state := state.(connection := None);
        } else {
          state := state.(connection := Some(state.connection.value.(deleting := true)));
        }
      }
    }

    /** AddressApi.Delete waits for its operation. */
    method DeleteRange() returns (ok: bool)
      modifies this
      ensures state == if ok then old(state).(range := false) else old(state)
      ensures reliable ==> ok
    {
      ok := Answers();
      if ok {
        state := state.(range := false);
      }
    }
  }

  // ---------------------------------------------------------------- the provider

  datatype Outcome = Error | Waiting | Removed

  /** Nothing but the network parts can have changed, none of them back towards existence. */
  predicate Dismantles(s: State, t: State) {
    && t == s.(peering := t.peering, connection := t.connection, range := t.range)
    && (t.peering ==> s.peering) && (t.range ==> s.range)
    && (t.connection.Some? ==> s.connection.Some? && t.connection.value.ranges == s.connection.value.ranges
                               && (s.connection.value.deleting ==> t.connection.value.deleting))
  }

  lemma DismantlingLowers(s: State, t: State)
    requires Dismantles(s, t)
    ensures Measure(t) <= Measure(s) && (t != s ==> Measure(t) < Measure(s))
  {
  }

  /** DeleteNetworkPeering, then DeleteNetworkService; success leaves no connection but one that is on its way out. */
  method DeletePeeringAndService(p: Project) returns (ok: bool)
    modifies p
    ensures Dismantles(old(p.state), p.state) && p.state.range == old(p.state).range
    ensures p.state.connection != old(p.state).connection ==> !p.state.peering
    ensures ok ==> !p.state.peering && (p.state.connection.None? || p.state.connection.value.deleting)
    ensures p.reliable && !ok ==> p.state != old(p.state) || PendingOperation(p.state)
  {
    ok := p.Answers();
    if !ok {
      return;
    }
    if p.state.peering {
      ok := p.RemovePeering();
      if !ok {
        return;
      }
    }
    if p.state.connection.Some? {
      var done;
      ok, done := p.DeleteConnection();
      ok := ok && done;
    }
  }

  /** DeleteNetworkIpRange; it indexes the reserved ranges without looking whether there are any. */
  method DeleteNetworkIpRange(p: Project) returns (ok: bool)
    modifies p
    ensures p.state == old(p.state) || (old(p.state).range && p.state == old(p.state).(range := false))
    ensures ok ==> !p.state.range
    ensures p.state.range != old(p.state).range && p.state.connection.Some? ==> !Refuses(p.state.connection.value)
    ensures p.reliable ==>
              (ok <==> !old(p.state).range || old(p.state).connection.None? || Yields(old(p.state).connection.value))
  {
    ok := p.Answers();
    if !ok || !p.state.range {
      return;
    }
    if p.state.connection.Some? {
      var ranges := p.state.connection.value.ranges;
      if ranges == [] || ranges[0] == OWN_RANGE {
        return false;
      }
    }
    ok := p.DeleteRange();
  }

  predicate ComponentsExist(s: State) {
    s.range || s.connection.Some?
  }

  /**
   What a pass does to an instance: it starts at most one operation, and only on an idle one; the
   deletion only of an unprotected instance, and before that the lifting of its protection.
   */
  ghost predicate InstanceStep(i: Instance, i': Instance, reliable: bool) {
    && i'.protected == i.protected
    && (i'.operation != i.operation ==> i.operation.Idle?)
    && (i'.operation.Deleting? && !i.operation.Deleting? ==> !i.protected)
    && (i'.operation.Unprotecting? && !i.operation.Unprotecting? ==> i.protected)
    && (i'.operation.Other? ==> i.operation.Other?)
    && (reliable && i.operation.Idle? ==> i'.operation == if i.protected then Unprotecting else Deleting)
  }

  /** The instance: wait for its deletion, lift the protection, or delete; a conflict counts as waiting. */
  method DeleteInstance(p: Project) returns (r: Outcome)
    requires p.state.instance.Some? && Coherent(p.state)
    modifies p
    ensures Coherent(p.state) && !r.Removed?
    ensures p.state == old(p.state).(instance := p.state.instance) && p.state.instance.Some?
    ensures Measure(p.state) <= Measure(old(p.state))
    ensures r.Waiting? ==>
              Measure(p.state) < Measure(old(p.state)) || (p.state == old(p.state) && PendingOperation(p.state))
    ensures p.reliable ==> r.Waiting?
    ensures InstanceStep(old(p.state).instance.value, p.state.instance.value, p.reliable)
  {
    var ok := p.Answers();
    if !ok {
      return Error;
    }
    var i := p.state.instance.value;
    if i.shown {
      return Waiting;
    }
    var answer := p.StartOperation(if i.protected then Unprotecting else Deleting);
    return if answer.Refused? then Error else Waiting;
  }

  /** The network of the last resource; Removed stands for "nothing left, go on". */
  method DeleteNetwork(p: Project) returns (r: Outcome)
    modifies p
    ensures Dismantles(old(p.state), p.state)
    ensures p.state.connection != old(p.state).connection ==> !p.state.peering
    ensures old(p.state).range && !p.state.range && p.state.connection.Some? ==> !Refuses(p.state.connection.value)
    ensures old(p.state).range && !p.state.range ==>
              !p.state.peering && (p.state.connection.None? || p.state.connection.value.deleting)
    ensures r.Removed? ==> !p.state.peering && !ComponentsExist(p.state)
    ensures r.Waiting? ==> PendingOperation(p.state)
    ensures p.reliable && !r.Removed? ==> PendingOperation(p.state) || Measure(p.state) < Measure(old(p.state))
  {
    var ok := DeletePeeringAndService(p);
    if !ok {
      if p.state != old(p.state) {
        DismantlingLowers(old(p.state), p.state);
      }
      return Error;
    }
    ok := DeleteNetworkIpRange(p);
    if !ok {
      return Error;
    }
    return if ComponentsExist(p.state) then Waiting else Removed;
  }

  /** What a delete pass does, whether it ends with an error or not. */
  ghost predicate PassDone(s: State, t: State, reliable: bool) {
    && t.others == s.others && Measure(t) <= Measure(s)
    && (reliable ==> Measure(t) < Measure(s) || PendingOperation(t))
    // the instance comes first, and alone
    && (s.instance.None? <==> t.instance.None?)
    && (s.instance.Some? ==>
          t == s.(instance := t.instance) && InstanceStep(s.instance.value, t.instance.value, reliable))
    // the network goes with the last resource only: peering, then connection, then range
    && (s.others > 0 ==> t == s.(instance := t.instance, finalizer := t.finalizer))
    && Dismantles(s, t.(instance := s.instance, finalizer := s.finalizer))
    && (t.connection != s.connection ==> !t.peering)
    && (s.range && !t.range ==> !t.peering && (t.connection.None? || t.connection.value.deleting))
    && (s.range && !t.range && t.connection.Some? ==> !Refuses(t.connection.value))
    // the finalizer goes last
    && (!t.finalizer && s.finalizer ==> t.instance.None?)
    && (!t.finalizer && s.finalizer && t.others == 0 ==>
          Measure(t) == 0 && !t.peering && t.connection.None? && !t.range)
  }

  /**
   deleteCloudSQLInstance. No pass, failed or not, takes the deletion back; one without error
   either gets nearer the end or found a pending operation to wait for. The last resource loses
   its finalizer only when instance, peering, connection and range are all gone; an earlier one
   leaves the network alone.
   */
  method DeleteReconcile(p: Project) returns (r: Outcome)
    requires Coherent(p.state) && p.state.finalizer
    modifies p
    ensures Coherent(p.state) && PassDone(old(p.state), p.state, p.reliable)
    ensures !r.Error? ==> Measure(p.state) < Measure(old(p.state)) || PendingOperation(p.state)
    ensures r.Removed? <==> !p.state.finalizer
  {
    var ok := p.Answers();
    if !ok {
      return Error;
    }
    if p.state.instance.Some? {
      r := DeleteInstance(p);
      return;
    }
    ok := p.Answers();
    if !ok {
      return Error;
    }
    if p.state.others == 0 {
      r := DeleteNetwork(p);
      DismantlingLowers(old(p.state), p.state);
      if !r.Removed? {
        return;
      }
    }
    ok := p.Answers();
    if !ok {
      return Error;
    }
    p.state := p.state.(finalizer := false);
    GoneIffZero(p.state);
    return Removed;
  }

  /**
   Reconciles that are refused nothing, with the pending operations finishing in between, come
   to an end, whatever state earlier failed passes left behind; with the last resource nothing remains.
   */
  method Drain(p: Project) returns (ghost states: seq<State>, ghost passed: seq<State>)
    requires Coherent(p.state) && p.state.finalizer && p.reliable
    modifies p
    ensures !p.state.finalizer && p.state.instance.None?
    ensures p.state.others == 0 ==>
              Measure(p.state) == 0 && !p.state.peering && p.state.connection.None? && !p.state.range
    ensures Drained(states, passed) && states[0] == old(p.state) && states[|passed|] == p.state
  {
    states, passed := [p.state], [];
    while p.state.finalizer
      invariant Coherent(p.state)
      invariant !p.state.finalizer ==> p.state.instance.None? && (p.state.others == 0 ==> Measure(p.state) == 0)
      invariant Drained(states, passed) && states[0] == old(p.state) && states[|passed|] == p.state
      decreases Measure(p.state)
    {
      var r := DeleteReconcile(p);
      GoneIffZero(p.state);
      SettlingLowers(p.state);
      passed := passed + [p.state];
      p.state := Settled(p.state);
      states := states + [p.state];
    }
    GoneIffZero(p.state);
  }

  /** From each state to the next: one pass that is refused nothing, then the pending operations finish. */
  ghost predicate Drained(states: seq<State>, passed: seq<State>) {
    && |states| == |passed| + 1
    && (forall i :: 0 <= i < |passed| ==> PassDone(states[i], passed[i], true))
    && (forall i, j :: 0 <= i < |passed| && j == i + 1 ==> states[j] == Settled(passed[i]))
  }
}
