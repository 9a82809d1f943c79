/** The lease-based node lock: LockNode and CheckUnlock as the API calls they make, interleaved
over many maintenance objects and over several locks that share one lease store. */
module NodeLock {
  import opened Options
  import opened Orders

  /** The node n of lock l; leases are named by a function of it. */
  datatype Slot = Slot(lock: nat, node: string)

  /** The lease store: a lease name and the UIDs of its owner references. */
  type Leases = map<string, seq<string>>

  /** Between an object's API calls: about to create the lease it found missing, or to delete the
  lease it found to be its own. */
  datatype Pc = Resting | Creating(slot: Slot) | Deleting(slot: Slot)

  /** holds: LockNode answered true for the object and it has not begun to unlock since. */
  datatype State = State(leases: Leases, pc: map<string, Pc>, holds: set<(string, Slot)>, deleted: set<string>)

  datatype Step =
    | LockRead(o: string, slot: Slot)
    | LockCreate(o: string)
    | CreateFails(o: string, landed: bool)   // an error is reported; the create may have landed
    | UnlockRead(o: string, slot: Slot)
    | UnlockDelete(o: string)
    | DeleteFails(o: string, landed: bool)
    | DeleteObject(o: string)                // the maintenance object itself is deleted
    | Collect(o: string, slot: Slot)         // garbage collection of a deleted object's lease
    | Foreign(name: string, owners: seq<string>)  // a lease nobody here created

  function PcOf(s: State, o: string): Pc {
    if o in s.pc then s.pc[o] else Resting
  }

  function Owners(s: State, name: string): Option<seq<string>> {
    if name in s.leases then Some(s.leases[name]) else None
  }

  /** guarded: a lease is not garbage-collected between its owner's read and delete of it. */
  predicate Enabled(key: Slot -> string, guarded: bool, s: State, step: Step) {
    match step
    case LockRead(o, _) => PcOf(s, o).Resting?
    case LockCreate(o) => PcOf(s, o).Creating?
    case CreateFails(o, _) => PcOf(s, o).Creating?
    case UnlockRead(o, _) => PcOf(s, o).Resting?
    case UnlockDelete(o) => PcOf(s, o).Deleting?
    case DeleteFails(o, _) => PcOf(s, o).Deleting?
    case DeleteObject(_) => true
    case Collect(o, slot) => && o in s.deleted && Owners(s, key(slot)) == Some([o])
                             && (guarded ==> PcOf(s, o) != Deleting(slot))
    case Foreign(name, owners) => name !in s.leases && |owners| != 1
  }

  function Next(key: Slot -> string, s: State, step: Step): State {
    match step
    case LockRead(o, slot) =>
      if Owners(s, key(slot)) == Some([o]) then s.(holds := s.holds + {(o, slot)})
      else if Owners(s, key(slot)).Some? then s
      else s.(pc := s.pc[o := Creating(slot)])
    case LockCreate(o) =>
      var rested := s.(pc := s.pc[o := Resting]);
      if !PcOf(s, o).Creating? || key(PcOf(s, o).slot) in s.leases then rested
      else rested.(leases := s.leases[key(PcOf(s, o).slot) := [o]], holds := s.holds + {(o, PcOf(s, o).slot)})
    case CreateFails(o, landed) =>
      var rested := s.(pc := s.pc[o := Resting]);
      if !landed || !PcOf(s, o).Creating? || key(PcOf(s, o).slot) in s.leases then rested
      else rested.(leases := s.leases[key(PcOf(s, o).slot) := [o]])
    case UnlockRead(o, slot) =>
      var released := s.(holds := s.holds - {(o, slot)});
      if Owners(s, key(slot)) == Some([o]) then released.(pc := s.pc[o := Deleting(slot)]) else released
    case UnlockDelete(o) =>
      if !PcOf(s, o).Deleting? then s
      else s.(pc := s.pc[o := Resting], leases := s.leases - {key(PcOf(s, o).slot)})
    case DeleteFails(o, landed) =>
      if !PcOf(s, o).Deleting? then s
      else s.(pc := s.pc[o := Resting], leases := if landed then s.leases - {key(PcOf(s, o).slot)} else s.leases)
    case DeleteObject(o) => s.(deleted := s.deleted + {o})
    case Collect(o, slot) => s.(leases := s.leases - {key(slot)})
    case Foreign(name, owners) => s.(leases := s.leases[name := owners])
  }

  ghost predicate Injective(key: Slot -> string) {
    forall a, b :: key(a) == key(b) ==> a == b
  }

  /** A holder that still exists owns the lease, and whoever is about to delete a lease owns it. */
  ghost predicate Inv(key: Slot -> string, s: State) {
    && (forall o, slot :: (o, slot) in s.holds && o !in s.deleted ==> Owners(s, key(slot)) == Some([o]))
    && (forall o :: PcOf(s, o).Deleting? ==> Owners(s, key(PcOf(s, o).slot)) == Some([o]))
    && (forall o :: PcOf(s, o).Deleting? ==> (o, PcOf(s, o).slot) !in s.holds)
  }

  const START: State := State(map[], map[], {}, {})

  lemma StepKeepsInv(key: Slot -> string, s: State, step: Step)
    requires Injective(key) && Inv(key, s) && Enabled(key, true, s, step)
    ensures Inv(key, Next(key, s, step))
  {
    var s' := Next(key, s, step);
    forall p, slot | (p, slot) in s'.holds && p !in s'.deleted ensures Owners(s', key(slot)) == Some([p]) {
      assert (p, slot) in s.holds ==> Owners(s, key(slot)) == Some([p]);
    }
    forall p | PcOf(s', p).Deleting?
      ensures Owners(s', key(PcOf(s', p).slot)) == Some([p]) && (p, PcOf(s', p).slot) !in s'.holds
    {
      assert PcOf(s, p).Deleting? ==> Owners(s, key(PcOf(s, p).slot)) == Some([p]);
    }
  }

  ghost predicate IsRunFrom(key: Slot -> string, guarded: bool, s: State, trace: seq<State>, steps: seq<Step>) {
    && |trace| == |steps| + 1 && trace[0] == s
    && forall i :: 0 <= i < |steps| ==>
         Enabled(key, guarded, trace[i], steps[i]) && trace[i + 1] == Next(key, trace[i], steps[i])
  }

  ghost predicate IsRun(key: Slot -> string, guarded: bool, trace: seq<State>, steps: seq<Step>) {
    IsRunFrom(key, guarded, START, trace, steps)
  }

  lemma {:induction false} RunKeepsInv(key: Slot -> string, s: State, trace: seq<State>, steps: seq<Step>, i: nat)
    requires Injective(key) && Inv(key, s) && IsRunFrom(key, true, s, trace, steps) && i < |trace|
    ensures Inv(key, trace[i])
  {
    if i > 0 {
      RunKeepsInv(key, s, trace, steps, i - 1);
      StepKeepsInv(key, trace[i - 1], steps[i - 1]);
      assert trace[i - 1 + 1] == Next(key, trace[i - 1], steps[i - 1]);
    }
  }

  /** The existing objects that hold a slot. */
  ghost predicate Holds(s: State, o: string, slot: Slot) {
    (o, slot) in s.holds && o !in s.deleted
  }

  ghost predicate Exclusive(s: State) {
    forall o, p, slot :: Holds(s, o, slot) && Holds(s, p, slot) ==> o == p
  }

  lemma InvIsExclusive(key: Slot -> string, s: State)
    requires Inv(key, s)
    ensures Exclusive(s)
  {
    forall o, p, slot | Holds(s, o, slot) && Holds(s, p, slot) ensures o == p {
      assert Owners(s, key(slot)) == Some([o]) && Owners(s, key(slot)) == Some([p]);
      assert [o][0] == [p][0];
    }
  }

  /** Mutual exclusion: in every interleaving at most one existing object holds a node's lock. */
  lemma AtMostOneHolder(key: Slot -> string, trace: seq<State>, steps: seq<Step>, i: nat)
    requires Injective(key) && IsRun(key, true, trace, steps) && i < |trace|
    ensures Exclusive(trace[i])
  {
    RunKeepsInv(key, START, trace, steps, i);
    InvIsExclusive(key, trace[i]);
  }

  /** A held lease is removed by nobody: whatever step is taken, an existing object that holds a
  slot and does not itself start to unlock it or get deleted still owns the lease and holds it. */
  lemma OnlyHolderReleases(key: Slot -> string, trace: seq<State>, steps: seq<Step>, i: nat, o: string, slot: Slot)
    requires Injective(key) && IsRun(key, true, trace, steps) && i < |steps|
    requires Holds(trace[i], o, slot) && steps[i] != UnlockRead(o, slot) && steps[i] != DeleteObject(o)
    ensures Holds(trace[i + 1], o, slot) && Owners(trace[i + 1], key(slot)) == Some([o])
  {
    RunKeepsInv(key, START, trace, steps, i + 1);
    assert trace[i + 1] == Next(key, trace[i], steps[i]);
  }

  /** The slot a step works on, if it works on one. */
  function SlotOf(s: State, step: Step): Option<Slot> {
    match step
    case LockRead(_, slot) => Some(slot)
    case UnlockRead(_, slot) => Some(slot)
    case Collect(_, slot) => Some(slot)
    case LockCreate(o) => if PcOf(s, o).Creating? then Some(PcOf(s, o).slot) else None
    case CreateFails(o, _) => if PcOf(s, o).Creating? then Some(PcOf(s, o).slot) else None
    case UnlockDelete(o) => if PcOf(s, o).Deleting? then Some(PcOf(s, o).slot) else None
    case DeleteFails(o, _) => if PcOf(s, o).Deleting? then Some(PcOf(s, o).slot) else None
    case _ => None
  }

  /** Locks whose lease names never coincide do not interact: a step of one neither changes what
  the other's steps read nor who holds its slots. */
  lemma LocksDoNotInteract(key: Slot -> string, s: State, step: Step, other: Slot)
    requires Injective(key) && SlotOf(s, step).Some? && SlotOf(s, step).value != other
    ensures Owners(Next(key, s, step), key(other)) == Owners(s, key(other))
    ensures forall o :: (o, other) in Next(key, s, step).holds <==> (o, other) in s.holds
  {
  }

  // Garbage collection, exactly.

  /** Collecting a lease is safe if and only if its owner is not about to delete it: then, and only
  then, exclusion holds in every guarded continuation. */
  lemma CollectionIff(key: Slot -> string, s: State, o: string, slot: Slot)
    requires Injective(key) && Inv(key, s) && Enabled(key, false, s, Collect(o, slot))
    ensures (forall trace: seq<State>, steps: seq<Step>, i ::
               IsRunFrom(key, true, Next(key, s, Collect(o, slot)), trace, steps) && 0 <= i < |trace| ==>
                 Exclusive(trace[i]))
       <==> PcOf(s, o) != Deleting(slot)
  {
    var s' := Next(key, s, Collect(o, slot));
    if PcOf(s, o) != Deleting(slot) {
      StepKeepsInv(key, s, Collect(o, slot));
      forall trace: seq<State>, steps: seq<Step>, i | IsRunFrom(key, true, s', trace, steps) && 0 <= i < |trace|
        ensures Exclusive(trace[i])
      {
        RunKeepsInv(key, s', trace, steps, i);
        InvIsExclusive(key, trace[i]);
      }
    } else {
      var b, c := UnknownObjects(s);
      var trace, steps := TwoHolders(key, s', o, slot, b, c);
      assert !Exclusive(trace[|steps|]) by {
        assert Holds(trace[|steps|], b, slot) && Holds(trace[|steps|], c, slot);
      }
    }
  }

  /** Two objects the state has not heard of. */
  lemma UnknownObjects(s: State) returns (b: string, c: string)
    ensures b != c && b !in s.pc && c !in s.pc && b !in s.deleted && c !in s.deleted
  {
    b := FreshString(s.pc.Keys + s.deleted);
    c := FreshString(s.pc.Keys + s.deleted + {b});
  }

  lemma Extended(key: Slot -> string, guarded: bool, s: State, trace: seq<State>, steps: seq<Step>, step: Step)
    returns (trace': seq<State>, steps': seq<Step>)
    requires IsRunFrom(key, guarded, s, trace, steps) && Enabled(key, guarded, trace[|steps|], step)
    ensures steps' == steps + [step] && IsRunFrom(key, guarded, s, trace', steps')
    ensures trace'[|steps'|] == Next(key, trace[|steps|], step)
  {
    trace', steps' := trace + [Next(key, trace[|steps|], step)], steps + [step];
  }

  /** With the lease gone and its former owner still about to delete it, that delete removes the
  lease of whoever locked in between, and a third object locks too. */
  lemma TwoHolders(key: Slot -> string, s: State, o: string, slot: Slot, b: string, c: string)
    returns (trace: seq<State>, steps: seq<Step>)
    requires PcOf(s, o) == Deleting(slot) && key(slot) !in s.leases
    requires b != c && b !in s.pc && c !in s.pc && b !in s.deleted && c !in s.deleted
    ensures IsRunFrom(key, true, s, trace, steps)
    ensures Holds(trace[|steps|], b, slot) && Holds(trace[|steps|], c, slot)
  {
    trace, steps := [s], [];
    trace, steps := Extended(key, true, s, trace, steps, LockRead(b, slot));
    trace, steps := Extended(key, true, s, trace, steps, LockCreate(b));
    trace, steps := Extended(key, true, s, trace, steps, UnlockDelete(o));
    trace, steps := Extended(key, true, s, trace, steps, LockRead(c, slot));
    trace, steps := Extended(key, true, s, trace, steps, LockCreate(c));
  }

  /** Such a state is reached: an object locks, begins to unlock and is deleted. */
  lemma UnguardedCollectionReached(key: Slot -> string, slot: Slot, o: string)
    returns (trace: seq<State>, steps: seq<Step>)
    ensures IsRun(key, true, trace, steps)
    ensures var s := trace[|steps|];
      Enabled(key, false, s, Collect(o, slot)) && PcOf(s, o) == Deleting(slot)
  {
    trace, steps := [START], [];
    trace, steps := Extended(key, true, START, trace, steps, LockRead(o, slot));
    trace, steps := Extended(key, true, START, trace, steps, LockCreate(o));
    trace, steps := Extended(key, true, START, trace, steps, UnlockRead(o, slot));
    trace, steps := Extended(key, true, START, trace, steps, DeleteObject(o));
  }

  /** The two operations as the client runs them, nobody interfering: each is the two steps above
  in a row. */
  class LockClient {
    const key: Slot -> string
    var leases: Leases

    constructor (key: Slot -> string)
      ensures this.key == key && leases == map[]
    {
      this.key := key;
      leases := map[];
    }

    ghost function View(): State
      reads this
    {
      State(leases, map[], {}, {})
    }

    method LockNode(o: string, slot: Slot) returns (locked: bool)
      modifies this
      ensures var read := Next(key, old(View()), LockRead(o, slot));
        var after := if PcOf(read, o).Creating? then Next(key, read, LockCreate(o)) else read;
        leases == after.leases && (locked <==> (o, slot) in after.holds)
      ensures locked <==> Owners(View(), key(slot)) == Some([o])
      ensures leases == if key(slot) in old(leases) then old(leases) else old(leases)[key(slot) := [o]]
    {
      var name := key(slot);
      if name in leases {
        assert |leases[name]| == 1 && leases[name][0] == o <==> leases[name] == [o];
        return |leases[name]| == 1 && leases[name][0] == o;
      }
      leases := leases[name := [o]];
      return true;
    }

    method CheckUnlock(o: string, slot: Slot) returns (retryUnlock: bool)
      modifies this
      ensures var read := Next(key, old(View()), UnlockRead(o, slot));
        var after := if PcOf(read, o).Deleting? then Next(key, read, UnlockDelete(o)) else read;
        leases == after.leases
      ensures Owners(View(), key(slot)) != Some([o])
      ensures key(slot) in old(leases) && old(leases)[key(slot)] != [o] ==> leases == old(leases)
      ensures forall name :: name != key(slot) ==> Owners(View(), name) == Owners(old(View()), name)
      ensures retryUnlock <==> key(slot) in old(leases) && |old(leases)[key(slot)]| != 1
    {
      var name := key(slot);
      if name !in leases {
        return false;
      }
      if |leases[name]| != 1 {
        return true;
      }
      assert leases[name][0] == o <==> leases[name] == [o];
      if leases[name][0] == o {
        leases := leases - {name};
      }
      return false;
    }
  }
}
