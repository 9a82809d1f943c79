/** Runs of many node patchers against one API server object: no taint list is overwritten
that the writer did not see, and a patcher always reads its own writes. */
module NodePatcher {
  import opened Options
  import opened MergePatch
  import opened NodePatch

  // Optimistic concurrency on the live object.

  /** The object's documents, one per version; the index is the version. */
  type History = seq<Json>

  /** A write computed from `base`, read at version `at`. */
  datatype Write = Write(at: nat, base: Node, desired: Node)

  /** base was read at version at. It may be any projection of the node, as long as a writer that
  changes taints or cordon state sees them as they were; one that does not may see an empty spec. */
  ghost predicate ReadAt(h: History, w: Write, versionName: nat -> string) {
    && w.at < |h|
    && w.base.resourceVersion == versionName(w.at) != ""
    && (SpecChanged(w.base, w.desired) ==>
          && Get(Spec(h[w.at]), "taints") == Get(SpecJson(w.base), "taints")
          && Get(Spec(h[w.at]), "unschedulable") == Get(SpecJson(w.base), "unschedulable"))
  }

  /** The server refuses a patch that pins another version than the current one. */
  predicate Accepted(h: History, w: Write, versionName: nat -> string)
    requires h != []
  {
    var p := NodeMergePatch(w.base, w.desired);
    p.Some? && (PinnedVersion(p.value).Some? ==> PinnedVersion(p.value).value == JStr(versionName(|h| - 1)))
  }

  ghost predicate Injective(versionName: nat -> string) {
    forall i, j :: versionName(i) == versionName(j) ==> i == j
  }

  /** Write i was read from some version up to i and accepted at version i, giving version i + 1. */
  ghost predicate Applies(h: History, ws: seq<Write>, i: nat, versionName: nat -> string)
    requires i < |ws| < |h|
  {
    && ReadAt(h[..i + 1], ws[i], versionName)
    && Accepted(h[..i + 1], ws[i], versionName)
    && h[i + 1] == Patched(h[i], ws[i].base, ws[i].desired)
  }

  /** Histories that writes of any number of interleaved patchers produce. */
  ghost predicate Produced(h: History, ws: seq<Write>, versionName: nat -> string) {
    |h| == |ws| + 1 && h[0].JObj? && forall i :: 0 <= i < |ws| ==> Applies(h, ws, i, versionName)
  }

  lemma {:induction false} VersionsAreObjects(h: History, ws: seq<Write>, versionName: nat -> string, i: nat)
    requires Produced(h, ws, versionName) && i < |h|
    ensures h[i].JObj?
  {
    if i > 0 {
      VersionsAreObjects(h, ws, versionName, i - 1);
      assert Applies(h, ws, i - 1, versionName);
      PatchedIsApply(h[i - 1], ws[i - 1].base, ws[i - 1].desired);
    }
  }

  /** The taint list is kept, or the write replaces the list it was computed from. */
  ghost predicate KeepsOrReplacesOwn(w: Write, current: nat, live: Json, next: Json) {
    || Get(Spec(next), "taints") == Get(Spec(live), "taints")
    || (&& w.at == current
        && Get(Spec(live), "taints") == Get(SpecJson(w.base), "taints")
        && Get(Spec(next), "taints") == Get(SpecJson(w.desired), "taints"))
  }

  /** One accepted write: if it changes the taints or the cordon state, it was computed from the
  version it replaces, and otherwise it keeps both. */
  lemma AcceptedSawTheSpec(h: History, w: Write, versionName: nat -> string)
    requires h != [] && h[|h| - 1].JObj? && Injective(versionName)
    requires ReadAt(h, w, versionName) && Accepted(h, w, versionName)
    ensures var live, next := h[|h| - 1], Patched(h[|h| - 1], w.base, w.desired);
      && KeepsOrReplacesOwn(w, |h| - 1, live, next)
      && (SpecChanged(w.base, w.desired) ==> w.at == |h| - 1)
      && (!SpecChanged(w.base, w.desired) ==>
            && Get(Spec(next), "taints") == Get(Spec(live), "taints")
            && Get(Spec(next), "unschedulable") == Get(Spec(live), "unschedulable"))
  {
    VersionIsPinned(w.base, w.desired);
    SpecPatched(h[|h| - 1], w.base, w.desired);
  }

  /** In every run, each version keeps the taint list or replaces the very list its writer had
  read. */
  lemma TaintsNeverOverwritten(h: History, ws: seq<Write>, versionName: nat -> string, i: nat)
    requires Injective(versionName) && Produced(h, ws, versionName) && i < |ws|
    ensures KeepsOrReplacesOwn(ws[i], i, h[i], h[i + 1])
  {
    VersionsAreObjects(h, ws, versionName, i);
    AppliedSawTheSpec(h, ws, i, versionName);
  }

  lemma AppliedSawTheSpec(h: History, ws: seq<Write>, i: nat, versionName: nat -> string)
    requires Injective(versionName) && i < |ws| < |h| && Applies(h, ws, i, versionName) && h[i].JObj?
    ensures KeepsOrReplacesOwn(ws[i], i, h[i], h[i + 1])
  {
    assert h[..i + 1][i] == h[i];
    AcceptedSawTheSpec(h[..i + 1], ws[i], versionName);
  }

  // Read your writes.

  /** One node as one patcher sees it: the live version, the informer cache's version, the pending
  version map's entry, the last write this patcher reported, and what it is working on. */
  datatype View = View(live: nat, cache: nat, pending: Option<nat>, reported: nat, work: Work)

  datatype Work = Resting | Working(base: nat)

  datatype Step =
    | ForeignWrite                  // another client changes the object
    | CacheCatchesUp(version: nat)  // the informer delivers a newer version
    | Begin(hasCache: bool)         // Patch picks the node to mutate (currentNode)
    | NoChange                      // the mutation changes nothing
    | WriteOk(moves: bool)          // the patch is accepted, with or without a new version
    | WriteLost(landed: bool)       // the connection fails; the write may have landed
    | Conflict                      // the patch conflicts and the node is read again
    | GiveUp                        // an error is returned

  predicate Enabled(v: View, step: Step) {
    match step
    case ForeignWrite => true
    case CacheCatchesUp(version) => v.cache <= version <= v.live
    case Begin(_) => v.work.Resting?
    case _ => v.work.Working?
  }

  /** currentNode, given the pending version, the cached node and what a read would return: the
  version it settles on and the pending version it leaves. */
  function Picked(pending: Option<nat>, cached: Option<nat>, live: Option<nat>): (Option<nat>, Option<nat>) {
    if pending.None? then (if cached.Some? then cached else live, None)
    else if cached == pending then (cached, None)
    else (live, pending)
  }

  function Next(v: View, step: Step): View
    requires Enabled(v, step)
  {
    match step
    case ForeignWrite => v.(live := v.live + 1)
    case CacheCatchesUp(version) => v.(cache := version)
    case Begin(hasCache) =>
      var (base, pending) := Picked(v.pending, if hasCache then Some(v.cache) else None, Some(v.live));
      v.(work := Working(base.value), pending := pending)
    case NoChange => v.(work := Resting)
    case WriteOk(moves) =>
      var live := if moves then v.live + 1 else v.live;
      v.(live := live, pending := Some(live), reported := live, work := Resting)
    case WriteLost(landed) => v.(live := if landed then v.live + 1 else v.live)
    case Conflict => v.(work := Working(v.live))
    case GiveUp => v.(work := Resting)
  }

  ghost predicate SeesOwnWrites(v: View) {
    && v.cache <= v.live && v.reported <= v.live
    && (v.pending.None? ==> v.reported <= v.cache)
    && (v.pending.Some? ==> v.pending.value == v.reported)
    && (v.work.Working? ==> v.reported <= v.work.base <= v.live)
  }

  /** The state after the steps; None if one of them is not enabled when its turn comes. */
  function Run(v: View, steps: seq<Step>): Option<View> {
    if steps == [] then Some(v)
    else
      var before, last := Run(v, steps[..|steps| - 1]), steps[|steps| - 1];
      if before.Some? && Enabled(before.value, last) then Some(Next(before.value, last)) else None
  }

  /** Nothing written or pending yet. */
  predicate Fresh(v: View) {
    v.reported == 0 && v.pending == None && v.work == Resting && v.cache <= v.live
  }

  lemma StepSeesOwnWrites(v: View, step: Step)
    requires SeesOwnWrites(v) && Enabled(v, step)
    ensures SeesOwnWrites(Next(v, step))
  {
  }

  /** Every mutation of every run is computed from a node at least as new as the last write this
  patcher reported. (A prefix of a run is a run, so this is about every state of it.) */
  lemma {:induction false} ReadsItsOwnWrites(v: View, steps: seq<Step>)
    requires Fresh(v) && Run(v, steps).Some?
    ensures var v' := Run(v, steps).value;
      SeesOwnWrites(v') && (v'.work.Working? ==> v'.work.base >= v'.reported)
  {
    if steps != [] {
      ReadsItsOwnWrites(v, steps[..|steps| - 1]);
      StepSeesOwnWrites(Run(v, steps[..|steps| - 1]).value, steps[|steps| - 1]);
    }
  }

  // One call of Patch.

  /** The server's answer to one patch request. Whether a request landed whose connection failed, the
  patcher does not learn. */
  datatype Response =
    | Updated(version: nat)
    | Conflicted(refreshed: Option<nat>, retry: bool)  // the re-read node, or its failed read
    | Disconnected(landed: bool)                       // retried with the same node
    | Refused

  datatype PatchOutcome = Changed(version: nat) | Unchanged | Failed

  const MAX_ATTEMPTS: nat := 10

  /** What a call works with: the patch computed from the node at each version, the answer to each
  attempt, and the version it starts from. */
  datatype Call = Call(patchOf: nat -> Option<Json>, responses: nat -> Response, base: nat)

  /** The patch for the node at each version. */
  function Patches(read: nat -> Node, mutate: Node -> Node): nat -> Option<Json> {
    (version: nat) => NodeMergePatch(read(version), mutate(read(version)))
  }

  predicate Retried(r: Response) {
    r.Disconnected? || (r.Conflicted? && (r.refreshed.Some? || r.retry))
  }

  /** The version attempt i mutates: the node re-read after the latest conflict before it. */
  function BaseAt(c: Call, i: nat): nat {
    if i == 0 then c.base
    else if c.responses(i - 1).Conflicted? && c.responses(i - 1).refreshed.Some? then c.responses(i - 1).refreshed.value
    else BaseAt(c, i - 1)
  }

  function PatchAt(c: Call, i: nat): Option<Json> {
    c.patchOf(BaseAt(c, i))
  }

  /** Attempt i, if come to, sends a patch and is retried. */
  predicate SentInVain(c: Call, i: nat) {
    PatchAt(c, i).Some? && Retried(c.responses(i))
  }

  /** Attempt i is come to: every one before it was sent in vain. */
  ghost predicate Reached(c: Call, i: nat) {
    forall j :: 0 <= j < i ==> SentInVain(c, j)
  }

  /** The call is over at attempt i: the attempts are used up, there is nothing to write, or the
  answer is final. */
  predicate Ends(c: Call, i: nat) {
    i == MAX_ATTEMPTS || PatchAt(c, i).None? || !Retried(c.responses(i))
  }

  function OutcomeAt(c: Call, i: nat): PatchOutcome {
    if i == MAX_ATTEMPTS then Failed
    else if PatchAt(c, i).None? then Unchanged
    else if c.responses(i).Updated? then Changed(c.responses(i).version)
    else Failed
  }

  /** The outcome is that of the one attempt at which the call is over. */
  ghost predicate EndsWith(c: Call, outcome: PatchOutcome) {
    exists i :: 0 <= i <= MAX_ATTEMPTS && Reached(c, i) && Ends(c, i) && outcome == OutcomeAt(c, i)
  }

  lemma OutcomeIsUnique(c: Call, i: nat, j: nat)
    requires i <= MAX_ATTEMPTS && j <= MAX_ATTEMPTS && Reached(c, i) && Reached(c, j) && Ends(c, i) && Ends(c, j)
    ensures i == j
  {
    assert i < j ==> SentInVain(c, i);
    assert j < i ==> SentInVain(c, j);
  }

  /** What the answers mean. Changed(v): some request was answered Updated(v), its patch non-empty and
  computed from the node last re-read, and every request before it was retried. Unchanged: there was
  nothing to write for the node last re-read, and no request was answered with a version. */
  lemma ChangedMeans(c: Call, outcome: PatchOutcome)
    requires EndsWith(c, outcome)
    ensures forall v :: outcome == Changed(v) <==>
      exists i :: 0 <= i < MAX_ATTEMPTS && Reached(c, i) && PatchAt(c, i).Some? && c.responses(i) == Updated(v)
    ensures outcome == Unchanged <==> exists i :: 0 <= i < MAX_ATTEMPTS && Reached(c, i) && PatchAt(c, i).None?
  {
    var k :| 0 <= k <= MAX_ATTEMPTS && Reached(c, k) && Ends(c, k) && outcome == OutcomeAt(c, k);
    forall i | 0 <= i < MAX_ATTEMPTS && Reached(c, i) && Ends(c, i) ensures i == k { OutcomeIsUnique(c, i, k); }
  }

  /** The answer lets the call go on: the connection failed, or there was a conflict and the node was
  read again or its read is worth another attempt. */
  predicate GoesOn(r: Response) {
    match r
    case Disconnected(_) => true
    case Conflicted(refreshed, retry) => refreshed.Some? || retry
    case Updated(_) => false
    case Refused => false
  }

  /** Attempt i had something to write, and its answer lets the call go on. */
  predicate WentOn(c: Call, i: nat) {
    PatchAt(c, i).Some? && GoesOn(c.responses(i))
  }

  ghost predicate AllWentOn(c: Call, i: nat) {
    forall j :: 0 <= j < i ==> WentOn(c, j)
  }

  /** The ten attempts are used up, or a request was refused, or its conflict cannot be re-read. */
  predicate BrokenOff(c: Call, i: nat) {
    i == 10 || (PatchAt(c, i).Some? && (c.responses(i) == Refused || c.responses(i) == Conflicted(None, false)))
  }

  lemma AllWentOnIsReached(c: Call, i: nat)
    ensures AllWentOn(c, i) <==> Reached(c, i)
  {
    forall j: nat ensures WentOn(c, j) <==> SentInVain(c, j) {}
  }

  /** Failed, on the answers alone: every request so far went out and let the call go on, and then the
  call broke off. */
  lemma FailedMeans(c: Call, outcome: PatchOutcome)
    requires EndsWith(c, outcome)
    ensures outcome == Failed <==> exists i: nat :: i <= 10 && AllWentOn(c, i) && BrokenOff(c, i)
  {
    var k :| 0 <= k <= MAX_ATTEMPTS && Reached(c, k) && Ends(c, k) && outcome == OutcomeAt(c, k);
    AllWentOnIsReached(c, k);
    if i: nat :| i <= 10 && AllWentOn(c, i) && BrokenOff(c, i) {
      AllWentOnIsReached(c, i);
      OutcomeIsUnique(c, i, k);
    }
    assert outcome == Failed ==> BrokenOff(c, k);
  }

  /** So lost connections and conflicts cost attempts and nothing else: a call whose first k requests,
  fewer than ten, are lost and whose next one is accepted has written. */
  lemma LostRequestsAreRetried(c: Call, k: nat, version: nat, outcome: PatchOutcome)
    requires EndsWith(c, outcome) && k < 10 && c.patchOf(c.base).Some?
    requires (forall j :: 0 <= j < k ==> c.responses(j).Disconnected?) && c.responses(k) == Updated(version)
    ensures outcome == Changed(version)
  {
    forall j | 0 <= j <= k ensures BaseAt(c, j) == c.base { BaseKept(c, j); }
    forall j | 0 <= j < k ensures SentInVain(c, j) { assert c.responses(j).Disconnected?; }
    var i :| 0 <= i <= MAX_ATTEMPTS && Reached(c, i) && Ends(c, i) && outcome == OutcomeAt(c, i);
    OutcomeIsUnique(c, i, k);
  }

  lemma {:induction false} BaseKept(c: Call, k: nat)
    requires forall j :: 0 <= j < k ==> c.responses(j).Disconnected?
    ensures BaseAt(c, k) == c.base
  {
    if k > 0 {
      assert c.responses(k - 1).Disconnected?;
      BaseKept(c, k - 1);
    }
  }

  /** After a conflict the next patch is computed from the node read again. */
  lemma ConflictIsRecomputed(c: Call, reread: nat, version: nat, outcome: PatchOutcome)
    requires EndsWith(c, outcome) && c.patchOf(c.base).Some?
    requires c.responses(0).Conflicted? && c.responses(0).refreshed == Some(reread)
    requires c.responses(1) == Updated(version)
    ensures outcome == if c.patchOf(reread).Some? then Changed(version) else Unchanged
  {
    assert BaseAt(c, 0) == c.base && BaseAt(c, 1) == reread && SentInVain(c, 0);
    var i :| 0 <= i <= MAX_ATTEMPTS && Reached(c, i) && Ends(c, i) && outcome == OutcomeAt(c, i);
    OutcomeIsUnique(c, i, 1);
  }

  /** The API server is asked exactly when there is no cached node, or a write is pending that the
  cached node is not the result of; and the pending entry goes exactly when it is. */
  lemma ReadNeededIff(pending: Option<nat>, cached: Option<nat>)
    ensures (forall live :: Picked(pending, cached, live).0 == live)
       <==> cached.None? || (pending.Some? && pending != cached)
    ensures forall live :: Picked(pending, cached, live).1 == if pending == cached then None else pending
    ensures !(cached.None? || (pending.Some? && pending != cached)) ==>
      forall live :: Picked(pending, cached, live).0 == cached
  {
    assert cached.Some? ==> Picked(pending, cached, None).0 == None || Picked(pending, cached, None).0 == cached;
  }

  class Patcher {
    var pendingVersions: map<string, nat>

    ghost function Pending(node: string): Option<nat>
      reads this
    {
      if node in pendingVersions then Some(pendingVersions[node]) else None
    }

    constructor ()
      ensures pendingVersions == map[]
    {
      pendingVersions := map[];
    }

    /** currentNode: the version to mutate, None when the read it needs fails. */
    method PickVersion(node: string, cached: Option<nat>, live: Option<nat>) returns (current: Option<nat>)
      modifies this
      ensures (current, Pending(node)) == Picked(old(Pending(node)), cached, live)
      ensures forall other :: other != node ==> Pending(other) == old(Pending(other))
    {
      if node !in pendingVersions {
        if cached.Some? {
          return cached;
        }
        return live;
      }
      if cached.Some? && cached.value == pendingVersions[node] {
        pendingVersions := pendingVersions - {node};
        return cached;
      }
      return live;
    }

    method Patch(node: string, cached: Option<nat>, live: Option<nat>, read: nat -> Node, mutate: Node -> Node,
                 responses: nat -> Response)
      returns (outcome: PatchOutcome)
      modifies this
      ensures var (picked, kept) := Picked(old(Pending(node)), cached, live);
        && (picked.None? ==> outcome == Failed)
        && (picked.Some? ==> EndsWith(Call(Patches(read, mutate), responses, picked.value), outcome))
        && Pending(node) == PendingAfter(kept, outcome)
      ensures forall other :: other != node ==> Pending(other) == old(Pending(other))
    {
      var chosen := PickVersion(node, cached, live);
      if chosen.None? {
        return Failed;
      }
      outcome := RunAttempts(Call(Patches(read, mutate), responses, chosen.value));
      if outcome.Changed? {
        pendingVersions := pendingVersions[node := outcome.version];
      }
    }
  }

  function PendingAfter(kept: Option<nat>, outcome: PatchOutcome): Option<nat> {
    if outcome.Changed? then Some(outcome.version) else kept
  }

  /** The retry loop. */
  method RunAttempts(c: Call) returns (outcome: PatchOutcome)
    ensures EndsWith(c, outcome)
  {
    var current := c.base;
    for i := 0 to MAX_ATTEMPTS
      invariant Reached(c, i) && current == BaseAt(c, i)
    {
      if c.patchOf(current).None? {
        assert Ends(c, i) && OutcomeAt(c, i) == Unchanged;
        return Unchanged;
      }
      var response := c.responses(i);
      if response.Updated? {
        assert Ends(c, i) && OutcomeAt(c, i) == Changed(response.version);
        return Changed(response.version);
      }
      if response.Refused? || (response.Conflicted? && response.refreshed.None? && !response.retry) {
        assert Ends(c, i) && OutcomeAt(c, i) == Failed;
        return Failed;
      }
      assert SentInVain(c, i);
      if response.Conflicted? && response.refreshed.Some? {
        current := response.refreshed.value;
      }
    }
    assert Ends(c, MAX_ATTEMPTS) && OutcomeAt(c, MAX_ATTEMPTS) == Failed;
    return Failed;
  }

  // A call of Patch is a run of steps.

  /** What is known of the live version before attempt i: it has come at least this far. */
  function LiveAt(c: Call, live: nat, i: nat): nat {
    if i == 0 then live
    else match c.responses(i - 1)
      case Conflicted(refreshed, _) => if refreshed.Some? then refreshed.value else LiveAt(c, live, i - 1)
      case Disconnected(landed) => LiveAt(c, live, i - 1) + if landed then 1 else 0
      case _ => LiveAt(c, live, i - 1)
  }

  predicate CurrentAt(c: Call, live: nat, i: nat) {
    match c.responses(i)
    case Updated(version) => version >= LiveAt(c, live, i)
    case Conflicted(refreshed, _) => refreshed.Some? ==> refreshed.value >= LiveAt(c, live, i)
    case _ => true
  }

  /** The server never answers with a version older than one there has already been. */
  ghost predicate Current(c: Call, live: nat) {
    forall i: nat :: CurrentAt(c, live, i)
  }

  predicate IsMiddle(step: Step) {
    step.ForeignWrite? || step.WriteLost? || step.Conflict?
  }

  lemma {:induction false} RunForeignWrites(v: View, steps: seq<Step>, k: nat) returns (longer: seq<Step>)
    requires Run(v, steps).Some?
    ensures var v' := Run(v, steps).value;
      Run(v, longer) == Some(v'.(live := v'.live + k))
    ensures longer == steps + seq(k, _ => ForeignWrite)
  {
    longer := steps;
    if k > 0 {
      var shorter := RunForeignWrites(v, steps, k - 1);
      longer := shorter + [ForeignWrite];
      assert longer[..|longer| - 1] == shorter;
    }
  }

  lemma RunOneMore(v: View, steps: seq<Step>, step: Step)
    requires Run(v, steps).Some? && Enabled(Run(v, steps).value, step)
    ensures Run(v, steps + [step]) == Some(Next(Run(v, steps).value, step))
  {
    assert (steps + [step])[..|steps|] == steps;
  }

  /** The state in which attempt i is made. */
  function Trying(c: Call, v: View, i: nat): View {
    v.(live := LiveAt(c, v.live, i), work := Working(BaseAt(c, i)))
  }

  /** One attempt that is retried, as steps. */
  lemma AttemptIsSteps(c: Call, v: View, steps: seq<Step>, i: nat) returns (longer: seq<Step>)
    requires Run(v, steps) == Some(Trying(c, v, i)) && SentInVain(c, i) && CurrentAt(c, v.live, i)
    requires forall k :: 0 <= k < |steps| ==> IsMiddle(steps[k])
    ensures Run(v, longer) == Some(Trying(c, v, i + 1))
    ensures forall k :: 0 <= k < |longer| ==> IsMiddle(longer[k])
  {
    longer := steps;
    var step := WriteLost(c.responses(i).Disconnected? && c.responses(i).landed);
    if c.responses(i).Conflicted? && c.responses(i).refreshed.Some? {
      longer := RunForeignWrites(v, steps, c.responses(i).refreshed.value - LiveAt(c, v.live, i));
      step := Conflict;
    }
    RunOneMore(v, longer, step);
    longer := longer + [step];
  }

  /** The attempts before the i-th, as steps. */
  lemma {:induction false} AttemptsAreSteps(c: Call, v: View, i: nat) returns (steps: seq<Step>)
    requires v.work == Working(c.base) && Reached(c, i) && Current(c, v.live)
    ensures Run(v, steps) == Some(Trying(c, v, i))
    ensures forall k :: 0 <= k < |steps| ==> IsMiddle(steps[k])
  {
    steps := [];
    if i > 0 {
      assert SentInVain(c, i - 1) && CurrentAt(c, v.live, i - 1);
      steps := AttemptsAreSteps(c, v, i - 1);
      steps := AttemptIsSteps(c, v, steps, i - 1);
    }
  }

  /** The last step of a call. */
  predicate IsFinal(step: Step, outcome: PatchOutcome) {
    match outcome
    case Changed(_) => step.WriteOk?
    case Unchanged => step.NoChange?
    case Failed => step.GiveUp?
  }

  function After(v: View, kept: Option<nat>, outcome: PatchOutcome): View {
    var settled := v.(pending := PendingAfter(kept, outcome), work := Resting);
    if outcome.Changed? then settled.(live := outcome.version, reported := outcome.version) else settled
  }

  lemma LastAttemptIsStep(c: Call, v: View, steps: seq<Step>, i: nat, mid: View) returns (longer: seq<Step>, last: Step)
    requires Run(v, steps) == Some(mid) && mid.work.Working? && mid.live == LiveAt(c, v.live, i)
    requires i <= MAX_ATTEMPTS && Ends(c, i) && Current(c, v.live)
    requires forall k :: 0 <= k < |steps| ==> IsMiddle(steps[k])
    ensures forall k :: 0 <= k < |longer| ==> IsMiddle(longer[k])
    ensures IsFinal(last, OutcomeAt(c, i)) && Run(v, longer + [last]) == Some(After(mid, mid.pending, OutcomeAt(c, i)))
  {
    longer := steps;
    var outcome := OutcomeAt(c, i);
    assert CurrentAt(c, v.live, i);
    if outcome.Changed? {
      var moves := outcome.version > mid.live;
      longer := RunForeignWrites(v, steps, outcome.version - mid.live - if moves then 1 else 0);
      last := WriteOk(moves);
    } else {
      last := if outcome.Unchanged? then NoChange else GiveUp;
    }
    RunOneMore(v, longer, last);
  }

  /** Every call of Patch is a run of the protocol: it begins, its attempts are lost or conflict while
  others write, and it ends by a write, without a change or giving up; and it leaves the pending
  version that `Patch` leaves. So what is proved of runs is proved of calls. */
  lemma PatchCallIsRun(v: View, hasCache: bool, c: Call, outcome: PatchOutcome) returns (middle: seq<Step>, last: Step)
    requires v.work == Resting
    requires Picked(v.pending, if hasCache then Some(v.cache) else None, Some(v.live)).0 == Some(c.base)
    requires EndsWith(c, outcome) && Current(c, v.live)
    ensures forall k :: 0 <= k < |middle| ==> IsMiddle(middle[k])
    ensures IsFinal(last, outcome)
    ensures var kept := Picked(v.pending, if hasCache then Some(v.cache) else None, Some(v.live)).1;
      var v' := Run(v, [Begin(hasCache)] + middle + [last]);
      && v'.Some? && v'.value.work == Resting
      && v'.value.pending == PendingAfter(kept, outcome)
      && v'.value.reported == (if outcome.Changed? then outcome.version else v.reported)
  {
    var i :| 0 <= i <= MAX_ATTEMPTS && Reached(c, i) && Ends(c, i) && outcome == OutcomeAt(c, i);
    var begun := Next(v, Begin(hasCache));
    var steps := AttemptsAreSteps(c, begun, i);
    middle, last := LastAttemptIsStep(c, begun, steps, i, Run(begun, steps).value);
    RunAfterFirst(v, Begin(hasCache), middle + [last]);
    assert [Begin(hasCache)] + (middle + [last]) == [Begin(hasCache)] + middle + [last];
  }

  lemma {:induction false} RunAfterFirst(v: View, first: Step, rest: seq<Step>)
    requires Enabled(v, first)
    ensures Run(v, [first] + rest) == Run(Next(v, first), rest)
  {
    if rest == [] {
      assert [first] + rest == [first] && [first][..0] == [];
      assert Run(v, [first][..0]) == Some(v);
    } else {
      RunAfterFirst(v, first, rest[..|rest| - 1]);
      assert ([first] + rest)[..|rest|] == [first] + rest[..|rest| - 1];
    }
  }

  /** So every patch a call sends is computed from a node at least as new as the last reported write. */
  lemma {:induction false} PatchReadsItsOwnWrites(v: View, hasCache: bool, c: Call, i: nat)
    requires SeesOwnWrites(v) && v.work == Resting && Reached(c, i)
    requires Picked(v.pending, if hasCache then Some(v.cache) else None, Some(v.live)).0 == Some(c.base)
    requires Current(c, v.live)
    ensures v.reported <= BaseAt(c, i) && v.live <= LiveAt(c, v.live, i)
  {
    if i > 0 {
      PatchReadsItsOwnWrites(v, hasCache, c, i - 1);
      assert CurrentAt(c, v.live, i - 1);
    }
  }
}
