/**
 The driver of pkg/storagemigration/migration.go as it is written: methods that fill the fields of
 `Migration`, one API call at a time, and record events. The rest of the cluster is a `World` whose
 script says what everyone else does before each call and how the call turns out, so a statement
 about every script is a statement about every interleaving and every failure. Each call of the
 driver is proved to be the step that the transition system takes for its replica.
 */
module StorageDriver {
  import opened Common
  import opened StorageTypes
  import opened StorageSupport
  import opened StorageProtocol
  import opened StorageSafety
  import opened StorageLive
  import StorageProgress

  // ---------------------------------------------------------------- the world

  /** Steps of others, then the server's reply; `error` is what a failed call reports. */
  datatype Turn = Turn(before: seq<Action>, reply: Reply, error: CallError, ctx: Option<CallError>)

  datatype Response<+T> = Got(value: T) | NotFound | AlreadyExists | CallFailed(error: CallError)

  predicate ByOthers(me: nat, a: Action) {
    (a.Start? || a.Crash? || a.Call?) ==> a.i != me
  }

  /** The script's actions of others; an entry that would act for this replica is skipped. */
  function OthersOnly(me: nat, actions: seq<Action>): seq<Action> {
    if actions == [] then []
    else (if ByOthers(me, actions[0]) then [actions[0]] else []) + OthersOnly(me, actions[1..])
  }

  lemma {:induction false} OthersKeep(digest: string -> string, me: nat, s: System, actions: seq<Action>)
    requires Inv(s) && me in s.ops
    ensures var t := Exec(digest, s, OthersOnly(me, actions));
            Inv(t) && me in t.ops && t.ops[me] == s.ops[me]
    decreases |actions|
  {
    if actions != [] {
      if ByOthers(me, actions[0]) {
        StepKeepsInv(digest, s, actions[0]);
        OthersKeepMyState(digest, me, s, actions[0]);
        OthersKeep(digest, me, Apply(digest, s, actions[0]), actions[1..]);
        assert OthersOnly(me, actions)[1..] == OthersOnly(me, actions[1..]);
      } else {
        OthersKeep(digest, me, s, actions[1..]);
        assert OthersOnly(me, actions) == OthersOnly(me, actions[1..]);
      }
    }
  }

  lemma OthersKeepMyState(digest: string -> string, me: nat, s: System, a: Action)
    requires ByOthers(me, a) && me in s.ops
    ensures var t := Apply(digest, s, a); me in t.ops && t.ops[me] == s.ops[me]
  {
    if a.Call? && a.i in s.ops {
      var op := s.ops[a.i];
      var t := CallStep(digest, s, a.i, op, a.reply);
      assert a.i in t.ops && t.ops == s.ops[a.i := t.ops[a.i]];
    }
  }

  /** A turn that does not disturb an attempt: calm traffic, a delivered answer, a live context. */
  ghost predicate GoodTurn(digest: string -> string, w: StorageProgress.Attempt, t: Turn) {
    && t.ctx.None? && t.reply.outcome.Delivered? && t.reply.uid != ""
    && forall k :: 0 <= k < |t.before| ==> Calm(digest, w, t.before[k])
  }

  lemma {:induction false} CalmIsByOthers(digest: string -> string, w: StorageProgress.Attempt, actions: seq<Action>)
    requires forall k :: 0 <= k < |actions| ==> Calm(digest, w, actions[k])
    ensures OthersOnly(w.i, actions) == actions
  {
    if actions != [] {
      CalmIsByOthers(digest, w, actions[1..]);
      assert actions == [actions[0]] + actions[1..];
    }
  }

  lemma TurnProgress(digest: string -> string, w: StorageProgress.Attempt, s: System, t: Turn)
    requires InProgress(digest, w, s) && GoodTurn(digest, w, t) && !s.ops[w.i].Discovering?
    requires Inv(s)
    ensures var seen := Exec(digest, s, OthersOnly(w.i, t.before));
            && InProgress(digest, w, seen)
            && InProgress(digest, w, CallStep(digest, seen, w.i, seen.ops[w.i], t.reply))
  {
    CalmIsByOthers(digest, w, t.before);
    CalmRun(digest, w, s, t.before);
    OthersKeep(digest, w.i, s, t.before);
    CallProgress(digest, w, Exec(digest, s, t.before), t.reply);
  }

  class World {
    const digest: string -> string
    const me: nat
    const exhausted: CallError
    var state: System
    var script: seq<Turn>
    ghost const initial: System
    ghost const plan: StorageProgress.Attempt
    ghost var run: seq<Action>

    constructor (digest: string -> string, me: nat, exhausted: CallError, state: System, script: seq<Turn>,
                 ghost plan: StorageProgress.Attempt)
      requires exhausted != Refused
      requires Inv(state)
      ensures Valid() && this.digest == digest && this.me == me && this.exhausted == exhausted
      ensures this.state == state && this.script == script && this.initial == state && this.plan == plan
    {
      this.digest, this.me, this.exhausted := digest, me, exhausted;
      this.state, this.script, this.initial, this.plan, this.run := state, script, state, plan, [];
    }

    /** The present state is where the run so far leads from the initial one. */
    ghost predicate Valid()
      reads this
    {
      Inv(state) && exhausted != Refused && state == Exec(digest, initial, run)
    }

    ghost predicate At(op: Op)
      reads this
    {
      me in state.ops && state.ops[me] == op
    }

    /** The rest of the script leaves the planned attempt undisturbed. */
    ghost predicate Smooth()
      reads this
    {
      plan.i == me && forall k :: 0 <= k < |script| ==> GoodTurn(digest, plan, script[k])
    }

    /** The planned attempt is under way and will not be disturbed. */
    ghost predicate Going()
      reads this
    {
      Smooth() && InProgress(digest, plan, state)
    }

    /** The planned attempt can start here, be it the first or one that resumes. */
    ghost predicate Startable()
      reads this
    {
      Smooth() && plan.Needed() && state.crd == Some(plan.c) && StorageProgress.Resumable(digest, plan, state)
    }

    /** ctx.Err(): the context is over once the script is. */
    method ContextError() returns (error: Option<CallError>)
      ensures error.None? ==> script != []
      ensures Smooth() && error.Some? ==> script == []
    {
      if script == [] {
        error := Some(exhausted);
      } else {
        error := script[0].ctx;
      }
    }

    /** One step of the transition system. */
    method Act(a: Action)
      requires Valid()
      modifies `state, `run
      ensures Valid() && state == Apply(digest, old(state), a) && run == old(run) + [a]
    {
      StepKeepsInv(digest, state, a);
      ExecAppend(digest, initial, run, [a]);
      assert [a][1..] == [];
      assert Exec(digest, state, [a]) == Exec(digest, Apply(digest, state, a), []);
      state, run := Apply(digest, state, a), run + [a];
    }

    method Begin()
      requires Valid()
      modifies `state, `run
      ensures Valid() && At(Validating)
      ensures old(run) <= run && script == old(script)
      ensures old(Startable()) ==> Going()
    {
      Act(Start(me));
    }

    /** One API call of this replica: others move first, then the server answers. */
    method Step() returns (turn: Option<Turn>, ghost seen: System)
      requires Valid() && me in state.ops
      modifies `state, `script, `run
      ensures Valid() && old(run) <= run
      ensures turn.None? ==> state == old(state) && script == old(script) == []
      ensures turn.Some? ==> |script| < |old(script)|
      ensures turn.Some? ==>
        && Inv(seen) && me in seen.ops && seen.ops[me] == old(state.ops[me])
        && state == CallStep(digest, seen, me, seen.ops[me], turn.value.reply)
      ensures |script| >= |old(script)| - 1
      ensures old(Going()) && !old(state.ops[me]).Discovering? ==>
        Going() && (turn.Some? ==> turn.value.reply.outcome.Delivered? && InProgress(digest, plan, seen))
    {
      seen := state;
      if script == [] {
        return None, seen;
      }
      var t := script[0];
      script := script[1..];
      var others := OthersOnly(me, t.before);
      if old(Going()) && !state.ops[me].Discovering? {
        TurnProgress(digest, plan, state, t);
      }
      OthersKeep(digest, me, state, t.before);
      ExecAppend(digest, initial, run, others);
      state, run := Exec(digest, state, others), run + others;
      seen := state;
      Act(Call(me, t.reply));
      return Some(t), seen;
    }

    method GetCrd() returns (r: Response<Crd>)
      requires Valid() && At(Validating)
      modifies `state, `script, `run
      ensures Valid() && old(run) <= run
      ensures r.Got? ==> At(AfterGet(Some(r.value)))
      ensures r.NotFound? ==> At(AfterGet(None))
      ensures !r.AlreadyExists?
      ensures |script| >= |old(script)| - 1
      ensures old(Going()) ==> Going() && (r == Got(plan.c) || (r.CallFailed? && old(script) == []))
    {
      var turn, seen := Step();
      if turn.None? {
        return CallFailed(exhausted);
      }
      if !turn.value.reply.outcome.Delivered? {
        return CallFailed(turn.value.error);
      }
      assert state.crd == seen.crd;
      return if state.crd.Some? then Got(state.crd.value) else NotFound;
    }

    /** Discovery reads no state of the cluster; the choice moves the replica on. */
    method Choose(api: Api, ghost crd: Crd, ghost storage: string)
      requires Valid() && At(Discovering(crd, storage))
      modifies `state, `run
      ensures Valid() && At(Creating(crd, storage, api))
      ensures old(run) <= run
      ensures old(Going()) && api == plan.api ==> Going()
    {
      if Going() && api == plan.api {
        CallProgress(digest, plan, state, Reply(Delivered, "", Some(api)));
      }
      Act(Call(me, Reply(Delivered, "", Some(api))));
    }

    method CreateRequest(expected: Request, ghost crd: Crd, ghost storage: string, ghost api: Api)
      returns (r: Response<Request>)
      requires Valid() && At(Creating(crd, storage, api)) && expected == NewRequest(digest, crd, storage, api)
      modifies `state, `script, `run
      ensures Valid() && old(run) <= run
      ensures r.Got? ==> At(Adopt(digest, crd, storage, api, r.value))
      ensures r.AlreadyExists? ==> At(Resuming(crd, storage, api))
      ensures !r.NotFound?
      ensures |script| >= |old(script)| - 1
      ensures old(Going()) ==> Going() && (r.Got? || r.AlreadyExists? || old(script) == [])
    {
      var op := state.ops[me];
      var key := Key(op.api, expected.name);
      var turn, seen := Step();
      if turn.None? {
        return CallFailed(exhausted);
      }
      if !turn.value.reply.outcome.Delivered? {
        return CallFailed(turn.value.error);
      }
      assert state == CreateCall(digest, seen, me, op, turn.value.reply);
      if state.ops[me].Resuming? {
        return AlreadyExists;
      }
      return Got(state.requests[key]);
    }

    method ResumeRequest(name: string, ghost crd: Crd, ghost storage: string, api: Api) returns (r: Response<Request>)
      requires Valid() && At(Resuming(crd, storage, api)) && name == NewRequest(digest, crd, storage, api).name
      modifies `state, `script, `run
      ensures Valid() && old(run) <= run
      ensures r.Got? ==> At(Adopt(digest, crd, storage, api, r.value))
      ensures !r.AlreadyExists?
      ensures |script| >= |old(script)| - 1
      ensures old(Going()) ==> Going() && (r.Got? || old(script) == [])
    {
      var turn, seen := Step();
      if turn.None? {
        return CallFailed(exhausted);
      }
      if !turn.value.reply.outcome.Delivered? {
        return CallFailed(turn.value.error);
      }
      var key := Key(api, name);
      assert state.requests == seen.requests;
      return if key in state.requests then Got(state.requests[key]) else NotFound;
    }

    method PollRequest(name: string, api: Api, ghost op: Op) returns (r: Response<Request>)
      requires Valid() && op.Polling? && At(op) && api == op.api
      requires name == NewRequest(digest, op.crd, op.storage, op.api).name
      modifies `state, `script, `run
      ensures Valid() && old(run) <= run
      ensures r.Got? ==> At(Observe(digest, op, r.value))
      ensures !r.AlreadyExists?
      ensures old(script) != [] ==> |script| < |old(script)|
      ensures |script| >= |old(script)| - 1
      ensures old(Going()) ==> Going() && (r.Got? || old(script) == [])
    {
      var turn, seen := Step();
      if turn.None? {
        return CallFailed(exhausted);
      }
      if !turn.value.reply.outcome.Delivered? {
        return CallFailed(turn.value.error);
      }
      var key := Key(api, name);
      assert state.requests == seen.requests;
      return if key in state.requests then Got(state.requests[key]) else NotFound;
    }

    method RereadCrd(ghost op: Op) returns (r: Response<Crd>)
      requires Valid() && op.Rereading? && At(op)
      modifies `state, `script, `run
      ensures Valid() && old(run) <= run
      ensures r.Got? ==> At(AfterReread(op, r.value))
      ensures r.Got? ==> state.crd == Some(r.value)
      ensures !r.AlreadyExists?
      ensures |script| >= |old(script)| - 1
      ensures old(Going()) ==> Going() && (r.Got? || old(script) == [])
    {
      var turn, seen := Step();
      if turn.None? {
        return CallFailed(exhausted);
      }
      if !turn.value.reply.outcome.Delivered? {
        return CallFailed(turn.value.error);
      }
      assert state.crd == seen.crd;
      return if state.crd.Some? then Got(state.crd.value) else NotFound;
    }

    /** Status patch with a resource-version guard; a guard that does not match is a conflict. */
    method PatchHistory(resourceVersion: nat, history: seq<string>, ghost op: Op) returns (r: Response<()>)
      requires Valid() && op.Patching? && At(op)
      requires resourceVersion == op.current.resourceVersion && history == [op.storage]
      modifies `state, `script, `run
      ensures Valid() && old(run) <= run
      ensures r.Got? || r.CallFailed?
      ensures r.Got? ==> At(Deleting(op.crd, op.storage, op.api, op.request))
      ensures r.Got? ==>
        state.crd.Some? && state.crd.value.uid == op.current.uid && state.crd.value.storedVersions == history
      ensures |script| >= |old(script)| - 1
      ensures old(Going()) ==> Going() && (r.Got? || old(script) == [])
    {
      var turn, seen := Step();
      if turn.None? {
        return CallFailed(exhausted);
      }
      if !turn.value.reply.outcome.Delivered? {
        return CallFailed(turn.value.error);
      }
      assert state == PatchCall(seen, me, op, turn.value.reply);
      assert OpInv(seen, op);
      return if state.ops[me].Deleting? then Got(()) else CallFailed(Refused);
    }

    /** Delete with a UID precondition. */
    method DeleteRequest(name: string, uid: string, ghost op: Op) returns (r: Response<()>)
      requires Valid() && op.Deleting? && At(op) && name == op.request.name && uid == op.request.uid
      modifies `state, `script, `run
      ensures Valid() && old(run) <= run
      ensures r.Got? || r.CallFailed?
      ensures r.Got? ==> At(Stopped(CleanedUp)) && Key(op.api, name) !in state.requests
      ensures old(Going()) ==> Going() && (r.Got? || old(script) == [])
    {
      var turn, seen := Step();
      if turn.None? {
        return CallFailed(exhausted);
      }
      if !turn.value.reply.outcome.Delivered? {
        return CallFailed(turn.value.error);
      }
      assert state == DeleteCall(digest, seen, me, op, turn.value.reply);
      return if state.ops[me] == Stopped(CleanedUp) then Got(()) else CallFailed(Refused);
    }
  }

  // ---------------------------------------------------------------- events

  datatype Reason =
    | NotNeededReason | ValidatedReason | DiscoveredReason | SucceededReason | CleanedUpReason | FailedReason

  datatype EventAction = ValidateAction | DiscoverAction | RunAction | CleanupAction

  datatype EventType = Normal | Warning

  datatype Event = Event(reason: Reason, action: EventAction, regardingUid: Option<string>, eventType: EventType)

  datatype Kind = Kind(reason: Reason, action: EventAction)

  const MILESTONES: seq<Kind> := [
    Kind(ValidatedReason, ValidateAction),
    Kind(DiscoveredReason, DiscoverAction),
    Kind(SucceededReason, RunAction),
    Kind(CleanedUpReason, CleanupAction)
  ]

  const SUCCEEDED: Kind := MILESTONES[2]

  function Kinds(events: seq<Event>): seq<Kind> {
    seq(|events|, i requires 0 <= i < |events| => Kind(events[i].reason, events[i].action))
  }

  /** The first `n` steps completed and nothing else was reported. */
  ghost predicate Reached(trace: seq<Event>, n: nat) {
    n <= |MILESTONES| && Kinds(trace) == MILESTONES[..n]
  }

  /** The first `n` steps completed and the next one failed. */
  ghost predicate FailedAfter(trace: seq<Event>, n: nat) {
    n < |MILESTONES| && Kinds(trace) == MILESTONES[..n] + [Kind(FailedReason, MILESTONES[n].action)]
  }

  /**
   The event traces of an attempt and its result: no error exactly for NotNeeded or the full path;
   cancellation stops silently between steps; any other error is reported once, last, under the
   step that failed.
   */
  ghost predicate LegalTrace(trace: seq<Event>, result: Result<(), CallError>) {
    match result
    case Ok(_) => Kinds(trace) == [Kind(NotNeededReason, ValidateAction)] || Reached(trace, |MILESTONES|)
    case Err(error) =>
      if error == Canceled
      then exists n: nat :: n < |MILESTONES| && Reached(trace, n)
      else exists n: nat :: FailedAfter(trace, n)
  }

  lemma KindsAppend(events: seq<Event>, e: Event)
    ensures Kinds(events + [e]) == Kinds(events) + [Kind(e.reason, e.action)]
  {
  }

  /** A trace identifies its result: nil exactly when it ends in NotNeeded or CleanedUp. */
  lemma NilExactlyAtTheEnd(trace: seq<Event>, result: Result<(), CallError>)
    requires LegalTrace(trace, result)
    ensures result.Ok? <==>
            trace != [] &&
            (trace[|trace| - 1].reason.NotNeededReason? || trace[|trace| - 1].reason.CleanedUpReason?)
  {
    var kinds := Kinds(trace);
    assert |kinds| == |trace|;
    if trace != [] {
      assert kinds[|trace| - 1].reason == trace[|trace| - 1].reason;
    }
    if result.Err? && result.error != Canceled {
      var n: nat :| FailedAfter(trace, n);
      assert kinds[n] == Kind(FailedReason, MILESTONES[n].action) && |kinds| == n + 1;
    }
    if result == Err(Canceled) {
      var n: nat :| n < |MILESTONES| && Reached(trace, n);
      assert n > 0 ==> kinds[n - 1] == MILESTONES[n - 1];
    }
  }

  // ---------------------------------------------------------------- the driver

  ghost predicate HasHistory(s: System, uid: string, version: string) {
    s.crd.Some? && s.crd.value.uid == uid && s.crd.value.storedVersions == [version]
  }

  /** At some moment from the `from`-th action of the run on, the CRD with this UID had exactly this history. */
  ghost predicate OnceHad(digest: string -> string, initial: System, run: seq<Action>, from: nat, uid: string,
                          version: string) {
    exists k :: from <= k <= |run| && HasHistory(Exec(digest, initial, run[..k]), uid, version)
  }

  lemma OnceHadStays(digest: string -> string, initial: System, run: seq<Action>, longer: seq<Action>, from: nat,
                     uid: string, version: string)
    requires run <= longer && OnceHad(digest, initial, run, from, uid, version)
    ensures OnceHad(digest, initial, longer, from, uid, version)
  {
    var k :| from <= k <= |run| && HasHistory(Exec(digest, initial, run[..k]), uid, version);
    assert longer[..k] == run[..k];
  }

  class Migration {
    const world: World
    const answers: seq<Discovery>
    var crd: Option<Crd>
    var storage: string
    var api: Api
    var request: Option<Request>
    var events: seq<Event>
    ghost var polls: nat

    constructor (world: World, answers: seq<Discovery>)
      requires |answers| == |MIGRATION_APIS|
      ensures this.world == world && this.answers == answers && this.events == [] && this.polls == 0 && Ready()
    {
      this.world, this.answers := world, answers;
      crd, storage, api, request, events, polls := None, "", Api("", ""), None, [], 0;
    }

    ghost predicate Ready()
      reads this
    {
      |answers| == |MIGRATION_APIS|
    }

    /** Discovery offers the API of the planned attempt first. */
    ghost predicate Offers()
      reads this, world
    {
      exists k :: 0 <= k < |answers| && k < |MIGRATION_APIS| && MIGRATION_APIS[k] == world.plan.api
        && Offered(answers[k], MIGRATION_APIS[k]) && forall j :: 0 <= j < k ==> NotOffered(answers[j])
    }

    /** The planned attempt is under way with the fields that belong to it. */
    ghost predicate Following()
      reads this, world
    {
      world.Going() && crd == Some(world.plan.c) && storage == world.plan.v
    }

    /** event: a given type wins, else an error makes it a warning; it regards the CRD read so far, if any. */
    method Record(reason: Reason, action: EventAction, given: Option<EventType>, error: Option<CallError>)
      modifies `events
      ensures |events| == |old(events)| + 1 && events[..|old(events)|] == old(events)
      ensures var e := events[|old(events)|];
              && e.reason == reason && e.action == action
              && (e.regardingUid == None <==> crd.None?) && (crd.Some? ==> e.regardingUid == Some(crd.value.uid))
              && (given.None? ==> (e.eventType == Warning <==> error.Some?)) &&
                 (given.Some? ==> e.eventType == given.value)
    {
      var eventType := Normal;
      if given.Some? {
        eventType := given.value;
      } else if error.Some? {
        eventType := Warning;
      }
      var uid := if crd.Some? then Some(crd.value.uid) else None;
      events := events + [Event(reason, action, uid, eventType)];
    }

    method Validate() returns (needed: Result<bool, CallError>)
      requires world.Valid() && world.At(Validating) && Ready()
      modifies `crd, `storage, world`state, world`script, world`run
      ensures world.Valid() && old(world.run) <= world.run
      ensures needed == Ok(true) ==>
        crd.Some? && world.At(Discovering(crd.value, storage)) && StorageOf(crd.value) == Some(storage)
      ensures needed == Ok(false) ==> world.At(Stopped(NotNeeded))
      ensures |world.script| >= |old(world.script)| - 1
      ensures old(world.Going()) ==> (needed == Ok(true) && Following()) || (needed.Err? && old(world.script) == [])
    {
      var response := world.GetCrd();
      if response.NotFound? {
        return Ok(false);
      }
      if !response.Got? {
        return Err(response.error);
      }
      crd := Some(response.value);
      var version := StorageVersion(response.value);
      if version.None? {
        return Err(Refused);
      }
      if response.value.storedVersions == [version.value] {
        return Ok(false);
      }
      storage := version.value;
      return Ok(true);
    }

    method Discover() returns (result: Result<(), CallError>)
      requires world.Valid() && crd.Some? && world.At(Discovering(crd.value, storage)) && Ready()
      modifies `api, world`state, world`run
      ensures world.Valid() && old(world.run) <= world.run
      ensures result.Ok? ==> world.At(Creating(crd.value, storage, api)) && api in MIGRATION_APIS
      ensures old(Following() && Offers()) ==> result.Ok? && Following()
    {
      var found := DiscoverMigrationApi(answers);
      if found.Err? {
        return Err(found.error);
      }
      world.Choose(found.value, crd.value, storage);
      api := found.value;
      return Ok(());
    }

    method CreateOrGet(expected: Request) returns (result: Result<Request, CallError>)
      requires world.Valid() && crd.Some? && world.At(Creating(crd.value, storage, api))
      requires expected == NewRequest(world.digest, crd.value, storage, api)
      modifies world`state, world`script, world`run
      ensures world.Valid() && old(world.run) <= world.run
      ensures result.Ok? ==> world.At(Adopt(world.digest, crd.value, storage, api, result.value))
      ensures |world.script| >= |old(world.script)| - 2
      ensures old(Following()) ==> Following() && (result.Ok? || |old(world.script)| <= 1)
    {
      var response := world.CreateRequest(expected, crd.value, storage, api);
      if response.AlreadyExists? {
        response := world.ResumeRequest(expected.name, crd.value, storage, api);
      }
      match response {
        case Got(r) => return Ok(r);
        case NotFound => return Err(Refused);
        case CallFailed(error) => return Err(error);
      }
    }

    /** The wait: read, revalidate and judge the request until it has succeeded. */
    method Wait(expected: Request) returns (result: Result<(), CallError>)
      requires world.Valid() && crd.Some? && request.Some?
      requires world.At(Polling(crd.value, storage, api, request.value))
      requires expected == NewRequest(world.digest, crd.value, storage, api)
      modifies `polls, world`state, world`script, world`run
      ensures world.Valid() && old(world.run) <= world.run
      ensures result.Ok? ==> world.At(Rereading(crd.value, storage, api, request.value))
      ensures polls >= old(polls) && |world.script| + (polls - old(polls)) >= |old(world.script)| - 1
      ensures old(Following()) ==> Following() && (result.Ok? || |old(world.script)| <= polls - old(polls))
    {
      ghost var polling := Polling(crd.value, storage, api, request.value);
      while true
        invariant world.Valid() && old(world.run) <= world.run && world.At(polling)
        invariant polls >= old(polls) && |world.script| + (polls - old(polls)) >= |old(world.script)|
        invariant old(Following()) ==> Following() && |world.script| + (polls - old(polls)) == |old(world.script)|
        decreases |world.script|
      {
        var over := world.ContextError();
        if over.Some? {
          return Err(over.value);
        }
        var response := world.PollRequest(expected.name, api, polling);
        if response.CallFailed? {
          return Err(response.error);
        }
        if !response.Got? {
          return Err(Refused);
        }
        if !ValidRequest(response.value, expected, request.value.uid) {
          return Err(Refused);
        }
        var succeeded := RequestSucceeded(response.value);
        if succeeded.Err? {
          return Err(Refused);
        }
        if succeeded.value {
          return Ok(());
        }
        polls := polls + 1;
      }
    }

    method Prune() returns (result: Result<(), CallError>)
      requires world.Valid() && crd.Some? && request.Some?
      requires world.At(Rereading(crd.value, storage, api, request.value))
      modifies world`state, world`script, world`run
      ensures world.Valid() && old(world.run) <= world.run
      ensures result.Ok? ==> world.At(Deleting(crd.value, storage, api, request.value))
      ensures result.Ok? ==> HistoryWas(old(|world.run|), crd.value.uid, storage)
      ensures |world.script| >= |old(world.script)| - 2
      ensures old(Following()) ==> Following() && (result.Ok? || |old(world.script)| <= 1)
    {
      ghost var rereading := Rereading(crd.value, storage, api, request.value);
      var response := world.RereadCrd(rereading);
      if response.CallFailed? {
        return Err(response.error);
      }
      if !response.Got? {
        return Err(Refused);
      }
      var current := response.value;
      var currentStorage := StorageVersion(current);
      if currentStorage.None? {
        return Err(Refused);
      }
      if current.uid != crd.value.uid || currentStorage.value != storage {
        return Err(Refused);
      }
      if current.generation != crd.value.generation {
        return Err(Refused);
      }
      if current.storedVersions == [storage] {
        assert world.run[..|world.run|] == world.run;
        return Ok(());
      }
      ghost var patching := Patching(crd.value, storage, api, request.value, current);
      var patched := world.PatchHistory(current.resourceVersion, [storage], patching);
      if patched.CallFailed? {
        return Err(patched.error);
      }
      assert world.run[..|world.run|] == world.run;
      return Ok(());
    }

    ghost predicate HistoryWas(from: nat, uid: string, version: string)
      reads this, world
    {
      OnceHad(world.digest, world.initial, world.run, from, uid, version)
    }

    method Run() returns (result: Result<(), CallError>)
      requires world.Valid() && crd.Some? && world.At(Creating(crd.value, storage, api))
      modifies `request, `polls, world`state, world`script, world`run
      ensures world.Valid() && old(world.run) <= world.run
      ensures result.Ok? ==> request.Some? && world.At(Deleting(crd.value, storage, api, request.value))
      ensures result.Ok? ==> HistoryWas(old(|world.run|), crd.value.uid, storage)
      ensures polls >= old(polls)
      ensures result.Ok? ==> |world.script| + (polls - old(polls)) >= |old(world.script)| - 5
      ensures old(Following()) ==> Following() && (result.Ok? || |old(world.script)| <= polls - old(polls) + 4)
    {
      var expected := NewRequest(world.digest, crd.value, storage, api);
      var created := CreateOrGet(expected);
      if created.Err? {
        return Err(created.error);
      }
      request := Some(created.value);
      if !ValidRequest(request.value, expected, "") {
        return Err(Refused);
      }
      var verdict := RequestSucceeded(request.value);
      if verdict.Err? {
        return Err(Refused);
      }
      result := Wait(expected);
      if result.Err? {
        return;
      }
      var over := world.ContextError();
      if over.Some? {
        return Err(over.value);
      }
      result := Prune();
    }

    method Cleanup() returns (result: Result<(), CallError>)
      requires world.Valid() && crd.Some? && request.Some?
      requires world.At(Deleting(crd.value, storage, api, request.value))
      modifies world`state, world`script, world`run
      ensures world.Valid() && old(world.run) <= world.run
      ensures result.Ok? ==> world.At(Stopped(CleanedUp)) && Key(api, request.value.name) !in world.state.requests
      ensures old(Following()) ==> Following() && (result.Ok? || old(world.script) == [])
    {
      ghost var deleting := Deleting(crd.value, storage, api, request.value);
      var response := world.DeleteRequest(request.value.name, request.value.uid, deleting);
      return if response.Got? then Ok(()) else Err(response.error);
    }

    /** Reports a failed step unless the attempt was cancelled. */
    method Fail(error: CallError, action: EventAction, ghost start: nat, ghost n: nat)
      returns (result: Result<(), CallError>)
      requires start <= |events| && n < |MILESTONES| && action == MILESTONES[n].action
      requires Reached(events[start..], n)
      modifies `events
      ensures result == Err(error)
      ensures old(events) <= events && LegalTrace(events[start..], result)
      ensures n <= 2 ==> SUCCEEDED !in Kinds(events[start..])
    {
      if error == Canceled {
        return Err(error);
      }
      ghost var trace := events[start..];
      Record(FailedReason, action, None, Some(error));
      assert events[start..] == trace + [events[|events| - 1]];
      KindsAppend(trace, events[|events| - 1]);
      assert FailedAfter(events[start..], n);
      return Err(error);
    }

    method Milestone(ghost start: nat, ghost n: nat, reason: Reason, action: EventAction)
      requires start <= |events| && n < |MILESTONES| && Reached(events[start..], n)
      requires MILESTONES[n] == Kind(reason, action)
      modifies `events
      ensures old(events) <= events && |events| == old(|events|) + 1 && Reached(events[start..], n + 1)
    {
      ghost var trace := events[start..];
      Record(reason, action, None, None);
      assert events[start..] == trace + [events[|events| - 1]];
      KindsAppend(trace, events[|events| - 1]);
      assert MILESTONES[..n + 1] == MILESTONES[..n] + [MILESTONES[n]];
    }

    /** The last step of execute. */
    method Finish(ghost start: nat) returns (result: Result<(), CallError>)
      requires world.Valid() && crd.Some? && request.Some?
      requires world.At(Deleting(crd.value, storage, api, request.value))
      requires start <= |events| && Reached(events[start..], 3)
      modifies `events, world`state, world`script, world`run
      ensures world.Valid() && old(events) <= events && old(world.run) <= world.run
      ensures LegalTrace(events[start..], result)
      ensures result.Ok? ==> world.At(Stopped(CleanedUp))
      ensures old(Following()) ==>
        (result.Ok? && StorageProgress.Finished(world.digest, world.plan, world.state)) || old(world.script) == []
    {
      result := Cleanup();
      if result.Err? {
        result := Fail(result.error, CleanupAction, start, 3);
        return;
      }
      Milestone(start, 3, CleanedUpReason, CleanupAction);
    }

    /** The steps of execute that follow discovery. */
    method RunAndFinish(ghost start: nat, ghost since: nat) returns (result: Result<(), CallError>)
      requires world.Valid() && crd.Some? && world.At(Creating(crd.value, storage, api))
      requires start <= |events| && Reached(events[start..], 2) && since <= |world.run|
      modifies `request, `polls, `events, world`state, world`script, world`run
      ensures world.Valid() && old(events) <= events && old(world.run) <= world.run
      ensures LegalTrace(events[start..], result)
      ensures result.Ok? ==> world.At(Stopped(CleanedUp))
      ensures SUCCEEDED in Kinds(events[start..]) ==> HistoryWas(since, crd.value.uid, storage)
      ensures polls >= old(polls)
      ensures old(Following()) ==>
        || (result.Ok? && StorageProgress.Finished(world.digest, world.plan, world.state))
        || |old(world.script)| <= polls - old(polls) + 5
    {
      result := Run();
      if result.Err? {
        result := Fail(result.error, RunAction, start, 2);
        return;
      }
      Milestone(start, 2, SucceededReason, RunAction);
      ghost var run := world.run;
      result := Finish(start);
      OnceHadStays(world.digest, world.initial, run, world.run, since, crd.value.uid, storage);
    }

    /** The steps of execute that follow a validation that found work to do. */
    method Migrate(ghost start: nat, ghost since: nat) returns (result: Result<(), CallError>)
      requires world.Valid() && Ready() && crd.Some? && world.At(Discovering(crd.value, storage))
      requires start <= |events| && Reached(events[start..], 1) && since <= |world.run|
      modifies `api, `request, `polls, `events, world`state, world`script, world`run
      ensures world.Valid() && old(events) <= events && old(world.run) <= world.run
      ensures LegalTrace(events[start..], result)
      ensures result.Ok? ==> world.At(Stopped(CleanedUp))
      ensures SUCCEEDED in Kinds(events[start..]) ==> HistoryWas(since, crd.value.uid, storage)
      ensures polls >= old(polls)
      ensures old(Following() && Offers()) ==>
        || (result.Ok? && StorageProgress.Finished(world.digest, world.plan, world.state))
        || |old(world.script)| <= polls - old(polls) + 5
    {
      result := Discover();
      if result.Err? {
        result := Fail(result.error, DiscoverAction, start, 1);
        return;
      }
      Milestone(start, 1, DiscoveredReason, DiscoverAction);
      result := RunAndFinish(start, since);
    }

    /** The steps of execute that follow its first look at the context. */
    method ValidateAndMigrate(ghost start: nat, ghost since: nat) returns (result: Result<(), CallError>)
      requires world.Valid() && Ready() && world.At(Validating)
      requires start <= |events| && Reached(events[start..], 0) && since <= |world.run|
      modifies this, world`state, world`script, world`run
      ensures world.Valid() && old(events) <= events && old(world.run) <= world.run
      ensures LegalTrace(events[start..], result)
      ensures result.Ok? ==> world.At(Stopped(NotNeeded)) || world.At(Stopped(CleanedUp))
      ensures SUCCEEDED in Kinds(events[start..]) ==> crd.Some? && HistoryWas(since, crd.value.uid, storage)
      ensures polls >= old(polls)
      ensures old(world.Going() && Offers()) ==>
        || (result.Ok? && StorageProgress.Finished(world.digest, world.plan, world.state))
        || |old(world.script)| <= polls - old(polls) + 6
    {
      var needed := Validate();
      if needed.Err? {
        result := Fail(needed.error, ValidateAction, start, 0);
        return;
      }
      if !needed.value {
        Record(NotNeededReason, ValidateAction, None, None);
        return Ok(());
      }
      Milestone(start, 0, ValidatedReason, ValidateAction);
      result := Migrate(start, since);
    }

    /**
     execute. For every script: the cluster invariant is kept, the trace is legal, success leaves
     the replica's state machine at its end, and Succeeded is reported only after the CRD's history
     was exactly [storage] at some moment of this attempt. If nothing disturbs the attempt it finishes,
     unless the context ends first, and for that all turns but six must be polls that found the request
     unfinished.
     */
    method Execute() returns (result: Result<(), CallError>)
      requires world.Valid() && Ready()
      modifies this, world`state, world`script, world`run
      ensures world.Valid() && old(events) <= events && old(world.run) <= world.run
      ensures LegalTrace(events[|old(events)|..], result)
      ensures result.Ok? ==> world.At(Stopped(NotNeeded)) || world.At(Stopped(CleanedUp))
      ensures SUCCEEDED in Kinds(events[|old(events)|..]) ==>
        crd.Some? && HistoryWas(old(|world.run|), crd.value.uid, storage)
      ensures polls >= old(polls)
      ensures old(world.Startable() && Offers()) ==>
        || (result.Ok? && StorageProgress.Finished(world.digest, world.plan, world.state))
        || |old(world.script)| <= polls - old(polls) + 6
    {
      ghost var start := |events|;
      ghost var since := |world.run|;
      crd, request := None, None;
      assert Reached(events[start..], 0);
      var over := world.ContextError();
      if over.Some? {
        result := Fail(over.value, ValidateAction, start, 0);
        return;
      }
      world.Begin();
      result := ValidateAndMigrate(start, since);
    }
  }
}
