/**
 Crash recovery of the migration: from whatever an earlier attempt left behind, an attempt that
 nobody disturbs ends with the history pruned to the storage version and its request removed.
 Also: what a replica may delete.
 */
module StorageProgress {
  import opened Common
  import opened StorageTypes
  import opened StorageSupport
  import opened StorageProtocol
  import StorageSafety

  // ---------------------------------------------------------------- what a replica deletes

  predicate HasRequest(op: Op) {
    op.Polling? || op.Rereading? || op.Patching? || op.Deleting?
  }

  ghost predicate OpAdopted(digest: string -> string, op: Op) {
    HasRequest(op) ==> ValidRequest(op.request, NewRequest(digest, op.crd, op.storage, op.api), "")
  }

  ghost predicate Adopted(digest: string -> string, s: System) {
    forall i :: i in s.ops ==> OpAdopted(digest, s.ops[i])
  }

  lemma CallFrame(digest: string -> string, s: System, i: nat, op: Op, reply: Reply)
    requires i in s.ops && s.ops[i] == op
    ensures var t := CallStep(digest, s, i, op, reply);
            i in t.ops && t.ops == s.ops[i := t.ops[i]]
  {
  }

  lemma CallKeepsAdopted(digest: string -> string, s: System, i: nat, op: Op, reply: Reply, t: System)
    requires OpAdopted(digest, op) && i in s.ops && s.ops[i] == op
    requires t == CallStep(digest, s, i, op, reply) && i in t.ops
    ensures OpAdopted(digest, t.ops[i])
  {
    var next := t.ops[i];
    match op
    case Creating(c, v, api) =>
      var stored := NewRequest(digest, c, v, api).(uid := reply.uid, created := s.clock);
      assert next.Stopped? || next.Resuming? || next == Adopt(digest, c, v, api, stored);
    case Resuming(c, v, api) =>
      assert next.Stopped? || next == Adopt(digest, c, v, api, s.requests[KeyOf(digest, c, v, api)]);
    case Polling(c, v, api, r) =>
      assert next.Stopped? || next == op || next == Rereading(c, v, api, r);
    case Rereading(c, v, api, r) =>
      assert next.Stopped? || next == Deleting(c, v, api, r) || next == Patching(c, v, api, r, s.crd.value);
    case Patching(c, v, api, r, _) =>
      assert next.Stopped? || next == Deleting(c, v, api, r);
    case _ =>
  }

  lemma StepKeepsAdopted(digest: string -> string, s: System, a: Action)
    requires Adopted(digest, s)
    ensures Adopted(digest, Apply(digest, s, a))
  {
    var t := Apply(digest, s, a);
    if a.Call? && a.i in s.ops {
      CallFrame(digest, s, a.i, s.ops[a.i], a.reply);
      CallKeepsAdopted(digest, s, a.i, s.ops[a.i], a.reply, t);
    }
  }

  lemma {:induction false} RunKeepsAdopted(digest: string -> string, s: System, actions: seq<Action>)
    requires Adopted(digest, s)
    ensures Adopted(digest, Exec(digest, s, actions))
    decreases |actions|
  {
    if actions != [] {
      StepKeepsAdopted(digest, s, actions[0]);
      RunKeepsAdopted(digest, Apply(digest, s, actions[0]), actions[1..]);
    }
  }

  /**
   Over every run, a request that disappears through a replica's call carries the UID of the
   request that replica had validated for its own CRD, generation and storage version.
   */
  lemma DeletesOnlyAdopted(digest: string -> string, s: System, actions: seq<Action>, a: Action, key: Key)
    requires s.ops == map[] && a.Call?
    requires var before := Exec(digest, s, actions);
             key in before.requests && key !in Apply(digest, before, a).requests
    ensures var before := Exec(digest, s, actions);
            && a.i in before.ops && before.ops[a.i].Deleting?
            && var op := before.ops[a.i];
               && before.requests[key].uid == op.request.uid
               && key == KeyOf(digest, op.crd, op.storage, op.api)
               && ValidRequest(op.request, NewRequest(digest, op.crd, op.storage, op.api), "")
  {
    RunKeepsAdopted(digest, s, actions);
    var before := Exec(digest, s, actions);
    assert a.i in before.ops;
    assert Apply(digest, before, a) == CallStep(digest, before, a.i, before.ops[a.i], a.reply);
  }

  // ---------------------------------------------------------------- what each read decides

  /** The first read: work to do, nothing to do, or a CRD that migration may not touch. */
  lemma ValidationExact(crd: Option<Crd>, c: Crd, v: string)
    ensures AfterGet(crd) == Discovering(c, v) <==>
            crd == Some(c) && StorageOf(c) == Some(v) && c.storedVersions != [v]
    ensures AfterGet(crd) == Stopped(NotNeeded) <==>
            crd.None? || (StorageOf(crd.value).Some? && crd.value.storedVersions == [StorageOf(crd.value).value])
    ensures AfterGet(crd) == Stopped(Failed) <==> crd.Some? && StorageOf(crd.value).None?
  {
  }

  /** A request is adopted when it is valid and not Failed, whoever created it. */
  lemma AdoptionExact(digest: string -> string, crd: Crd, storage: string, api: Api, r: Request)
    ensures var op := Adopt(digest, crd, storage, api, r);
            if ValidRequest(r, NewRequest(digest, crd, storage, api), "") && Verdict(r).Ok?
            then op == Polling(crd, storage, api, r)
            else op == Stopped(Failed)
  {
  }

  /**
   A poll that gets an answer: the request must still be the one adopted, by its UID; success moves on,
   an unfinished request is polled again, and anything else, a replaced request included, ends the attempt.
   */
  lemma PollExact(digest: string -> string, s: System, i: nat, reply: Reply)
    requires i in s.ops && s.ops[i].Polling? && reply.outcome.Delivered?
    ensures var op := s.ops[i];
            var t := CallStep(digest, s, i, op, reply);
            var key := KeyOf(digest, op.crd, op.storage, op.api);
            var valid := key in s.requests &&
                         ValidRequest(s.requests[key], NewRequest(digest, op.crd, op.storage, op.api), op.request.uid);
            && i in t.ops && t.crd == s.crd && t.requests == s.requests
            && (t.ops[i] == Rereading(op.crd, op.storage, op.api, op.request) <==>
                  valid && Verdict(s.requests[key]) == Ok(true))
            && (t.ops[i] == op <==> valid && Verdict(s.requests[key]) == Ok(false))
            && (t.ops[i] == Stopped(Failed) <==> !valid || Verdict(s.requests[key]).Err?)
            && (key in s.requests && op.request.uid != "" && s.requests[key].uid != op.request.uid ==>
                  t.ops[i] == Stopped(Failed))
  {
  }

  /** The reread: the same CRD, storage version and generation, or the attempt ends. */
  lemma RereadExact(op: Op, current: Crd)
    requires op.Rereading?
    ensures var same := StorageOf(current) == Some(op.storage) && current.uid == op.crd.uid &&
                        current.generation == op.crd.generation;
            && (AfterReread(op, current) == Stopped(Failed) <==> !same)
            && (AfterReread(op, current) == Deleting(op.crd, op.storage, op.api, op.request) <==>
                  same && current.storedVersions == [op.storage])
            && (AfterReread(op, current) == Patching(op.crd, op.storage, op.api, op.request, current) <==>
                  same && current.storedVersions != [op.storage])
  {
  }

  /** A create: refused, carried out, or answered with the request that is there; a lost answer ends the attempt. */
  lemma CreateExact(digest: string -> string, s: System, i: nat, reply: Reply)
    requires i in s.ops && s.ops[i].Creating?
    ensures var op := s.ops[i];
            var t := CallStep(digest, s, i, op, reply);
            var key := KeyOf(digest, op.crd, op.storage, op.api);
            var stored := NewRequest(digest, op.crd, op.storage, op.api).(uid := reply.uid, created := s.clock);
            && t.crd == s.crd && t.objects == s.objects && i in t.ops
            && (reply.outcome.Rejected? ==> t.requests == s.requests && t.ops[i] == Stopped(Failed))
            && (!reply.outcome.Rejected? && key in s.requests ==> t.requests == s.requests)
            && (!reply.outcome.Rejected? && key !in s.requests ==> t.requests == s.requests[key := stored])
            && (reply.outcome.Lost? ==> t.ops[i] == Stopped(Failed))
            && (reply.outcome.Delivered? && key in s.requests ==> t.ops[i] == Resuming(op.crd, op.storage, op.api))
            && (reply.outcome.Delivered? && key !in s.requests ==>
                  t.ops[i] == Adopt(digest, op.crd, op.storage, op.api, stored))
  {
  }

  /** A patch: refused or in conflict it changes nothing; otherwise the history is replaced whole and nothing else. */
  lemma PatchExact(digest: string -> string, s: System, i: nat, reply: Reply)
    requires i in s.ops && s.ops[i].Patching?
    ensures var op := s.ops[i];
            var t := CallStep(digest, s, i, op, reply);
            var taken := !reply.outcome.Rejected? && s.crd.Some? &&
                         s.crd.value.resourceVersion == op.current.resourceVersion;
            && t.requests == s.requests && t.objects == s.objects && i in t.ops
            && (!taken ==> t.crd == s.crd && t.ops[i] == Stopped(Failed))
            && (taken ==>
                  && t.crd == Some(s.crd.value.(storedVersions := [op.storage], resourceVersion := s.nextRv))
                  && t.ops[i] == if reply.outcome.Delivered? then Deleting(op.crd, op.storage, op.api, op.request)
                                 else Stopped(Failed))
  {
  }

  /** A delete that gets an answer: gone already or under the adopted UID is success, another UID is a conflict. */
  lemma DeleteExact(digest: string -> string, s: System, i: nat, reply: Reply)
    requires i in s.ops && s.ops[i].Deleting? && reply.outcome.Delivered?
    ensures var op := s.ops[i];
            var t := CallStep(digest, s, i, op, reply);
            var key := Key(op.api, op.request.name);
            if key in s.requests && s.requests[key].uid != op.request.uid
            then t.ops[i] == Stopped(Failed) && t.requests == s.requests
            else t.ops[i] == Stopped(CleanedUp) && t.requests == s.requests - {key}
  {
  }

  // ---------------------------------------------------------------- an undisturbed attempt

  /** One attempt: replica `i` migrates CRD state `c` to `v` through `api`. */
  datatype Attempt = Attempt(i: nat, c: Crd, v: string, api: Api) {
    predicate Needed() {
      StorageOf(c) == Some(v) && c.storedVersions != [v]
    }
  }

  /** Controller progress, object traffic and this replica's own calls; nobody touches CRD or request. */
  predicate Quiet(digest: string -> string, w: Attempt, a: Action) {
    match a
    case Call(i, reply) => i == w.i && reply.outcome.Delivered?
    case WriteObject(_, _) => true
    case DropObject(_) => true
    case Report(key, conditions) =>
      key == KeyOf(digest, w.c, w.v, w.api) ==>
        conditions.Some? && !Reports(conditions.value, "Failed") &&
        forall x :: x in conditions.value ==> KnownStatus(x.status)
    case _ => false
  }

  ghost predicate RequestReady(digest: string -> string, w: Attempt, s: System, uid: string) {
    var key := KeyOf(digest, w.c, w.v, w.api);
    && uid != ""
    && key in s.requests
    && ValidRequest(s.requests[key], NewRequest(digest, w.c, w.v, w.api), uid)
    && Verdict(s.requests[key]).Ok?
  }

  ghost predicate OnTrack(digest: string -> string, w: Attempt, s: System) {
    && w.Needed() && w.i in s.ops && s.crd.Some?
    && var op, live := s.ops[w.i], s.crd.value;
       && (HasRequest(op) ==>
             && op.crd == w.c && op.storage == w.v && op.api == w.api
             && op.request.name == NewRequest(digest, w.c, w.v, w.api).name
             && RequestReady(digest, w, s, op.request.uid))
       && match op
          case Polling(_, _, _, _) => live == w.c
          case Rereading(_, _, _, _) => live == w.c
          case Patching(_, _, _, _, current) => live == w.c && current == w.c
          case Deleting(_, _, _, _) => Pruned(w, live)
          case Stopped(ending) => ending == CleanedUp && Pruned(w, live) &&
            KeyOf(digest, w.c, w.v, w.api) !in s.requests
          case _ => false
  }

  /** The CRD as the attempt found it, with the history cut down to the storage version. */
  ghost predicate Pruned(w: Attempt, live: Crd) {
    live == w.c.(storedVersions := [w.v], resourceVersion := live.resourceVersion)
  }

  lemma QuietStep(digest: string -> string, w: Attempt, s: System, a: Action)
    requires OnTrack(digest, w, s) && Quiet(digest, w, a)
    ensures OnTrack(digest, w, Apply(digest, s, a))
  {
    var t := Apply(digest, s, a);
    if a.Call? {
      assert t == CallStep(digest, s, w.i, s.ops[w.i], a.reply);
    } else {
      assert t.ops == s.ops && t.crd == s.crd;
    }
  }

  /** However its calls interleave with the controller and with object traffic, the attempt never fails. */
  lemma {:induction false} StaysOnTrack(digest: string -> string, w: Attempt, s: System, actions: seq<Action>)
    requires OnTrack(digest, w, s)
    requires forall k :: 0 <= k < |actions| ==> Quiet(digest, w, actions[k])
    ensures OnTrack(digest, w, Exec(digest, s, actions))
    decreases |actions|
  {
    if actions != [] {
      QuietStep(digest, w, s, actions[0]);
      StaysOnTrack(digest, w, Apply(digest, s, actions[0]), actions[1..]);
    }
  }

  /** The controller has finished: the request reports success, or the replica has already seen that it did. */
  ghost predicate Completed(digest: string -> string, w: Attempt, s: System) {
    var key := KeyOf(digest, w.c, w.v, w.api);
    w.i in s.ops && (s.ops[w.i].Polling? ==> key in s.requests && Verdict(s.requests[key]) == Ok(true))
  }

  function Ordinary(uid: string, api: Api): Reply {
    Reply(Delivered, uid, Some(api))
  }

  function Rank(op: Op): nat {
    match op
    case Polling(_, _, _, _) => 4
    case Rereading(_, _, _, _) => 3
    case Patching(_, _, _, _, _) => 2
    case Deleting(_, _, _, _) => 1
    case _ => 0
  }

  lemma FinishStep(digest: string -> string, w: Attempt, s: System, uid: string)
    requires OnTrack(digest, w, s) && Completed(digest, w, s)
    ensures var t := Apply(digest, s, Call(w.i, Ordinary(uid, w.api)));
            && OnTrack(digest, w, t) && Completed(digest, w, t)
            && (Rank(s.ops[w.i]) > 0 ==> Rank(t.ops[w.i]) < Rank(s.ops[w.i]))
            && (Rank(s.ops[w.i]) == 0 ==> t == s)
  {
    var a := Call(w.i, Ordinary(uid, w.api));
    QuietStep(digest, w, s, a);
    assert Apply(digest, s, a) == CallStep(digest, s, w.i, s.ops[w.i], a.reply);
  }

  /** Once the controller is done, at most `n` more calls of the replica finish the attempt. */
  lemma {:induction false} FinishRun(digest: string -> string, w: Attempt, s: System, uid: string, n: nat)
    requires OnTrack(digest, w, s) && Completed(digest, w, s) && Rank(s.ops[w.i]) <= n
    ensures var t := Exec(digest, s, seq(n, _ => Call(w.i, Ordinary(uid, w.api))));
            OnTrack(digest, w, t) && t.ops[w.i] == Stopped(CleanedUp)
    decreases n
  {
    var calls := seq(n, _ => Call(w.i, Ordinary(uid, w.api)));
    if n > 0 {
      FinishStep(digest, w, s, uid);
      FinishRun(digest, w, Apply(digest, s, calls[0]), uid, n - 1);
      assert calls[1..] == seq(n - 1, _ => Call(w.i, Ordinary(uid, w.api)));
    }
  }

  /** The first calls of an attempt: read the CRD, discover, create or resume. */
  function Boot(w: Attempt, uid: string): seq<Action> {
    var call := Call(w.i, Ordinary(uid, w.api));
    [Start(w.i), call, call, call, call]
  }

  /** What an earlier attempt may have left under the request's name without blocking this one. */
  ghost predicate Resumable(digest: string -> string, w: Attempt, s: System) {
    var key := KeyOf(digest, w.c, w.v, w.api);
    key in s.requests ==> RequestReady(digest, w, s, s.requests[key].uid)
  }

  lemma CreateReachesTrack(digest: string -> string, w: Attempt, s: System, uid: string)
    requires w.Needed() && s.crd == Some(w.c) && uid != "" && Resumable(digest, w, s)
    requires w.i in s.ops && s.ops[w.i] == Creating(w.c, w.v, w.api)
    requires KeyOf(digest, w.c, w.v, w.api) !in s.requests
    ensures OnTrack(digest, w, Apply(digest, s, Call(w.i, Ordinary(uid, w.api))))
  {
    var call := Call(w.i, Ordinary(uid, w.api));
    var expected := NewRequest(digest, w.c, w.v, w.api);
    var stored := expected.(uid := uid, created := s.clock);
    assert ValidRequest(stored, expected, "");
    assert Verdict(stored) == Ok(false);
    var t := Apply(digest, s, call);
    assert t == CreateCall(digest, s, w.i, s.ops[w.i], call.reply);
    assert t.ops[w.i] == Polling(w.c, w.v, w.api, stored);
  }

  lemma ResumeReachesTrack(digest: string -> string, w: Attempt, s: System, uid: string)
    requires w.Needed() && s.crd == Some(w.c) && Resumable(digest, w, s)
    requires w.i in s.ops && s.ops[w.i] == Creating(w.c, w.v, w.api)
    requires KeyOf(digest, w.c, w.v, w.api) in s.requests
    ensures var call := Call(w.i, Ordinary(uid, w.api));
            OnTrack(digest, w, Apply(digest, Apply(digest, s, call), call))
  {
    var call := Call(w.i, Ordinary(uid, w.api));
    var key := KeyOf(digest, w.c, w.v, w.api);
    var t := Apply(digest, s, call);
    assert t == CreateCall(digest, s, w.i, s.ops[w.i], call.reply);
    assert t == WithOp(s, w.i, Resuming(w.c, w.v, w.api));
    var u := Apply(digest, t, call);
    assert u == CallStep(digest, t, w.i, t.ops[w.i], call.reply);
    assert u.ops[w.i] == Polling(w.c, w.v, w.api, s.requests[key]);
  }

  lemma ExecFive(digest: string -> string, s: System, a: Action, b: Action, c: Action, d: Action, e: Action)
    ensures Exec(digest, s, [a, b, c, d, e]) ==
            Apply(digest, Apply(digest, Apply(digest, Apply(digest, Apply(digest, s, a), b), c), d), e)
  {
    var s1 := Apply(digest, s, a);
    var s2 := Apply(digest, s1, b);
    var s3 := Apply(digest, s2, c);
    var s4 := Apply(digest, s3, d);
    assert [a, b, c, d, e][1..] == [b, c, d, e];
    assert [b, c, d, e][1..] == [c, d, e];
    assert [c, d, e][1..] == [d, e];
    assert [d, e][1..] == [e];
    assert Exec(digest, s4, [e]) == Exec(digest, Apply(digest, s4, e), []);
    assert Exec(digest, s3, [d, e]) == Exec(digest, s4, [e]);
    assert Exec(digest, s2, [c, d, e]) == Exec(digest, s3, [d, e]);
    assert Exec(digest, s1, [b, c, d, e]) == Exec(digest, s2, [c, d, e]);
  }

  lemma BootReachesTrack(digest: string -> string, w: Attempt, s: System, uid: string)
    requires w.Needed() && s.crd == Some(w.c) && uid != "" && Resumable(digest, w, s)
    ensures OnTrack(digest, w, Exec(digest, s, Boot(w, uid)))
  {
    var call := Call(w.i, Ordinary(uid, w.api));
    ExecFive(digest, s, Start(w.i), call, call, call, call);
    var s1 := Apply(digest, s, Start(w.i));
    var s2 := Apply(digest, s1, call);
    assert s2 == WithOp(s1, w.i, Discovering(w.c, w.v));
    var s3 := Apply(digest, s2, call);
    assert s3 == WithOp(s2, w.i, Creating(w.c, w.v, w.api));
    if KeyOf(digest, w.c, w.v, w.api) in s.requests {
      ResumeReachesTrack(digest, w, s3, uid);
    } else {
      CreateReachesTrack(digest, w, s3, uid);
      QuietStep(digest, w, Apply(digest, s3, call), call);
    }
  }

  /** The attempt is over: cleaned up, pruned, its request gone. */
  ghost predicate Finished(digest: string -> string, w: Attempt, t: System) {
    && w.i in t.ops && t.ops[w.i] == Stopped(CleanedUp)
    && t.crd.Some? && Pruned(w, t.crd.value)
    && KeyOf(digest, w.c, w.v, w.api) !in t.requests
  }

  /**
   If the CRD needs migration and any request under the name is this operator's and not Failed,
   as crashed attempts leave it, an attempt that is
   not disturbed and whose request the controller completes leaves the CRD exactly as found with
   the history cut to [v], and removes the request.
   */
  lemma UndisturbedAttemptCompletes(digest: string -> string, w: Attempt, s: System, uid: string, quiet: seq<Action>)
    requires w.Needed() && s.crd == Some(w.c) && uid != "" && Resumable(digest, w, s)
    requires forall k :: 0 <= k < |quiet| ==> Quiet(digest, w, quiet[k])
    requires Completed(digest, w, Exec(digest, s, Boot(w, uid) + quiet))
    ensures var calls := seq(4, _ => Call(w.i, Ordinary(uid, w.api)));
            var t := Exec(digest, s, Boot(w, uid) + quiet + calls);
            Finished(digest, w, t)
  {
    var calls := seq(4, _ => Call(w.i, Ordinary(uid, w.api)));
    var booted := Exec(digest, s, Boot(w, uid));
    BootReachesTrack(digest, w, s, uid);
    ExecAppend(digest, s, Boot(w, uid), quiet);
    StaysOnTrack(digest, w, booted, quiet);
    FinishRun(digest, w, Exec(digest, booted, quiet), uid, 4);
    ExecAppend(digest, s, Boot(w, uid) + quiet, calls);
  }

  /** A later attempt on a pruned CRD reads it once, or fails to, and writes nothing. */
  lemma SecondAttemptWritesNothing(digest: string -> string, s: System, i: nat, reply: Reply, v: string)
    requires s.crd.Some? && StorageOf(s.crd.value) == Some(v) && s.crd.value.storedVersions == [v]
    ensures Exec(digest, s, [Start(i), Call(i, reply)]) == s.(ops := s.ops[i := Stopped(SecondEnding(reply))])
  {
    var s1 := Apply(digest, s, Start(i));
    assert [Start(i), Call(i, reply)][1..] == [Call(i, reply)];
    assert [Call(i, reply)][1..] == [];
    assert Apply(digest, s1, Call(i, reply)) == WithOp(s1, i, Stopped(SecondEnding(reply)));
    assert Exec(digest, s1, [Call(i, reply)]) == Exec(digest, Apply(digest, s1, Call(i, reply)), []);
    assert s1.ops[i := Stopped(SecondEnding(reply))] == s.ops[i := Stopped(SecondEnding(reply))];
  }

  function SecondEnding(reply: Reply): Ending {
    if reply.outcome.Delivered? then NotNeeded else Failed
  }

  /** The CRD an attempt leaves behind is one that the next attempt accepts and leaves alone. */
  lemma PrunedNeedsNothing(w: Attempt, live: Crd)
    requires w.Needed() && Pruned(w, live) && live.resourceVersion != 0
    ensures StorageOf(live) == Some(w.v) && live.storedVersions == [w.v]
  {
  }

  /** The server hands out no empty resource version. */
  ghost predicate Versioned(s: System) {
    s.nextRv > 0 && (s.crd.Some? ==> s.crd.value.resourceVersion > 0)
  }

  lemma StepKeepsVersioned(digest: string -> string, s: System, a: Action)
    requires Versioned(s)
    ensures Versioned(Apply(digest, s, a))
  {
  }

  lemma {:induction false} RunKeepsVersioned(digest: string -> string, s: System, actions: seq<Action>)
    requires Versioned(s)
    ensures Versioned(Exec(digest, s, actions))
    decreases |actions|
  {
    if actions != [] {
      StepKeepsVersioned(digest, s, actions[0]);
      RunKeepsVersioned(digest, Apply(digest, s, actions[0]), actions[1..]);
    }
  }

  /**
   From any reachable state, after an undisturbed attempt that the
   controller completed, the next attempt of any replica changes nothing but that replica's own state.
   */
  lemma RerunWritesNothing(digest: string -> string, w: Attempt, s: System, uid: string, quiet: seq<Action>, i: nat,
                           reply: Reply)
    requires StorageSafety.Inv(s) && w.Needed() && s.crd == Some(w.c) && uid != "" && Resumable(digest, w, s)
    requires forall k :: 0 <= k < |quiet| ==> Quiet(digest, w, quiet[k])
    requires Completed(digest, w, Exec(digest, s, Boot(w, uid) + quiet))
    ensures var first := Boot(w, uid) + quiet + seq(4, _ => Call(w.i, Ordinary(uid, w.api)));
            var t := Exec(digest, s, first);
            && t.crd.Some? && t.crd.value.storedVersions == [w.v] && StorageOf(t.crd.value) == Some(w.v)
            && Exec(digest, s, first + [Start(i), Call(i, reply)]) ==
               t.(ops := t.ops[i := Stopped(SecondEnding(reply))])
  {
    var first := Boot(w, uid) + quiet + seq(4, _ => Call(w.i, Ordinary(uid, w.api)));
    var t := Exec(digest, s, first);
    UndisturbedAttemptCompletes(digest, w, s, uid, quiet);
    RunKeepsVersioned(digest, s, first);
    PrunedNeedsNothing(w, t.crd.value);
    SecondAttemptWritesNothing(digest, t, i, reply, w.v);
    ExecAppend(digest, s, first, [Start(i), Call(i, reply)]);
  }
}
