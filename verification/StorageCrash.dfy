/** Crash tolerance of the migration: whatever attempts leave behind can be finished by another one. */
module StorageCrash {
  import opened Common
  import opened StorageTypes
  import opened StorageSupport
  import opened StorageProtocol
  import opened StorageProgress
  import StorageSafety

  /**
   What may go on around attempts at one migration: starts, crashes and calls of any replica with any
   outcome, lost answers included, object traffic, and reports that are not Failed. Nobody else
   touches the CRD, the requests or the discovered API.
   */
  predicate Harmless(digest: string -> string, w: Attempt, a: Action) {
    match a
    case Start(_) => true
    case Crash(_) => true
    case Call(_, reply) => reply.uid != "" && (reply.api.Some? ==> reply.api.value == w.api)
    case WriteObject(_, _) => true
    case DropObject(_) => true
    case Report(_, _) => Quiet(digest, w, a)
    case _ => false
  }

  /** A replica that has read anything has read the CRD of this migration. */
  ghost predicate Follows(w: Attempt, op: Op) {
    match op
    case Stopped(_) => true
    case Validating => true
    case Discovering(crd, storage) => crd == w.c && storage == w.v
    case Creating(crd, storage, api) => crd == w.c && storage == w.v && api == w.api
    case Resuming(crd, storage, api) => crd == w.c && storage == w.v && api == w.api
    case Polling(crd, storage, api, _) => crd == w.c && storage == w.v && api == w.api
    case Rereading(crd, storage, api, _) => crd == w.c && storage == w.v && api == w.api
    case Patching(crd, storage, api, _, _) => crd == w.c && storage == w.v && api == w.api
    case Deleting(crd, storage, api, _) => crd == w.c && storage == w.v && api == w.api
  }

  /** The CRD is as found or pruned, and what lies under the request's name can be resumed. */
  ghost predicate Left(digest: string -> string, w: Attempt, s: System) {
    && w.Needed() && s.crd.Some?
    && (s.crd.value == w.c || Pruned(w, s.crd.value))
    && Resumable(digest, w, s)
    && forall i :: i in s.ops ==> Follows(w, s.ops[i])
  }

  /** Reading the CRD leads to discovery only as long as it is not pruned. */
  lemma ReadFollows(w: Attempt, live: Crd)
    requires w.Needed() && (live == w.c || Pruned(w, live))
    ensures Follows(w, AfterGet(Some(live)))
  {
    if live != w.c && live.resourceVersion != 0 {
      PrunedNeedsNothing(w, live);
    }
  }

  lemma CreateLeaves(digest: string -> string, w: Attempt, s: System, i: nat, reply: Reply)
    requires Left(digest, w, s) && i in s.ops && s.ops[i].Creating? && reply.uid != ""
    ensures Left(digest, w, CreateCall(digest, s, i, s.ops[i], reply))
  {
    var expected := NewRequest(digest, w.c, w.v, w.api);
    var stored := expected.(uid := reply.uid, created := s.clock);
    assert ValidRequest(stored, expected, "");
    assert Verdict(stored) == Ok(false);
  }

  lemma CallLeaves(digest: string -> string, w: Attempt, s: System, i: nat, reply: Reply)
    requires Left(digest, w, s) && i in s.ops
    requires reply.uid != "" && (reply.api.Some? ==> reply.api.value == w.api)
    ensures Left(digest, w, CallStep(digest, s, i, s.ops[i], reply))
  {
    if s.ops[i].Creating? {
      CreateLeaves(digest, w, s, i, reply);
    } else {
      CallFrame(digest, s, i, s.ops[i], reply);
      CallFollows(digest, w, s, i, reply);
      CallKeepsCluster(digest, w, s, i, reply);
    }
  }

  lemma CallFollows(digest: string -> string, w: Attempt, s: System, i: nat, reply: Reply)
    requires w.Needed() && s.crd.Some? && (s.crd.value == w.c || Pruned(w, s.crd.value))
    requires i in s.ops && !s.ops[i].Creating? && Follows(w, s.ops[i])
    requires reply.api.Some? ==> reply.api.value == w.api
    ensures var t := CallStep(digest, s, i, s.ops[i], reply); i in t.ops && Follows(w, t.ops[i])
  {
    if s.ops[i].Validating? {
      ReadFollows(w, s.crd.value);
    }
  }

  lemma CallKeepsCluster(digest: string -> string, w: Attempt, s: System, i: nat, reply: Reply)
    requires s.crd.Some? && (s.crd.value == w.c || Pruned(w, s.crd.value)) && Resumable(digest, w, s)
    requires i in s.ops && !s.ops[i].Creating? && Follows(w, s.ops[i])
    ensures var t := CallStep(digest, s, i, s.ops[i], reply);
            && t.crd.Some? && (t.crd.value == w.c || Pruned(w, t.crd.value))
            && Resumable(digest, w, t)
  {
  }

  lemma StepLeaves(digest: string -> string, w: Attempt, s: System, a: Action)
    requires Left(digest, w, s) && Harmless(digest, w, a)
    ensures Left(digest, w, Apply(digest, s, a))
  {
    if a.Call? && a.i in s.ops {
      CallLeaves(digest, w, s, a.i, a.reply);
    }
  }

  /** However often attempts crash, fail or lose answers, and wherever, what they leave can be finished. */
  lemma {:induction false} RunLeaves(digest: string -> string, w: Attempt, s: System, actions: seq<Action>)
    requires Left(digest, w, s) && forall k :: 0 <= k < |actions| ==> Harmless(digest, w, actions[k])
    ensures Left(digest, w, Exec(digest, s, actions))
    decreases |actions|
  {
    if actions != [] {
      StepLeaves(digest, w, s, actions[0]);
      RunLeaves(digest, w, Apply(digest, s, actions[0]), actions[1..]);
    }
  }

  /**
   Crash tolerance, composed. From a cluster on which nothing has run, let any number of replicas
   start, call, lose answers and crash in any order. Then either the history is already [v] and a
   rerun writes nothing, or the CRD is as found and a rerun that is not disturbed and whose request
   the controller completes ends with the history [v] and the request gone.
   */
  lemma CrashTolerance(digest: string -> string, w: Attempt, s: System, crashed: seq<Action>, uid: string,
                       quiet: seq<Action>, reply: Reply)
    requires StorageSafety.Init(s) && w.Needed() && s.crd == Some(w.c) && KeyOf(digest, w.c, w.v, w.api) !in s.requests
    requires uid != "" && forall k :: 0 <= k < |crashed| ==> Harmless(digest, w, crashed[k])
    requires forall k :: 0 <= k < |quiet| ==> Quiet(digest, w, quiet[k])
    ensures var t := Exec(digest, s, crashed);
            && t.crd.Some?
            && (t.crd.value != w.c ==>
                  && Pruned(w, t.crd.value)
                  && Exec(digest, t, [Start(w.i), Call(w.i, reply)]) ==
                     t.(ops := t.ops[w.i := Stopped(SecondEnding(reply))]))
            && (t.crd.value == w.c && Completed(digest, w, Exec(digest, t, Boot(w, uid) + quiet)) ==>
                  Finished(digest, w,
                           Exec(digest, t, Boot(w, uid) + quiet + seq(4, _ => Call(w.i, Ordinary(uid, w.api))))))
  {
    var t := Exec(digest, s, crashed);
    RunLeaves(digest, w, s, crashed);
    RunKeepsVersioned(digest, s, crashed);
    if t.crd.value != w.c {
      PrunedNeedsNothing(w, t.crd.value);
      SecondAttemptWritesNothing(digest, t, w.i, reply, w.v);
    } else if Completed(digest, w, Exec(digest, t, Boot(w, uid) + quiet)) {
      UndisturbedAttemptCompletes(digest, w, t, uid, quiet);
    }
  }

  /**
   A crash between patch and delete: the history is [v], the request is still there, and a rerun of
   any replica finds nothing to do, so it leaves the request where it is.
   */
  lemma CrashBeforeDelete(digest: string -> string, w: Attempt, s: System, i: nat, reply: Reply)
    requires OnTrack(digest, w, s) && s.ops[w.i].Deleting? && Versioned(s)
    ensures var t := Exec(digest, s, [Crash(w.i), Start(i), Call(i, reply)]);
            && t == s.(ops := s.ops[w.i := Stopped(Crashed)][i := Stopped(SecondEnding(reply))])
            && t.crd.value.storedVersions == [w.v]
            && KeyOf(digest, w.c, w.v, w.api) in t.requests
  {
    var crashed := Apply(digest, s, Crash(w.i));
    assert [Crash(w.i), Start(i), Call(i, reply)][1..] == [Start(i), Call(i, reply)];
    PrunedNeedsNothing(w, s.crd.value);
    SecondAttemptWritesNothing(digest, crashed, i, reply, w.v);
  }
}
