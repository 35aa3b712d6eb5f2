/** An attempt that nobody disturbs is in progress from its first call to its last: it never fails. */
module StorageLive {
  import opened Common
  import opened StorageTypes
  import opened StorageSupport
  import opened StorageProtocol
  import opened StorageProgress

  /** The attempt has not adopted its request yet. */
  ghost predicate Heading(digest: string -> string, w: Attempt, s: System) {
    && w.Needed() && s.crd == Some(w.c) && Resumable(digest, w, s) && w.i in s.ops
    && match s.ops[w.i]
       case Validating => true
       case Discovering(crd, storage) => crd == w.c && storage == w.v
       case Creating(crd, storage, api) => crd == w.c && storage == w.v && api == w.api
       case Resuming(crd, storage, api) =>
         crd == w.c && storage == w.v && api == w.api && KeyOf(digest, w.c, w.v, w.api) in s.requests
       case _ => false
  }

  ghost predicate InProgress(digest: string -> string, w: Attempt, s: System) {
    Heading(digest, w, s) || OnTrack(digest, w, s)
  }

  /** What the attempt needs of the answer to its next call. */
  ghost predicate GoodReply(w: Attempt, op: Op, reply: Reply) {
    reply.outcome.Delivered? && (op.Creating? ==> reply.uid != "") && (op.Discovering? ==> reply.api == Some(w.api))
  }

  lemma CallProgress(digest: string -> string, w: Attempt, s: System, reply: Reply)
    requires InProgress(digest, w, s) && GoodReply(w, s.ops[w.i], reply)
    ensures InProgress(digest, w, CallStep(digest, s, w.i, s.ops[w.i], reply))
  {
    if OnTrack(digest, w, s) {
      QuietStep(digest, w, s, Call(w.i, reply));
    } else if s.ops[w.i].Creating? {
      CreateProgress(digest, w, s, reply);
    } else if s.ops[w.i].Resuming? {
      ResumeProgress(digest, w, s, reply);
    }
  }

  lemma CreateProgress(digest: string -> string, w: Attempt, s: System, reply: Reply)
    requires Heading(digest, w, s) && s.ops[w.i].Creating? && reply.outcome.Delivered? && reply.uid != ""
    ensures InProgress(digest, w, CallStep(digest, s, w.i, s.ops[w.i], reply))
  {
    var expected := NewRequest(digest, w.c, w.v, w.api);
    var stored := expected.(uid := reply.uid, created := s.clock);
    assert ValidRequest(stored, expected, "");
    assert Verdict(stored) == Ok(false);
    var t := CallStep(digest, s, w.i, s.ops[w.i], reply);
    if KeyOf(digest, w.c, w.v, w.api) in s.requests {
      assert Heading(digest, w, t);
    } else {
      assert t.ops[w.i] == Polling(w.c, w.v, w.api, stored);
      assert OnTrack(digest, w, t);
    }
  }

  lemma ResumeProgress(digest: string -> string, w: Attempt, s: System, reply: Reply)
    requires Heading(digest, w, s) && s.ops[w.i].Resuming? && reply.outcome.Delivered?
    ensures InProgress(digest, w, CallStep(digest, s, w.i, s.ops[w.i], reply))
  {
    var key := KeyOf(digest, w.c, w.v, w.api);
    var t := CallStep(digest, s, w.i, s.ops[w.i], reply);
    assert t.ops[w.i] == Polling(w.c, w.v, w.api, s.requests[key]);
    assert OnTrack(digest, w, t);
  }

  /** Traffic of others that does not disturb the attempt. */
  predicate Calm(digest: string -> string, w: Attempt, a: Action) {
    !a.Call? && Quiet(digest, w, a)
  }

  lemma CalmProgress(digest: string -> string, w: Attempt, s: System, a: Action)
    requires InProgress(digest, w, s) && Calm(digest, w, a)
    ensures InProgress(digest, w, Apply(digest, s, a))
  {
    if OnTrack(digest, w, s) {
      QuietStep(digest, w, s, a);
    } else {
      var t := Apply(digest, s, a);
      assert t.ops == s.ops && t.crd == s.crd;
      assert Heading(digest, w, t);
    }
  }

  lemma {:induction false} CalmRun(digest: string -> string, w: Attempt, s: System, actions: seq<Action>)
    requires InProgress(digest, w, s) && forall k :: 0 <= k < |actions| ==> Calm(digest, w, actions[k])
    ensures InProgress(digest, w, Exec(digest, s, actions))
    decreases |actions|
  {
    if actions != [] {
      CalmProgress(digest, w, s, actions[0]);
      CalmRun(digest, w, Apply(digest, s, actions[0]), actions[1..]);
    }
  }
}
