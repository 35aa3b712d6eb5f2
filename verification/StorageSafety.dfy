/**
 Safety of the migration over every run: no stored object is ever encoded at a version missing
 from status.storedVersions, and the history is only ever shortened when all objects are at the
 one version that stays.
 */
module StorageSafety {
  import opened Common
  import opened StorageTypes
  import opened StorageSupport
  import opened StorageProtocol

  /** No data can become unreadable: the history covers every encoding in etcd. */
  ghost predicate Safe(s: System) {
    && (s.crd.None? ==> s.objects == map[])
    && (s.crd.Some? ==> forall k :: k in s.objects ==> s.objects[k].encoding in s.crd.value.storedVersions)
  }

  /** A cluster before any replica has run. */
  ghost predicate Init(s: System) {
    && Safe(s) && Sound(s)
    && s.ops == map[]
    && forall key :: key in s.requests ==> !Managed(s.requests[key])
  }

  /** Bookkeeping of the API server. */
  ghost predicate Sound(s: System) {
    && s.nextRv > 0
    && (forall k :: k in s.objects ==> s.objects[k].writtenAt <= s.clock)
    && (s.crd.Some? ==>
          && s.crd.value.uid in s.usedUids
          && s.crd.value.resourceVersion < s.nextRv
          && forall v :: WritesAt(s.crd.value, v) ==> v in s.crd.value.storedVersions)
  }

  /** `c` is a CRD state read at some earlier point of the run. */
  ghost predicate Known(s: System, c: Crd) {
    && c.uid in s.usedUids
    && c.resourceVersion < s.nextRv
    && (s.crd.Some? && s.crd.value.uid == c.uid ==>
          && c.generation <= s.crd.value.generation
          && (c.generation == s.crd.value.generation ==> SameSpec(c, s.crd.value)))
    && (s.crd.Some? && s.crd.value.resourceVersion == c.resourceVersion ==> s.crd.value == c)
  }

  /** The live CRD is still the generation that was read. */
  ghost predicate Unchanged(s: System, c: Crd) {
    s.crd.Some? && s.crd.value.uid == c.uid && s.crd.value.generation == c.generation
  }

  ghost predicate Migrated(s: System, c: Crd, v: string) {
    Unchanged(s, c) ==> forall k :: k in s.objects ==> s.objects[k].encoding == v
  }

  /** The request was created by a replica that had read `c` with storage version `v`. */
  ghost predicate Origin(s: System, r: Request, c: Crd, v: string) {
    && Known(s, c) && StorageOf(c) == Some(v)
    && r.annotations == Marks(c, v)
    && r.spec.group == c.group && r.spec.resource == c.plural
    && (Unchanged(s, c) ==>
          forall k :: k in s.objects && s.objects[k].writtenAt > r.created ==> s.objects[k].encoding == v)
    && (Unchanged(s, c) && r.conditions.Some? && Reports(r.conditions.value, "Succeeded") ==>
          forall k :: k in s.objects ==> s.objects[k].writtenAt > r.created)
  }

  ghost predicate RequestInv(s: System, r: Request) {
    Managed(r) ==> r.created <= s.clock && exists c, v :: Origin(s, r, c, v)
  }

  ghost predicate Read(s: System, c: Crd, v: string) {
    Known(s, c) && StorageOf(c) == Some(v)
  }

  ghost predicate OpInv(s: System, op: Op) {
    match op
    case Stopped(_) => true
    case Validating => true
    case Discovering(c, v) => Read(s, c, v)
    case Creating(c, v, _) => Read(s, c, v)
    case Resuming(c, v, _) => Read(s, c, v)
    case Polling(c, v, _, r) => Read(s, c, v)
    case Rereading(c, v, _, r) => Read(s, c, v) && Migrated(s, c, v)
    case Patching(c, v, _, r, current) =>
      && Read(s, c, v) && Migrated(s, c, v)
      && Read(s, current, v) && current.uid == c.uid && current.generation == c.generation
    case Deleting(c, v, _, r) => Read(s, c, v) && Migrated(s, c, v)
  }

  ghost predicate Inv(s: System) {
    && Safe(s) && Sound(s)
    && (forall i :: i in s.ops ==> OpInv(s, s.ops[i]))
    && (forall key :: key in s.requests ==> RequestInv(s, s.requests[key]))
  }

  // ---------------------------------------------------------------- what every step respects

  /**
   How CRD and objects may move in one step: a new CRD has a new UID and no objects; the same CRD
   keeps or raises its generation, keeping the spec if it keeps the generation; every change
   takes a new resource version; every object is as before or freshly written at the storage version.
   */
  ghost predicate Evolves(s: System, t: System) {
    && s.usedUids <= t.usedUids && s.nextRv <= t.nextRv && s.clock <= t.clock
    && (t.crd.Some? ==>
          if s.crd.Some? && s.crd.value.uid == t.crd.value.uid then
            && s.crd.value.generation <= t.crd.value.generation
            && (s.crd.value.generation == t.crd.value.generation ==> SameSpec(s.crd.value, t.crd.value))
          else t.crd.value.uid !in s.usedUids)
    && (t.crd.Some? ==> t.crd == s.crd || t.crd.value.resourceVersion >= s.nextRv)
    && (forall k :: k in t.objects ==>
          || (k in s.objects && t.objects[k] == s.objects[k])
          || (t.objects[k].writtenAt > s.clock && t.crd.Some? && WritesAt(t.crd.value, t.objects[k].encoding)))
  }

  lemma KnownEvolves(s: System, t: System, c: Crd)
    requires Evolves(s, t) && Known(s, c)
    ensures Known(t, c)
    ensures Unchanged(t, c) ==> Unchanged(s, c)
  {
  }

  /** With one storage version, that is what gets written. */
  lemma WritesAtStorage(live: Crd, c: Crd, v: string, w: string)
    requires StorageOf(c) == Some(v) && SameSpec(c, live) && WritesAt(live, w)
    ensures w == v
  {
    var x :| x in live.versions && x.storage && x.name == w;
    FlaggedElements(c.versions, x);
  }

  lemma MigratedEvolves(s: System, t: System, c: Crd, v: string)
    requires Evolves(s, t) && Read(s, c, v) && Migrated(s, c, v)
    ensures Migrated(t, c, v)
  {
    KnownEvolves(s, t, c);
    if Unchanged(t, c) {
      forall k | k in t.objects ensures t.objects[k].encoding == v {
        if !(k in s.objects && t.objects[k] == s.objects[k]) {
          WritesAtStorage(t.crd.value, c, v, t.objects[k].encoding);
        }
      }
    }
  }

  lemma OriginEvolves(s: System, t: System, r: Request, c: Crd, v: string)
    requires Evolves(s, t) && Origin(s, r, c, v) && r.created <= s.clock
    ensures Origin(t, r, c, v)
  {
    KnownEvolves(s, t, c);
    if Unchanged(t, c) {
      forall k | k in t.objects && t.objects[k].writtenAt > r.created ensures t.objects[k].encoding == v {
        if !(k in s.objects && t.objects[k] == s.objects[k]) {
          WritesAtStorage(t.crd.value, c, v, t.objects[k].encoding);
        }
      }
    }
  }

  lemma RequestInvEvolves(s: System, t: System, r: Request)
    requires Evolves(s, t) && RequestInv(s, r)
    ensures RequestInv(t, r)
  {
    if Managed(r) {
      var c, v :| Origin(s, r, c, v);
      OriginEvolves(s, t, r, c, v);
    }
  }

  lemma OpInvEvolves(s: System, t: System, op: Op)
    requires Evolves(s, t) && OpInv(s, op)
    ensures OpInv(t, op)
  {
    if !op.Stopped? && !op.Validating? {
      KnownEvolves(s, t, op.crd);
      if op.Patching? {
        KnownEvolves(s, t, op.current);
      }
      if op.Rereading? || op.Patching? || op.Deleting? {
        MigratedEvolves(s, t, op.crd, op.storage);
      }
    }
  }

  /** A step that evolves the cluster, keeps the replicas and only removes requests keeps the rest of Inv. */
  lemma RestEvolves(s: System, t: System)
    requires Inv(s) && Evolves(s, t) && Safe(t) && Sound(t)
    requires t.ops == s.ops
    requires forall key :: key in t.requests ==> key in s.requests && t.requests[key] == s.requests[key]
    ensures Inv(t)
  {
    forall i | i in t.ops ensures OpInv(t, t.ops[i]) {
      OpInvEvolves(s, t, t.ops[i]);
    }
    forall key | key in t.requests ensures RequestInv(t, t.requests[key]) {
      RequestInvEvolves(s, t, t.requests[key]);
    }
  }

  // ---------------------------------------------------------------- what a replica learns

  /** Equal marks identify the CRD, its generation and the storage version; names play no part. */
  lemma MarksIdentify(a: Crd, v: string, b: Crd, w: string, annotations: map<string, string>)
    requires annotations == Marks(a, v)
    requires forall key :: key in Marks(b, w) ==> Lookup(annotations, key) == Marks(b, w)[key]
    ensures a.uid == b.uid && a.generation == b.generation && v == w
  {
    assert CRD_UID_ANNOTATION in Marks(b, w) && CRD_GENERATION_ANNOTATION in Marks(b, w)
           && STORAGE_VERSION_ANNOTATION in Marks(b, w);
    assert Lookup(annotations, CRD_GENERATION_ANNOTATION) == Decimal(b.generation);
    DecimalInjective(a.generation, b.generation);
  }

  /**
   A Succeeded request that passes validation proves the migration, whoever created it and
   whenever: if the CRD is still at the generation this replica read, all objects are at `v`.
   */
  lemma SuccessProvesMigration(s: System, digest: string -> string, c: Crd, v: string, api: Api,
                               request: Request, uid: string)
    requires RequestInv(s, request) && Read(s, c, v)
    requires ValidRequest(request, NewRequest(digest, c, v, api), uid)
    requires Verdict(request) == Ok(true)
    ensures Migrated(s, c, v)
  {
    var a, w :| Origin(s, request, a, w);
    MarksIdentify(a, w, c, v, request.annotations);
  }

  // ---------------------------------------------------------------- the steps

  lemma SetOp(s: System, i: nat, op: Op)
    requires Inv(s) && OpInv(s, op)
    ensures Inv(WithOp(s, i, op))
  {
    var t := WithOp(s, i, op);
    forall j | j in t.ops ensures OpInv(t, t.ops[j]) {
      OpInvEvolves(s, t, t.ops[j]);
    }
    forall key | key in t.requests ensures RequestInv(t, t.requests[key]) {
      RequestInvEvolves(s, t, t.requests[key]);
    }
  }

  lemma SetRequest(s: System, key: Key, r: Request)
    requires Inv(s) && RequestInv(s, r)
    ensures Inv(s.(requests := s.requests[key := r]))
  {
    var t := s.(requests := s.requests[key := r]);
    forall j | j in t.ops ensures OpInv(t, t.ops[j]) {
      OpInvEvolves(s, t, t.ops[j]);
    }
    forall k | k in t.requests ensures RequestInv(t, t.requests[k]) {
      RequestInvEvolves(s, t, t.requests[k]);
    }
  }

  /** A read returns the live CRD. */
  lemma LiveIsKnown(s: System)
    requires Inv(s) && s.crd.Some?
    ensures Known(s, s.crd.value)
  {
  }

  lemma CreateKeepsInv(digest: string -> string, s: System, i: nat, reply: Reply)
    requires Inv(s) && i in s.ops && s.ops[i].Creating?
    ensures Inv(CreateCall(digest, s, i, s.ops[i], reply))
  {
    var op := s.ops[i];
    var expected := NewRequest(digest, op.crd, op.storage, op.api);
    var key := Key(op.api, expected.name);
    var stored := expected.(uid := reply.uid, created := s.clock);
    if reply.outcome.Rejected? || key in s.requests {
      SetOp(s, i, Stopped(Failed));
      SetOp(s, i, Resuming(op.crd, op.storage, op.api));
    } else {
      assert Origin(s, stored, op.crd, op.storage);
      SetRequest(s, key, stored);
      var t := s.(requests := s.requests[key := stored]);
      assert OpInv(t, op);
      SetOp(t, i, Adopt(digest, op.crd, op.storage, op.api, stored));
      SetOp(t, i, Stopped(Failed));
    }
  }

  /** The optimistic lock turns the reread snapshot into the live CRD, so the prune drops no encoding in use. */
  lemma PatchIsSafe(s: System, op: Op, t: System)
    requires Inv(s) && op.Patching? && OpInv(s, op)
    requires s.crd.Some? && s.crd.value.resourceVersion == op.current.resourceVersion
    requires t == s.(crd := Some(s.crd.value.(storedVersions := [op.storage], resourceVersion := s.nextRv)),
                     nextRv := s.nextRv + 1)
    ensures Inv(t)
    ensures OpInv(t, op)
  {
    assert s.crd.value == op.current && Unchanged(s, op.crd);
    forall w | WritesAt(t.crd.value, w) ensures w == op.storage {
      WritesAtStorage(t.crd.value, op.current, op.storage, w);
    }
    assert Safe(t) && Sound(t);
    RestEvolves(s, t);
    OpInvEvolves(s, t, op);
  }

  lemma PatchKeepsInv(s: System, i: nat, reply: Reply)
    requires Inv(s) && i in s.ops && s.ops[i].Patching?
    ensures Inv(PatchCall(s, i, s.ops[i], reply))
  {
    var op := s.ops[i];
    if reply.outcome.Rejected? || s.crd.None? || s.crd.value.resourceVersion != op.current.resourceVersion {
      SetOp(s, i, Stopped(Failed));
    } else {
      var t := s.(crd := Some(s.crd.value.(storedVersions := [op.storage], resourceVersion := s.nextRv)),
                  nextRv := s.nextRv + 1);
      var next := if reply.outcome.Delivered?
        then Deleting(op.crd, op.storage, op.api, op.request) else Stopped(Failed);
      PatchIsSafe(s, op, t);
      SetOp(t, i, next);
      assert PatchCall(s, i, op, reply) == WithOp(t, i, next);
    }
  }

  lemma DeleteKeepsInv(digest: string -> string, s: System, i: nat, reply: Reply)
    requires Inv(s) && i in s.ops && s.ops[i].Deleting?
    ensures Inv(DeleteCall(digest, s, i, s.ops[i], reply))
  {
    var op := s.ops[i];
    SetOp(s, i, Stopped(Failed));
    SetOp(s, i, Stopped(CleanedUp));
    var ended := WithOp(s, i, Stopped(if reply.outcome.Delivered? then CleanedUp else Failed));
    RestEvolves(ended, ended.(requests := s.requests - {Key(op.api, op.request.name)}));
  }

  lemma PollKeepsInv(digest: string -> string, s: System, i: nat, reply: Reply)
    requires Inv(s) && i in s.ops && s.ops[i].Polling?
    ensures Inv(CallStep(digest, s, i, s.ops[i], reply))
  {
    var op := s.ops[i];
    var key := KeyOf(digest, op.crd, op.storage, op.api);
    SetOp(s, i, Stopped(Failed));
    if key in s.requests {
      var next := Observe(digest, op, s.requests[key]);
      if next.Rereading? {
        SuccessProvesMigration(s, digest, op.crd, op.storage, op.api, s.requests[key], op.request.uid);
      }
      SetOp(s, i, next);
    }
  }

  lemma RereadKeepsInv(digest: string -> string, s: System, i: nat, reply: Reply)
    requires Inv(s) && i in s.ops && s.ops[i].Rereading?
    ensures Inv(CallStep(digest, s, i, s.ops[i], reply))
  {
    SetOp(s, i, Stopped(Failed));
    if s.crd.Some? {
      LiveIsKnown(s);
      SetOp(s, i, AfterReread(s.ops[i], s.crd.value));
    }
  }

  lemma CallKeepsInv(digest: string -> string, s: System, i: nat, reply: Reply)
    requires Inv(s) && i in s.ops
    ensures Inv(CallStep(digest, s, i, s.ops[i], reply))
  {
    var op := s.ops[i];
    SetOp(s, i, Stopped(Failed));
    match op
    case Stopped(_) =>
    case Validating =>
      if s.crd.Some? {
        LiveIsKnown(s);
      }
      SetOp(s, i, AfterGet(s.crd));
    case Discovering(crd, storage) =>
      if reply.api.Some? {
        SetOp(s, i, Creating(crd, storage, reply.api.value));
      }
    case Creating(_, _, _) =>
      CreateKeepsInv(digest, s, i, reply);
    case Resuming(crd, storage, api) =>
      var key := KeyOf(digest, crd, storage, api);
      if key in s.requests {
        SetOp(s, i, Adopt(digest, crd, storage, api, s.requests[key]));
      }
    case Polling(_, _, _, _) =>
      PollKeepsInv(digest, s, i, reply);
    case Rereading(_, _, _, _) =>
      RereadKeepsInv(digest, s, i, reply);
    case Patching(_, _, _, _, _) =>
      PatchKeepsInv(s, i, reply);
    case Deleting(_, _, _, _) =>
      DeleteKeepsInv(digest, s, i, reply);
  }

  lemma StorageNamesExact(crd: Crd, w: string)
    ensures w in StorageNames(crd.versions) <==> WritesAt(crd, w)
  {
    var flagged, names := Flagged(crd.versions), StorageNames(crd.versions);
    if w in names {
      var i :| 0 <= i < |names| && names[i] == w;
      FlaggedElements(crd.versions, flagged[i]);
    }
    if WritesAt(crd, w) {
      var x :| x in crd.versions && x.storage && x.name == w;
      FlaggedElements(crd.versions, x);
      var i :| 0 <= i < |flagged| && flagged[i] == x;
      assert names[i] == w;
    }
  }

  lemma CrdActionKeepsInv(digest: string -> string, s: System, a: Action)
    requires Inv(s) && (a.InstallCrd? || a.EditCrd? || a.RemoveCrd?)
    ensures Inv(Apply(digest, s, a))
  {
    var t := Apply(digest, s, a);
    if t != s {
      if t.crd.Some? {
        forall w | WritesAt(t.crd.value, w) ensures w in t.crd.value.storedVersions {
          StorageNamesExact(t.crd.value, w);
        }
      }
      RestEvolves(s, t);
    }
  }

  lemma ObjectActionKeepsInv(digest: string -> string, s: System, a: Action)
    requires Inv(s) && (a.WriteObject? || a.DropObject?)
    ensures Inv(Apply(digest, s, a))
  {
    var t := Apply(digest, s, a);
    if t != s {
      RestEvolves(s, t);
    }
  }

  lemma RequestActionKeepsInv(digest: string -> string, s: System, a: Action)
    requires Inv(s) && (a.Report? || a.ForeignRequest? || a.MarkDeleting? || a.RemoveRequest?)
    ensures Inv(Apply(digest, s, a))
  {
    match a
    case Report(key, conditions) =>
      if HonestReport(s, key, conditions) {
        var r, r' := s.requests[key], s.requests[key].(conditions := conditions);
        if Managed(r) {
          var c, v :| Origin(s, r, c, v);
          assert Origin(s, r', c, v);
        }
        SetRequest(s, key, r');
      }
    case ForeignRequest(key, request) =>
      if !Managed(request) {
        SetRequest(s, key, request.(created := s.clock));
      }
    case MarkDeleting(key) =>
      if key in s.requests {
        var r, r' := s.requests[key], s.requests[key].(deleting := true);
        if Managed(r) {
          var c, v :| Origin(s, r, c, v);
          assert Origin(s, r', c, v);
        }
        SetRequest(s, key, r');
      }
    case RemoveRequest(key) =>
      RestEvolves(s, Apply(digest, s, a));
  }

  lemma StepKeepsInv(digest: string -> string, s: System, a: Action)
    requires Inv(s)
    ensures Inv(Apply(digest, s, a))
  {
    match a
    case Start(i) => SetOp(s, i, Validating);
    case Crash(i) => SetOp(s, i, Stopped(Crashed));
    case Call(i, reply) =>
      if i in s.ops {
        CallKeepsInv(digest, s, i, reply);
      }
    case InstallCrd(_) => CrdActionKeepsInv(digest, s, a);
    case EditCrd(_) => CrdActionKeepsInv(digest, s, a);
    case RemoveCrd => CrdActionKeepsInv(digest, s, a);
    case WriteObject(_, _) => ObjectActionKeepsInv(digest, s, a);
    case DropObject(_) => ObjectActionKeepsInv(digest, s, a);
    case Report(_, _) => RequestActionKeepsInv(digest, s, a);
    case ForeignRequest(_, _) => RequestActionKeepsInv(digest, s, a);
    case MarkDeleting(_) => RequestActionKeepsInv(digest, s, a);
    case RemoveRequest(_) => RequestActionKeepsInv(digest, s, a);
  }

  lemma {:induction false} RunKeepsInv(digest: string -> string, s: System, actions: seq<Action>)
    requires Inv(s)
    ensures Inv(Exec(digest, s, actions))
    decreases |actions|
  {
    if actions != [] {
      StepKeepsInv(digest, s, actions[0]);
      RunKeepsInv(digest, Apply(digest, s, actions[0]), actions[1..]);
    }
  }

  // ---------------------------------------------------------------- main results

  /** Over every run of any number of replicas and every interference, no encoding is lost from the history. */
  lemma RunsAreSafe(digest: string -> string, s: System, actions: seq<Action>)
    requires Init(s)
    ensures Safe(Exec(digest, s, actions))
  {
    RunKeepsInv(digest, s, actions);
  }

  /**
   Whenever a version leaves the history of a CRD, the step is a replica's patch and every object
   is, at that moment, encoded at the single version that remains.
   */
  lemma PruneOnlyWhenMigrated(digest: string -> string, s: System, actions: seq<Action>, a: Action, v: string)
    requires Init(s)
    requires var before := Exec(digest, s, actions);
             var after := Apply(digest, before, a);
             && before.crd.Some? && after.crd.Some? && before.crd.value.uid == after.crd.value.uid
             && v in before.crd.value.storedVersions && v !in after.crd.value.storedVersions
    ensures var before := Exec(digest, s, actions);
            var after := Apply(digest, before, a);
            && a.Call? && a.i in before.ops && before.ops[a.i].Patching?
            && StorageOf(before.crd.value) == Some(before.ops[a.i].storage)
            && after.crd.value.storedVersions == [before.ops[a.i].storage]
            && after.crd.value.generation == before.crd.value.generation
            && (forall k :: k in before.objects ==> before.objects[k].encoding == before.ops[a.i].storage)
            && after.objects == before.objects
  {
    var before := Exec(digest, s, actions);
    RunKeepsInv(digest, s, actions);
    ShorteningIsPatch(digest, before, a, v);
  }

  lemma ShorteningIsPatch(digest: string -> string, s: System, a: Action, v: string)
    requires Inv(s)
    requires var t := Apply(digest, s, a);
             && s.crd.Some? && t.crd.Some? && s.crd.value.uid == t.crd.value.uid
             && v in s.crd.value.storedVersions && v !in t.crd.value.storedVersions
    ensures var t := Apply(digest, s, a);
            && a.Call? && a.i in s.ops && s.ops[a.i].Patching?
            && StorageOf(s.crd.value) == Some(s.ops[a.i].storage)
            && t.crd.value.storedVersions == [s.ops[a.i].storage]
            && t.crd.value.generation == s.crd.value.generation
            && (forall k :: k in s.objects ==> s.objects[k].encoding == s.ops[a.i].storage)
            && t.objects == s.objects
  {
    var t := Apply(digest, s, a);
    assert t.crd != s.crd;
    assert a.Call? && a.i in s.ops;
    var op := s.ops[a.i];
    assert OpInv(s, op);
    assert op.Patching?;
    assert s.crd.value == op.current && Unchanged(s, op.crd);
  }
}
