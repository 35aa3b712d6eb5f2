/**
 Storage-version migration as a transition system. Any number of operator replicas run the
 driver of pkg/storagemigration/migration.go, one API call per step, and may crash between
 calls. CRD editors, object writers, the migration controller and other request owners act
 between any two calls. A run is a sequence of actions; an action whose rule forbids it has
 no effect, so every sequence of actions is a run.
 */
module StorageProtocol {
  import opened Common
  import opened StorageTypes
  import opened StorageSupport

  /** A custom resource in etcd: the version its bytes are encoded at and when it was last written. */
  datatype Stored = Stored(encoding: string, writtenAt: nat)

  datatype Key = Key(api: Api, name: string)

  datatype Ending = NotNeeded | CleanedUp | Failed | Crashed

  /** Where one replica is in `execute`: the call it makes next and the fields it has set. */
  datatype Op =
    | Stopped(ending: Ending)
    | Validating
    | Discovering(crd: Crd, storage: string)
    | Creating(crd: Crd, storage: string, api: Api)
    | Resuming(crd: Crd, storage: string, api: Api)
    | Polling(crd: Crd, storage: string, api: Api, request: Request)
    | Rereading(crd: Crd, storage: string, api: Api, request: Request)
    | Patching(crd: Crd, storage: string, api: Api, request: Request, current: Crd)
    | Deleting(crd: Crd, storage: string, api: Api, request: Request)

  datatype System = System(
    crd: Option<Crd>,
    objects: map<string, Stored>,
    requests: map<Key, Request>,
    ops: map<nat, Op>,
    clock: nat,
    usedUids: set<string>,
    nextRv: nat)

  /** Lost: the server carried the call out, but the caller saw an error. */
  datatype Outcome = Delivered | Rejected | Lost

  /** The server's side of one call: outcome, UID given to a created request, API discovered. */
  datatype Reply = Reply(outcome: Outcome, uid: string, api: Option<Api>)

  datatype Action =
    | Start(i: nat)
    | Crash(i: nat)
    | Call(i: nat, reply: Reply)
    | InstallCrd(crd: Crd)
    | EditCrd(crd: Crd)
    | RemoveCrd
    | WriteObject(object: string, version: string)
    | DropObject(object: string)
    | Report(key: Key, conditions: Option<seq<RequestCondition>>)
    | ForeignRequest(key: Key, request: Request)
    | MarkDeleting(key: Key)
    | RemoveRequest(key: Key)

  // ---------------------------------------------------------------- decisions of one replica

  function AfterGet(crd: Option<Crd>): Op {
    match crd
    case None => Stopped(NotNeeded)
    case Some(c) =>
      match StorageOf(c)
      case None => Stopped(Failed)
      case Some(v) => if c.storedVersions == [v] then Stopped(NotNeeded) else Discovering(c, v)
  }

  /** The created or resumed request is checked before the wait starts; a Failed one ends the attempt. */
  function Adopt(digest: string -> string, crd: Crd, storage: string, api: Api, request: Request): Op {
    if ValidRequest(request, NewRequest(digest, crd, storage, api), "") && Verdict(request).Ok?
    then Polling(crd, storage, api, request)
    else Stopped(Failed)
  }

  function Observe(digest: string -> string, op: Op, current: Request): Op
    requires op.Polling?
  {
    var expected := NewRequest(digest, op.crd, op.storage, op.api);
    if !ValidRequest(current, expected, op.request.uid) then Stopped(Failed)
    else match Verdict(current)
      case Err(_) => Stopped(Failed)
      case Ok(succeeded) =>
        if succeeded then Rereading(op.crd, op.storage, op.api, op.request) else op
  }

  function AfterReread(op: Op, current: Crd): Op
    requires op.Rereading?
  {
    if StorageOf(current) != Some(op.storage) || current.uid != op.crd.uid || current.generation != op.crd.generation
    then Stopped(Failed)
    else if current.storedVersions == [op.storage]
    then Deleting(op.crd, op.storage, op.api, op.request)
    else Patching(op.crd, op.storage, op.api, op.request, current)
  }

  function KeyOf(digest: string -> string, crd: Crd, storage: string, api: Api): Key {
    Key(api, NewRequest(digest, crd, storage, api).name)
  }

  // ---------------------------------------------------------------- one API call

  function WithOp(s: System, i: nat, op: Op): System {
    s.(ops := s.ops[i := op])
  }

  function CreateCall(digest: string -> string, s: System, i: nat, op: Op, reply: Reply): System
    requires op.Creating?
  {
    var expected := NewRequest(digest, op.crd, op.storage, op.api);
    var key := Key(op.api, expected.name);
    if reply.outcome.Rejected? then WithOp(s, i, Stopped(Failed))
    else if key in s.requests then
      WithOp(s, i, if reply.outcome.Delivered? then Resuming(op.crd, op.storage, op.api) else Stopped(Failed))
    else
      var stored := expected.(uid := reply.uid, created := s.clock);
      WithOp(s.(requests := s.requests[key := stored]), i,
             if reply.outcome.Delivered? then Adopt(digest, op.crd, op.storage, op.api, stored) else Stopped(Failed))
  }

  /** The status patch: a merge patch guarded by the resource version; the history is replaced whole. */
  function PatchCall(s: System, i: nat, op: Op, reply: Reply): System
    requires op.Patching?
  {
    if reply.outcome.Rejected? || s.crd.None? || s.crd.value.resourceVersion != op.current.resourceVersion
    then WithOp(s, i, Stopped(Failed))
    else
      var patched := s.crd.value.(storedVersions := [op.storage], resourceVersion := s.nextRv);
      WithOp(s.(crd := Some(patched), nextRv := s.nextRv + 1), i,
             if reply.outcome.Delivered? then Deleting(op.crd, op.storage, op.api, op.request) else Stopped(Failed))
  }

  /** The delete carries the adopted request's UID as a precondition; an absent request is fine. */
  function DeleteCall(digest: string -> string, s: System, i: nat, op: Op, reply: Reply): System
    requires op.Deleting?
  {
    var key := Key(op.api, op.request.name);
    var ended := WithOp(s, i, Stopped(if reply.outcome.Delivered? then CleanedUp else Failed));
    if reply.outcome.Rejected? || (key in s.requests && s.requests[key].uid != op.request.uid)
    then WithOp(s, i, Stopped(Failed))
    else ended.(requests := s.requests - {key})
  }

  function CallStep(digest: string -> string, s: System, i: nat, op: Op, reply: Reply): System {
    match op
    case Stopped(_) => s
    case Validating =>
      WithOp(s, i, if reply.outcome.Delivered? then AfterGet(s.crd) else Stopped(Failed))
    case Discovering(crd, storage) =>
      WithOp(s, i, if reply.api.Some? then Creating(crd, storage, reply.api.value) else Stopped(Failed))
    case Creating(_, _, _) =>
      CreateCall(digest, s, i, op, reply)
    case Resuming(crd, storage, api) =>
      var key := KeyOf(digest, crd, storage, api);
      WithOp(s, i, if reply.outcome.Delivered? && key in s.requests
                   then Adopt(digest, crd, storage, api, s.requests[key]) else Stopped(Failed))
    case Polling(crd, storage, api, _) =>
      var key := KeyOf(digest, crd, storage, api);
      WithOp(s, i, if reply.outcome.Delivered? && key in s.requests
                   then Observe(digest, op, s.requests[key]) else Stopped(Failed))
    case Rereading(_, _, _, _) =>
      WithOp(s, i, if reply.outcome.Delivered? && s.crd.Some? then AfterReread(op, s.crd.value) else Stopped(Failed))
    case Patching(_, _, _, _, _) =>
      PatchCall(s, i, op, reply)
    case Deleting(_, _, _, _) =>
      DeleteCall(digest, s, i, op, reply)
  }

  // ---------------------------------------------------------------- everyone else

  /** Writes are encoded at a version the current CRD flags for storage. */
  predicate WritesAt(crd: Crd, version: string) {
    exists v :: v in crd.versions && v.storage && v.name == version
  }

  predicate SameSpec(a: Crd, b: Crd) {
    a.versions == b.versions && a.group == b.group && a.plural == b.plural
  }

  function StorageNames(versions: seq<CrdVersion>): seq<string> {
    var flagged := Flagged(versions);
    seq(|flagged|, i requires 0 <= i < |flagged| => flagged[i].name)
  }

  /**
   What the API server allows an editor: the generation never decreases and grows when the spec
   changes; no other actor shortens the history; the storage version is part of the history.
   */
  predicate LegalEdit(from: Crd, to: Crd) {
    && to.uid == from.uid
    && to.generation >= from.generation
    && (!SameSpec(from, to) ==> to.generation > from.generation)
    && (forall v :: v in from.storedVersions ==> v in to.storedVersions)
    && (forall v :: v in StorageNames(to.versions) ==> v in to.storedVersions)
  }

  /** Every object of the request's resource has been rewritten since the request was created. */
  predicate Rewritten(s: System, request: Request) {
    s.crd.Some? && request.spec.group == s.crd.value.group && request.spec.resource == s.crd.value.plural ==>
      forall k :: k in s.objects ==> s.objects[k].writtenAt > request.created
  }

  /** The controller claims success only for a completed rewrite. */
  predicate HonestReport(s: System, key: Key, conditions: Option<seq<RequestCondition>>) {
    key in s.requests &&
    (conditions.Some? && Reports(conditions.value, "Succeeded") ==> Rewritten(s, s.requests[key]))
  }

  function Apply(digest: string -> string, s: System, a: Action): System {
    match a
    case Start(i) => WithOp(s, i, Validating)
    case Crash(i) => WithOp(s, i, Stopped(Crashed))
    case Call(i, reply) => if i in s.ops then CallStep(digest, s, i, s.ops[i], reply) else s
    case InstallCrd(crd) =>
      if s.crd.Some? || crd.uid == "" || crd.uid in s.usedUids then s
      else s.(crd := Some(crd.(resourceVersion := s.nextRv, storedVersions := StorageNames(crd.versions))),
              usedUids := s.usedUids + {crd.uid}, nextRv := s.nextRv + 1)
    case EditCrd(crd) =>
      if s.crd.None? || !LegalEdit(s.crd.value, crd) then s
      else s.(crd := Some(crd.(resourceVersion := s.nextRv)), nextRv := s.nextRv + 1)
    case RemoveCrd => s.(crd := None, objects := map[])
    case WriteObject(k, version) =>
      if s.crd.None? || !WritesAt(s.crd.value, version) then s
      else s.(objects := s.objects[k := Stored(version, s.clock + 1)], clock := s.clock + 1)
    case DropObject(k) => s.(objects := s.objects - {k})
    case Report(key, conditions) =>
      if !HonestReport(s, key, conditions) then s
      else s.(requests := s.requests[key := s.requests[key].(conditions := conditions)])
    case ForeignRequest(key, request) =>
      if Managed(request) then s
      else s.(requests := s.requests[key := request.(created := s.clock)])
    case MarkDeleting(key) =>
      if key !in s.requests then s
      else s.(requests := s.requests[key := s.requests[key].(deleting := true)])
    case RemoveRequest(key) => s.(requests := s.requests - {key})
  }

  function Exec(digest: string -> string, s: System, actions: seq<Action>): System
    decreases |actions|
  {
    if actions == [] then s else Exec(digest, Apply(digest, s, actions[0]), actions[1..])
  }

  lemma {:induction false} ExecAppend(digest: string -> string, s: System, a: seq<Action>, b: seq<Action>)
    ensures Exec(digest, s, a + b) == Exec(digest, Exec(digest, s, a), b)
    decreases |a|
  {
    if a == [] {
      assert [] + b == b;
    } else {
      ExecAppend(digest, Apply(digest, s, a[0]), a[1..], b);
      assert (a + b)[1..] == a[1..] + b;
    }
  }
}
