/** Duplicate detection across additional ingresses (pkg/gatewayconfig/validation.go). */
module IngressValidation {
  import opened Common
  import opened Text

  datatype Oidc = Oidc(clientId: string, secretName: string, secretNamespace: string)

  datatype Ingress = Ingress(name: string, hostname: string, routeLabels: map<string, string>, oidc: Option<Oidc>)

  /** `fieldError` is what the per-field validation of the spec reports. */
  datatype GatewayConfig = GatewayConfig(oidc: Option<Oidc>, ingresses: seq<Ingress>, fieldError: Option<string>)

  datatype Field = NameField | HostnameField | RouteLabelsField | ClientIdField | SecretRefField

  datatype Path = SpecOidc | At(index: nat, field: Field)

  datatype Message =
    | FieldError(text: string)
    | Duplicate(path: Path, previous: Path)
    | OidcRequired(index: nat)
    | OidcNeedsSpec(index: nat)

  // ---------------------------------------------------------------- keys

  function SecretReferenceKey(name: string, namespace: string, defaultNamespace: string): string {
    (if namespace == "" then defaultNamespace else namespace) + "/" + name
  }

  function LabelsKey(labels: map<string, string>, keys: seq<string>): string
    requires forall k :: k in keys ==> k in labels
  {
    if keys == [] then ""
    else assert keys[0] in keys; keys[0] + "=" + labels[keys[0]] + "\0" + LabelsKey(labels, keys[1..])
  }

  ghost function CanonicalKey(labels: map<string, string>): string {
    LabelsKey(labels, KeysOf(labels.Keys))
  }

  lemma Associate(a: string, b: string, c: string)
    ensures a + (b + c) == (a + b) + c
  {
  }

  lemma {:induction false} LabelsKeyAppend(labels: map<string, string>, keys: seq<string>, k: string)
    requires k in labels && forall x :: x in keys ==> x in labels
    ensures LabelsKey(labels, keys + [k]) == LabelsKey(labels, keys) + (k + "=" + labels[k] + "\0")
    decreases |keys|
  {
    if keys == [] {
      assert [] + [k] == [k];
      assert [k][1..] == [];
    } else {
      assert keys[0] in keys;
      assert (keys + [k])[1..] == keys[1..] + [k];
      LabelsKeyAppend(labels, keys[1..], k);
      Associate(keys[0] + "=" + labels[keys[0]] + "\0", LabelsKey(labels, keys[1..]), k + "=" + labels[k] + "\0");
    }
  }

  /** canonicalLabelsKey: the map is ranged over in any order, then sorted and written out. */
  method CanonicalLabelsKey(labels: map<string, string>) returns (s: string)
    ensures s == CanonicalKey(labels)
  {
    var keys := SortedKeys(labels);
    s := "";
    for i := 0 to |keys|
      invariant s == LabelsKey(labels, keys[..i])
    {
      assert keys[i] in keys;
      assert keys[..i + 1] == keys[..i] + [keys[i]];
      LabelsKeyAppend(labels, keys[..i], keys[i]);
      var entry := keys[i];
      entry := entry + "=";
      entry := entry + labels[keys[i]];
      entry := entry + "\0";
      s := s + entry;
    }
    assert keys[..|keys|] == keys;
  }

  /** Label keys contain no '=' and values no NUL; Kubernetes labels are such. */
  ghost predicate PlainLabels(labels: map<string, string>) {
    forall k :: k in labels ==> Without(k, '=') && Without(labels[k], '\0')
  }

  lemma Regroup(key: string, value: string, rest: string)
    ensures key + "=" + value + "\0" + rest == key + ['='] + (value + ['\0'] + rest)
  {
  }

  lemma LabelsKeyCut(labels: map<string, string>, keys: seq<string>)
    requires PlainLabels(labels) && keys != [] && forall k :: k in keys ==> k in labels
    ensures keys[0] in labels
    ensures var after := labels[keys[0]] + ['\0'] + LabelsKey(labels, keys[1..]);
            && Cut(LabelsKey(labels, keys), '=') == Some((keys[0], after))
            && Cut(after, '\0') == Some((labels[keys[0]], LabelsKey(labels, keys[1..])))
  {
    assert keys[0] in keys;
    var value, rest := labels[keys[0]], LabelsKey(labels, keys[1..]);
    CutLaw(value, '\0', rest);
    CutLaw(keys[0], '=', value + ['\0'] + rest);
    Regroup(keys[0], value, rest);
  }

  lemma {:induction false} LabelsKeyInjective(a: map<string, string>, ka: seq<string>, b: map<string, string>,
                                              kb: seq<string>)
    requires PlainLabels(a) && PlainLabels(b)
    requires (forall k :: k in ka ==> k in a) && (forall k :: k in kb ==> k in b)
    requires LabelsKey(a, ka) == LabelsKey(b, kb)
    ensures ka == kb && forall k :: k in ka ==> a[k] == b[k]
    decreases |ka|
  {
    if ka != [] && kb != [] {
      LabelsKeyCut(a, ka);
      LabelsKeyCut(b, kb);
      LabelsKeyInjective(a, ka[1..], b, kb[1..]);
      assert ka == [ka[0]] + ka[1..] && kb == [kb[0]] + kb[1..];
    }
  }

  /** On plain labels the key identifies the label set. */
  lemma CanonicalKeyExact(a: map<string, string>, b: map<string, string>)
    requires PlainLabels(a) && PlainLabels(b)
    ensures CanonicalKey(a) == CanonicalKey(b) <==> a == b
  {
    if CanonicalKey(a) == CanonicalKey(b) {
      var ka, kb := KeysOf(a.Keys), KeysOf(b.Keys);
      LabelsKeyInjective(a, ka, b, kb);
      forall k ensures k in a <==> k in b {
        assert k in ka <==> k in a.Keys;
        assert k in kb <==> k in b.Keys;
      }
      forall k | k in a ensures a[k] == b[k] {
        assert k in ka;
      }
      assert a == b;
    }
  }

  /** Without that the key can lie: a label key with '=' collides with a shorter key. */
  lemma CanonicalKeyCollision()
    ensures map["a=b" := "c"] != map["a" := "b=c"]
    ensures CanonicalKey(map["a=b" := "c"]) == CanonicalKey(map["a" := "b=c"])
  {
    var x, y := map["a=b" := "c"], map["a" := "b=c"];
    assert "a=b" in x && "a=b" !in y;
    KeysOfUnique(x.Keys, ["a=b"]);
    KeysOfUnique(y.Keys, ["a"]);
    assert ["a=b"][1..] == [] && ["a"][1..] == [];
    assert LabelsKey(x, ["a=b"]) == "a=b=c\0" && LabelsKey(y, ["a"]) == "a=b=c\0";
  }

  /** A namespace has no '/': the reference key identifies namespace and name. */
  lemma SecretReferenceKeyExact(name: string, ns: string, name': string, ns': string, defaultNs: string)
    requires Without(ns, '/') && Without(ns', '/') && Without(defaultNs, '/')
    ensures SecretReferenceKey(name, ns, defaultNs) == SecretReferenceKey(name', ns', defaultNs) <==>
            name == name' && (if ns == "" then defaultNs else ns) == (if ns' == "" then defaultNs else ns')
  {
    CutLaw(if ns == "" then defaultNs else ns, '/', name);
    CutLaw(if ns' == "" then defaultNs else ns', '/', name');
    assert SecretReferenceKey(name, ns, defaultNs) == (if ns == "" then defaultNs else ns) + ['/'] + name;
    assert SecretReferenceKey(name', ns', defaultNs) == (if ns' == "" then defaultNs else ns') + ['/'] + name';
  }

  // ---------------------------------------------------------------- what must be reported

  ghost function FieldKey(cfg: GatewayConfig, defaultNs: string, i: nat, f: Field): Option<string>
    requires i < |cfg.ingresses|
  {
    var ingress := cfg.ingresses[i];
    match f
    case NameField => Some(ingress.name)
    case HostnameField => Some(ingress.hostname)
    case RouteLabelsField => Some(CanonicalKey(ingress.routeLabels))
    case ClientIdField => if ingress.oidc.None? then None else Some(ingress.oidc.value.clientId)
    case SecretRefField =>
      if ingress.oidc.None? then None
      else Some(SecretReferenceKey(ingress.oidc.value.secretName, ingress.oidc.value.secretNamespace, defaultNs))
  }

  ghost function SpecKey(cfg: GatewayConfig, defaultNs: string, f: Field): Option<string> {
    if cfg.oidc.None? then None else
      match f
      case ClientIdField => Some(cfg.oidc.value.clientId)
      case SecretRefField => Some(SecretReferenceKey(cfg.oidc.value.secretName, cfg.oidc.value.secretNamespace,
                                                     defaultNs))
      case _ => None
  }

  /** The first of spec.oidc and the first `n` entries whose field has this key. */
  ghost function Holder(cfg: GatewayConfig, defaultNs: string, n: nat, f: Field, key: string): Option<Path>
    requires n <= |cfg.ingresses|
  {
    if n == 0 then (if SpecKey(cfg, defaultNs, f) == Some(key) then Some(SpecOidc) else None)
    else
      var earlier := Holder(cfg, defaultNs, n - 1, f, key);
      if earlier.Some? then earlier
      else if FieldKey(cfg, defaultNs, n - 1, f) == Some(key) then Some(At(n - 1, f))
      else None
  }

  /** Where the value of this field stood before. */
  ghost function Earlier(cfg: GatewayConfig, defaultNs: string, i: nat, f: Field): Option<Path>
    requires i < |cfg.ingresses|
  {
    var key := FieldKey(cfg, defaultNs, i, f);
    if key.None? then None else Holder(cfg, defaultNs, i, f, key.value)
  }

  ghost function Dup(cfg: GatewayConfig, defaultNs: string, i: nat, f: Field): seq<Message>
    requires i < |cfg.ingresses|
  {
    var earlier := Earlier(cfg, defaultNs, i, f);
    if earlier.None? then [] else [Duplicate(At(i, f), earlier.value)]
  }

  ghost function FieldMessages(cfg: GatewayConfig, defaultNs: string, i: nat): seq<Message>
    requires i < |cfg.ingresses|
  {
    Dup(cfg, defaultNs, i, NameField) + Dup(cfg, defaultNs, i, HostnameField) + Dup(cfg, defaultNs, i, RouteLabelsField)
  }

  ghost function OidcMessages(cfg: GatewayConfig, defaultNs: string, i: nat): seq<Message>
    requires i < |cfg.ingresses|
  {
    if cfg.ingresses[i].oidc.None? then (if cfg.oidc.Some? then [OidcRequired(i)] else [])
    else (if cfg.oidc.None? then [OidcNeedsSpec(i)] else []) +
         (Dup(cfg, defaultNs, i, ClientIdField) + Dup(cfg, defaultNs, i, SecretRefField))
  }

  ghost function Entries(cfg: GatewayConfig, defaultNs: string): nat -> seq<Message> {
    (i: nat) => if i < |cfg.ingresses| then FieldMessages(cfg, defaultNs, i) + OidcMessages(cfg, defaultNs, i) else []
  }

  /** The blocks of the first `n` entries, in order. */
  ghost function Upto(block: nat -> seq<Message>, n: nat): seq<Message> {
    if n == 0 then [] else Upto(block, n - 1) + block(n - 1)
  }

  lemma {:induction false} UptoHolds(block: nat -> seq<Message>, n: nat, m: Message)
    ensures m in Upto(block, n) <==> exists j: nat :: j < n && m in block(j)
  {
    if n > 0 {
      UptoHolds(block, n - 1, m);
    }
  }

  ghost function Messages(cfg: GatewayConfig, defaultNs: string): seq<Message> {
    if cfg.ingresses == [] then []
    else
      (if cfg.fieldError.Some? then [FieldError(cfg.fieldError.value)] else []) +
      Upto(Entries(cfg, defaultNs), |cfg.ingresses|)
  }

  // ---------------------------------------------------------------- the validation as written

  /** Three fields share one map and are told apart by a prefix; the other two have maps of their own. */
  function Prefix(f: Field): string {
    match f
    case NameField => "name:"
    case HostnameField => "hostname:"
    case RouteLabelsField => "routeLabels:"
    case _ => ""
  }

  predicate Shared(f: Field) {
    f.NameField? || f.HostnameField? || f.RouteLabelsField?
  }

  /** No cross-field hits in the shared map. */
  lemma PrefixesKeepApart(f: Field, g: Field, a: string, b: string)
    requires Shared(f) && Shared(g) && f != g
    ensures Prefix(f) + a != Prefix(g) + b
  {
    assert (Prefix(f) + a)[0] == Prefix(f)[0] && (Prefix(g) + b)[0] == Prefix(g)[0];
  }

  lemma PrefixInjective(f: Field, a: string, b: string)
    requires Prefix(f) + a == Prefix(f) + b
    ensures a == b
  {
    assert (Prefix(f) + a)[|Prefix(f)|..] == a && (Prefix(f) + b)[|Prefix(f)|..] == b;
  }

  /** The map knows exactly the holders of field `f` among spec.oidc and the first `n` entries. */
  ghost predicate Tracks(seen: map<string, Path>, cfg: GatewayConfig, defaultNs: string, n: nat, f: Field)
    requires n <= |cfg.ingresses|
  {
    forall key: string ::
      && (Prefix(f) + key in seen <==> Holder(cfg, defaultNs, n, f, key).Some?)
      && (Prefix(f) + key in seen ==> seen[Prefix(f) + key] == Holder(cfg, defaultNs, n, f, key).value)
  }

  /** appendDuplicate. */
  method AppendDuplicate(messages: seq<Message>, seen: map<string, Path>, key: string, path: Path)
    returns (messages': seq<Message>, seen': map<string, Path>)
    ensures key in seen ==> messages' == messages + [Duplicate(path, seen[key])] && seen' == seen
    ensures key !in seen ==> messages' == messages && seen' == seen[key := path]
  {
    if key !in seen {
      return messages, seen[key := path];
    }
    return messages + [Duplicate(path, seen[key])], seen;
  }

  lemma TrackedStep(seen: map<string, Path>, cfg: GatewayConfig, defaultNs: string, i: nat, f: Field, key: string,
                    next: map<string, Path>)
    requires i < |cfg.ingresses| && Tracks(seen, cfg, defaultNs, i, f) && FieldKey(cfg, defaultNs, i, f) == Some(key)
    requires next == if Prefix(f) + key in seen then seen else seen[Prefix(f) + key := At(i, f)]
    ensures Tracks(next, cfg, defaultNs, i + 1, f)
    ensures Dup(cfg, defaultNs, i, f) ==
            if Prefix(f) + key in seen then [Duplicate(At(i, f), seen[Prefix(f) + key])] else []
  {
    forall k: string
      ensures (Prefix(f) + k in next <==> Holder(cfg, defaultNs, i + 1, f, k).Some?)
              && (Prefix(f) + k in next ==> next[Prefix(f) + k] == Holder(cfg, defaultNs, i + 1, f, k).value)
    {
      if k != key && Prefix(f) + k == Prefix(f) + key {
        PrefixInjective(f, k, key);
      }
      assert Prefix(f) + k in seen <==> Holder(cfg, defaultNs, i, f, k).Some?;
    }
    assert Prefix(f) + key in seen <==> Holder(cfg, defaultNs, i, f, key).Some?;
  }

  /** An update for one shared field leaves what the map knows of the others. */
  lemma OtherFieldsKept(seen: map<string, Path>, cfg: GatewayConfig, defaultNs: string, n: nat, f: Field, key: string,
                        path: Path, g: Field)
    requires n <= |cfg.ingresses| && Shared(f) && Shared(g) && f != g && Tracks(seen, cfg, defaultNs, n, g)
    ensures Tracks(seen[Prefix(f) + key := path], cfg, defaultNs, n, g)
  {
    forall k: string ensures Prefix(g) + k != Prefix(f) + key {
      PrefixesKeepApart(f, g, key, k);
    }
  }

  /** One shared field of one entry. */
  method CheckShared(messages: seq<Message>, seen: map<string, Path>, cfg: GatewayConfig, ghost defaultNs: string,
                     i: nat, f: Field, key: string)
    returns (messages': seq<Message>, seen': map<string, Path>)
    requires i < |cfg.ingresses| && Shared(f) && Tracks(seen, cfg, defaultNs, i, f) &&
             FieldKey(cfg, defaultNs, i, f) == Some(key)
    ensures messages' == messages + Dup(cfg, defaultNs, i, f) && Tracks(seen', cfg, defaultNs, i + 1, f)
    ensures forall g: Field, n: nat ::
              n <= |cfg.ingresses| && Shared(g) && g != f && Tracks(seen, cfg, defaultNs, n, g) ==>
              Tracks(seen', cfg, defaultNs, n, g)
  {
    messages', seen' := AppendDuplicate(messages, seen, Prefix(f) + key, At(i, f));
    TrackedStep(seen, cfg, defaultNs, i, f, key, seen');
    forall g: Field, n: nat | n <= |cfg.ingresses| && Shared(g) && g != f && Tracks(seen, cfg, defaultNs, n, g)
      ensures Tracks(seen', cfg, defaultNs, n, g)
    {
      OtherFieldsKept(seen, cfg, defaultNs, n, f, key, At(i, f), g);
    }
  }

  /** validateOIDCIdentity: client ID and defaulted secret reference of one entry. */
  method ValidateOidcIdentity(cfg: GatewayConfig, defaultNs: string, i: nat, clientIds: map<string, Path>,
                              secretRefs: map<string, Path>)
    returns (messages: seq<Message>, clientIds': map<string, Path>, secretRefs': map<string, Path>)
    requires i < |cfg.ingresses| && cfg.ingresses[i].oidc.Some?
    requires Tracks(clientIds, cfg, defaultNs, i, ClientIdField) &&
             Tracks(secretRefs, cfg, defaultNs, i, SecretRefField)
    ensures messages == Dup(cfg, defaultNs, i, ClientIdField) + Dup(cfg, defaultNs, i, SecretRefField)
    ensures Tracks(clientIds', cfg, defaultNs, i + 1, ClientIdField) &&
            Tracks(secretRefs', cfg, defaultNs, i + 1, SecretRefField)
  {
    var oidc := cfg.ingresses[i].oidc.value;
    assert Prefix(ClientIdField) + oidc.clientId == oidc.clientId;
    messages, clientIds' := AppendDuplicate([], clientIds, oidc.clientId, At(i, ClientIdField));
    TrackedStep(clientIds, cfg, defaultNs, i, ClientIdField, oidc.clientId, clientIds');
    var key := SecretReferenceKey(oidc.secretName, oidc.secretNamespace, defaultNs);
    assert Prefix(SecretRefField) + key == key;
    messages, secretRefs' := AppendDuplicate(messages, secretRefs, key, At(i, SecretRefField));
    TrackedStep(secretRefs, cfg, defaultNs, i, SecretRefField, key, secretRefs');
  }

  lemma TracksAtStart(cfg: GatewayConfig, defaultNs: string, f: Field, seen: map<string, Path>)
    requires match SpecKey(cfg, defaultNs, f)
             case None => seen == map[]
             case Some(key) => !Shared(f) && seen == map[key := SpecOidc]
    ensures Tracks(seen, cfg, defaultNs, 0, f)
  {
    if !Shared(f) {
      forall key: string ensures Prefix(f) + key == key {
      }
    }
  }

  lemma NoKeyNoHolder(seen: map<string, Path>, cfg: GatewayConfig, defaultNs: string, i: nat, f: Field)
    requires i < |cfg.ingresses| && FieldKey(cfg, defaultNs, i, f).None? && Tracks(seen, cfg, defaultNs, i, f)
    ensures Tracks(seen, cfg, defaultNs, i + 1, f)
  {
    forall key: string ensures Holder(cfg, defaultNs, i + 1, f, key) == Holder(cfg, defaultNs, i, f, key) {
    }
  }

  ghost predicate TracksShared(seen: map<string, Path>, cfg: GatewayConfig, defaultNs: string, n: nat)
    requires n <= |cfg.ingresses|
  {
    Tracks(seen, cfg, defaultNs, n, NameField) && Tracks(seen, cfg, defaultNs, n, HostnameField) &&
      Tracks(seen, cfg, defaultNs, n, RouteLabelsField)
  }

  ghost predicate TracksIdentity(clientIds: map<string, Path>, secretRefs: map<string, Path>, cfg: GatewayConfig,
                                 defaultNs: string, n: nat)
    requires n <= |cfg.ingresses|
  {
    Tracks(clientIds, cfg, defaultNs, n, ClientIdField) && Tracks(secretRefs, cfg, defaultNs, n, SecretRefField)
  }

  /** The three fields every entry has. */
  method CheckFields(cfg: GatewayConfig, ghost defaultNs: string, i: nat, seen: map<string, Path>)
    returns (messages: seq<Message>, seen': map<string, Path>)
    requires i < |cfg.ingresses| && TracksShared(seen, cfg, defaultNs, i)
    ensures messages == FieldMessages(cfg, defaultNs, i) && TracksShared(seen', cfg, defaultNs, i + 1)
  {
    var ingress := cfg.ingresses[i];
    var labelsKey := CanonicalLabelsKey(ingress.routeLabels);
    messages, seen' := CheckShared([], seen, cfg, defaultNs, i, NameField, ingress.name);
    messages, seen' := CheckShared(messages, seen', cfg, defaultNs, i, HostnameField, ingress.hostname);
    messages, seen' := CheckShared(messages, seen', cfg, defaultNs, i, RouteLabelsField, labelsKey);
  }

  /** The OIDC settings of one entry. */
  method CheckOidc(cfg: GatewayConfig, defaultNs: string, i: nat, clientIds: map<string, Path>,
                   secretRefs: map<string, Path>)
    returns (messages: seq<Message>, clientIds': map<string, Path>, secretRefs': map<string, Path>)
    requires i < |cfg.ingresses| && TracksIdentity(clientIds, secretRefs, cfg, defaultNs, i)
    ensures messages == OidcMessages(cfg, defaultNs, i) &&
            TracksIdentity(clientIds', secretRefs', cfg, defaultNs, i + 1)
  {
    messages, clientIds', secretRefs' := [], clientIds, secretRefs;
    if cfg.ingresses[i].oidc.None? {
      if cfg.oidc.Some? {
        messages := messages + [OidcRequired(i)];
      }
      NoKeyNoHolder(clientIds, cfg, defaultNs, i, ClientIdField);
      NoKeyNoHolder(secretRefs, cfg, defaultNs, i, SecretRefField);
      return;
    }
    if cfg.oidc.None? {
      messages := messages + [OidcNeedsSpec(i)];
    }
    var more;
    more, clientIds', secretRefs' := ValidateOidcIdentity(cfg, defaultNs, i, clientIds, secretRefs);
    messages := messages + more;
  }

  /** One pass of the loop. */
  method CheckEntry(cfg: GatewayConfig, defaultNs: string, i: nat, seen: map<string, Path>,
                    clientIds: map<string, Path>, secretRefs: map<string, Path>)
    returns (messages: seq<Message>, seen': map<string, Path>, clientIds': map<string, Path>,
             secretRefs': map<string, Path>)
    requires i < |cfg.ingresses| && TracksShared(seen, cfg, defaultNs, i) &&
             TracksIdentity(clientIds, secretRefs, cfg, defaultNs, i)
    ensures messages == Entries(cfg, defaultNs)(i)
    ensures TracksShared(seen', cfg, defaultNs, i + 1) && TracksIdentity(clientIds', secretRefs', cfg, defaultNs, i + 1)
  {
    messages, seen' := CheckFields(cfg, defaultNs, i, seen);
    var more;
    more, clientIds', secretRefs' := CheckOidc(cfg, defaultNs, i, clientIds, secretRefs);
    messages := messages + more;
  }

  /** The identities that spec.oidc takes. */
  method SeedIdentities(cfg: GatewayConfig, defaultNs: string)
    returns (clientIds: map<string, Path>, secretRefs: map<string, Path>)
    ensures TracksIdentity(clientIds, secretRefs, cfg, defaultNs, 0)
  {
    clientIds, secretRefs := map[], map[];
    if cfg.oidc.Some? {
      var oidc := cfg.oidc.value;
      clientIds := clientIds[oidc.clientId := SpecOidc];
      secretRefs := secretRefs[SecretReferenceKey(oidc.secretName, oidc.secretNamespace, defaultNs) := SpecOidc];
    }
    TracksAtStart(cfg, defaultNs, ClientIdField, clientIds);
    TracksAtStart(cfg, defaultNs, SecretRefField, secretRefs);
  }

  lemma NothingShared(cfg: GatewayConfig, defaultNs: string)
    ensures TracksShared(map[], cfg, defaultNs, 0)
  {
    TracksAtStart(cfg, defaultNs, NameField, map[]);
    TracksAtStart(cfg, defaultNs, HostnameField, map[]);
    TracksAtStart(cfg, defaultNs, RouteLabelsField, map[]);
  }

  /** The loop over the entries. */
  method CheckEntries(cfg: GatewayConfig, defaultNs: string) returns (messages: seq<Message>)
    ensures messages == Upto(Entries(cfg, defaultNs), |cfg.ingresses|)
  {
    var seenFields: map<string, Path> := map[];
    NothingShared(cfg, defaultNs);
    var seenClientIds, seenSecretRefs := SeedIdentities(cfg, defaultNs);
    messages := [];
    for i := 0 to |cfg.ingresses|
      invariant messages == Upto(Entries(cfg, defaultNs), i)
      invariant TracksShared(seenFields, cfg, defaultNs, i)
      invariant TracksIdentity(seenClientIds, seenSecretRefs, cfg, defaultNs, i)
    {
      var more;
      more, seenFields, seenClientIds, seenSecretRefs :=
        CheckEntry(cfg, defaultNs, i, seenFields, seenClientIds, seenSecretRefs);
      messages := messages + more;
    }
  }

  /** AdditionalIngressValidationErrors. */
  method AdditionalIngressValidationErrors(cfg: GatewayConfig, defaultNs: string) returns (messages: seq<Message>)
    ensures messages == Messages(cfg, defaultNs)
  {
    if |cfg.ingresses| == 0 {
      return [];
    }
    messages := [];
    if cfg.fieldError.Some? {
      messages := messages + [FieldError(cfg.fieldError.value)];
    }
    var more := CheckEntries(cfg, defaultNs);
    messages := messages + more;
  }

  // ---------------------------------------------------------------- reported exactly when duplicated

  /** The values that two entries are compared by. */
  ghost predicate SameField(cfg: GatewayConfig, defaultNs: string, i: nat, j: nat, f: Field)
    requires i < |cfg.ingresses| && j < |cfg.ingresses|
  {
    var a, b := cfg.ingresses[i], cfg.ingresses[j];
    match f
    case NameField => a.name == b.name
    case HostnameField => a.hostname == b.hostname
    case RouteLabelsField => a.routeLabels == b.routeLabels
    case ClientIdField => a.oidc.Some? && b.oidc.Some? && a.oidc.value.clientId == b.oidc.value.clientId
    case SecretRefField => a.oidc.Some? && b.oidc.Some? && SameSecret(a.oidc.value, b.oidc.value, defaultNs)
  }

  ghost predicate SameSecret(a: Oidc, b: Oidc, defaultNs: string) {
    && a.secretName == b.secretName
    && (if a.secretNamespace == "" then defaultNs else a.secretNamespace) ==
       (if b.secretNamespace == "" then defaultNs else b.secretNamespace)
  }

  ghost predicate SameAsSpec(cfg: GatewayConfig, defaultNs: string, i: nat, f: Field)
    requires i < |cfg.ingresses|
  {
    cfg.oidc.Some? && cfg.ingresses[i].oidc.Some? &&
    match f
    case ClientIdField => cfg.ingresses[i].oidc.value.clientId == cfg.oidc.value.clientId
    case SecretRefField => SameSecret(cfg.ingresses[i].oidc.value, cfg.oidc.value, defaultNs)
    case _ => false
  }

  ghost predicate WellFormed(cfg: GatewayConfig, defaultNs: string) {
    && Without(defaultNs, '/')
    && (cfg.oidc.Some? ==> Without(cfg.oidc.value.secretNamespace, '/'))
    && forall i :: 0 <= i < |cfg.ingresses| ==>
         && PlainLabels(cfg.ingresses[i].routeLabels)
         && (cfg.ingresses[i].oidc.Some? ==> Without(cfg.ingresses[i].oidc.value.secretNamespace, '/'))
  }

  lemma KeysMatchFields(cfg: GatewayConfig, defaultNs: string, i: nat, j: nat, f: Field)
    requires WellFormed(cfg, defaultNs) && i < |cfg.ingresses| && j < |cfg.ingresses|
    ensures (FieldKey(cfg, defaultNs, i, f).Some? && FieldKey(cfg, defaultNs, i, f) == FieldKey(cfg, defaultNs, j, f))
            <==> SameField(cfg, defaultNs, i, j, f)
  {
    var a, b := cfg.ingresses[i], cfg.ingresses[j];
    if f.RouteLabelsField? {
      CanonicalKeyExact(a.routeLabels, b.routeLabels);
    }
    if f.SecretRefField? && a.oidc.Some? && b.oidc.Some? {
      SecretReferenceKeyExact(a.oidc.value.secretName, a.oidc.value.secretNamespace,
                              b.oidc.value.secretName, b.oidc.value.secretNamespace, defaultNs);
    }
  }

  lemma SpecMatchesField(cfg: GatewayConfig, defaultNs: string, i: nat, f: Field)
    requires WellFormed(cfg, defaultNs) && i < |cfg.ingresses|
    ensures (FieldKey(cfg, defaultNs, i, f).Some? && FieldKey(cfg, defaultNs, i, f) == SpecKey(cfg, defaultNs, f))
            <==> SameAsSpec(cfg, defaultNs, i, f)
  {
    var a := cfg.ingresses[i];
    if f.SecretRefField? && a.oidc.Some? && cfg.oidc.Some? {
      SecretReferenceKeyExact(a.oidc.value.secretName, a.oidc.value.secretNamespace,
                              cfg.oidc.value.secretName, cfg.oidc.value.secretNamespace, defaultNs);
    }
  }

  ghost predicate NoneSame(cfg: GatewayConfig, defaultNs: string, i: nat, n: nat, f: Field)
    requires i < |cfg.ingresses|
  {
    forall k: nat :: k < n && k < |cfg.ingresses| ==> !SameField(cfg, defaultNs, i, k, f)
  }

  /** Entry `j` is the first that agrees with entry `i` on the field. */
  ghost predicate FirstSame(cfg: GatewayConfig, defaultNs: string, i: nat, j: nat, f: Field)
    requires i < |cfg.ingresses|
  {
    j < |cfg.ingresses| && SameField(cfg, defaultNs, i, j, f) && NoneSame(cfg, defaultNs, i, j, f)
  }

  /** Where the value of field `f` of entry `i` stood first before entry `i`. */
  ghost predicate FirstPlace(cfg: GatewayConfig, defaultNs: string, i: nat, f: Field, place: Path)
    requires i < |cfg.ingresses|
  {
    if place == SpecOidc then SameAsSpec(cfg, defaultNs, i, f)
    else
      && place.field == f && place.index < i && !SameAsSpec(cfg, defaultNs, i, f)
      && FirstSame(cfg, defaultNs, i, place.index, f)
  }

  lemma {:induction false} HolderExact(cfg: GatewayConfig, defaultNs: string, i: nat, n: nat, f: Field)
    requires WellFormed(cfg, defaultNs) && n <= i < |cfg.ingresses| && FieldKey(cfg, defaultNs, i, f).Some?
    ensures var holder := Holder(cfg, defaultNs, n, f, FieldKey(cfg, defaultNs, i, f).value);
            && (holder.None? <==> !SameAsSpec(cfg, defaultNs, i, f) && NoneSame(cfg, defaultNs, i, n, f))
            && (holder == Some(SpecOidc) <==> SameAsSpec(cfg, defaultNs, i, f))
            && (holder.Some? && holder.value.At? ==>
                  !SameAsSpec(cfg, defaultNs, i, f) && holder.value.field == f &&
                  FirstSame(cfg, defaultNs, i, holder.value.index, f))
            && (holder.Some? && holder.value.At? ==> holder.value.index < n)
  {
    if n == 0 {
      SpecMatchesField(cfg, defaultNs, i, f);
    } else {
      HolderExact(cfg, defaultNs, i, n - 1, f);
      KeysMatchFields(cfg, defaultNs, i, n - 1, f);
    }
  }

  /**
   A duplicate is reported for a field of entry `i` exactly when spec.oidc or an earlier entry has
   the same value, and it names the first such place.
   */
  lemma DuplicatesExact(cfg: GatewayConfig, defaultNs: string, i: nat, f: Field, previous: Path)
    requires WellFormed(cfg, defaultNs) && i < |cfg.ingresses|
    ensures Duplicate(At(i, f), previous) in Messages(cfg, defaultNs) <==> FirstPlace(cfg, defaultNs, i, f, previous)
  {
    MessageOrigin(cfg, defaultNs, i, f, previous);
    if FieldKey(cfg, defaultNs, i, f).Some? {
      HolderExact(cfg, defaultNs, i, i, f);
      var holder := Holder(cfg, defaultNs, i, f, FieldKey(cfg, defaultNs, i, f).value);
      if holder.Some? && holder.value.At? && previous.At? {
        FirstSameUnique(cfg, defaultNs, i, holder.value.index, previous.index, f);
      }
    }
  }

  lemma FirstSameUnique(cfg: GatewayConfig, defaultNs: string, i: nat, j: nat, k: nat, f: Field)
    requires i < |cfg.ingresses|
    ensures FirstSame(cfg, defaultNs, i, j, f) && FirstSame(cfg, defaultNs, i, k, f) ==> j == k
  {
  }

  /** Every message about a field comes from that field of that entry. */
  lemma DupOrigin(cfg: GatewayConfig, defaultNs: string, j: nat, g: Field, m: Message)
    requires j < |cfg.ingresses|
    ensures m in Dup(cfg, defaultNs, j, g) <==>
            m.Duplicate? && m.path == At(j, g) && Earlier(cfg, defaultNs, j, g) == Some(m.previous)
  {
  }

  lemma EntryOrigin(cfg: GatewayConfig, defaultNs: string, j: nat, i: nat, f: Field, m: Message)
    requires i < |cfg.ingresses| && j < |cfg.ingresses| && m.Duplicate? && m.path == At(i, f)
    ensures m in Entries(cfg, defaultNs)(j) <==> i == j && Earlier(cfg, defaultNs, i, f) == Some(m.previous)
  {
    DupOrigin(cfg, defaultNs, j, NameField, m);
    DupOrigin(cfg, defaultNs, j, HostnameField, m);
    DupOrigin(cfg, defaultNs, j, RouteLabelsField, m);
    DupOrigin(cfg, defaultNs, j, ClientIdField, m);
    DupOrigin(cfg, defaultNs, j, SecretRefField, m);
  }

  lemma OnlyFrom(block: nat -> seq<Message>, n: nat, i: nat, m: Message, p: bool)
    requires i < n && forall j: nat :: j < n ==> (m in block(j) <==> i == j && p)
    ensures m in Upto(block, n) <==> p
  {
    UptoHolds(block, n, m);
  }

  lemma MessageOrigin(cfg: GatewayConfig, defaultNs: string, i: nat, f: Field, previous: Path)
    requires i < |cfg.ingresses|
    ensures Duplicate(At(i, f), previous) in Messages(cfg, defaultNs) <==>
            Earlier(cfg, defaultNs, i, f) == Some(previous)
  {
    var m, p := Duplicate(At(i, f), previous), Earlier(cfg, defaultNs, i, f) == Some(previous);
    forall j: nat | j < |cfg.ingresses| ensures m in Entries(cfg, defaultNs)(j) <==> i == j && p {
      EntryOrigin(cfg, defaultNs, j, i, f, m);
    }
    OnlyFrom(Entries(cfg, defaultNs), |cfg.ingresses|, i, m, p);
  }

  // ---------------------------------------------------------------- the other messages

  /** An entry needs its own OIDC settings exactly when the specification has some. */
  lemma OidcMessagesExact(cfg: GatewayConfig, defaultNs: string, i: nat)
    ensures OidcRequired(i) in Messages(cfg, defaultNs) <==>
            i < |cfg.ingresses| && cfg.ingresses[i].oidc.None? && cfg.oidc.Some?
    ensures OidcNeedsSpec(i) in Messages(cfg, defaultNs) <==>
            i < |cfg.ingresses| && cfg.ingresses[i].oidc.Some? && cfg.oidc.None?
  {
    var block, n := Entries(cfg, defaultNs), |cfg.ingresses|;
    UptoHolds(block, n, OidcRequired(i));
    UptoHolds(block, n, OidcNeedsSpec(i));
    forall j: nat | j < n
      ensures OidcRequired(i) in block(j) <==> i == j && cfg.ingresses[j].oidc.None? && cfg.oidc.Some?
      ensures OidcNeedsSpec(i) in block(j) <==> i == j && cfg.ingresses[j].oidc.Some? && cfg.oidc.None?
    {
      EntryOidc(cfg, defaultNs, j, i);
    }
  }

  lemma EntryOidc(cfg: GatewayConfig, defaultNs: string, j: nat, i: nat)
    requires j < |cfg.ingresses|
    ensures OidcRequired(i) in Entries(cfg, defaultNs)(j) <==>
            i == j && cfg.ingresses[j].oidc.None? && cfg.oidc.Some?
    ensures OidcNeedsSpec(i) in Entries(cfg, defaultNs)(j) <==>
            i == j && cfg.ingresses[j].oidc.Some? && cfg.oidc.None?
  {
    forall f ensures OidcRequired(i) !in Dup(cfg, defaultNs, j, f) && OidcNeedsSpec(i) !in Dup(cfg, defaultNs, j, f) {
      DupOrigin(cfg, defaultNs, j, f, OidcRequired(i));
      DupOrigin(cfg, defaultNs, j, f, OidcNeedsSpec(i));
    }
  }

  /** The error of the per-field checks comes first, and only if there are entries. */
  lemma FieldErrorExact(cfg: GatewayConfig, defaultNs: string, text: string)
    ensures FieldError(text) in Messages(cfg, defaultNs) <==> cfg.ingresses != [] && cfg.fieldError == Some(text)
    ensures cfg.ingresses != [] && cfg.fieldError == Some(text) ==>
              Messages(cfg, defaultNs) != [] && Messages(cfg, defaultNs)[0] == FieldError(text)
  {
    NoFieldErrorBelow(cfg, defaultNs, text);
  }

  lemma NoFieldErrorBelow(cfg: GatewayConfig, defaultNs: string, text: string)
    ensures FieldError(text) !in Upto(Entries(cfg, defaultNs), |cfg.ingresses|)
  {
    UptoHolds(Entries(cfg, defaultNs), |cfg.ingresses|, FieldError(text));
    forall j: nat | j < |cfg.ingresses| ensures FieldError(text) !in Entries(cfg, defaultNs)(j) {
      OnlyThese(cfg, defaultNs, j, FieldError(text));
    }
  }

  /** Messages of an entry are duplicates of it or about its OIDC settings. */
  lemma OnlyThese(cfg: GatewayConfig, defaultNs: string, j: nat, m: Message)
    requires j < |cfg.ingresses|
    ensures m in Entries(cfg, defaultNs)(j) ==>
              m == OidcRequired(j) || m == OidcNeedsSpec(j) || (m.Duplicate? && m.path.At? && m.path.index == j)
  {
    DupOrigin(cfg, defaultNs, j, NameField, m);
    DupOrigin(cfg, defaultNs, j, HostnameField, m);
    DupOrigin(cfg, defaultNs, j, RouteLabelsField, m);
    DupOrigin(cfg, defaultNs, j, ClientIdField, m);
    DupOrigin(cfg, defaultNs, j, SecretRefField, m);
  }

  /** Some field of some entry stood elsewhere before. */
  ghost predicate SomeDuplicate(cfg: GatewayConfig, defaultNs: string) {
    exists i: nat, f: Field, place: Path :: i < |cfg.ingresses| && FirstPlace(cfg, defaultNs, i, f, place)
  }

  /** Some entry's OIDC settings do not go with those of the specification. */
  ghost predicate SomeMismatch(cfg: GatewayConfig) {
    exists i :: 0 <= i < |cfg.ingresses| && (cfg.ingresses[i].oidc.Some? <==> cfg.oidc.None?)
  }

  /** A configuration is admitted exactly when nothing is wrong with it. */
  lemma AdmittedExact(cfg: GatewayConfig, defaultNs: string)
    requires WellFormed(cfg, defaultNs)
    ensures Messages(cfg, defaultNs) == [] <==>
            cfg.ingresses == [] ||
            (cfg.fieldError.None? && !SomeMismatch(cfg) && !SomeDuplicate(cfg, defaultNs))
  {
    var all := Messages(cfg, defaultNs);
    if cfg.ingresses != [] {
      if all == [] {
        if cfg.fieldError.Some? {
          FieldErrorExact(cfg, defaultNs, cfg.fieldError.value);
        }
        forall i | 0 <= i < |cfg.ingresses| ensures !(cfg.ingresses[i].oidc.Some? <==> cfg.oidc.None?) {
          OidcMessagesExact(cfg, defaultNs, i);
        }
        forall i: nat, f: Field, place: Path | i < |cfg.ingresses| ensures !FirstPlace(cfg, defaultNs, i, f, place) {
          DuplicatesExact(cfg, defaultNs, i, f, place);
        }
      } else {
        SomethingWrong(cfg, defaultNs, all[0]);
      }
    }
  }

  lemma SomethingWrong(cfg: GatewayConfig, defaultNs: string, m: Message)
    requires WellFormed(cfg, defaultNs) && m in Messages(cfg, defaultNs)
    ensures cfg.fieldError.Some? || SomeMismatch(cfg) || SomeDuplicate(cfg, defaultNs)
  {
    var block, n := Entries(cfg, defaultNs), |cfg.ingresses|;
    if cfg.fieldError.None? {
      UptoHolds(block, n, m);
      var j: nat :| j < n && m in block(j);
      OnlyThese(cfg, defaultNs, j, m);
      if m.Duplicate? {
        DuplicatesExact(cfg, defaultNs, j, m.path.field, m.previous);
      } else {
        OidcMessagesExact(cfg, defaultNs, j);
      }
    }
  }
}
