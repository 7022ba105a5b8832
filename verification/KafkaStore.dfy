/** The connection store: definitions, the secret table, and leases that pin revisions. */
module KafkaStore {
  import opened Bytes

  datatype Mechanism = NoMechanism | Plain | Scram | Gssapi | OAuthBearer

  /** A connection's settings; `keyRef` says that its TLS part names a private key. */
  datatype Config = Config(mechanism: Mechanism, keyRef: bool, body: string)

  datatype Credential = Reference(text: string) | SecretId(id: string)

  datatype Connection = Connection(revision: nat, config: Config, bindings: map<string, Credential>)

  datatype Role = Source | Sink | Both

  datatype Channel = Channel(revision: nat, connection: string, role: Role, body: string)

  /** The secret table keeps what each id encrypts. */
  datatype Tables = Tables(connections: map<string, Connection>, channels: map<string, Channel>, secrets: map<string, string>)

  /** What a request says about one secret field; `Malformed` is any request the checks refuse. */
  datatype SecretOp = Keep | Clear | UseReference(text: string) | UseValue(plain: string) | Malformed

  datatype Operation = Add | Modify | Remove

  datatype Failure =
    | NotFound | RevisionRequired | RevisionConflict | ConfigurationInUse | UnknownField | NameConflict | ConnectionReferenced
    | UnexpectedSecret | InvalidSecret | InvalidFields | SecretRequired | PersistenceFailure

  function RequiredSecrets(c: Config): seq<string> {
    match c.mechanism
    case Plain => ["password"]
    case Scram => ["password"]
    case OAuthBearer => ["client_secret"]
    case _ => []
  }

  function AllowedSecrets(c: Config): (r: seq<string>)
    ensures forall i, j | 0 <= i < j < |r| :: r[i] != r[j]
  {
    RequiredSecrets(c) + (if c.keyRef then ["private_key_password"] else [])
  }

  // ---- Secrets ----

  function Ids(b: map<string, Credential>): set<string> {
    set f | f in b && b[f].SecretId? :: b[f].id
  }

  predicate InjectiveIds(b: map<string, Credential>) {
    forall f, g | f in b && g in b && f != g && b[f].SecretId? && b[g].SecretId? :: b[f].id != b[g].id
  }

  /** The ids in the secret table are exactly those that stored connections name, each named by one field of one connection. */
  ghost predicate SecretsExact(t: Tables) {
    && (forall n | n in t.connections :: InjectiveIds(t.connections[n].bindings) && Ids(t.connections[n].bindings) <= t.secrets.Keys)
    && (forall n, m | n in t.connections && m in t.connections && n != m ::
          Ids(t.connections[n].bindings) !! Ids(t.connections[m].bindings))
    && (forall id | id in t.secrets :: exists n :: n in t.connections && id in Ids(t.connections[n].bindings))
  }

  function OpFor(ops: map<string, SecretOp>, f: string): SecretOp {
    if f in ops then ops[f] else Keep
  }

  /** The binding of one field after the request. */
  predicate FieldMeets(prev: map<string, Credential>, op: SecretOp, f: string, b: map<string, Credential>, secrets: map<string, string>) {
    match op
    case Keep => (f in b <==> f in prev) && (f in prev ==> b[f] == prev[f])
    case Clear => f !in b
    case UseReference(text) => f in b && b[f] == Reference(text)
    case UseValue(plain) => f in b && b[f].SecretId? && b[f].id in secrets && secrets[b[f].id] == plain
    case Malformed => false
  }

  /** What `Credentials` makes of `prev`: each allowed field as asked, new secrets added, dropped ones removed. */
  ghost predicate CredentialsMeet(prev: map<string, Credential>, config: Config, ops: map<string, SecretOp>,
                                  before: map<string, string>, b: map<string, Credential>, after: map<string, string>) {
    && (forall f | f in b :: f in AllowedSecrets(config)) && (forall f | f in ops :: f in AllowedSecrets(config))
    && (forall f | f in AllowedSecrets(config) :: FieldMeets(prev, OpFor(ops, f), f, b, after))
    && InjectiveIds(b) && after.Keys == before.Keys - Ids(prev) + Ids(b) && Ids(b) !! before.Keys - Ids(prev)
    && (forall id | id in after && id in before :: after[id] == before[id])
  }

  // ---- Leases ----

  /** A binding snapshot; a channel revision of 0 marks a lease of the connection alone. */
  datatype Lease = Lease(channel: string, channelRevision: nat, connection: string, connectionRevision: nat)

  function InUse(m: map<string, nat>, name: string): nat {
    if name in m then m[name] else 0
  }

  ghost function OfConnection(leases: map<nat, Lease>, name: string): set<nat> {
    set i | i in leases && leases[i].connection == name
  }

  ghost function OfChannel(leases: map<nat, Lease>, name: string): set<nat> {
    set i | i in leases && leases[i].channelRevision != 0 && leases[i].channel == name
  }

  /** The in-use counters are the numbers of live leases. */
  ghost predicate Counted(connections: map<string, nat>, channels: map<string, nat>, leases: map<nat, Lease>) {
    && (forall n :: InUse(connections, n) == |OfConnection(leases, n)|)
    && (forall n :: InUse(channels, n) == |OfChannel(leases, n)|)
  }

  /** What a lease names is still there, at the revision that the lease recorded. */
  predicate PinnedLease(t: Tables, l: Lease) {
    && l.connection in t.connections && t.connections[l.connection].revision == l.connectionRevision
    && (l.channelRevision != 0 ==>
          && l.channel in t.channels && t.channels[l.channel].revision == l.channelRevision
          && t.channels[l.channel].connection == l.connection)
  }

  ghost predicate Pinned(t: Tables, leases: map<nat, Lease>) {
    forall i | i in leases :: PinnedLease(t, leases[i])
  }

  /** Every channel's connection exists, and revisions start at 1. */
  ghost predicate Related(t: Tables) {
    && (forall n | n in t.channels :: t.channels[n].connection in t.connections && t.channels[n].revision > 0)
    && (forall n | n in t.connections :: t.connections[n].revision > 0)
  }

  class Store {
    var tables: Tables
    var connectionsInUse: map<string, nat>
    var channelsInUse: map<string, nat>
    /** The live leases. */
    ghost var leases: map<nat, Lease>
    /** Statements of a healthy database do not fail by themselves. */
    const healthy: bool

    ghost predicate Valid()
      reads this
    {
      && SecretsExact(tables) && Related(tables) && Counted(connectionsInUse, channelsInUse, leases) && Pinned(tables, leases)
    }

    constructor (healthy: bool)
      ensures Valid() && leases == map[] && tables == Tables(map[], map[], map[]) && this.healthy == healthy
    {
      tables, connectionsInUse, channelsInUse, leases := Tables(map[], map[], map[]), map[], map[], map[];
      this.healthy := healthy;
    }

    /** One statement of the database, which fails or not. */
    method Statement() returns (fails: bool)
      ensures fails ==> !healthy
    {
      fails := *;
      fails := fails && !healthy;
    }

    /** Changes the secret table inside a transaction; the caller rolls back when it fails. */
    method Credentials(prev: map<string, Credential>, config: Config, ops: map<string, SecretOp>, random: string -> string)
      returns (failure: Option<Failure>, b: map<string, Credential>)
      requires InjectiveIds(prev) && Ids(prev) <= tables.secrets.Keys
      modifies this`tables
      ensures tables == old(tables).(secrets := tables.secrets)
      ensures failure.None? ==> CredentialsMeet(prev, config, ops, old(tables).secrets, b, tables.secrets)
      ensures failure.Some? ==> failure.value in {UnexpectedSecret, InvalidSecret, PersistenceFailure}
      ensures failure == Some(UnexpectedSecret) ==> exists f | f in ops :: f !in AllowedSecrets(config)
      ensures failure == Some(InvalidSecret) ==> exists f | f in ops :: ops[f].Malformed?
      ensures failure == Some(PersistenceFailure) && healthy ==> Collides(random, ops, config, old(tables).secrets)
    {
      hide FieldMeets, Ids, InjectiveIds, Partial;
      b, failure := map[], None;
      ghost var before := tables.secrets;
      var allowed := AllowedSecrets(config);
      if exists f | f in ops :: f !in allowed {
        return Some(UnexpectedSecret), b;
      }
      PartialStart(prev, ops, allowed, before);
      for i := 0 to |allowed|
        invariant tables == old(tables).(secrets := tables.secrets) && failure.None?
        invariant Partial(prev, ops, allowed, i, before, b, tables.secrets)
        invariant forall id | id in tables.secrets :: id in before || Drawn(random, ops, allowed, i, id)
      {
        failure, b := Field(prev, ops, allowed, i, random, before, b);
        if failure.Some? {
          return;
        }
      }
      ghost var filled := tables.secrets;
      DropOld(prev, b);
      PartialDone(prev, config, ops, before, b, filled, tables.secrets);
    }

    /** One allowed field: kept, cleared or replaced. A new id that is taken fails on the table's primary key. */
    method Field(prev: map<string, Credential>, ops: map<string, SecretOp>, allowed: seq<string>, i: nat,
                 random: string -> string, ghost before: map<string, string>, b: map<string, Credential>)
      returns (failure: Option<Failure>, next: map<string, Credential>)
      requires i < |allowed| && (forall j, k | 0 <= j < k < |allowed| :: allowed[j] != allowed[k])
      requires InjectiveIds(prev) && Ids(prev) <= before.Keys && Partial(prev, ops, allowed, i, before, b, tables.secrets)
      modifies this`tables
      ensures tables == old(tables).(secrets := tables.secrets)
      ensures failure.None? ==> Partial(prev, ops, allowed, i + 1, before, next, tables.secrets)
      ensures failure.Some? ==> failure.value in {InvalidSecret, PersistenceFailure}
      ensures failure == Some(InvalidSecret) ==> allowed[i] in ops && ops[allowed[i]].Malformed?
      ensures failure == Some(PersistenceFailure) && healthy ==>
        OpFor(ops, allowed[i]).UseValue? && random(allowed[i]) in old(tables).secrets
      ensures failure.None? ==> forall id | id in tables.secrets && id !in old(tables).secrets ::
        OpFor(ops, allowed[i]).UseValue? && random(allowed[i]) == id
    {
      hide FieldMeets, Ids, InjectiveIds, Partial;
      var f := allowed[i];
      next, failure := b, None;
      match if f in ops then ops[f] else Keep {
        case Malformed =>
          return Some(InvalidSecret), b;
        case Keep =>
          if f in prev {
            next := b[f := prev[f]];
          }
        case Clear =>
        case UseReference(text) =>
          next := b[f := Reference(text)];
        case UseValue(plain) =>
          var id := random(f);
          var fails := Statement();
          if fails || id in tables.secrets {
            return Some(PersistenceFailure), b;
          }
          tables := tables.(secrets := tables.secrets[id := plain]);
          next := b[f := SecretId(id)];
      }
      FieldDone(prev, ops, allowed, i, before, b, old(tables).secrets, next, tables.secrets, random(f));
    }

    /** Deletes the secrets of the previous bindings that are not kept in their field. */
    method DropOld(prev: map<string, Credential>, b: map<string, Credential>)
      modifies this`tables
      ensures tables == old(tables).(secrets := old(tables).secrets - Dropped(prev, b))
    {
      hide DroppedOf;
      var todo := prev.Keys;
      DroppedNone(prev, b);
      while todo != {}
        invariant todo <= prev.Keys
        invariant tables == old(tables).(secrets := tables.secrets)
        invariant tables.secrets == old(tables).secrets - DroppedOf(prev, b, prev.Keys - todo)
        decreases |todo|
      {
        var f :| f in todo;
        ghost var done := prev.Keys - todo;
        if prev[f].SecretId? && !(f in b && b[f] == prev[f]) {
          tables := tables.(secrets := tables.secrets - {prev[f].id});
        }
        DroppedMore(prev, b, done, f);
        todo := todo - {f};
        assert prev.Keys - todo == done + {f};
      }
      assert prev.Keys - todo == prev.Keys;
    }

    /** A change needs the revision that is stored, and nothing in use; an addition needs a new name. */
    method CheckTarget(op: Operation, found: Option<nat>, expected: Option<nat>, inUse: nat) returns (failure: Option<Failure>)
      ensures failure.None? <==> if op == Add then found.None? && expected.None? else found.Some? && expected == found && inUse == 0
      ensures failure == Some(NotFound) ==> op != Add && found.None?
      ensures failure == Some(RevisionRequired) ==> op != Add && expected.None?
      ensures failure == Some(RevisionConflict) ==> op != Add && expected.Some? && found.Some? && expected != found
      ensures failure == Some(ConfigurationInUse) ==> op != Add && expected == found && inUse > 0
      ensures failure == Some(UnknownField) ==> op == Add && expected.Some?
      ensures failure == Some(NameConflict) ==> op == Add && found.Some?
      ensures failure.Some? ==>
        failure.value in {NotFound, RevisionRequired, RevisionConflict, ConfigurationInUse, UnknownField, NameConflict}
    {
      if op == Add {
        return if expected.Some? then Some(UnknownField) else if found.Some? then Some(NameConflict) else None;
      }
      if found.None? {
        return Some(NotFound);
      }
      if expected.None? {
        return Some(RevisionRequired);
      }
      if expected.value != found.value {
        return Some(RevisionConflict);
      }
      failure := if inUse != 0 then Some(ConfigurationInUse) else None;
    }

    /**
     * Adds, modifies or removes a connection. `valid` stands for the checks of the
     * other fields. What fails leaves no trace, and apart from storage it fails
     * only for a reason that the request or the tables give.
     */
    method MutateConnection(op: Operation, name: string, expected: Option<nat>, config: Config, ops: map<string, SecretOp>,
                            valid: bool, random: string -> string)
      returns (failure: Option<Failure>)
      requires Valid()
      modifies this`tables
      ensures Valid()
      ensures failure.Some? ==> tables == old(tables)
      ensures failure.None? && op != Add ==> Unused(old(tables), connectionsInUse, name, expected)
      ensures failure.None? && op == Add ==> name !in old(tables).connections && expected.None?
      ensures failure.None? && op == Remove ==>
        RemovedConnection(old(tables), tables, name) && forall c | c in tables.channels :: tables.channels[c].connection != name
      ensures failure.None? && op != Remove ==> valid && SetConnection(old(tables), tables, name, config, ops)
      ensures failure.Some? && failure != Some(PersistenceFailure) ==>
        || (op == Add && (name in old(tables).connections || expected.Some?))
        || (op != Add && !Unused(old(tables), connectionsInUse, name, expected))
        || (op == Remove && exists c | c in tables.channels :: tables.channels[c].connection == name)
        || (op != Remove && Unacceptable(Previous(old(tables), name), config, ops, valid))
      ensures failure == Some(PersistenceFailure) && healthy ==>
        op != Remove && Collides(random, ops, config, old(tables).secrets)
      ensures failure == Some(ConnectionReferenced) ==> op == Remove
      ensures failure == Some(SecretRequired) ==> op != Remove && exists f | f in RequiredSecrets(config) ::
        !Binds(Previous(old(tables), name), OpFor(ops, f), f)
    {
      hide SecretsExact, Counted, CredentialsMeet, Pinned, Related;
      var found := if name in tables.connections then Some(tables.connections[name].revision) else None;
      failure := CheckTarget(op, found, expected, InUse(connectionsInUse, name));
      if failure.Some? {
        return;
      }
      if op == Remove && exists c | c in tables.channels :: tables.channels[c].connection == name {
        return Some(ConnectionReferenced);
      }
      var begin := tables;
      FreeName(begin, connectionsInUse, channelsInUse, leases, name, op);
      PreviousSecrets(begin, name);
      if op == Remove {
        failure := RemoveConnection(name);
        if failure.None? {
          ConnectionRemoved(begin, tables, leases, name);
        } else {
          tables := begin;
        }
        return;
      }
      failure := PutConnection(name, config, ops, valid, random);
      if failure.None? {
        ConnectionChanged(begin, tables, leases, name, config, ops, tables.connections[name].bindings);
      } else {
        tables := begin;
      }
    }

    /** The transaction that removes a connection and its secrets; the caller rolls back when it fails. */
    method RemoveConnection(name: string) returns (failure: Option<Failure>)
      modifies this`tables
      ensures failure.None? ==> RemovedConnection(old(tables), tables, name)
      ensures failure in {None, Some(PersistenceFailure)} && (healthy ==> failure.None?)
    {
      var prev := Previous(tables, name);
      DropOld(prev, map[]);
      DropsAll(prev);
      tables := tables.(connections := tables.connections - {name});
      var fails := Statement();
      failure := if fails then Some(PersistenceFailure) else None;
    }

    /** The transaction that stores a connection's next revision with its credentials; the caller rolls back when it fails. */
    method PutConnection(name: string, config: Config, ops: map<string, SecretOp>, valid: bool, random: string -> string)
      returns (failure: Option<Failure>)
      requires InjectiveIds(Previous(tables, name)) && Ids(Previous(tables, name)) <= tables.secrets.Keys
      modifies this`tables
      ensures failure.None? ==> valid && SetConnection(old(tables), tables, name, config, ops)
      ensures failure.Some? ==>
        failure == Some(PersistenceFailure)
        || (failure.value in {UnexpectedSecret, InvalidSecret, InvalidFields, SecretRequired}
            && Unacceptable(Previous(old(tables), name), config, ops, valid))
      ensures failure == Some(PersistenceFailure) && healthy ==> Collides(random, ops, config, old(tables).secrets)
      ensures failure == Some(SecretRequired) ==>
        exists f | f in RequiredSecrets(config) :: !Binds(Previous(old(tables), name), OpFor(ops, f), f)
    {
      hide CredentialsMeet;
      ghost var begin := tables;
      var prev := Previous(tables, name);
      var b;
      failure, b := Credentials(prev, config, ops, random);
      if failure.Some? {
        return;
      }
      if !valid {
        return Some(InvalidFields);
      }
      BindsExactly(prev, config, ops, begin.secrets, b, tables.secrets);
      if exists f | f in RequiredSecrets(config) :: f !in b {
        return Some(SecretRequired);
      }
      var revision := if name in tables.connections then tables.connections[name].revision + 1 else 1;
      tables := tables.(connections := tables.connections[name := Connection(revision, config, b)]);
      var fails := Statement();
      failure := if fails then Some(PersistenceFailure) else None;
    }

    /** Adds, modifies or removes a channel. */
    method MutateChannel(op: Operation, name: string, expected: Option<nat>, channel: Channel, valid: bool)
      returns (failure: Option<Failure>)
      requires Valid()
      modifies this`tables
      ensures Valid()
      ensures failure.Some? ==> tables == old(tables)
      ensures failure.None? && op != Add ==> name in old(tables).channels && expected == Some(old(tables).channels[name].revision)
                                             && InUse(channelsInUse, name) == 0
      ensures failure.None? && op == Add ==> name !in old(tables).channels && expected.None?
      ensures failure.None? ==> tables == old(tables).(channels :=
        if op == Remove then old(tables).channels - {name}
        else old(tables).channels[name := channel.(revision := if op == Add then 1 else old(tables).channels[name].revision + 1)])
      ensures failure.None? && op != Remove ==> valid && channel.connection in tables.connections
      ensures failure == Some(PersistenceFailure) ==> !healthy
      ensures failure.Some? && failure != Some(PersistenceFailure) ==>
        || (op == Add && (name in tables.channels || expected.Some?))
        || (op != Add && (name !in tables.channels || expected != Some(tables.channels[name].revision)
                          || InUse(channelsInUse, name) > 0))
        || (op != Remove && (!valid || channel.connection !in tables.connections))
    {
      hide SecretsExact, Counted, Pinned, Related;
      var found := if name in tables.channels then Some(tables.channels[name].revision) else None;
      failure := CheckTarget(op, found, expected, InUse(channelsInUse, name));
      if failure.Some? {
        return;
      }
      var begin := tables;
      FreeChannel(begin, connectionsInUse, channelsInUse, leases, name, op);
      if op == Remove {
        tables := tables.(channels := tables.channels - {name});
      } else {
        if !valid {
          return Some(InvalidFields);
        }
        if channel.connection !in tables.connections {
          return Some(NotFound);
        }
        var revision := if op == Add then 1 else begin.channels[name].revision + 1;
        tables := tables.(channels := tables.channels[name := channel.(revision := revision)]);
      }
      var fails := Statement();
      if fails {
        tables := begin;
        return Some(PersistenceFailure);
      }
      ChannelChanged(begin, tables, leases, name);
    }

    /** A connection draft is built on the real tables inside a savepoint, and the savepoint is always undone. */
    method Draft(name: string, expected: Option<nat>, config: Config, ops: map<string, SecretOp>, valid: bool, random: string -> string)
      returns (failure: Option<Failure>, b: map<string, Credential>)
      requires Valid()
      modifies this`tables
      ensures tables == old(tables) && Valid()
      ensures failure.None? && expected.Some? ==> name in tables.connections && tables.connections[name].revision == expected.value
      ensures failure.None? ==> valid && forall f | f in RequiredSecrets(config) :: f in b
      ensures failure.None? ==> forall f | f in AllowedSecrets(config) ::
        FieldDrafted(if expected.Some? then Previous(tables, name) else map[], OpFor(ops, f), f, b)
      ensures failure.Some? && failure != Some(PersistenceFailure) ==>
        || (expected.Some? && (name !in tables.connections || tables.connections[name].revision != expected.value))
        || Unacceptable(if expected.Some? then Previous(tables, name) else map[], config, ops, valid)
      ensures failure == Some(PersistenceFailure) && healthy ==> Collides(random, ops, config, tables.secrets)
    {
      hide SecretsExact, Counted, Pinned, Related, CredentialsMeet;
      if expected.Some? {
        if name !in tables.connections {
          return Some(NotFound), map[];
        }
        if tables.connections[name].revision != expected.value {
          return Some(RevisionConflict), map[];
        }
      }
      PreviousSecrets(tables, name);
      var prev := if expected.Some? then Previous(tables, name) else map[];
      var savepoint := tables;
      failure, b := Credentials(prev, config, ops, random);
      if failure.None? {
        Drafted(prev, config, ops, savepoint.secrets, b, tables.secrets);
        BindsExactly(prev, config, ops, savepoint.secrets, b, tables.secrets);
        if !valid {
          failure := Some(InvalidFields);
        } else if exists f | f in RequiredSecrets(config) :: f !in b {
          failure := Some(SecretRequired);
        }
      }
      tables := savepoint;
    }

    /** Every named secret is in the table, so resolving fails only on a cipher that does not decrypt. */
    method ResolveSecrets(name: string, intact: bool) returns (ok: bool, secrets: map<string, string>)
      requires Valid() && name in tables.connections
      ensures ok <==> intact || Ids(tables.connections[name].bindings) == {}
      ensures ok ==> forall f | f in tables.connections[name].bindings && tables.connections[name].bindings[f].SecretId? ::
        f in secrets && secrets[f] == tables.secrets[tables.connections[name].bindings[f].id]
    {
      hide Counted, Pinned, Related, InjectiveIds;
      var b := tables.connections[name].bindings;
      secrets := map[];
      IdsIn(b);
      var todo := b.Keys;
      while todo != {}
        invariant todo <= b.Keys
        invariant intact || forall f | f in b && f !in todo :: !b[f].SecretId?
        invariant forall f | f in b && f !in todo && b[f].SecretId? ::
          f in secrets && b[f].id in tables.secrets && secrets[f] == tables.secrets[b[f].id]
        decreases |todo|
      {
        var f :| f in todo;
        if b[f].SecretId? {
          assert b[f].id in tables.secrets;
          if !intact {
            return false, map[];
          }
          secrets := secrets[f := tables.secrets[b[f].id]];
        }
        todo := todo - {f};
      }
      ok := true;
    }

    /** Leases a channel and its connection. `id` names the lease in the books. */
    method Acquire(name: string, usage: Role, intact: bool, ghost id: nat) returns (r: Option<Lease>)
      requires Valid() && id !in leases
      modifies this`connectionsInUse, this`channelsInUse, this`leases
      ensures Valid()
      ensures r.None? ==> leases == old(leases) && connectionsInUse == old(connectionsInUse) && channelsInUse == old(channelsInUse)
      ensures r.Some? ==> leases == old(leases)[id := r.value] && name in tables.channels && r.value.channelRevision > 0
      ensures r.Some? ==>
        var c := tables.channels[name];
        r.value == Lease(name, c.revision, c.connection, tables.connections[c.connection].revision)
        && usage != Both && (c.role == Both || c.role == usage)
      ensures intact && usage != Both && name in tables.channels && tables.channels[name].role in {Both, usage} ==> r.Some?
    {
      hide SecretsExact, Counted;
      if usage == Both || name !in tables.channels {
        return None;
      }
      var channel := tables.channels[name];
      if channel.role != Both && channel.role != usage {
        return None;
      }
      var resolved, secrets := ResolveSecrets(channel.connection, intact);
      if !resolved {
        return None;
      }
      var lease := Lease(name, channel.revision, channel.connection, tables.connections[channel.connection].revision);
      LeaseAdded(connectionsInUse, channelsInUse, leases, id, lease);
      channelsInUse := channelsInUse[name := InUse(channelsInUse, name) + 1];
      connectionsInUse := connectionsInUse[channel.connection := InUse(connectionsInUse, channel.connection) + 1];
      leases := leases[id := lease];
      r := Some(lease);
    }

    /** Leases a connection alone. */
    method AcquireConnection(name: string, intact: bool, ghost id: nat) returns (r: Option<Lease>)
      requires Valid() && id !in leases
      modifies this`connectionsInUse, this`leases
      ensures Valid()
      ensures r.None? ==> leases == old(leases) && connectionsInUse == old(connectionsInUse)
      ensures r.Some? ==> leases == old(leases)[id := r.value] && name in tables.connections
                          && r.value == Lease("", 0, name, tables.connections[name].revision)
      ensures intact && name in tables.connections ==> r.Some?
    {
      hide SecretsExact, Counted;
      if name !in tables.connections {
        return None;
      }
      var resolved, secrets := ResolveSecrets(name, intact);
      if !resolved {
        return None;
      }
      var lease := Lease("", 0, name, tables.connections[name].revision);
      LeaseAdded(connectionsInUse, channelsInUse, leases, id, lease);
      connectionsInUse := connectionsInUse[name := InUse(connectionsInUse, name) + 1];
      leases := leases[id := lease];
      r := Some(lease);
    }

    /** Gives a lease back. Its counters are positive, so neither decrement is skipped. */
    method Release(snapshot: Lease, ghost id: nat)
      requires Valid() && id in leases && leases[id].channelRevision == snapshot.channelRevision
      requires leases[id].connection == snapshot.connection
      requires snapshot.channelRevision != 0 ==> leases[id].channel == snapshot.channel
      modifies this`connectionsInUse, this`channelsInUse, this`leases
      ensures Valid() && leases == old(leases) - {id}
    {
      hide SecretsExact, Counted;
      LeaseDropped(connectionsInUse, channelsInUse, leases, id);
      if snapshot.channelRevision != 0 && InUse(channelsInUse, snapshot.channel) > 0 {
        channelsInUse := channelsInUse[snapshot.channel := InUse(channelsInUse, snapshot.channel) - 1];
      }
      if InUse(connectionsInUse, snapshot.connection) > 0 {
        connectionsInUse := connectionsInUse[snapshot.connection := InUse(connectionsInUse, snapshot.connection) - 1];
      }
      leases := leases - {id};
    }
  }

  function Previous(t: Tables, name: string): map<string, Credential> {
    if name in t.connections then t.connections[name].bindings else map[]
  }

  /** A modified or removed connection was at the expected revision, and no lease held it. */
  predicate Unused(t: Tables, inUse: map<string, nat>, name: string, expected: Option<nat>) {
    name in t.connections && expected == Some(t.connections[name].revision) && InUse(inUse, name) == 0
  }

  /** The request leaves this field bound. */
  predicate Binds(prev: map<string, Credential>, op: SecretOp, f: string) {
    (op.Keep? && f in prev) || op.UseReference? || op.UseValue?
  }

  /** The request names a secret that the configuration does not have, is malformed, or leaves a required secret unbound. */
  predicate Unacceptable(prev: map<string, Credential>, config: Config, ops: map<string, SecretOp>, valid: bool) {
    || !valid
    || (exists f | f in ops :: f !in AllowedSecrets(config) || ops[f].Malformed?)
    || (exists f | f in RequiredSecrets(config) :: !Binds(prev, OpFor(ops, f), f))
  }

  /** The id drawn for one of the first `n` allowed fields that get a new value. */
  predicate Drawn(random: string -> string, ops: map<string, SecretOp>, allowed: seq<string>, n: nat, id: string)
    requires n <= |allowed|
  {
    exists j | 0 <= j < n :: OpFor(ops, allowed[j]).UseValue? && random(allowed[j]) == id
  }

  /** A random id that is drawn for a new value is taken, in the table or for an earlier field. */
  predicate Collides(random: string -> string, ops: map<string, SecretOp>, config: Config, secrets: map<string, string>) {
    var allowed := AllowedSecrets(config);
    exists i | 0 <= i < |allowed| ::
      OpFor(ops, allowed[i]).UseValue? && (random(allowed[i]) in secrets || Drawn(random, ops, allowed, i, random(allowed[i])))
  }

  lemma BindsExactly(prev: map<string, Credential>, config: Config, ops: map<string, SecretOp>, before: map<string, string>,
                     b: map<string, Credential>, after: map<string, string>)
    requires CredentialsMeet(prev, config, ops, before, b, after)
    ensures forall f | f in AllowedSecrets(config) :: f in b <==> Binds(prev, OpFor(ops, f), f)
    ensures forall f | f in RequiredSecrets(config) :: f in AllowedSecrets(config)
  {
    hide Ids, InjectiveIds;
  }

  /**
   * The credentials of a stored connection: what its mechanism needs, nothing that it
   * has no use for, and of the previous ones those that the request does not mention.
   */
  lemma StoredCredentials(t: Tables, u: Tables, name: string, config: Config, ops: map<string, SecretOp>)
    requires SetConnection(t, u, name, config, ops)
    ensures var b := u.connections[name].bindings;
            && (config.mechanism in {Plain, Scram} ==> "password" in b)
            && (config.mechanism == OAuthBearer ==> "client_secret" in b)
            && (forall f | f in b ::
                  (f == "password" && config.mechanism in {Plain, Scram}) || (f == "client_secret" && config.mechanism == OAuthBearer)
                  || (f == "private_key_password" && config.keyRef))
            && (name in t.connections ==>
                  forall f | f in t.connections[name].bindings && f !in ops ::
                    (f in b ==> b[f] == t.connections[name].bindings[f])
                    && (f !in b ==> f !in {"password", "client_secret", "private_key_password"}
                                    || (f == "private_key_password" && !config.keyRef)
                                    || (f == "password" && config.mechanism !in {Plain, Scram})
                                    || (f == "client_secret" && config.mechanism != OAuthBearer)))
  {
    hide Ids, InjectiveIds;
    assert forall f | f in AllowedSecrets(config) && f !in ops :: OpFor(ops, f) == Keep;
  }

  ghost predicate SetConnection(t: Tables, u: Tables, name: string, config: Config, ops: map<string, SecretOp>) {
    && name in u.connections && u.channels == t.channels
    && var b := u.connections[name].bindings;
    var revision := if name in t.connections then t.connections[name].revision + 1 else 1;
    && u.connections == t.connections[name := Connection(revision, config, b)]
    && (forall f | f in RequiredSecrets(config) :: f in b)
    && CredentialsMeet(Previous(t, name), config, ops, t.secrets, b, u.secrets)
  }

  ghost predicate RemovedConnection(t: Tables, u: Tables, name: string) {
    u == Tables(t.connections - {name}, t.channels, t.secrets - Ids(Previous(t, name)))
  }

  /** A drafted field: as in `FieldMeets`, for secrets that are gone again with the savepoint. */
  predicate FieldDrafted(prev: map<string, Credential>, op: SecretOp, f: string, b: map<string, Credential>) {
    match op
    case Keep => (f in b <==> f in prev) && (f in prev ==> b[f] == prev[f])
    case Clear => f !in b
    case UseReference(text) => f in b && b[f] == Reference(text)
    case UseValue(_) => f in b && b[f].SecretId?
    case Malformed => false
  }

  lemma Drafted(prev: map<string, Credential>, config: Config, ops: map<string, SecretOp>, before: map<string, string>,
                b: map<string, Credential>, after: map<string, string>)
    requires CredentialsMeet(prev, config, ops, before, b, after)
    ensures forall f | f in AllowedSecrets(config) :: FieldDrafted(prev, OpFor(ops, f), f, b)
  {
    hide AllowedSecrets, Ids, InjectiveIds;
  }

  lemma DropsAll(prev: map<string, Credential>)
    ensures Dropped(prev, map[]) == Ids(prev)
  {
  }

  lemma PreviousSecrets(t: Tables, name: string)
    requires SecretsExact(t)
    ensures InjectiveIds(Previous(t, name)) && Ids(Previous(t, name)) <= t.secrets.Keys
    ensures InjectiveIds(map[]) && Ids(map[]) == {}
  {
  }

  /** No live lease is on a name whose counter is zero, or that does not exist. */
  lemma FreeName(t: Tables, connections: map<string, nat>, channels: map<string, nat>, leases: map<nat, Lease>, name: string, op: Operation)
    requires Counted(connections, channels, leases) && Pinned(t, leases)
    requires if op == Add then name !in t.connections else InUse(connections, name) == 0
    ensures forall i | i in leases :: leases[i].connection != name
  {
    forall i | i in leases ensures leases[i].connection != name {
      assert i in OfConnection(leases, leases[i].connection);
    }
  }

  lemma FreeChannel(t: Tables, connections: map<string, nat>, channels: map<string, nat>, leases: map<nat, Lease>, name: string, op: Operation)
    requires Counted(connections, channels, leases) && Pinned(t, leases)
    requires if op == Add then name !in t.channels else InUse(channels, name) == 0
    ensures forall i | i in leases && leases[i].channelRevision != 0 :: leases[i].channel != name
  {
    forall i | i in leases && leases[i].channelRevision != 0 ensures leases[i].channel != name {
      assert i in OfChannel(leases, leases[i].channel);
    }
  }

  lemma ConnectionRemoved(t: Tables, u: Tables, leases: map<nat, Lease>, name: string)
    requires SecretsExact(t) && Related(t) && Pinned(t, leases) && RemovedConnection(t, u, name) && name in t.connections
    requires (forall i | i in leases :: leases[i].connection != name)
    requires forall c | c in t.channels :: t.channels[c].connection != name
    ensures SecretsExact(u) && Related(u) && Pinned(u, leases)
  {
    hide SecretsExact, Previous, Ids;
    SecretsRemoved(t, u, name);
  }

  lemma SecretsRemoved(t: Tables, u: Tables, name: string)
    requires SecretsExact(t) && RemovedConnection(t, u, name) && name in t.connections
    ensures SecretsExact(u)
  {
    hide InjectiveIds, Ids;
    var gone := Ids(Previous(t, name));
    forall n | n in t.connections && n != name ensures Ids(t.connections[n].bindings) <= u.secrets.Keys {
      assert Ids(t.connections[n].bindings) !! gone;
    }
    forall id | id in u.secrets ensures exists n :: n in u.connections && id in Ids(u.connections[n].bindings) {
      var n :| n in t.connections && id in Ids(t.connections[n].bindings);
      assert n in u.connections;
    }
  }

  lemma ConnectionChanged(t: Tables, u: Tables, leases: map<nat, Lease>, name: string, config: Config, ops: map<string, SecretOp>,
                          b: map<string, Credential>)
    requires SecretsExact(t) && Related(t) && Pinned(t, leases) && SetConnection(t, u, name, config, ops)
    requires forall i | i in leases :: leases[i].connection != name
    ensures SecretsExact(u) && Related(u) && Pinned(u, leases)
  {
    hide InjectiveIds, Ids, FieldMeets, AllowedSecrets, RequiredSecrets;
    SecretsReplaced(t, u, name, config, ops);
  }

  lemma SecretsReplaced(t: Tables, u: Tables, name: string, config: Config, ops: map<string, SecretOp>)
    requires SecretsExact(t) && SetConnection(t, u, name, config, ops)
    ensures SecretsExact(u)
  {
    hide InjectiveIds, Ids, FieldMeets, AllowedSecrets, RequiredSecrets, SecretsExact;
    OthersKeep(t, name);
    assert u.secrets.Keys == t.secrets.Keys - Ids(Previous(t, name)) + Ids(u.connections[name].bindings);
    Rejoined(t, u, name);
  }

  lemma Rejoined(t: Tables, u: Tables, name: string)
    requires SecretsExact(t) && name in u.connections && u.connections == t.connections[name := u.connections[name]]
    requires InjectiveIds(u.connections[name].bindings)
    requires var (others, mine) := (t.secrets.Keys - Ids(Previous(t, name)), Ids(u.connections[name].bindings));
             mine !! others && u.secrets.Keys == others + mine
    ensures SecretsExact(u)
  {
    hide InjectiveIds, Ids, Previous;
    OthersKeep(t, name);
    forall n | n in u.connections
      ensures InjectiveIds(u.connections[n].bindings) && Ids(u.connections[n].bindings) <= u.secrets.Keys
    {
    }
    forall n, m | n in u.connections && m in u.connections && n != m
      ensures Ids(u.connections[n].bindings) !! Ids(u.connections[m].bindings)
    {
      RejoinedApart(t, u, name, n, m);
    }
    forall id | id in u.secrets ensures exists n :: n in u.connections && id in Ids(u.connections[n].bindings) {
      RejoinedUsed(t, u, name, id);
    }
  }

  lemma RejoinedApart(t: Tables, u: Tables, name: string, n: string, m: string)
    requires SecretsExact(t) && name in u.connections && u.connections == t.connections[name := u.connections[name]]
    requires Ids(u.connections[name].bindings) !! t.secrets.Keys - Ids(Previous(t, name))
    requires n in u.connections && m in u.connections && n != m
    ensures Ids(u.connections[n].bindings) !! Ids(u.connections[m].bindings)
  {
    hide InjectiveIds, Ids, Previous;
    OthersKeep(t, name);
  }

  lemma RejoinedUsed(t: Tables, u: Tables, name: string, id: string)
    requires SecretsExact(t) && name in u.connections && u.connections == t.connections[name := u.connections[name]]
    requires id in t.secrets.Keys - Ids(Previous(t, name)) || id in Ids(u.connections[name].bindings)
    ensures exists n :: n in u.connections && id in Ids(u.connections[n].bindings)
  {
    hide InjectiveIds, Ids, Previous;
    OthersKeep(t, name);
    if id !in Ids(u.connections[name].bindings) {
      var n :| n in t.connections && n != name && id in Ids(t.connections[n].bindings);
      assert n in u.connections && u.connections[n] == t.connections[n];
    }
  }

  /** The secrets of the other connections are those that are left without this one's. */
  lemma OthersKeep(t: Tables, name: string)
    requires SecretsExact(t)
    ensures var others := t.secrets.Keys - Ids(Previous(t, name));
            && (forall n | n in t.connections && n != name :: Ids(t.connections[n].bindings) <= others)
            && (forall id | id in others :: exists n :: n in t.connections && n != name && id in Ids(t.connections[n].bindings))
  {
    hide InjectiveIds, Ids;
    PreviousSecrets(t, name);
    forall id | id in t.secrets && id !in Ids(Previous(t, name))
      ensures exists n :: n in t.connections && n != name && id in Ids(t.connections[n].bindings)
    {
      var n :| n in t.connections && id in Ids(t.connections[n].bindings);
    }
  }

  lemma ChannelChanged(t: Tables, u: Tables, leases: map<nat, Lease>, name: string)
    requires SecretsExact(t) && Related(t) && Pinned(t, leases)
    requires u.connections == t.connections && u.secrets == t.secrets
    requires forall n | n != name :: (n in u.channels <==> n in t.channels) && (n in t.channels ==> u.channels[n] == t.channels[n])
    requires name in u.channels ==> u.channels[name].connection in u.connections && u.channels[name].revision > 0
    requires forall i | i in leases && leases[i].channelRevision != 0 :: leases[i].channel != name
    ensures SecretsExact(u) && Related(u) && Pinned(u, leases)
  {
    hide InjectiveIds, Ids;
  }

  lemma Grown(leases: map<nat, Lease>, id: nat, l: Lease, n: string)
    requires id !in leases
    ensures var now := leases[id := l];
            && |OfConnection(now, n)| == |OfConnection(leases, n)| + (if l.connection == n then 1 else 0)
            && |OfChannel(now, n)| == |OfChannel(leases, n)| + (if l.channelRevision != 0 && l.channel == n then 1 else 0)
  {
    GrownConnection(leases, id, l, n);
    GrownChannel(leases, id, l, n);
  }

  lemma GrownConnection(leases: map<nat, Lease>, id: nat, l: Lease, n: string)
    requires id !in leases
    ensures |OfConnection(leases[id := l], n)| == |OfConnection(leases, n)| + (if l.connection == n then 1 else 0)
  {
    ConnectionSet(leases, id, l, n);
    hide OfConnection;
  }

  lemma ConnectionSet(leases: map<nat, Lease>, id: nat, l: Lease, n: string)
    requires id !in leases
    ensures OfConnection(leases[id := l], n) == OfConnection(leases, n) + (if l.connection == n then {id} else {})
    ensures id !in OfConnection(leases, n)
  {
  }

  lemma GrownChannel(leases: map<nat, Lease>, id: nat, l: Lease, n: string)
    requires id !in leases
    ensures |OfChannel(leases[id := l], n)| == |OfChannel(leases, n)| + (if l.channelRevision != 0 && l.channel == n then 1 else 0)
  {
    ChannelSet(leases, id, l, n);
    hide OfChannel;
  }

  lemma ChannelSet(leases: map<nat, Lease>, id: nat, l: Lease, n: string)
    requires id !in leases
    ensures OfChannel(leases[id := l], n) == OfChannel(leases, n) + (if l.channelRevision != 0 && l.channel == n then {id} else {})
    ensures id !in OfChannel(leases, n)
  {
  }

  lemma LeaseAdded(connections: map<string, nat>, channels: map<string, nat>, leases: map<nat, Lease>, id: nat, l: Lease)
    requires Counted(connections, channels, leases) && id !in leases
    ensures Counted(connections[l.connection := InUse(connections, l.connection) + 1],
                    if l.channelRevision == 0 then channels else channels[l.channel := InUse(channels, l.channel) + 1],
                    leases[id := l])
  {
    hide OfConnection, OfChannel;
    var now := leases[id := l];
    forall n ensures |OfConnection(now, n)| == |OfConnection(leases, n)| + (if l.connection == n then 1 else 0)
      && |OfChannel(now, n)| == |OfChannel(leases, n)| + (if l.channelRevision != 0 && l.channel == n then 1 else 0)
    {
      Grown(leases, id, l, n);
    }
  }

  lemma LeaseDropped(connections: map<string, nat>, channels: map<string, nat>, leases: map<nat, Lease>, id: nat)
    requires Counted(connections, channels, leases) && id in leases
    ensures var l := leases[id];
            && InUse(connections, l.connection) > 0 && (l.channelRevision != 0 ==> InUse(channels, l.channel) > 0)
            && Counted(connections[l.connection := InUse(connections, l.connection) - 1],
                       if l.channelRevision == 0 then channels else channels[l.channel := InUse(channels, l.channel) - 1],
                       leases - {id})
  {
    hide OfConnection, OfChannel;
    var (l, now) := (leases[id], leases - {id});
    assert now[id := l] == leases;
    forall n ensures |OfConnection(now, n)| == |OfConnection(leases, n)| - (if l.connection == n then 1 else 0)
      && |OfChannel(now, n)| == |OfChannel(leases, n)| - (if l.channelRevision != 0 && l.channel == n then 1 else 0)
    {
      Grown(now, id, l, n);
    }
    assert InUse(connections, l.connection) == |OfConnection(leases, l.connection)|;
    assert InUse(channels, l.channel) == |OfChannel(leases, l.channel)|;
  }

  ghost function DroppedOf(prev: map<string, Credential>, b: map<string, Credential>, fields: set<string>): set<string> {
    set f | f in fields && f in prev && prev[f].SecretId? && !(f in b && b[f] == prev[f]) :: prev[f].id
  }

  lemma DroppedNone(prev: map<string, Credential>, b: map<string, Credential>)
    ensures DroppedOf(prev, b, prev.Keys - prev.Keys) == {}
  {
  }

  lemma DroppedMore(prev: map<string, Credential>, b: map<string, Credential>, done: set<string>, f: string)
    requires f in prev
    ensures DroppedOf(prev, b, done + {f}) == DroppedOf(prev, b, done)
                                              + (if prev[f].SecretId? && !(f in b && b[f] == prev[f]) then {prev[f].id} else {})
  {
  }

  ghost function Dropped(prev: map<string, Credential>, b: map<string, Credential>): set<string> {
    DroppedOf(prev, b, prev.Keys)
  }

  /** After the first `i` allowed fields, before anything is deleted. */
  ghost predicate Partial(prev: map<string, Credential>, ops: map<string, SecretOp>, allowed: seq<string>, i: nat,
                          before: map<string, string>, b: map<string, Credential>, secrets: map<string, string>)
    requires i <= |allowed|
  {
    && (forall f | f in b :: f in allowed[..i])
    && (forall j | 0 <= j < i :: FieldMeets(prev, OpFor(ops, allowed[j]), allowed[j], b, secrets))
    && InjectiveIds(b)
    && secrets.Keys == before.Keys + Ids(b) && (forall id | id in before :: secrets[id] == before[id])
    && (forall f | f in b && b[f].SecretId? && b[f].id in before :: f in prev && b[f] == prev[f])
  }

  lemma PartialStart(prev: map<string, Credential>, ops: map<string, SecretOp>, allowed: seq<string>, before: map<string, string>)
    ensures Partial(prev, ops, allowed, 0, before, map[], before)
  {
  }

  lemma FieldDone(prev: map<string, Credential>, ops: map<string, SecretOp>, allowed: seq<string>, i: nat,
                  before: map<string, string>, b: map<string, Credential>, secrets: map<string, string>,
                  next: map<string, Credential>, now: map<string, string>, id: string)
    requires i < |allowed| && (forall j, k | 0 <= j < k < |allowed| :: allowed[j] != allowed[k])
    requires InjectiveIds(prev) && Ids(prev) <= before.Keys && Partial(prev, ops, allowed, i, before, b, secrets)
    requires match OpFor(ops, allowed[i])
             case Malformed => false
             case Keep => next == (if allowed[i] in prev then b[allowed[i] := prev[allowed[i]]] else b) && now == secrets
             case Clear => next == b && now == secrets
             case UseReference(text) => next == b[allowed[i] := Reference(text)] && now == secrets
             case UseValue(plain) => id !in secrets && next == b[allowed[i] := SecretId(id)] && now == secrets[id := plain]
    ensures Partial(prev, ops, allowed, i + 1, before, next, now)
  {
    hide Ids, FieldMeets, InjectiveIds, Partial;
    var f := allowed[i];
    NotYet(prev, ops, allowed, i, before, b, secrets);
    FieldKept(prev, OpFor(ops, f), f, next, now, id);
    match OpFor(ops, f) {
      case Keep =>
        if f in prev {
          IdsIn(prev);
          FieldAdded(prev, ops, allowed, i, before, b, secrets, prev[f], now);
        } else {
          FieldSkipped(prev, ops, allowed, i, before, b, secrets);
        }
      case Clear => FieldSkipped(prev, ops, allowed, i, before, b, secrets);
      case UseReference(text) => FieldAdded(prev, ops, allowed, i, before, b, secrets, Reference(text), now);
      case UseValue(_) => FieldAdded(prev, ops, allowed, i, before, b, secrets, SecretId(id), now);
    }
  }

  lemma NotYet(prev: map<string, Credential>, ops: map<string, SecretOp>, allowed: seq<string>, i: nat,
               before: map<string, string>, b: map<string, Credential>, secrets: map<string, string>)
    requires i < |allowed| && (forall j, k | 0 <= j < k < |allowed| :: allowed[j] != allowed[k])
    requires Partial(prev, ops, allowed, i, before, b, secrets)
    ensures allowed[i] !in b && before.Keys <= secrets.Keys
  {
    hide Ids, FieldMeets, InjectiveIds;
  }

  lemma FieldSkipped(prev: map<string, Credential>, ops: map<string, SecretOp>, allowed: seq<string>, i: nat,
                     before: map<string, string>, b: map<string, Credential>, secrets: map<string, string>)
    requires i < |allowed| && Partial(prev, ops, allowed, i, before, b, secrets)
    requires FieldMeets(prev, OpFor(ops, allowed[i]), allowed[i], b, secrets)
    ensures Partial(prev, ops, allowed, i + 1, before, b, secrets)
  {
    hide Ids, FieldMeets, InjectiveIds;
    assert allowed[..i + 1] == allowed[..i] + [allowed[i]];
  }

  /** Adding a binding: a kept one, a reference, or a new id with its secret. */
  lemma FieldAdded(prev: map<string, Credential>, ops: map<string, SecretOp>, allowed: seq<string>, i: nat,
                   before: map<string, string>, b: map<string, Credential>, secrets: map<string, string>,
                   c: Credential, now: map<string, string>)
    requires i < |allowed| && (forall j, k | 0 <= j < k < |allowed| :: allowed[j] != allowed[k])
    requires InjectiveIds(prev) && Partial(prev, ops, allowed, i, before, b, secrets) && allowed[i] !in b
    requires FieldMeets(prev, OpFor(ops, allowed[i]), allowed[i], b[allowed[i] := c], now)
    requires (forall id | id in secrets :: id in now && now[id] == secrets[id])
    requires now.Keys == secrets.Keys + (if c.SecretId? then {c.id} else {})
    requires c.SecretId? ==> if c.id in before then allowed[i] in prev && prev[allowed[i]] == c else c.id !in secrets
    ensures Partial(prev, ops, allowed, i + 1, before, b[allowed[i] := c], now)
  {
    hide Ids, FieldMeets;
    var f := allowed[i];
    var next := b[f := c];
    assert allowed[..i + 1] == allowed[..i] + [f];
    IdsOfOne(b, f, c);
    IdsIn(b);
    forall j | 0 <= j < i ensures FieldMeets(prev, OpFor(ops, allowed[j]), allowed[j], next, now) {
      FieldMeetsStill(prev, OpFor(ops, allowed[j]), allowed[j], b, secrets, next, now);
    }
  }

  lemma IdsIn(b: map<string, Credential>)
    ensures forall f | f in b && b[f].SecretId? :: b[f].id in Ids(b)
  {
  }

  lemma IdsOfOne(b: map<string, Credential>, f: string, c: Credential)
    requires f !in b
    ensures Ids(b[f := c]) == Ids(b) + (if c.SecretId? then {c.id} else {})
  {
    var u := b[f := c];
    forall id ensures id in Ids(u) <==> id in Ids(b) + (if c.SecretId? then {c.id} else {}) {
      if id in Ids(b) {
        var g :| g in b && b[g].SecretId? && b[g].id == id;
        assert g in u && u[g] == b[g];
      }
      if c.SecretId? && id == c.id {
        assert f in u && u[f] == c;
      }
    }
  }

  lemma FieldKept(prev: map<string, Credential>, op: SecretOp, f: string, b: map<string, Credential>,
                  secrets: map<string, string>, id: string)
    requires match op
             case Malformed => false
             case Keep => (f in prev ==> f in b && b[f] == prev[f]) && (f !in prev ==> f !in b)
             case Clear => f !in b
             case UseReference(text) => f in b && b[f] == Reference(text)
             case UseValue(plain) => f in b && b[f] == SecretId(id) && id in secrets && secrets[id] == plain
    ensures FieldMeets(prev, op, f, b, secrets)
  {
  }

  lemma FieldMeetsStill(prev: map<string, Credential>, op: SecretOp, f: string, b: map<string, Credential>,
                        secrets: map<string, string>, next: map<string, Credential>, now: map<string, string>)
    requires FieldMeets(prev, op, f, b, secrets)
    requires (f in next <==> f in b) && (f in b ==> next[f] == b[f])
    requires f in b && b[f].SecretId? && b[f].id in secrets ==> b[f].id in now && now[b[f].id] == secrets[b[f].id]
    ensures FieldMeets(prev, op, f, next, now)
  {
  }

  lemma PartialDone(prev: map<string, Credential>, config: Config, ops: map<string, SecretOp>, before: map<string, string>,
                    b: map<string, Credential>, filled: map<string, string>, after: map<string, string>)
    requires InjectiveIds(prev) && Ids(prev) <= before.Keys && (forall f | f in ops :: f in AllowedSecrets(config))
    requires var allowed := AllowedSecrets(config); Partial(prev, ops, allowed, |allowed|, before, b, filled)
    requires after == filled - Dropped(prev, b)
    ensures CredentialsMeet(prev, config, ops, before, b, after)
  {
    hide FieldMeets, AllowedSecrets, Ids, Dropped;
    var allowed := AllowedSecrets(config);
    assert allowed[..|allowed|] == allowed;
    DropsOthers(prev, b, before);
    forall f | f in allowed ensures FieldMeets(prev, OpFor(ops, f), f, b, after) {
      var j :| 0 <= j < |allowed| && allowed[j] == f;
      IdsIn(b);
      FieldMeetsStill(prev, OpFor(ops, f), f, b, filled, b, after);
    }
  }

  /** The dropped ids are those of the previous bindings that no field names any more. */
  lemma DropsOthers(prev: map<string, Credential>, b: map<string, Credential>, before: map<string, string>)
    requires InjectiveIds(prev) && Ids(prev) <= before.Keys
    requires forall f | f in b && b[f].SecretId? && b[f].id in before :: f in prev && b[f] == prev[f]
    ensures Dropped(prev, b) == Ids(prev) - Ids(b)
    ensures forall id | id in Ids(b) && id in before :: id in Ids(prev)
  {
    forall id | id in Ids(b) && id in before ensures id in Ids(prev) && id !in Dropped(prev, b) {
      var g :| g in b && b[g].SecretId? && b[g].id == id;
    }
    forall id | id in Ids(prev) && id !in Ids(b) ensures id in Dropped(prev, b) {
      var f :| f in prev && prev[f].SecretId? && prev[f].id == id;
    }
  }
}
