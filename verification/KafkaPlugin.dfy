/**
 * Sessions, verification jobs and shutdown. Each method is one atomic section
 * of the source, so any interleaving of threads is a sequence of calls.
 */
module KafkaPlugin {
  import opened Bytes
  import opened KafkaStore

  const MAX_RUNNING: nat := 8

  /** Who holds a lease: a session, a call of `OpenSession` or `ReleaseSession`, a verification job, or `StartTest`. */
  datatype Holder = InSession | InTask(task: nat) | InJob(job: nat) | InStarter

  /** A client or job with the binding snapshot it was given. */
  datatype Client = Client(holder: Holder, snapshot: Lease)

  /** How far an `OpenSession` or `ReleaseSession` call has come; it counts as pending from its first step to its last. */
  datatype Task = Entered | Holding(id: nat) | Abandoning(id: nat) | Leaving

  /** A verification job; a job on a draft connection holds no lease. */
  datatype Job = Running(id: Option<nat>) | Released | Done

  /** The call inside `StartTest`, which keeps the lock on the jobs throughout. */
  datatype Starter = Idle | Starting(id: Option<nat>)

  /** What a test may be of; a draft channel gives its name and its connection. */
  datatype Subject = StoredChannel(name: string, usage: Role) | StoredConnection(name: string) | DraftChannel(name: string, connection: string)

  datatype Book = Book(clients: map<nat, Client>, tasks: map<nat, Task>, jobs: map<nat, Job>, starter: Starter)

  /** A draft channel's lease is of the connection alone, whatever channel name the snapshot was given. */
  predicate SameLease(a: Lease, b: Lease) {
    && a.channelRevision == b.channelRevision && a.connection == b.connection && a.connectionRevision == b.connectionRevision
    && (a.channelRevision != 0 ==> a.channel == b.channel)
  }

  predicate Owns(b: Book, id: nat, who: Holder) {
    id in b.clients && b.clients[id].holder == who
  }

  /** The holder that a client names does hold it. */
  predicate Placed(b: Book, id: nat)
    requires id in b.clients
  {
    match b.clients[id].holder
    case InSession => true
    case InTask(t) => t in b.tasks && b.tasks[t] in {Holding(id), Abandoning(id)}
    case InJob(j) => j in b.jobs && b.jobs[j] == Running(Some(id))
    case InStarter => b.starter == Starting(Some(id))
  }

  /** Every live lease is held by exactly one session, call, job or starter, and those hold no others. */
  ghost predicate Consistent(b: Book, leases: map<nat, Lease>) {
    && b.clients.Keys == leases.Keys
    && (forall i | i in b.clients :: i in leases && SameLease(leases[i], b.clients[i].snapshot) && Placed(b, i))
    && (forall t | t in b.tasks && (b.tasks[t].Holding? || b.tasks[t].Abandoning?) :: Owns(b, b.tasks[t].id, InTask(t)))
    && (forall j | j in b.jobs && b.jobs[j].Running? && b.jobs[j].id.Some? :: Owns(b, b.jobs[j].id.value, InJob(j)))
    && (b.starter.Starting? && b.starter.id.Some? ==> Owns(b, b.starter.id.value, InStarter))
  }

  /** The jobs that can be looked up and those that a call of `Stop` waits for. */
  function Together(tests: map<nat, Job>, joining: map<nat, Job>): map<nat, Job> {
    tests + joining
  }

  function Busy(jobs: map<nat, Job>): set<nat> {
    set j | j in jobs && !jobs[j].Done?
  }

  /** A job that still holds a lease. */
  ghost predicate Lingers(jobs: map<nat, Job>, j: nat) {
    j in jobs && jobs[j].Running? && jobs[j].id.Some?
  }

  /** The jobs that calls of `Stop` took over, each by one call. */
  ghost predicate TakenOver(stops: map<nat, set<nat>>, joining: map<nat, Job>) {
    && (forall k, j | k in stops && j in stops[k] :: j in joining)
    && (forall j | j in joining :: exists k | k in stops :: j in stops[k])
    && (forall k, l | k in stops && l in stops && k != l :: stops[k] !! stops[l])
  }

  class Plugin {
    const store: Store
    /** The clients that exist; the sessions are those held by `InSession`. */
    var clients: map<nat, Client>
    var pending: nat
    var stopping: bool
    var tasks: map<nat, Task>
    var testsStopping: bool
    var starter: Starter
    var tests: map<nat, Job>
    /** The jobs that calls of `Stop` took over and wait for. */
    var joining: map<nat, Job>
    /** For each call of `Stop` that is waiting, the jobs that it took over. */
    var stops: map<nat, set<nat>>

    function View(): Book
      reads this
    {
      Book(clients, tasks, Together(tests, joining), starter)
    }

    predicate Session(id: nat)
      reads this
    {
      id in clients && clients[id].holder == InSession
    }

    predicate NoSessions()
      reads this
    {
      forall id | id in clients :: clients[id].holder != InSession
    }

    /** What every call keeps; among it, at most eight jobs run, the one being started included. */
    ghost predicate Valid()
      reads this, store
    {
      && store.Valid() && Consistent(View(), store.leases) && pending == |tasks| && tests.Keys !! joining.Keys
      && TakenOver(stops, joining)
      && |Busy(tests)| + (if starter == Idle then 0 else 1) <= MAX_RUNNING
      && (testsStopping ==> tests == map[] && starter == Idle)
    }

    /** Shut down with nothing left: no session, no call and no lease, and so it stays. */
    ghost predicate Quiet()
      reads this, store
    {
      stopping && testsStopping && clients == map[] && tasks == map[] && store.leases == map[]
    }

    constructor (store: Store)
      requires store.Valid() && store.leases == map[]
      ensures Valid() && this.store == store && !stopping && !testsStopping && clients == map[] && tasks == map[]
      ensures starter == Idle && tests == map[] && joining == map[] && stops == map[] && pending == 0
    {
      this.store := store;
      clients, pending, stopping, tasks := map[], 0, false, map[];
      testsStopping, starter, tests, joining, stops := false, Idle, map[], map[], map[];
    }

    // ---- OpenSession ----

    /** The first section: refused once stopping, else counted as pending. */
    method OpenEnter(t: nat) returns (entered: bool)
      requires Valid() && t !in tasks
      modifies this`pending, this`tasks
      ensures Valid() && (old(Quiet()) ==> Quiet())
      ensures entered <==> !stopping
      ensures tasks == if entered then old(tasks)[t := Entered] else old(tasks)
      ensures clients == old(clients)
    {
      hide Consistent, Counted, SecretsExact, Pinned, Related, Busy, TakenOver, Together;
      if stopping {
        return false;
      }
      TaskMoved(View(), store.leases, t, Entered);
      pending := pending + 1;
      tasks := tasks[t := Entered];
      entered := true;
    }

    method OpenAcquire(t: nat, name: string, usage: Role, intact: bool, id: nat)
      requires Valid() && t in tasks && tasks[t] == Entered && id !in store.leases
      modifies this`clients, this`tasks, store
      ensures Valid() && (old(Quiet()) ==> Quiet())
      ensures tasks == old(tasks)[t := Leaving] || tasks == old(tasks)[t := Holding(id)]
      ensures tasks[t].Holding? <==> id in store.leases
      ensures tasks[t].Holding? ==> name in store.tables.channels && clients == old(clients)[id := Client(InTask(t), store.leases[id])]
    {
      hide Consistent, Counted, SecretsExact, Pinned, Related, Busy, TakenOver, Together;
      var lease := store.Acquire(name, usage, intact, id);
      if lease.Some? {
        TaskAcquires(View(), old(store.leases), id, lease.value, t);
        clients := clients[id := Client(InTask(t), lease.value)];
        tasks := tasks[t := Holding(id)];
      } else {
        TaskMoved(View(), store.leases, t, Leaving);
        tasks := tasks[t := Leaving];
      }
    }

    /** Creating the client fails after the lease was taken. */
    method OpenFails(t: nat)
      requires Valid() && t in tasks && tasks[t].Holding?
      modifies this`tasks
      ensures Valid() && (old(Quiet()) ==> Quiet())
      ensures tasks == old(tasks)[t := Abandoning(old(tasks)[t].id)]
      ensures clients == old(clients)
    {
      hide Consistent, Counted, SecretsExact, Pinned, Related, Busy, TakenOver, Together;
      TaskAbandons(View(), store.leases, t);
      tasks := tasks[t := Abandoning(tasks[t].id)];
    }

    /** The client becomes a session, unless the plugin began to stop meanwhile. */
    method OpenPublish(t: nat)
      requires Valid() && t in tasks && tasks[t].Holding?
      modifies this`clients, this`tasks
      ensures Valid() && (old(Quiet()) ==> Quiet())
      ensures var id := old(tasks)[t].id;
              if stopping then tasks == old(tasks)[t := Abandoning(id)] && clients == old(clients)
              else Session(id) && tasks == old(tasks)[t := Leaving]
    {
      hide Consistent, Counted, SecretsExact, Pinned, Related, Busy, TakenOver, Together;
      var id := tasks[t].id;
      if stopping {
        TaskAbandons(View(), store.leases, t);
        tasks := tasks[t := Abandoning(id)];
      } else {
        TaskPublishes(View(), store.leases, t);
        clients := clients[id := clients[id].(holder := InSession)];
        tasks := tasks[t := Leaving];
      }
    }

    /** An abandoned open, or the second section of a release, gives the lease back. */
    method ReleaseHeld(t: nat)
      requires Valid() && t in tasks && tasks[t].Abandoning?
      modifies this`clients, this`tasks, store
      ensures Valid() && (old(Quiet()) ==> Quiet())
      ensures tasks == old(tasks)[t := Leaving] && store.leases == old(store.leases) - {old(tasks)[t].id}
    {
      hide Consistent, Counted, SecretsExact, Pinned, Related, Busy, TakenOver, Together;
      var id := tasks[t].id;
      TaskReleases(View(), store.leases, t);
      store.Release(clients[id].snapshot, id);
      clients := clients - {id};
      tasks := tasks[t := Leaving];
    }

    method Leave(t: nat)
      requires Valid() && t in tasks && tasks[t].Leaving?
      modifies this`pending, this`tasks
      ensures Valid() && (old(Quiet()) ==> Quiet())
      ensures tasks == old(tasks) - {t} && clients == old(clients)
    {
      hide Consistent, Counted, SecretsExact, Pinned, Related, Busy, TakenOver, Together;
      TaskLeaves(View(), store.leases, t);
      pending := pending - 1;
      tasks := tasks - {t};
    }

    /** `ReleaseSession`: an unknown session is ignored. */
    method ReleaseEnter(t: nat, id: nat)
      requires Valid() && t !in tasks
      modifies this`clients, this`tasks, this`pending
      ensures Valid() && (old(Quiet()) ==> Quiet())
      ensures if old(Session(id)) then !Session(id) && tasks == old(tasks)[t := Abandoning(id)]
              else clients == old(clients) && tasks == old(tasks)
    {
      hide Consistent, Counted, SecretsExact, Pinned, Related, Busy, TakenOver, Together;
      if !Session(id) {
        return;
      }
      SessionLeaves(View(), store.leases, t, id);
      clients := clients[id := clients[id].(holder := InTask(t))];
      tasks := tasks[t := Abandoning(id)];
      pending := pending + 1;
    }

    // ---- Verification jobs ----

    /** `StartTest` takes the lock on the jobs; refused when stopping or when eight jobs are running. */
    method TestEnter() returns (entered: bool)
      requires Valid() && starter == Idle
      modifies this`starter
      ensures Valid() && (old(Quiet()) ==> Quiet())
      ensures entered <==> !testsStopping && |Busy(tests)| < MAX_RUNNING
      ensures starter == if entered then Starting(None) else Idle
      ensures tests == old(tests)
    {
      hide Consistent, Counted, SecretsExact, Pinned, Related, Busy, TakenOver, Together;
      if testsStopping || |Busy(tests)| >= MAX_RUNNING {
        return false;
      }
      StarterMoved(View(), store.leases, Starting(None));
      starter := Starting(None);
      entered := true;
    }

    /**
     * A test of a stored channel leases both; of a stored connection, or of a draft
     * channel, the connection alone. The snapshot of a draft channel carries its
     * name, with revision 0.
     */
    method TestAcquire(subject: Subject, intact: bool, id: nat)
      requires Valid() && starter == Starting(None) && id !in store.leases
      modifies this`clients, this`starter, store
      ensures Valid() && (old(Quiet()) ==> Quiet())
      ensures starter == if id in store.leases then Starting(Some(id)) else Idle
      ensures starter == Idle ==> store.leases == old(store.leases)
      ensures starter == Idle ==> clients == old(clients)
      ensures starter != Idle ==>
                var lease := store.leases[id];
                clients == old(clients)[id := Client(InStarter, if subject.DraftChannel? then lease.(channel := subject.name) else lease)]
      ensures intact && subject.StoredConnection? && subject.name in old(store.tables).connections ==> starter == Starting(Some(id))
      ensures intact && subject.DraftChannel? && subject.connection in old(store.tables).connections ==> starter == Starting(Some(id))
    {
      hide Consistent, Counted, SecretsExact, Pinned, Related, Busy, TakenOver, Together;
      var lease, snapshot;
      match subject {
        case StoredChannel(name, usage) =>
          lease := store.Acquire(name, usage, intact, id);
        case StoredConnection(name) =>
          lease := store.AcquireConnection(name, intact, id);
        case DraftChannel(_, connection) =>
          lease := store.AcquireConnection(connection, intact, id);
      }
      if lease.None? {
        StarterMoved(View(), store.leases, Idle);
        starter := Idle;
      } else {
        snapshot := if subject.DraftChannel? then lease.value.(channel := subject.name) else lease.value;
        StarterAcquires(View(), old(store.leases), id, lease.value, snapshot);
        clients := clients[id := Client(InStarter, snapshot)];
        starter := Starting(Some(id));
      }
    }

    /** A test of a draft connection builds it without a lease. */
    method TestDraft(name: string, expected: Option<nat>, config: Config, ops: map<string, SecretOp>, valid: bool,
                     random: string -> string)
      returns (failure: Option<Failure>)
      requires Valid() && starter == Starting(None)
      modifies this`starter, store
      ensures Valid() && (old(Quiet()) ==> Quiet())
      ensures store.tables == old(store.tables) && store.leases == old(store.leases)
      ensures starter == if failure.Some? then Idle else Starting(None)
      ensures failure.Some? && failure != Some(PersistenceFailure) ==>
        || (expected.Some? && (name !in store.tables.connections || store.tables.connections[name].revision != expected.value))
        || Unacceptable(if expected.Some? then Previous(store.tables, name) else map[], config, ops, valid)
    {
      hide Consistent, Counted, SecretsExact, Pinned, Related, Busy, TakenOver, Together;
      var b;
      failure, b := store.Draft(name, expected, config, ops, valid, random);
      if failure.Some? {
        StarterMoved(View(), store.leases, Idle);
        starter := Idle;
      }
    }

    /** The job takes the lease over. */
    method TestLaunch(j: nat)
      requires Valid() && starter.Starting? && j !in tests && j !in joining
      modifies this`clients, this`tests, this`starter
      ensures Valid() && (old(Quiet()) ==> Quiet())
      ensures starter == Idle && tests == old(tests)[j := Running(old(starter).id)] && |Busy(tests)| <= MAX_RUNNING
      ensures old(starter).id.None? ==> clients == old(clients)
      ensures old(starter).id.Some? ==>
                var id := old(starter).id.value;
                id in old(clients) && clients == old(clients)[id := old(clients)[id].(holder := InJob(j))]
    {
      hide Consistent, Counted, SecretsExact, Pinned, Related, Busy, TakenOver, Together;
      BusyAdded(tests, j, Running(starter.id));
      TogetherSet(tests, joining, j, Running(starter.id));
      StarterLaunches(View(), store.leases, j);
      if starter.id.Some? {
        clients := clients[starter.id.value := clients[starter.id.value].(holder := InJob(j))];
      }
      tests := tests[j := Running(starter.id)];
      starter := Idle;
    }

    /** A check that fails after the lease was taken, or a thread that cannot start, gives it back. */
    method TestAbort()
      requires Valid() && starter.Starting?
      modifies this`clients, this`starter, store
      ensures Valid() && (old(Quiet()) ==> Quiet())
      ensures starter == Idle
      ensures store.leases == if old(starter).id.Some? then old(store.leases) - {old(starter).id.value} else old(store.leases)
    {
      hide Consistent, Counted, SecretsExact, Pinned, Related, Busy, TakenOver, Together;
      if starter.id.Some? {
        var id := starter.id.value;
        StarterReleases(View(), store.leases);
        store.Release(clients[id].snapshot, id);
        clients := clients - {id};
      } else {
        StarterMoved(View(), store.leases, Idle);
      }
      starter := Idle;
    }

    /** The worker has destroyed its client and gives the lease back. */
    method JobRelease(j: nat)
      requires Valid() && j in Together(tests, joining) && Together(tests, joining)[j].Running?
      modifies this`clients, this`tests, this`joining, store
      ensures Valid() && (old(Quiet()) ==> Quiet())
      ensures Together(tests, joining) == old(Together(tests, joining))[j := Released]
      ensures var id := old(Together(tests, joining)[j].id); store.leases == if id.Some? then old(store.leases) - {id.value} else old(store.leases)
    {
      hide Consistent, Counted, SecretsExact, Pinned, Related, Busy, TakenOver, Together;
      var id := Together(tests, joining)[j].id;
      if id.Some? {
        JobReleases(View(), store.leases, j);
        store.Release(clients[id.value].snapshot, id.value);
        clients := clients - {id.value};
      } else {
        JobMoved(View(), store.leases, j, Released);
      }
      SetJob(j, Released);
    }

    method JobFinish(j: nat)
      requires Valid() && j in Together(tests, joining) && Together(tests, joining)[j].Released?
      modifies this`tests, this`joining
      ensures Valid() && (old(Quiet()) ==> Quiet())
      ensures Together(tests, joining) == old(Together(tests, joining))[j := Done]
    {
      hide Consistent, Counted, SecretsExact, Pinned, Related, Busy, TakenOver, Together;
      JobMoved(View(), store.leases, j, Done);
      SetJob(j, Done);
    }

    method SetJob(j: nat, job: Job)
      requires j in Together(tests, joining) && tests.Keys !! joining.Keys && TakenOver(stops, joining)
      requires !Together(tests, joining)[j].Done?
      modifies this`tests, this`joining
      ensures |Busy(tests)| <= |Busy(old(tests))|
      ensures Together(tests, joining) == old(Together(tests, joining))[j := job]
      ensures tests.Keys == old(tests.Keys) && joining.Keys == old(joining.Keys)
      ensures tests == if j in old(tests) then old(tests)[j := job] else old(tests)
      ensures joining == if j in old(tests) then old(joining) else old(joining)[j := job]
      ensures TakenOver(stops, joining)
    {
      hide Busy, Together;
      TogetherSet(tests, joining, j, job);
      BusyNoMore(tests, j, job);
      if j in tests {
        tests := tests[j := job];
      } else {
        joining := joining[j := job];
      }
    }

    /** `PruneTests` forgets jobs that are done. */
    method Prune(j: nat)
      requires Valid() && j in tests && tests[j].Done?
      modifies this`tests
      ensures Valid() && (old(Quiet()) ==> Quiet())
      ensures tests == old(tests) - {j}
    {
      hide Consistent, Counted, SecretsExact, Pinned, Related, Busy, TakenOver, Together;
      TogetherSet(tests, joining, j, tests[j]);
      JobForgotten(View(), store.leases, j);
      BusyForgets(tests, j);
      WithoutOne(tests, joining, j);
      var rest := tests - {j};
      tests := rest;
    }

    // ---- Changes of the definitions by other threads ----

    method ChangeConnection(op: Operation, name: string, expected: Option<nat>, config: Config, ops: map<string, SecretOp>,
                            valid: bool, random: string -> string) returns (failure: Option<Failure>)
      requires Valid()
      modifies store
      ensures Valid() && (old(Quiet()) ==> Quiet())
      ensures store.leases == old(store.leases)
      ensures failure.None? ==> forall i | i in store.leases :: store.leases[i].connection != name || op == Add
    {
      hide Consistent, Counted, SecretsExact, Pinned, Related, Busy, TakenOver, Together;
      LeasedInUse(store, name);
      failure := store.MutateConnection(op, name, expected, config, ops, valid, random);
    }

    method ChangeChannel(op: Operation, name: string, expected: Option<nat>, channel: Channel, valid: bool)
      returns (failure: Option<Failure>)
      requires Valid()
      modifies store
      ensures Valid() && (old(Quiet()) ==> Quiet())
      ensures store.leases == old(store.leases)
      ensures failure.None? ==> forall i | i in store.leases && store.leases[i].channelRevision != 0 :: store.leases[i].channel != name || op == Add
    {
      hide Consistent, Counted, SecretsExact, Pinned, Related, Busy, TakenOver, Together;
      LeasedChannelInUse(store, name);
      failure := store.MutateChannel(op, name, expected, channel, valid);
    }

    // ---- Stop ----

    method StopBegin()
      requires Valid()
      modifies this`stopping
      ensures Valid() && (old(Quiet()) ==> Quiet())
      ensures stopping
    {
      hide Consistent, Counted, SecretsExact, Pinned, Related, Busy, TakenOver, Together;
      stopping := true;
    }

    /**
     * `StopTests`, called by the `Stop` call k, needs the lock, so no call is inside
     * `StartTest`; it takes over the jobs that are left and waits for those alone.
     */
    method StopTests(k: nat)
      requires Valid() && starter == Idle && k !in stops
      modifies this`testsStopping, this`tests, this`joining, this`stops
      ensures Valid() && (old(Quiet()) ==> Quiet())
      ensures testsStopping && tests == map[] && joining == old(Together(tests, joining))
      ensures stops == old(stops)[k := old(tests.Keys)]
    {
      hide Consistent, Counted, SecretsExact, Pinned, Related, Busy, TakenOver, Together;
      BusyNone();
      OneMoreStop(stops, joining, tests, k);
      Swapped(tests, joining);
      testsStopping, joining, stops, tests := true, Together(tests, joining), stops[k := tests.Keys], map[];
    }

    /** A call of `Stop` that joined its jobs forgets them. */
    method ForgetJobs(k: nat)
      requires Valid() && testsStopping && k in stops && forall j | j in stops[k] :: j in joining && joining[j].Done?
      modifies this`joining, this`stops
      ensures Valid()
      ensures joining == old(joining) - old(stops)[k] && stops == old(stops) - {k}
      ensures stops == map[] ==> joining == map[]
    {
      hide Consistent, Counted, SecretsExact, Pinned, Related, Busy, TakenOver, Together;
      StopDone(stops, joining, k);
      EmptyTests(tests, joining, stops[k]);
      JobsForgotten(View(), store.leases, stops[k]);
      joining, stops := joining - stops[k], stops - {k};
    }

    /**
     * The last wait of the `Stop` call k. When it is over, no session and no call
     * holds a lease, and a lease is left exactly if a job lingers that another call
     * of `Stop` took over; so when no other call is waiting, nothing is left.
     */
    method StopReturns(k: nat) returns (returned: bool)
      requires Valid() && stopping && testsStopping && k in stops
      modifies this`joining, this`stops
      ensures Valid()
      ensures returned <==> (forall j | j in old(stops)[k] :: j in old(joining) && old(joining)[j].Done?) && NoSessions() && pending == 0
      ensures joining == (if returned then old(joining) - old(stops)[k] else old(joining))
      ensures stops == if returned then old(stops) - {k} else old(stops)
      ensures returned ==> tasks == map[] && OnlyJobsHold(clients, joining)
      ensures returned ==> (Quiet() <==> forall j :: !Lingers(joining, j))
      ensures returned && stops == map[] ==> Quiet()
      ensures Quiet() ==> (forall n :: InUse(store.connectionsInUse, n) == 0) && (forall n :: InUse(store.channelsInUse, n) == 0)
    {
      hide Consistent, Counted, SecretsExact, Pinned, Related, Busy, TakenOver, Together, Lingers, OnlyJobsHold;
      StopsAre(stops, joining);
      returned := (forall j | j in stops[k] :: joining[j].Done?) && NoSessions() && pending == 0;
      if returned {
        ForgetJobs(k);
        StopLeaves();
      }
      if store.leases == map[] {
        NoLeases(store.connectionsInUse, store.channelsInUse, store.leases);
      }
    }

    /** Without sessions and calls, what is left is with the jobs. */
    lemma StopLeaves()
      requires Valid() && stopping && testsStopping && NoSessions() && pending == 0
      ensures tasks == map[] && OnlyJobsHold(clients, joining)
      ensures Quiet() <==> forall j :: !Lingers(joining, j)
      ensures joining == map[] ==> Quiet()
    {
      hide Consistent, Counted, SecretsExact, Pinned, Related, Busy, TakenOver, Together, Lingers, OnlyJobsHold;
      assert tasks == map[];
      EmptyTests(tests, joining, {});
      JobsHold(View(), store.leases);
      NoneLinger();
    }
  }

  lemma StopsAre(stops: map<nat, set<nat>>, joining: map<nat, Job>)
    requires TakenOver(stops, joining)
    ensures forall k, j | k in stops && j in stops[k] :: j in joining
  {
  }

  lemma OneMoreStop(stops: map<nat, set<nat>>, joining: map<nat, Job>, tests: map<nat, Job>, k: nat)
    requires TakenOver(stops, joining) && k !in stops && tests.Keys !! joining.Keys
    ensures TakenOver(stops[k := tests.Keys], Together(tests, joining))
  {
    var next := stops[k := tests.Keys];
    forall j | j in Together(tests, joining) ensures exists l | l in next :: j in next[l] {
      if j in tests {
        assert j in next[k];
      } else {
        var l :| l in stops && j in stops[l];
        assert j in next[l];
      }
    }
  }

  lemma StopDone(stops: map<nat, set<nat>>, joining: map<nat, Job>, k: nat)
    requires TakenOver(stops, joining) && k in stops
    ensures TakenOver(stops - {k}, joining - stops[k])
    ensures stops - {k} == map[] ==> joining - stops[k] == map[]
  {
    var rest := stops - {k};
    forall j | j in joining - stops[k] ensures exists l | l in rest :: j in rest[l] {
      var l :| l in stops && j in stops[l];
      assert j in rest[l];
    }
  }

  lemma JobsForgotten(b: Book, leases: map<nat, Lease>, done: set<nat>)
    requires Consistent(b, leases) && forall j | j in done :: j in b.jobs && b.jobs[j].Done?
    ensures Consistent(b.(jobs := b.jobs - done), leases)
  {
    hide SameLease;
    assert forall i | i in b.clients :: Placed(b, i);
  }

  lemma EmptyTests(tests: map<nat, Job>, joining: map<nat, Job>, done: set<nat>)
    requires tests == map[]
    ensures Together(tests, joining) == joining && Together(tests, joining - done) == joining - done
  {
  }

  lemma Swapped(tests: map<nat, Job>, joining: map<nat, Job>)
    ensures Together(map[], Together(tests, joining)) == Together(tests, joining)
  {
  }

  lemma TogetherSet(tests: map<nat, Job>, joining: map<nat, Job>, j: nat, job: Job)
    requires tests.Keys !! joining.Keys
    ensures j in Together(tests, joining) <==> j in tests || j in joining
    ensures j in tests ==> Together(tests, joining)[j] == tests[j]
    ensures j in joining ==> Together(tests, joining)[j] == joining[j]
    ensures j !in joining ==> Together(tests[j := job], joining) == Together(tests, joining)[j := job]
    ensures j in joining ==> Together(tests, joining[j := job]) == Together(tests, joining)[j := job]
  {
  }

  lemma NoneLinger()
    ensures forall j :: !Lingers(map[], j)
  {
  }

  /** Every client is in a job that still holds its lease. */
  ghost predicate OnlyJobsHold(clients: map<nat, Client>, jobs: map<nat, Job>) {
    forall id | id in clients :: exists j | Lingers(jobs, j) :: clients[id].holder == InJob(j) && jobs[j].id == Some(id)
  }

  /** With no session, call or starter, leases are held by running jobs alone, and there is none exactly if no job lingers. */
  lemma JobsHold(b: Book, leases: map<nat, Lease>)
    requires Consistent(b, leases) && b.tasks == map[] && b.starter == Idle
    requires forall i | i in b.clients :: b.clients[i].holder != InSession
    ensures OnlyJobsHold(b.clients, b.jobs)
    ensures b.clients == map[] <==> leases == map[]
    ensures leases == map[] <==> forall j :: !Lingers(b.jobs, j)
  {
    hide SameLease;
    forall id | id in b.clients
      ensures exists j | Lingers(b.jobs, j) :: b.clients[id].holder == InJob(j) && b.jobs[j].id == Some(id)
    {
      assert Placed(b, id);
      var j := b.clients[id].holder.job;
      assert Lingers(b.jobs, j);
    }
    assert b.clients.Keys == leases.Keys;
    if j :| Lingers(b.jobs, j) {
      assert Owns(b, b.jobs[j].id.value, InJob(j));
    }
    if id :| id in b.clients {
      var j :| Lingers(b.jobs, j) && b.clients[id].holder == InJob(j) && b.jobs[j].id == Some(id);
    }
  }

  /** A connection with a live lease is in use. */
  lemma LeasedInUse(store: Store, name: string)
    requires store.Valid()
    ensures InUse(store.connectionsInUse, name) == 0 ==> forall i | i in store.leases :: store.leases[i].connection != name
  {
    hide SecretsExact, Pinned, Related;
    if InUse(store.connectionsInUse, name) == 0 {
      assert OfConnection(store.leases, name) == {};
      forall i | i in store.leases ensures store.leases[i].connection != name {
        assert i in OfConnection(store.leases, store.leases[i].connection);
      }
    }
  }

  /** A channel with a live lease is in use. */
  lemma LeasedChannelInUse(store: Store, name: string)
    requires store.Valid()
    ensures InUse(store.channelsInUse, name) == 0 ==>
              forall i | i in store.leases && store.leases[i].channelRevision != 0 :: store.leases[i].channel != name
  {
    hide SecretsExact, Pinned, Related;
    if InUse(store.channelsInUse, name) == 0 {
      assert OfChannel(store.leases, name) == {};
      forall i | i in store.leases && store.leases[i].channelRevision != 0 ensures store.leases[i].channel != name {
        assert i in OfChannel(store.leases, store.leases[i].channel);
      }
    }
  }

  /** A plugin with one verification job of a stored connection. */
  method OneJob(store: Store, name: string) returns (plugin: Plugin)
    requires store.Valid() && store.leases == map[] && name in store.tables.connections
    modifies store
    ensures fresh(plugin) && plugin.store == store && plugin.Valid() && 0 in store.leases
    ensures plugin.clients.Keys == {0} && plugin.clients[0].holder == InJob(0) && plugin.starter == Idle
    ensures plugin.tests == map[0 := Running(Some(0))] && plugin.stops == map[] && plugin.pending == 0
  {
    hide Consistent, Counted, SecretsExact, Pinned, Related, Busy, TakenOver, Store.Valid, Plugin.Valid, Plugin.View, Plugin.Quiet;
    plugin := new Plugin(store);
    BusyNone();
    var entered := plugin.TestEnter();
    plugin.TestAcquire(StoredConnection(name), true, 0);
    plugin.TestLaunch(0);
  }

  /**
   * Two calls of `Stop` at once: the second finds no job to take over, so it
   * returns while a job that the first one waits for still holds a lease.
   */
  method SecondStopReturns(store: Store, name: string) returns (plugin: Plugin, returned: bool)
    requires store.Valid() && store.leases == map[] && name in store.tables.connections
    modifies store
    ensures fresh(plugin) && plugin.Valid() && returned && !plugin.Quiet() && store.leases != map[]
  {
    hide Consistent, Counted, SecretsExact, Pinned, Related, Busy, TakenOver, Store.Valid, Plugin.Valid, Plugin.View;
    plugin := OneJob(store, name);
    plugin.StopBegin();
    plugin.StopTests(1);
    plugin.StopTests(2);
    returned := plugin.StopReturns(2);
  }

  // ---- What the steps keep ----

  /** A call, job or starter that holds nothing moves on. */
  lemma TaskMoved(b: Book, leases: map<nat, Lease>, t: nat, next: Task)
    requires Consistent(b, leases) && next in {Entered, Leaving} && (t in b.tasks ==> b.tasks[t] == Entered)
    ensures Consistent(b.(tasks := b.tasks[t := next]), leases)
  {
    hide SameLease;
    assert forall i | i in b.clients :: Placed(b, i);
  }

  lemma TaskAbandons(b: Book, leases: map<nat, Lease>, t: nat)
    requires Consistent(b, leases) && t in b.tasks && b.tasks[t].Holding?
    ensures Consistent(b.(tasks := b.tasks[t := Abandoning(b.tasks[t].id)]), leases)
  {
    hide SameLease;
    assert forall i | i in b.clients :: Placed(b, i);
  }

  lemma TaskPublishes(b: Book, leases: map<nat, Lease>, t: nat)
    requires Consistent(b, leases) && t in b.tasks && b.tasks[t].Holding?
    ensures var id := b.tasks[t].id;
            && id in b.clients
            && Consistent(b.(tasks := b.tasks[t := Leaving], clients := b.clients[id := b.clients[id].(holder := InSession)]), leases)
  {
    hide SameLease;
    assert forall i | i in b.clients :: Placed(b, i);
    assert Owns(b, b.tasks[t].id, InTask(t));
  }

  lemma TaskReleases(b: Book, leases: map<nat, Lease>, t: nat)
    requires Consistent(b, leases) && t in b.tasks && b.tasks[t].Abandoning?
    ensures var id := b.tasks[t].id;
            && id in b.clients && id in leases && SameLease(leases[id], b.clients[id].snapshot)
            && Consistent(b.(tasks := b.tasks[t := Leaving], clients := b.clients - {id}), leases - {id})
  {
    hide SameLease;
    assert forall i | i in b.clients :: Placed(b, i);
    assert Owns(b, b.tasks[t].id, InTask(t));
  }

  lemma TaskLeaves(b: Book, leases: map<nat, Lease>, t: nat)
    requires Consistent(b, leases) && t in b.tasks && b.tasks[t].Leaving?
    ensures Consistent(b.(tasks := b.tasks - {t}), leases)
  {
    hide SameLease;
    assert forall i | i in b.clients :: Placed(b, i);
  }

  lemma SessionLeaves(b: Book, leases: map<nat, Lease>, t: nat, id: nat)
    requires Consistent(b, leases) && t !in b.tasks && id in b.clients && b.clients[id].holder == InSession
    ensures Consistent(b.(tasks := b.tasks[t := Abandoning(id)], clients := b.clients[id := b.clients[id].(holder := InTask(t))]), leases)
  {
    hide SameLease;
    assert forall i | i in b.clients :: Placed(b, i);
  }

  /** A new lease, held by the call that took it. */
  lemma TaskAcquires(b: Book, leases: map<nat, Lease>, id: nat, lease: Lease, t: nat)
    requires Consistent(b, leases) && id !in leases && t in b.tasks && b.tasks[t] == Entered
    ensures Consistent(b.(tasks := b.tasks[t := Holding(id)], clients := b.clients[id := Client(InTask(t), lease)]), leases[id := lease])
  {
    SnapshotOf(lease, lease);
    hide SameLease;
    assert forall i | i in b.clients :: Placed(b, i);
  }

  /** A new lease, held by the call inside `StartTest`. */
  lemma StarterAcquires(b: Book, leases: map<nat, Lease>, id: nat, lease: Lease, snapshot: Lease)
    requires Consistent(b, leases) && id !in leases && b.starter == Starting(None)
    requires snapshot == lease || (lease.channelRevision == 0 && snapshot == lease.(channel := snapshot.channel))
    ensures Consistent(b.(starter := Starting(Some(id)), clients := b.clients[id := Client(InStarter, snapshot)]), leases[id := lease])
  {
    SnapshotOf(lease, snapshot);
    hide SameLease;
    assert forall i | i in b.clients :: Placed(b, i);
  }

  lemma SnapshotOf(lease: Lease, snapshot: Lease)
    requires snapshot == lease || (lease.channelRevision == 0 && snapshot == lease.(channel := snapshot.channel))
    ensures SameLease(lease, snapshot)
  {
  }

  lemma StarterMoved(b: Book, leases: map<nat, Lease>, next: Starter)
    requires Consistent(b, leases) && b.starter in {Idle, Starting(None)} && next in {Idle, Starting(None)}
    ensures Consistent(b.(starter := next), leases)
  {
    hide SameLease;
    assert forall i | i in b.clients :: Placed(b, i);
  }

  lemma StarterLaunches(b: Book, leases: map<nat, Lease>, j: nat)
    requires Consistent(b, leases) && b.starter.Starting? && j !in b.jobs
    ensures b.starter.id.Some? ==> b.starter.id.value in b.clients
    ensures Consistent(b.(starter := Idle, jobs := b.jobs[j := Running(b.starter.id)], clients :=
      if b.starter.id.Some? then b.clients[b.starter.id.value := b.clients[b.starter.id.value].(holder := InJob(j))] else b.clients), leases)
  {
    hide SameLease;
    assert forall i | i in b.clients :: Placed(b, i);
  }

  lemma StarterReleases(b: Book, leases: map<nat, Lease>)
    requires Consistent(b, leases) && b.starter.Starting? && b.starter.id.Some?
    ensures var id := b.starter.id.value;
            && id in b.clients && id in leases && SameLease(leases[id], b.clients[id].snapshot)
            && Consistent(b.(starter := Idle, clients := b.clients - {id}), leases - {id})
  {
    hide SameLease;
    assert forall i | i in b.clients :: Placed(b, i);
  }

  lemma JobReleases(b: Book, leases: map<nat, Lease>, j: nat)
    requires Consistent(b, leases) && j in b.jobs && b.jobs[j].Running? && b.jobs[j].id.Some?
    ensures var id := b.jobs[j].id.value;
            && id in b.clients && id in leases && SameLease(leases[id], b.clients[id].snapshot)
            && Consistent(b.(jobs := b.jobs[j := Released], clients := b.clients - {id}), leases - {id})
  {
    hide SameLease;
    assert forall i | i in b.clients :: Placed(b, i);
    assert Owns(b, b.jobs[j].id.value, InJob(j));
  }

  lemma JobMoved(b: Book, leases: map<nat, Lease>, j: nat, next: Job)
    requires Consistent(b, leases) && j in b.jobs && b.jobs[j] in {Running(None), Released} && next in {Released, Done}
    ensures Consistent(b.(jobs := b.jobs[j := next]), leases)
  {
    hide SameLease;
    assert forall i | i in b.clients :: Placed(b, i);
  }

  lemma JobForgotten(b: Book, leases: map<nat, Lease>, j: nat)
    requires Consistent(b, leases) && j in b.jobs && b.jobs[j].Done?
    ensures Consistent(b.(jobs := b.jobs - {j}), leases)
  {
    hide SameLease;
    assert forall i | i in b.clients :: Placed(b, i);
  }

  lemma NoLeases(connections: map<string, nat>, channels: map<string, nat>, leases: map<nat, Lease>)
    requires Counted(connections, channels, leases) && leases == map[]
    ensures forall n :: InUse(connections, n) == 0
    ensures forall n :: InUse(channels, n) == 0
  {
    assert forall n :: OfConnection(leases, n) == {};
    assert forall n :: OfChannel(leases, n) == {};
  }

  lemma BusyNone()
    ensures Busy(map[]) == {}
  {
  }

  lemma WithoutOne(a: map<nat, Job>, b: map<nat, Job>, j: nat)
    requires j in a && a.Keys !! b.Keys
    ensures Together(a - {j}, b) == Together(a, b) - {j} && (a - {j}).Keys !! b.Keys
  {
  }

  lemma BusyForgets(jobs: map<nat, Job>, j: nat)
    requires j in jobs && jobs[j].Done?
    ensures Busy(jobs - {j}) == Busy(jobs)
  {
  }

  lemma BusyAdded(jobs: map<nat, Job>, j: nat, job: Job)
    requires j !in jobs && !job.Done?
    ensures |Busy(jobs[j := job])| == |Busy(jobs)| + 1
  {
    assert Busy(jobs[j := job]) == Busy(jobs) + {j};
  }

  lemma BusyNoMore(jobs: map<nat, Job>, j: nat, job: Job)
    requires j in jobs ==> !jobs[j].Done?
    ensures j in jobs ==> |Busy(jobs[j := job])| <= |Busy(jobs)|
  {
    if j in jobs {
      var (now, before) := (Busy(jobs[j := job]), Busy(jobs));
      assert j in before;
      if job.Done? {
        assert now == before - {j};
      } else {
        assert now == before;
      }
    }
  }
}
