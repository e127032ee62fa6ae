/** The registry of archive jobs and, below it, the guard of the archive bodies: two layers that
    keep concurrent runs off each other's objects. */
module JobRegistry {
  import opened ArchiveKeys
  import opened Basics
  import opened JobLog

  const CAPACITY := 8

  /** What `connect` looks at in a registered job. */
  datatype Entry = Entry(id: string, provider: string, keys: set<Item>, finished: bool)

  datatype Refusal = UnknownJob | OtherReport | Overlapping

  datatype Decision = Attach(index: nat) | Refuse(reason: Refusal) | Spawn

  /** The first entry that satisfies a test, or the length of the registry. */
  function First(registry: seq<Entry>, test: Entry -> bool): (i: nat)
    ensures i <= |registry|
    ensures i < |registry| ==> test(registry[i])
    ensures forall j :: 0 <= j < i ==> !test(registry[j])
  {
    if registry == [] || test(registry[0]) then 0 else 1 + First(registry[1..], test)
  }

  /** A running job of the same provider that already covers the requested keys. */
  predicate Covers(e: Entry, provider: string, keys: set<Item>) {
    !e.finished && e.provider == provider && keys <= e.keys
  }

  predicate Collides(e: Entry, keys: set<Item>) {
    !e.finished && keys * e.keys != {}
  }

  function WithId(id: string): Entry -> bool {
    (e: Entry) => e.id == id
  }

  function Covering(provider: string, keys: set<Item>): Entry -> bool {
    (e: Entry) => Covers(e, provider, keys)
  }

  function Colliding(keys: set<Item>): Entry -> bool {
    (e: Entry) => Collides(e, keys)
  }

  function Decide(registry: seq<Entry>, provider: string, keys: set<Item>, jobId: Option<string>): Decision {
    if jobId.Some? && jobId.value != "" then
      var i := First(registry, WithId(jobId.value));
      if i == |registry| then Refuse(UnknownJob)
      else if registry[i].provider != provider || !(keys <= registry[i].keys) then Refuse(OtherReport)
      else Attach(i)
    else
      var i := First(registry, Covering(provider, keys));
      if i < |registry| then Attach(i)
      else if First(registry, Colliding(keys)) < |registry| then Refuse(Overlapping)
      else Spawn
  }

  // What a request may expect, entry by entry.

  function Keys(items: seq<Item>): set<Item> {
    set item | item in items
  }

  /** The request names a job. */
  predicate Asks(jobId: Option<string>) {
    jobId.Some? && jobId.value != ""
  }

  /** Entry `i` is the one with the requested id. */
  ghost predicate Named(registry: seq<Entry>, id: string, i: int) {
    0 <= i < |registry| && registry[i].id == id && forall j :: 0 <= j < i ==> registry[j].id != id
  }

  /** Entry `i` holds a report of the provider with all the requested keys. */
  predicate Suits(registry: seq<Entry>, provider: string, keys: set<Item>, i: int) {
    0 <= i < |registry| && registry[i].provider == provider && forall item | item in keys :: item in registry[i].keys
  }

  /** Entry `i` is the job the request is to be attached to: the one it names, if that suits, or, when
      it names none, the first running one that suits. */
  ghost predicate Serves(registry: seq<Entry>, provider: string, keys: set<Item>, jobId: Option<string>, i: int) {
    && Suits(registry, provider, keys, i)
    && if Asks(jobId) then
         Named(registry, jobId.value, i)
       else
         !registry[i].finished && forall j :: 0 <= j < i ==> registry[j].finished || !Suits(registry, provider, keys, j)
  }

  /** A running job has one of the requested keys. */
  ghost predicate Busy(registry: seq<Entry>, keys: set<Item>) {
    exists i, item :: 0 <= i < |registry| && !registry[i].finished && item in registry[i].keys && item in keys
  }

  /** The decision, by what the entries are. */
  ghost predicate DecidedRight(registry: seq<Entry>, provider: string, keys: set<Item>, jobId: Option<string>, d: Decision) {
    && (forall i: nat :: d == Attach(i) <==> Serves(registry, provider, keys, jobId, i))
    && (d == Refuse(UnknownJob) <==> Asks(jobId) && forall i :: 0 <= i < |registry| ==> registry[i].id != jobId.value)
    && (d == Refuse(OtherReport)
        <==> Asks(jobId) && exists i :: Named(registry, jobId.value, i) && !Suits(registry, provider, keys, i))
    && (d == Refuse(Overlapping)
        <==> !Asks(jobId) && !(exists i :: Serves(registry, provider, keys, jobId, i)) && Busy(registry, keys))
    && (d == Spawn
        <==> !Asks(jobId) && !(exists i :: Serves(registry, provider, keys, jobId, i)) && !Busy(registry, keys))
  }

  lemma DecideNamed(registry: seq<Entry>, provider: string, keys: set<Item>, jobId: Option<string>)
    requires Asks(jobId)
    ensures DecidedRight(registry, provider, keys, jobId, Decide(registry, provider, keys, jobId))
  {
    var n := First(registry, WithId(jobId.value));
    assert forall i :: Named(registry, jobId.value, i) <==> n < |registry| && i == n by {
      assert forall j :: 0 <= j < n ==> !WithId(jobId.value)(registry[j]);
    }
    if n < |registry| {
      assert Suits(registry, provider, keys, n) <==> registry[n].provider == provider && keys <= registry[n].keys;
    }
  }

  lemma DecideUnnamed(registry: seq<Entry>, provider: string, keys: set<Item>, jobId: Option<string>)
    requires !Asks(jobId)
    ensures DecidedRight(registry, provider, keys, jobId, Decide(registry, provider, keys, jobId))
  {
    var n := First(registry, Covering(provider, keys));
    forall i | 0 <= i < |registry|
      ensures Covering(provider, keys)(registry[i]) <==> !registry[i].finished && Suits(registry, provider, keys, i)
    {
    }
    forall i
      ensures Serves(registry, provider, keys, jobId, i) <==> n < |registry| && i == n
    {
      assert forall j :: 0 <= j < n ==> !Covering(provider, keys)(registry[j]);
      if n < |registry| {
        assert Covering(provider, keys)(registry[n]);
      }
      if Serves(registry, provider, keys, jobId, i) {
        assert Covering(provider, keys)(registry[i]);
      }
    }
    BusyWhen(registry, keys);
  }

  lemma BusyWhen(registry: seq<Entry>, keys: set<Item>)
    ensures Busy(registry, keys) <==> First(registry, Colliding(keys)) < |registry|
  {
    var m := First(registry, Colliding(keys));
    if m < |registry| {
      assert Colliding(keys)(registry[m]);
      var item :| item in keys * registry[m].keys;
      assert item in registry[m].keys && item in keys;
    }
    if Busy(registry, keys) {
      var i, item :| 0 <= i < |registry| && !registry[i].finished && item in registry[i].keys && item in keys;
      assert item in keys * registry[i].keys;
      assert Colliding(keys)(registry[i]);
    }
  }

  /** What `Decide` decides. */
  lemma DecideMeans(registry: seq<Entry>, provider: string, keys: set<Item>, jobId: Option<string>)
    ensures DecidedRight(registry, provider, keys, jobId, Decide(registry, provider, keys, jobId))
  {
    if Asks(jobId) {
      DecideNamed(registry, provider, keys, jobId);
    } else {
      DecideUnnamed(registry, provider, keys, jobId);
    }
  }

  /** A full registry forgets its oldest entry to make room. */
  function Registered(registry: seq<Entry>, e: Entry): seq<Entry> {
    (if |registry| >= CAPACITY then registry[1..] else registry) + [e]
  }

  /** The answer to a request, by what the registered jobs are. */
  ghost predicate Answered(reg: seq<Entry>, provider: string, keys: set<Item>, jobId: Option<string>,
                           known: seq<Job>, r: Result<Job, Refusal>)
    requires |known| == |reg|
  {
    && (forall i :: Serves(reg, provider, keys, jobId, i) ==> r == Ok(known[i]))
    && (r == Err(UnknownJob) <==> Asks(jobId) && forall i :: 0 <= i < |reg| ==> reg[i].id != jobId.value)
    && (r == Err(OtherReport) <==> Asks(jobId) && exists i :: Named(reg, jobId.value, i) && !Suits(reg, provider, keys, i))
    && (r == Err(Overlapping)
        <==> !Asks(jobId) && !(exists i :: Serves(reg, provider, keys, jobId, i)) && Busy(reg, keys))
    && (r.Ok? && r.value !in known
        <==> !Asks(jobId) && !(exists i :: Serves(reg, provider, keys, jobId, i)) && !Busy(reg, keys))
  }

  lemma AnsweredAsDecided(reg: seq<Entry>, provider: string, keys: set<Item>, jobId: Option<string>, d: Decision,
                          known: seq<Job>, r: Result<Job, Refusal>)
    requires DecidedRight(reg, provider, keys, jobId, d) && |known| == |reg|
    requires match d
             case Attach(i) => i < |known| && r == Ok(known[i])
             case Refuse(reason) => r == Err(reason)
             case Spawn => r.Ok? && r.value !in known
    ensures Answered(reg, provider, keys, jobId, known, r)
  {
    forall i | Serves(reg, provider, keys, jobId, i)
      ensures d == Attach(i)
    {
      var n: nat := i;
    }
    if d.Attach? {
      assert Serves(reg, provider, keys, jobId, d.index);
    }
  }

  class ArchiveJobs {
    var jobs: seq<Job>   // in order of registration

    constructor ()
      ensures jobs == []
    {
      jobs := [];
    }

    function View(): (r: seq<Entry>)
      reads this, jobs
      ensures |r| == |jobs|
      ensures forall i :: 0 <= i < |r| ==> r[i] == Entry(jobs[i].id, jobs[i].provider, jobs[i].keys, jobs[i].finished)
    {
      seq(|jobs|, i requires 0 <= i < |jobs| reads this, jobs =>
          Entry(jobs[i].id, jobs[i].provider, jobs[i].keys, jobs[i].finished))
    }

    /** Attaches to a job, refuses, or registers a new one; `freshId` is the new random id.  Only a job
        that holds all requested keys for the provider is ever returned. */
    method Connect(provider: string, items: seq<Item>, jobId: Option<string>, freshId: string) returns (r: Result<Job, Refusal>)
      modifies this
      ensures var keys := Keys(items);
              match Decide(old(View()), provider, keys, jobId)
              case Attach(i) => r == Ok(old(jobs)[i]) && jobs == old(jobs)
              case Refuse(reason) => r == Err(reason) && jobs == old(jobs)
              case Spawn =>
                && r.Ok? && fresh(r.value) && r.value.Valid()
                && jobs == (if |old(jobs)| >= CAPACITY then old(jobs)[1..] else old(jobs)) + [r.value]
                && View() == Registered(old(View()), Entry(freshId, provider, keys, false))
      ensures r.Ok? ==> r.value.provider == provider && forall item | item in items :: item in r.value.keys
      ensures Answered(old(View()), provider, Keys(items), jobId, old(jobs), r)
    {
      var keys := Keys(items);
      var d := Choose(provider, keys, jobId);
      ghost var reg, known := View(), jobs;
      DecideMeans(reg, provider, keys, jobId);
      match d {
        case Attach(i) =>
          assert Serves(reg, provider, keys, jobId, i);
          r := Ok(jobs[i]);
        case Refuse(reason) => r := Err(reason);
        case Spawn =>
          var job := Register(provider, keys, freshId);
          r := Ok(job);
      }
      AnsweredAsDecided(reg, provider, keys, jobId, d, known, r);
    }

    /** Looks the registry through: for the requested job, or else for a running one that covers
        the keys, or else for one that collides. */
    method Choose(provider: string, keys: set<Item>, jobId: Option<string>) returns (d: Decision)
      ensures d == Decide(View(), provider, keys, jobId)
      ensures d.Attach? ==> d.index < |jobs|
    {
      if jobId.Some? && jobId.value != "" {
        var i := FindId(jobId.value);
        if i == |jobs| {
          return Refuse(UnknownJob);
        }
        if jobs[i].provider != provider || !(keys <= jobs[i].keys) {
          return Refuse(OtherReport);
        }
        return Attach(i);
      }
      var i := FindCovering(provider, keys);
      if i < |jobs| {
        return Attach(i);
      }
      var j := FindColliding(keys);
      d := if j < |jobs| then Refuse(Overlapping) else Spawn;
    }

    /** Makes room, then adds a new job at the end. */
    method Register(provider: string, keys: set<Item>, freshId: string) returns (job: Job)
      modifies this
      ensures fresh(job) && job.Valid() && job.provider == provider && job.keys == keys && job.id == freshId
      ensures jobs == (if |old(jobs)| >= CAPACITY then old(jobs)[1..] else old(jobs)) + [job]
      ensures View() == Registered(old(View()), Entry(freshId, provider, keys, false))
    {
      job := new Job(freshId, provider, keys);
      jobs := (if |jobs| >= CAPACITY then jobs[1..] else jobs) + [job];
    }

    method FindId(id: string) returns (i: nat)
      ensures i == First(View(), WithId(id))
    {
      i := 0;
      while i < |jobs| && jobs[i].id != id
        invariant i <= |jobs| && forall j :: 0 <= j < i ==> !WithId(id)(View()[j])
      {
        i := i + 1;
      }
      FirstIs(View(), WithId(id), i);
    }

    method FindCovering(provider: string, keys: set<Item>) returns (i: nat)
      ensures i == First(View(), Covering(provider, keys))
    {
      i := 0;
      while i < |jobs| && !(!jobs[i].finished && jobs[i].provider == provider && keys <= jobs[i].keys)
        invariant i <= |jobs| && forall j :: 0 <= j < i ==> !Covering(provider, keys)(View()[j])
      {
        i := i + 1;
      }
      FirstIs(View(), Covering(provider, keys), i);
    }

    method FindColliding(keys: set<Item>) returns (i: nat)
      ensures i == First(View(), Colliding(keys))
    {
      i := 0;
      while i < |jobs| && !(!jobs[i].finished && keys * jobs[i].keys != {})
        invariant i <= |jobs| && forall j :: 0 <= j < i ==> !Colliding(keys)(View()[j])
      {
        i := i + 1;
      }
      FirstIs(View(), Colliding(keys), i);
    }
  }

  lemma {:induction false} FirstIs(registry: seq<Entry>, test: Entry -> bool, i: nat)
    requires i <= |registry| && (i < |registry| ==> test(registry[i])) && forall j :: 0 <= j < i ==> !test(registry[j])
    ensures First(registry, test) == i
  {
  }

  // ---------------------------------------------------------------- both layers together

  /** How far the thread of a job has come: before the guard, inside it, past it. */
  datatype Stage = Waiting | Inside | Refused | Left

  datatype Thread = Thread(keys: set<Item>, stage: Stage)

  /** Who can be inside the guard: a job's thread, or a request of the blocking delete route. */
  datatype Holder = JobBody(id: string) | DirectCall(call: nat)

  /** `threads` holds every job thread that has not ended, registered or not. */
  datatype Hub = Hub(registry: seq<Entry>, threads: map<string, Thread>, inside: map<Holder, set<Item>>, active: set<Item>)

  datatype Event =
    | Connect(provider: string, keys: set<Item>, jobId: Option<string>, freshId: string)
    | Enter(id: string)
    | Leave(id: string)
    | End(id: string)
    | EnterDirect(call: nat, keys: set<Item>)
    | LeaveDirect(call: nat)

  predicate Enabled(h: Hub, e: Event) {
    match e
    case Connect(_, _, _, freshId) => freshId !in h.threads && forall i :: 0 <= i < |h.registry| ==> h.registry[i].id != freshId
    case Enter(id) => id in h.threads && h.threads[id].stage == Waiting
    case Leave(id) => id in h.threads && h.threads[id].stage == Inside && JobBody(id) in h.inside
    case End(id) => id in h.threads && h.threads[id].stage != Inside
    case EnterDirect(call, keys) => DirectCall(call) !in h.inside && keys !! h.active
    case LeaveDirect(call) => DirectCall(call) in h.inside
  }

  function Retire(registry: seq<Entry>, id: string): (r: seq<Entry>)
    ensures |r| == |registry|
    ensures forall i :: 0 <= i < |r| ==> r[i] == if registry[i].id == id then registry[i].(finished := true) else registry[i]
  {
    seq(|registry|, i requires 0 <= i < |registry| =>
        if registry[i].id == id then registry[i].(finished := true) else registry[i])
  }

  function Do(h: Hub, e: Event): Hub
    requires Enabled(h, e)
  {
    match e
    case Connect(provider, keys, jobId, freshId) =>
      if Decide(h.registry, provider, keys, jobId) == Spawn then
        h.(registry := Registered(h.registry, Entry(freshId, provider, keys, false)),
           threads := h.threads[freshId := Thread(keys, Waiting)])
      else h
    case Enter(id) =>
      var keys := h.threads[id].keys;
      if keys !! h.active then
        h.(threads := h.threads[id := Thread(keys, Inside)], inside := h.inside[JobBody(id) := keys], active := h.active + keys)
      else h.(threads := h.threads[id := Thread(keys, Refused)])
    case Leave(id) =>
      h.(threads := h.threads[id := Thread(h.threads[id].keys, Left)], inside := h.inside - {JobBody(id)},
         active := h.active - h.inside[JobBody(id)])
    case End(id) =>
      h.(registry := Retire(h.registry, id), threads := h.threads - {id})
    case EnterDirect(call, keys) =>
      h.(inside := h.inside[DirectCall(call) := keys], active := h.active + keys)
    case LeaveDirect(call) =>
      h.(inside := h.inside - {DirectCall(call)}, active := h.active - h.inside[DirectCall(call)])
  }

  function Execute(trace: seq<Event>): Option<Hub> {
    if trace == [] then Some(Hub([], map[], map[], {}))
    else
      var before := Execute(trace[..|trace| - 1]);
      var e := trace[|trace| - 1];
      if before.Some? && Enabled(before.value, e) then Some(Do(before.value, e)) else None
  }

  ghost predicate RegistryOk(registry: seq<Entry>, threads: map<string, Thread>) {
    && |registry| <= CAPACITY
    && (forall i, j :: 0 <= i < j < |registry| ==> registry[i].id != registry[j].id)
    && (forall i :: 0 <= i < |registry| && !registry[i].finished ==>
          registry[i].id in threads && threads[registry[i].id].keys == registry[i].keys)
    && (forall i, j :: 0 <= i < j < |registry| && !registry[i].finished && !registry[j].finished ==>
          registry[i].keys !! registry[j].keys)
  }

  ghost predicate GuardOk(inside: map<Holder, set<Item>>, active: set<Item>) {
    && (forall a, b :: a in inside && b in inside && a != b ==> inside[a] !! inside[b])
    && (forall a :: a in inside ==> inside[a] <= active)
    && (forall item :: item in active ==> exists a :: a in inside && item in inside[a])
  }

  ghost predicate HubOk(h: Hub) {
    && RegistryOk(h.registry, h.threads)
    && GuardOk(h.inside, h.active)
    && (forall id :: JobBody(id) in h.inside <==> id in h.threads && h.threads[id].stage == Inside)
    && (forall id :: JobBody(id) in h.inside ==> h.inside[JobBody(id)] == h.threads[id].keys)
  }

  /** Decide spawns only when no registered running job shares a key. */
  lemma SpawnIsApart(registry: seq<Entry>, provider: string, keys: set<Item>, jobId: Option<string>)
    requires Decide(registry, provider, keys, jobId) == Spawn
    ensures forall i :: 0 <= i < |registry| && !registry[i].finished ==> registry[i].keys !! keys
  {
    assert First(registry, Colliding(keys)) == |registry|;
    forall i | 0 <= i < |registry| && !registry[i].finished
      ensures registry[i].keys !! keys
    {
      assert !Collides(registry[i], keys);
      assert forall item :: item in registry[i].keys && item in keys ==> item in keys * registry[i].keys;
    }
  }

  lemma ConnectKeepsHub(h: Hub, e: Event)
    requires HubOk(h) && e.Connect? && Enabled(h, e)
    ensures HubOk(Do(h, e))
  {
    if Decide(h.registry, e.provider, e.keys, e.jobId) == Spawn {
      SpawnIsApart(h.registry, e.provider, e.keys, e.jobId);
    }
  }

  lemma EnterGuard(inside: map<Holder, set<Item>>, active: set<Item>, who: Holder, keys: set<Item>)
    requires GuardOk(inside, active) && who !in inside && keys !! active
    ensures GuardOk(inside[who := keys], active + keys)
  {
    var inside' := inside[who := keys];
    forall item | item in active + keys
      ensures exists a :: a in inside' && item in inside'[a]
    {
      if item in active {
        var a :| a in inside && item in inside[a];
        assert a in inside' && item in inside'[a];
      } else {
        assert who in inside' && item in inside'[who];
      }
    }
  }

  /** A holder that leaves releases exactly its own keys. */
  lemma LeaveGuard(inside: map<Holder, set<Item>>, active: set<Item>, who: Holder)
    requires GuardOk(inside, active) && who in inside
    ensures GuardOk(inside - {who}, active - inside[who])
  {
    var inside' := inside - {who};
    forall item | item in active - inside[who]
      ensures exists a :: a in inside' && item in inside'[a]
    {
      var a :| a in inside && item in inside[a];
      assert a in inside' && item in inside'[a];
    }
    forall a | a in inside'
      ensures inside'[a] <= active - inside[who]
    {
      assert inside[a] !! inside[who];
    }
  }

  lemma StepKeepsHub(h: Hub, e: Event)
    requires HubOk(h) && Enabled(h, e)
    ensures HubOk(Do(h, e))
  {
    match e
    case Connect(_, _, _, _) => ConnectKeepsHub(h, e);
    case Enter(id) =>
      if h.threads[id].keys !! h.active {
        EnterGuard(h.inside, h.active, JobBody(id), h.threads[id].keys);
      }
    case Leave(id) => LeaveGuard(h.inside, h.active, JobBody(id));
    case End(_) =>
    case EnterDirect(call, keys) => EnterGuard(h.inside, h.active, DirectCall(call), keys);
    case LeaveDirect(call) => LeaveGuard(h.inside, h.active, DirectCall(call));
  }

  lemma {:induction false} TraceKeepsHub(trace: seq<Event>)
    requires Execute(trace).Some?
    ensures HubOk(Execute(trace).value)
  {
    if trace != [] {
      TraceKeepsHub(trace[..|trace| - 1]);
      StepKeepsHub(Execute(trace[..|trace| - 1]).value, trace[|trace| - 1]);
    }
  }

  /** Over every sequence of requests, entries and exits: the registry never exceeds its capacity,
      its running jobs share no key, and no two archive bodies run on a shared key, whether or
      not the registry still knows their jobs. */
  lemma BodiesNeverShareKeys(trace: seq<Event>)
    requires Execute(trace).Some?
    ensures var h := Execute(trace).value;
            && |h.registry| <= CAPACITY
            && (forall i, j :: 0 <= i < j < |h.registry| && !h.registry[i].finished && !h.registry[j].finished ==>
                  h.registry[i].keys !! h.registry[j].keys)
            && (forall a, b, item :: a in h.inside && b in h.inside && item in h.inside[a] && item in h.inside[b] ==> a == b)
            && (forall item :: item in h.active <==> exists a :: a in h.inside && item in h.inside[a])
  {
    TraceKeepsHub(trace);
  }

  // ---------------------------------------------------------------- what eviction gives up

  /** The threads of a hub, ended ones aside, share no key. */
  ghost predicate ThreadsApart(h: Hub) {
    forall a, b :: a in h.threads && b in h.threads && a != b ==> h.threads[a].keys !! h.threads[b].keys
  }

  /** The thread's job is registered as running. */
  predicate Known(h: Hub, id: string) {
    exists i :: 0 <= i < |h.registry| && h.registry[i].id == id && !h.registry[i].finished
  }

  /** The registry alone keeps all running threads apart exactly as long as a new job does not
      share a key with one whose registration was evicted while it ran. */
  lemma SpawnKeepsThreadsApart(h: Hub, e: Event)
    requires HubOk(h) && ThreadsApart(h) && e.Connect? && Enabled(h, e)
    requires Decide(h.registry, e.provider, e.keys, e.jobId) == Spawn
    ensures ThreadsApart(Do(h, e)) <==> forall id :: id in h.threads && !Known(h, id) ==> h.threads[id].keys !! e.keys
  {
    SpawnIsApart(h.registry, e.provider, e.keys, e.jobId);
    var h' := Do(h, e);
    if ThreadsApart(h') {
      forall id | id in h.threads && !Known(h, id)
        ensures h.threads[id].keys !! e.keys
      {
        assert h'.threads[id].keys !! h'.threads[e.freshId].keys;
      }
    }
    if forall id :: id in h.threads && !Known(h, id) ==> h.threads[id].keys !! e.keys {
      forall id | id in h.threads
        ensures h.threads[id].keys !! e.keys
      {
        if Known(h, id) {
          var i :| 0 <= i < |h.registry| && h.registry[i].id == id && !h.registry[i].finished;
        }
      }
    }
  }

  /** It does happen: with eight jobs running, one more request evicts the oldest, and a request
      for that one's keys then starts a second thread for them.  The guard below lets only one of
      the two in. */
  lemma EvictionAllowsSecondThread(h: Hub, provider: string, more: set<Item>, id1: string, id2: string) returns (h': Hub)
    requires HubOk(h) && |h.registry| == CAPACITY
    requires forall i :: 0 <= i < CAPACITY ==> !h.registry[i].finished && h.registry[i].keys !! more && h.registry[i].keys != {}
    requires more != {} && id1 != id2
    requires Enabled(h, Connect(provider, more, None, id1)) && Enabled(h, Connect(provider, more, None, id2))
    ensures var oldest := h.registry[0];
            var first := Connect(provider, more, None, id1);
            var second := Connect(provider, oldest.keys, None, id2);
            && Enabled(Do(h, first), second) && h' == Do(Do(h, first), second)
            && oldest.id in h'.threads && id2 in h'.threads && oldest.id != id2
            && h'.threads[oldest.id].keys == h'.threads[id2].keys == oldest.keys
  {
    var oldest := h.registry[0];
    var first := Connect(provider, more, None, id1);
    var second := Connect(provider, oldest.keys, None, id2);
    SpawnWhenApart(h.registry, provider, more);
    var h1 := Do(h, first);
    forall i | 0 <= i < |h1.registry|
      ensures h1.registry[i].keys !! oldest.keys
    {
      if i + 1 < CAPACITY {
        assert h1.registry[i] == h.registry[i + 1];
      }
    }
    SpawnWhenApart(h1.registry, provider, oldest.keys);
    h' := Do(h1, second);
  }

  lemma SpawnWhenApart(registry: seq<Entry>, provider: string, keys: set<Item>)
    requires keys != {} && forall i :: 0 <= i < |registry| ==> registry[i].keys !! keys
    ensures Decide(registry, provider, keys, None) == Spawn
  {
  }

  /** Requests for sets of keys that share nothing, each to be given an id of its own. */
  ghost predicate ManyRequests(keys: seq<set<Item>>, ids: seq<string>) {
    && NoDup(ids)
    && (forall i :: 0 <= i < |keys| ==> keys[i] != {})
    && (forall i, j :: 0 <= i < j < |keys| ==> keys[i] !! keys[j])
  }

  /** The hub holds the first `n` requests, all of them running. */
  ghost predicate Holds(h: Hub, keys: seq<set<Item>>, ids: seq<string>, n: nat) {
    && n <= |keys| && n <= |ids| && |h.registry| == n
    && (forall i :: 0 <= i < n ==> h.registry[i].id == ids[i] && h.registry[i].keys == keys[i] && !h.registry[i].finished)
    && (forall id :: id in h.threads ==> exists i :: 0 <= i < n && ids[i] == id)
  }

  /** Requests for different keys fill the registry. */
  lemma {:induction false} FillRegistry(provider: string, keys: seq<set<Item>>, ids: seq<string>, n: nat) returns (trace: seq<Event>)
    requires ManyRequests(keys, ids) && n <= CAPACITY && n <= |keys| && n <= |ids|
    ensures Execute(trace).Some? && Holds(Execute(trace).value, keys, ids, n)
  {
    if n == 0 {
      trace := [];
    } else {
      var before := FillRegistry(provider, keys, ids, n - 1);
      var e := Connect(provider, keys[n - 1], None, ids[n - 1]);
      FillOne(Execute(before).value, provider, keys, ids, n - 1);
      trace := before + [e];
      assert trace[..|trace| - 1] == before;
    }
  }

  /** One more request. */
  lemma FillOne(h: Hub, provider: string, keys: seq<set<Item>>, ids: seq<string>, n: nat)
    requires ManyRequests(keys, ids) && Holds(h, keys, ids, n) && n < CAPACITY && n < |keys| && n < |ids|
    ensures var e := Connect(provider, keys[n], None, ids[n]); Enabled(h, e) && Holds(Do(h, e), keys, ids, n + 1)
  {
    var e := Connect(provider, keys[n], None, ids[n]);
    SpawnWhenApart(h.registry, provider, keys[n]);
    forall id | id in Do(h, e).threads
      ensures exists i :: 0 <= i < n + 1 && ids[i] == id
    {
      if id == ids[n] {
      } else {
        var i :| 0 <= i < n && ids[i] == id;
      }
    }
  }

  lemma TwoMore(trace: seq<Event>, first: Event, second: Event)
    requires Execute(trace).Some? && Enabled(Execute(trace).value, first)
    requires Enabled(Do(Execute(trace).value, first), second)
    ensures Execute(trace + [first, second]) == Some(Do(Do(Execute(trace).value, first), second))
  {
    assert (trace + [first, second])[..|trace| + 1] == trace + [first];
    assert (trace + [first])[..|trace|] == trace;
  }

  /** The ninth and the tenth id are new to a full hub. */
  lemma FreshIds(h: Hub, provider: string, keys: seq<set<Item>>, ids: seq<string>, k: nat)
    requires ManyRequests(keys, ids) && Holds(h, keys, ids, CAPACITY) && CAPACITY <= k < |ids|
    ensures Enabled(h, Connect(provider, keys[0], None, ids[k]))
  {
    forall id | id in h.threads
      ensures id != ids[k]
    {
      var i :| 0 <= i < CAPACITY && ids[i] == id;
    }
  }

  /** So it is reachable: nine requests for keys that share nothing, then one for the keys of the
      first, leave two threads on these keys. */
  lemma SecondThreadReachable(provider: string, keys: seq<set<Item>>, ids: seq<string>) returns (trace: seq<Event>)
    requires ManyRequests(keys, ids) && |keys| == CAPACITY + 1 && |ids| == CAPACITY + 2
    ensures Execute(trace).Some?
    ensures var h := Execute(trace).value;
            && ids[0] != ids[CAPACITY + 1] && ids[0] in h.threads && ids[CAPACITY + 1] in h.threads
            && h.threads[ids[0]].keys == h.threads[ids[CAPACITY + 1]].keys == keys[0]
  {
    trace := FillRegistry(provider, keys, ids, CAPACITY);
    var h := Execute(trace).value;
    TraceKeepsHub(trace);
    FreshIds(h, provider, keys, ids, CAPACITY);
    FreshIds(h, provider, keys, ids, CAPACITY + 1);
    var h' := EvictionAllowsSecondThread(h, provider, keys[CAPACITY], ids[CAPACITY], ids[CAPACITY + 1]);
    var first := Connect(provider, keys[CAPACITY], None, ids[CAPACITY]);
    var second := Connect(provider, h.registry[0].keys, None, ids[CAPACITY + 1]);
    TwoMore(trace, first, second);
    trace := trace + [first, second];
  }
}
