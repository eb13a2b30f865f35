// The tenant registry with several processes and calls in flight (src/auth/tenants.ts).
// Every `await` on the database is a place where other calls, in this process or another,
// may run. Each process has its own cache and its own clock.
module TenantProtocol {
  import opened Collections
  import opened Tenants

  // `skew` is how far a process clock is off; `lagMs` bounds the time between the database
  // answering a lookup and the caller writing that answer to its cache.
  datatype Setup = Setup(ttlMs: int, lagMs: int, skew: nat -> int)

  datatype Write = PutRow(tenant: Tenant) | PatchRow(patch: Patch)

  datatype Phase =
    | Asked
    | Answered(answer: Option<Tenant>, readAt: int)
    | Writing(write: Write)
    | Wrote
    | Deleting

  datatype Task = Task(process: nat, key: string, phase: Phase)

  datatype World = World(now: int, rows: Rows, caches: map<nat, Cache>, tasks: map<nat, Task>)

  // Abort: the database call of a task fails, even after it took effect.
  datatype Event =
    | Tick(ms: nat)
    | BeginResolve(id: nat, process: nat, key: string)
    | Read(id: nat)
    | Deliver(id: nat)
    | BeginWrite(id: nat, process: nat, key: string, write: Write)
    | ApplyWrite(id: nat)
    | ClearAfterWrite(id: nat)
    | BeginRevoke(id: nat, process: nat, key: string)
    | ApplyDelete(id: nat)
    | Abort(id: nat)
    | Restart(process: nat)

  datatype Output = Quiet | Replied(process: nat, key: string, tenant: Option<Tenant>)

  function CacheOf(s: World, process: nat): Cache {
    if process in s.caches then s.caches[process] else map[]
  }

  function Clock(c: Setup, s: World, process: nat): int {
    s.now + c.skew(process)
  }

  predicate Enabled(c: Setup, s: World, e: Event) {
    match e
    case Tick(_) => true
    case BeginResolve(id, _, _) => id !in s.tasks
    case Read(id) => id in s.tasks && s.tasks[id].phase.Asked?
    case Deliver(id) => id in s.tasks && s.tasks[id].phase.Answered? && s.now <= s.tasks[id].phase.readAt + c.lagMs
    case BeginWrite(id, _, _, _) => id !in s.tasks
    case ApplyWrite(id) => id in s.tasks && s.tasks[id].phase.Writing?
    case ClearAfterWrite(id) => id in s.tasks && s.tasks[id].phase.Wrote?
    case BeginRevoke(id, _, _) => id !in s.tasks
    case ApplyDelete(id) => id in s.tasks && s.tasks[id].phase.Deleting?
    case Abort(id) => id in s.tasks
    case Restart(_) => true
  }

  function SetTask(s: World, id: nat, t: Task): World {
    s.(tasks := s.tasks[id := t])
  }

  function EndTask(s: World, id: nat): World {
    s.(tasks := s.tasks - {id})
  }

  function ClearKey(s: World, process: nat, key: string): World {
    s.(caches := s.caches[process := CacheOf(s, process) - {key}])
  }

  function Step(c: Setup, s: World, e: Event): (World, Output)
    requires Enabled(c, s, e)
  {
    match e
    case Tick(ms) => (s.(now := s.now + ms), Quiet)
    case BeginResolve(id, process, key) =>
      var hit := FreshHit(CacheOf(s, process), key, Clock(c, s, process));
      if hit.Some? then (s, Replied(process, key, Visible(hit)))
      else (SetTask(s, id, Task(process, key, Asked)), Quiet)
    case Read(id) =>
      var t := s.tasks[id];
      (SetTask(s, id, t.(phase := Answered(Stored(s.rows, t.key), s.now))), Quiet)
    case Deliver(id) =>
      var Task(process, key, phase) := s.tasks[id];
      var cache := CacheAnswer(CacheOf(s, process), key, phase.answer, Clock(c, s, process) + c.ttlMs);
      (EndTask(s.(caches := s.caches[process := cache]), id), Replied(process, key, Visible(phase.answer)))
    case BeginWrite(id, process, key, write) => (SetTask(s, id, Task(process, key, Writing(write))), Quiet)
    case ApplyWrite(id) =>
      var t := s.tasks[id];
      (match t.phase.write
       case PutRow(tenant) =>
         SetTask(s.(rows := s.rows[t.key := RowFor(tenant, s.now)]), id, t.(phase := Wrote))
       case PatchRow(patch) =>
         if t.key !in s.rows then EndTask(s, id)
         else SetTask(s.(rows := s.rows[t.key := Patched(s.rows[t.key], patch)]), id, t.(phase := Wrote)),
       Quiet)
    case ClearAfterWrite(id) =>
      (EndTask(ClearKey(s, s.tasks[id].process, s.tasks[id].key), id), Quiet)
    case BeginRevoke(id, process, key) =>
      (SetTask(ClearKey(s, process, key), id, Task(process, key, Deleting)), Quiet)
    case ApplyDelete(id) =>
      (EndTask(s.(rows := s.rows - {s.tasks[id].key}), id), Quiet)
    case Abort(id) => (EndTask(s, id), Quiet)
    case Restart(process) =>
      (s.(caches := s.caches - {process},
          tasks := map id | id in s.tasks && s.tasks[id].process != process :: s.tasks[id]),
       Quiet)
  }

  // states[i] is the state before events[i].
  ghost predicate IsPath(c: Setup, states: seq<World>, events: seq<Event>) {
    && |states| == |events| + 1
    && forall i :: 0 <= i < |events| ==>
         Enabled(c, states[i], events[i]) && states[i + 1] == Step(c, states[i], events[i]).0
  }

  // A path from empty caches with nothing in flight.
  ghost predicate IsRun(c: Setup, states: seq<World>, events: seq<Event>) {
    && IsPath(c, states, events)
    && states[0].caches == map[] && states[0].tasks == map[]
  }

  // At some instant up to i, and not before `since`, the table held `t` for the key, or nothing.
  ghost predicate WasStored(states: seq<World>, i: nat, key: string, t: Option<Tenant>, since: int)
    requires i < |states|
  {
    exists j :: 0 <= j <= i && Stored(states[j].rows, key) == t && states[j].now >= since
  }

  ghost predicate Inv(c: Setup, states: seq<World>, i: nat)
    requires i < |states|
  {
    var s := states[i];
    && (forall p, key :: p in s.caches && key in s.caches[p] ==>
          WasStored(states, i, key, Some(s.caches[p][key].tenant),
                    s.caches[p][key].expiresAt - c.skew(p) - c.ttlMs - c.lagMs))
    && (forall id :: id in s.tasks && s.tasks[id].phase.Answered? ==>
          WasStored(states, i, s.tasks[id].key, s.tasks[id].phase.answer, s.tasks[id].phase.readAt))
  }

  lemma WasStoredLater(states: seq<World>, i: nat, key: string, t: Option<Tenant>, since: int, since': int)
    requires i + 1 < |states| && WasStored(states, i, key, t, since) && since' <= since
    ensures WasStored(states, i + 1, key, t, since')
  {
  }

  // A cache entry after a step was there before, or is the answer being delivered.
  lemma EntryOrigin(c: Setup, s: World, e: Event, p: nat, key: string)
    requires Enabled(c, s, e)
    requires var s' := Step(c, s, e).0; p in s'.caches && key in s'.caches[p]
    ensures var entry := Step(c, s, e).0.caches[p][key];
      || (p in s.caches && key in s.caches[p] && s.caches[p][key] == entry)
      || (&& e.Deliver? && s.tasks[e.id].key == key && s.tasks[e.id].phase.answer == Some(entry.tenant)
          && s.tasks[e.id].process == p && entry.expiresAt == Clock(c, s, p) + c.ttlMs)
  {
  }

  // An answer after a step was there before, or is what the table says now.
  lemma AnswerOrigin(c: Setup, s: World, e: Event, id: nat)
    requires Enabled(c, s, e)
    requires id in Step(c, s, e).0.tasks && Step(c, s, e).0.tasks[id].phase.Answered?
    ensures var t := Step(c, s, e).0.tasks[id];
      || (id in s.tasks && s.tasks[id] == t)
      || (e == Read(id) && t.phase == Answered(Stored(s.rows, t.key), s.now))
  {
  }

  lemma StepKeepsCaches(c: Setup, states: seq<World>, events: seq<Event>, i: nat, p: nat, key: string)
    requires IsRun(c, states, events) && i < |events| && Inv(c, states, i)
    requires p in states[i + 1].caches && key in states[i + 1].caches[p]
    ensures var entry := states[i + 1].caches[p][key];
      WasStored(states, i + 1, key, Some(entry.tenant), entry.expiresAt - c.skew(p) - c.ttlMs - c.lagMs)
  {
    var s, e, entry := states[i], events[i], states[i + 1].caches[p][key];
    var since := entry.expiresAt - c.skew(p) - c.ttlMs - c.lagMs;
    EntryOrigin(c, s, e, p, key);
    if p in s.caches && key in s.caches[p] && s.caches[p][key] == entry {
      WasStoredLater(states, i, key, Some(entry.tenant), since, since);
    } else {
      WasStoredLater(states, i, key, Some(entry.tenant), s.tasks[e.id].phase.readAt, since);
    }
  }

  lemma StepKeepsAnswers(c: Setup, states: seq<World>, events: seq<Event>, i: nat, id: nat)
    requires IsRun(c, states, events) && i < |events| && Inv(c, states, i)
    requires id in states[i + 1].tasks && states[i + 1].tasks[id].phase.Answered?
    ensures var t := states[i + 1].tasks[id];
      WasStored(states, i + 1, t.key, t.phase.answer, t.phase.readAt)
  {
    var s, t := states[i], states[i + 1].tasks[id];
    AnswerOrigin(c, s, events[i], id);
    if id in s.tasks && s.tasks[id] == t {
      WasStoredLater(states, i, t.key, t.phase.answer, t.phase.readAt, t.phase.readAt);
    } else {
      assert Stored(states[i].rows, t.key) == t.phase.answer && states[i].now == t.phase.readAt;
    }
  }

  lemma {:induction false} RunKeepsInv(c: Setup, states: seq<World>, events: seq<Event>, i: nat)
    requires IsRun(c, states, events) && i < |states|
    ensures Inv(c, states, i)
  {
    if i > 0 {
      RunKeepsInv(c, states, events, i - 1);
      forall p, key | p in states[i].caches && key in states[i].caches[p] {
        StepKeepsCaches(c, states, events, i - 1, p, key);
      }
      var tasks := states[i].tasks;
      forall id | id in tasks && tasks[id].phase.Answered? {
        StepKeepsAnswers(c, states, events, i - 1, id);
      }
    }
  }

  // Every answer given, by any process, from its cache or the database, a refusal as much as a
  // tenant, is what the table said at some instant less than TTL + lag ago.
  lemma StalenessBounded(c: Setup, states: seq<World>, events: seq<Event>, i: nat)
    requires c.ttlMs > 0 && c.lagMs >= 0
    requires IsRun(c, states, events) && i < |events|
    ensures var output := Step(c, states[i], events[i]).1;
      output.Replied? ==>
        exists t :: Visible(t) == output.tenant
                    && WasStored(states, i, output.key, t, states[i].now - c.ttlMs - c.lagMs + 1)
    ensures var output := Step(c, states[i], events[i]).1;
      output.Replied? && output.tenant.Some? ==> output.tenant.value.disabled == Some(false)
  {
    RunKeepsInv(c, states, events, i);
    var s, e := states[i], events[i];
    var output, since := Step(c, s, e).1, s.now - c.ttlMs - c.lagMs + 1;
    if output.Replied? {
      if e.BeginResolve? {
        var entry := s.caches[e.process][e.key];
        assert WasStored(states, i, e.key, Some(entry.tenant),
                         entry.expiresAt - c.skew(e.process) - c.ttlMs - c.lagMs);
        assert WasStored(states, i, e.key, Some(entry.tenant), since);
      } else {
        assert WasStored(states, i, s.tasks[e.id].key, s.tasks[e.id].phase.answer, s.tasks[e.id].phase.readAt);
        assert WasStored(states, i, output.key, s.tasks[e.id].phase.answer, since);
      }
    }
  }

  // ---- when a process sees a change ----

  ghost predicate RepliesWith(output: Output, p: nat, key: string, row: Option<Tenant>) {
    output.Replied? && output.process == p && output.key == key ==> output.tenant == row
  }

  function Says(s: World, key: string): Option<Tenant> {
    Visible(Stored(s.rows, key))
  }

  // A path from s whose table, up to event i, says the same about the key.
  ghost predicate KeepsRow(c: Setup, s: World, states: seq<World>, events: seq<Event>, i: nat, key: string) {
    && IsPath(c, states, events) && i < |events| && states[0] == s
    && forall m :: 0 <= m <= i ==> Says(states[m], key) == Says(s, key)
  }

  // From the instant `at` on, for as long as nobody changes what the table of s says about the
  // key, process p answers every lookup of it with that.
  ghost predicate SeesRowFrom(c: Setup, s: World, p: nat, key: string, at: int) {
    forall states: seq<World>, events: seq<Event>, i: nat |
      KeepsRow(c, s, states, events, i, key) && states[i].now >= at ::
      RepliesWith(Step(c, states[i], events[i]).1, p, key, Says(s, key))
  }

  // The same from now on.
  ghost predicate SeesRow(c: Setup, s: World, p: nat, key: string) {
    forall states: seq<World>, events: seq<Event>, i: nat | KeepsRow(c, s, states, events, i, key) ::
      RepliesWith(Step(c, states[i], events[i]).1, p, key, Says(s, key))
  }

  predicate Stale(s: World, key: string, t: Option<Tenant>) {
    Visible(t) != Says(s, key)
  }

  // A cache entry that differs from the table does not outlive the instant `at`.
  predicate CacheSettled(c: Setup, s: World, p: nat, key: string, at: int) {
    var cache := CacheOf(s, p);
    key in cache && Stale(s, key, Some(cache[key].tenant)) ==> cache[key].expiresAt <= at + c.skew(p)
  }

  // A lookup of process p whose answer may still arrive.
  predicate Arriving(c: Setup, s: World, p: nat, key: string, id: nat) {
    && id in s.tasks && s.tasks[id].process == p && s.tasks[id].key == key
    && s.tasks[id].phase.Answered? && s.now <= s.tasks[id].phase.readAt + c.lagMs
  }

  // An answer that differs from the table arrives before the instant `at`, and the cache entry it
  // may leave does not outlive that instant.
  predicate AnswerSettled(c: Setup, s: World, key: string, answer: Option<Tenant>, readAt: int, at: int) {
    Stale(s, key, answer) ==>
      readAt + c.lagMs < at && (answer.Some? ==> readAt + c.lagMs + c.ttlMs <= at)
  }

  predicate AnswersSettled(c: Setup, s: World, p: nat, key: string, at: int) {
    forall id :: id in s.tasks && Arriving(c, s, p, key, id) ==>
      AnswerSettled(c, s, key, s.tasks[id].phase.answer, s.tasks[id].phase.readAt, at)
  }

  predicate SettledBy(c: Setup, s: World, p: nat, key: string, at: int) {
    CacheSettled(c, s, p, key, at) && AnswersSettled(c, s, p, key, at)
  }

  lemma StepKeepsCacheSettled(c: Setup, s: World, e: Event, p: nat, key: string, at: int)
    requires Enabled(c, s, e) && SettledBy(c, s, p, key, at)
    requires Says(Step(c, s, e).0, key) == Says(s, key)
    ensures CacheSettled(c, Step(c, s, e).0, p, key, at)
  {
    var s' := Step(c, s, e).0;
    if key in CacheOf(s', p) { EntryOrigin(c, s, e, p, key); }
  }

  lemma StepKeepsAnswersSettled(c: Setup, s: World, e: Event, p: nat, key: string, at: int)
    requires Enabled(c, s, e) && SettledBy(c, s, p, key, at)
    requires Says(Step(c, s, e).0, key) == Says(s, key)
    ensures AnswersSettled(c, Step(c, s, e).0, p, key, at)
  {
    var s' := Step(c, s, e).0;
    forall id | id in s'.tasks && Arriving(c, s', p, key, id)
      ensures AnswerSettled(c, s', key, s'.tasks[id].phase.answer, s'.tasks[id].phase.readAt, at)
    {
      AnswerOrigin(c, s, e, id);
      if id in s.tasks && s.tasks[id] == s'.tasks[id] {
        assert Arriving(c, s, p, key, id);
      }
    }
  }

  lemma {:induction false} StaysSettled(c: Setup, s: World, states: seq<World>, events: seq<Event>, i: nat,
                                        p: nat, key: string, at: int)
    requires KeepsRow(c, s, states, events, i, key) && SettledBy(c, s, p, key, at)
    ensures SettledBy(c, states[i], p, key, at)
  {
    if i > 0 {
      StaysSettled(c, s, states, events, i - 1, p, key, at);
      assert states[i] == Step(c, states[i - 1], events[i - 1]).0;
      StepKeepsCacheSettled(c, states[i - 1], events[i - 1], p, key, at);
      StepKeepsAnswersSettled(c, states[i - 1], events[i - 1], p, key, at);
    }
  }

  lemma ReplySettled(c: Setup, s: World, e: Event, p: nat, key: string, at: int)
    requires Enabled(c, s, e) && SettledBy(c, s, p, key, at) && s.now >= at
    ensures RepliesWith(Step(c, s, e).1, p, key, Says(s, key))
  {
  }

  lemma {:induction false} FreshId(ids: set<nat>) returns (id: nat)
    ensures forall x :: x in ids ==> x < id
  {
    if ids == {} {
      id := 0;
    } else {
      var x :| x in ids;
      id := FreshId(ids - {x});
      assert forall y :: y in ids ==> y == x || y in ids - {x};
      if id <= x { id := x + 1; }
    }
  }

  lemma SeesRowNow(c: Setup, s: World, e: Event, p: nat, key: string, at: int)
    requires SeesRowFrom(c, s, p, key, at) && Enabled(c, s, e) && s.now >= at
    ensures RepliesWith(Step(c, s, e).1, p, key, Says(s, key))
  {
    assert KeepsRow(c, s, [s, Step(c, s, e).0], [e], 0, key);
  }

  lemma SeesRowNext(c: Setup, s: World, e: Event, p: nat, key: string, at: int)
    requires SeesRowFrom(c, s, p, key, at) && Enabled(c, s, e)
    requires Says(Step(c, s, e).0, key) == Says(s, key)
    ensures SeesRowFrom(c, Step(c, s, e).0, p, key, at)
  {
    var s' := Step(c, s, e).0;
    forall states: seq<World>, events: seq<Event>, i: nat |
      KeepsRow(c, s', states, events, i, key) && states[i].now >= at
      ensures RepliesWith(Step(c, states[i], events[i]).1, p, key, Says(s', key))
    {
      var longer, es := [s] + states, [e] + events;
      assert KeepsRow(c, s, longer, es, i + 1, key);
      assert longer[i + 1] == states[i] && es[i + 1] == events[i];
    }
  }

  // A stale entry that outlives `at` is served at that instant.
  lemma EntryServed(c: Setup, s: World, p: nat, key: string, at: int)
    requires SeesRowFrom(c, s, p, key, at) && at >= s.now
    ensures CacheSettled(c, s, p, key, at)
  {
    var later := Step(c, s, Tick(at - s.now)).0;
    SeesRowNext(c, s, Tick(at - s.now), p, key, at);
    var id := FreshId(later.tasks.Keys);
    SeesRowNow(c, later, BeginResolve(id, p, key), p, key, at);
  }

  // A stale answer can arrive as late as the lag allows, and then be served from the cache.
  lemma AnswerServed(c: Setup, s: World, p: nat, key: string, at: int, id: nat)
    requires SeesRowFrom(c, s, p, key, at) && at >= s.now && Arriving(c, s, p, key, id)
    ensures AnswerSettled(c, s, key, s.tasks[id].phase.answer, s.tasks[id].phase.readAt, at)
  {
    var last := s.tasks[id].phase.readAt + c.lagMs;
    var tick := Tick(if last < at then last - s.now else at - s.now);
    var later := Step(c, s, tick).0;
    SeesRowNext(c, s, tick, p, key, at);
    if last >= at {
      SeesRowNow(c, later, Deliver(id), p, key, at);
    } else {
      SeesRowNext(c, later, Deliver(id), p, key, at);
      EntryServed(c, Step(c, later, Deliver(id)).0, p, key, at);
    }
  }

  // A process answers as the table says from a given instant on exactly if no entry of its cache,
  // and no answer still to arrive, differs from the table and can be served at that instant.
  lemma SettledIff(c: Setup, s: World, p: nat, key: string, at: int)
    requires at >= s.now
    ensures SeesRowFrom(c, s, p, key, at) <==> SettledBy(c, s, p, key, at)
  {
    if SettledBy(c, s, p, key, at) {
      forall states: seq<World>, events: seq<Event>, i: nat |
        KeepsRow(c, s, states, events, i, key) && states[i].now >= at
        ensures RepliesWith(Step(c, states[i], events[i]).1, p, key, Says(s, key))
      {
        StaysSettled(c, s, states, events, i, p, key, at);
        ReplySettled(c, states[i], events[i], p, key, at);
      }
    }
    if SeesRowFrom(c, s, p, key, at) {
      EntryServed(c, s, p, key, at);
      forall id | id in s.tasks && Arriving(c, s, p, key, id)
        ensures AnswerSettled(c, s, key, s.tasks[id].phase.answer, s.tasks[id].phase.readAt, at)
      {
        AnswerServed(c, s, p, key, at, id);
      }
    }
  }

  // ---- at once ----

  predicate CacheCurrent(c: Setup, s: World, p: nat, key: string) {
    var hit := FreshHit(CacheOf(s, p), key, Clock(c, s, p));
    hit.Some? ==> !Stale(s, key, hit)
  }

  predicate AnswersCurrent(c: Setup, s: World, p: nat, key: string) {
    forall id :: id in s.tasks && Arriving(c, s, p, key, id) ==> !Stale(s, key, s.tasks[id].phase.answer)
  }

  // Neither the cache nor an answer under way differs from the table.
  predicate UpToDate(c: Setup, s: World, p: nat, key: string) {
    CacheCurrent(c, s, p, key) && AnswersCurrent(c, s, p, key)
  }

  lemma SettledNow(c: Setup, s: World, p: nat, key: string, at: int)
    requires at <= s.now
    ensures SettledBy(c, s, p, key, at) ==> UpToDate(c, s, p, key)
    ensures UpToDate(c, s, p, key) ==> SettledBy(c, s, p, key, s.now)
  {
    if SettledBy(c, s, p, key, at) {
      forall id | id in s.tasks && Arriving(c, s, p, key, id) ensures !Stale(s, key, s.tasks[id].phase.answer) {
        assert AnswerSettled(c, s, key, s.tasks[id].phase.answer, s.tasks[id].phase.readAt, at);
      }
    }
  }

  lemma {:induction false} TimeNeverRunsBack(c: Setup, states: seq<World>, events: seq<Event>, i: nat)
    requires IsPath(c, states, events) && i < |states|
    ensures states[0].now <= states[i].now
  {
    if i > 0 { TimeNeverRunsBack(c, states, events, i - 1); }
  }

  // A process sees the table at once exactly if neither its cache nor an answer under way differs
  // from it now.
  lemma SeesRowIff(c: Setup, s: World, p: nat, key: string)
    ensures SeesRow(c, s, p, key) <==> UpToDate(c, s, p, key)
  {
    SettledIff(c, s, p, key, s.now);
    SettledNow(c, s, p, key, s.now);
    forall states: seq<World>, events: seq<Event>, i: nat | KeepsRow(c, s, states, events, i, key)
      ensures states[i].now >= s.now
    {
      TimeNeverRunsBack(c, states, events, i);
    }
  }

  lemma OtherTasksArrive(c: Setup, s: World, s': World, p: nat, key: string, id: nat)
    requires id in s.tasks && !s.tasks[id].phase.Answered? && s'.tasks == s.tasks - {id} && s'.now == s.now
    ensures forall k :: Arriving(c, s', p, key, k) <==> Arriving(c, s, p, key, k)
  {
  }

  // An upsert or a patch clears the cache last. Its process sees the change at once exactly if no
  // lookup answered before the write is still to arrive with another row; if the call fails after
  // it took effect, nothing is cleared, and the cache must not hold another row either.
  lemma OwnWriteSeenIff(c: Setup, s: World, id: nat)
    requires id in s.tasks && s.tasks[id].phase.Wrote?
    ensures var (p, key) := (s.tasks[id].process, s.tasks[id].key);
      && (SeesRow(c, Step(c, s, ClearAfterWrite(id)).0, p, key) <==> AnswersCurrent(c, s, p, key))
      && (SeesRow(c, Step(c, s, Abort(id)).0, p, key) <==> CacheCurrent(c, s, p, key) && AnswersCurrent(c, s, p, key))
  {
    var p, key := s.tasks[id].process, s.tasks[id].key;
    var cleared, aborted := Step(c, s, ClearAfterWrite(id)).0, Step(c, s, Abort(id)).0;
    SeesRowIff(c, cleared, p, key);
    SeesRowIff(c, aborted, p, key);
    OtherTasksArrive(c, s, cleared, p, key, id);
    OtherTasksArrive(c, s, aborted, p, key, id);
  }

  // Process p could still serve the key without asking the database again.
  predicate Retains(c: Setup, s: World, p: nat, key: string) {
    || Visible(FreshHit(CacheOf(s, p), key, Clock(c, s, p))).Some?
    || exists id :: id in s.tasks && Arriving(c, s, p, key, id) && Visible(s.tasks[id].phase.answer).Some?
  }

  // A revoke clears the cache first and deletes the row last, so its process refuses the key at
  // once exactly if, when the row goes, it holds the tenant neither in its cache nor in an
  // answer under way.
  lemma OwnRevokeSeenIff(c: Setup, s: World, id: nat)
    requires Enabled(c, s, ApplyDelete(id))
    ensures var (p, key) := (s.tasks[id].process, s.tasks[id].key);
      SeesRow(c, Step(c, s, ApplyDelete(id)).0, p, key) <==> !Retains(c, s, p, key)
  {
    var p, key := s.tasks[id].process, s.tasks[id].key;
    var s' := Step(c, s, ApplyDelete(id)).0;
    SeesRowIff(c, s', p, key);
    OtherTasksArrive(c, s, s', p, key, id);
  }

  // A restarted process has nothing to forget: it sees every change at once.
  lemma RestartedSeesRow(c: Setup, s: World, p: nat, key: string)
    ensures SeesRow(c, Step(c, s, Restart(p)).0, p, key)
  {
    SeesRowIff(c, Step(c, s, Restart(p)).0, p, key);
  }

  // ---- within the TTL ----

  // Nothing in a cache outlives a TTL from now, and no answer was read in the future.
  ghost predicate Timely(c: Setup, s: World) {
    && (forall p, key :: p in s.caches && key in s.caches[p] ==> s.caches[p][key].expiresAt <= Clock(c, s, p) + c.ttlMs)
    && (forall id :: id in s.tasks && s.tasks[id].phase.Answered? ==> s.tasks[id].phase.readAt <= s.now)
  }

  lemma StepKeepsTimely(c: Setup, s: World, e: Event)
    requires Enabled(c, s, e) && Timely(c, s)
    ensures Timely(c, Step(c, s, e).0)
  {
    var s' := Step(c, s, e).0;
    forall p, key | p in s'.caches && key in s'.caches[p]
      ensures s'.caches[p][key].expiresAt <= Clock(c, s', p) + c.ttlMs
    {
      EntryOrigin(c, s, e, p, key);
    }
    forall id | id in s'.tasks && s'.tasks[id].phase.Answered? ensures s'.tasks[id].phase.readAt <= s'.now {
      AnswerOrigin(c, s, e, id);
    }
  }

  lemma {:induction false} RunTimely(c: Setup, states: seq<World>, events: seq<Event>, i: nat)
    requires IsRun(c, states, events) && i < |states|
    ensures Timely(c, states[i])
  {
    if i > 0 {
      RunTimely(c, states, events, i - 1);
      StepKeepsTimely(c, states[i - 1], events[i - 1]);
    }
  }

  // An answer that differs from the table arrives at the latest now, if it is cached then, and
  // within the TTL in any case.
  predicate AnswersPrompt(c: Setup, s: World, p: nat, key: string) {
    forall id :: id in s.tasks && Arriving(c, s, p, key, id) && Stale(s, key, s.tasks[id].phase.answer) ==>
      var last := s.tasks[id].phase.readAt + c.lagMs;
      last < s.now + c.ttlMs && (s.tasks[id].phase.answer.Some? ==> last <= s.now)
  }

  // In every run, a process has converged a TTL after any state, whatever is in its cache,
  // exactly if every answer under way that differs from the table is prompt.
  lemma ConvergesIff(c: Setup, states: seq<World>, events: seq<Event>, k: nat, p: nat, key: string)
    requires c.ttlMs >= 0
    requires IsRun(c, states, events) && k < |states|
    ensures SeesRowFrom(c, states[k], p, key, states[k].now + c.ttlMs) <==> AnswersPrompt(c, states[k], p, key)
  {
    var s := states[k];
    RunTimely(c, states, events, k);
    SettledIff(c, s, p, key, s.now + c.ttlMs);
    if AnswersPrompt(c, s, p, key) {
      forall id | id in s.tasks && Arriving(c, s, p, key, id)
        ensures AnswerSettled(c, s, key, s.tasks[id].phase.answer, s.tasks[id].phase.readAt, s.now + c.ttlMs)
      {
      }
    }
  }

  // TTL + lag after any state every process has converged, whatever is under way: on a new, a
  // changed and an enabled row as much as on a removed or a disabled one.
  lemma AlwaysConverges(c: Setup, states: seq<World>, events: seq<Event>, k: nat, p: nat, key: string)
    requires c.ttlMs > 0 && c.lagMs >= 0
    requires IsRun(c, states, events) && k < |states|
    ensures SeesRowFrom(c, states[k], p, key, states[k].now + c.ttlMs + c.lagMs)
  {
    RunTimely(c, states, events, k);
    SettledIff(c, states[k], p, key, states[k].now + c.ttlMs + c.lagMs);
  }

  lemma RestOfRun(c: Setup, states: seq<World>, events: seq<Event>, k: nat, i: nat, key: string)
    requires IsPath(c, states, events) && k <= i < |events|
    requires forall m :: k <= m <= i ==> Says(states[m], key) == Says(states[k], key)
    ensures KeepsRow(c, states[k], states[k..], events[k..], i - k, key)
    ensures states[k..][i - k] == states[i] && events[k..][i - k] == events[i]
  {
  }

  // Once the table has said the same for TTL + lag, every process answers with it.
  lemma UnchangedIsSeen(c: Setup, states: seq<World>, events: seq<Event>, k: nat, i: nat, p: nat, key: string)
    requires c.ttlMs > 0 && c.lagMs >= 0
    requires IsRun(c, states, events) && k <= i < |events|
    requires forall m :: k <= m <= i ==> Says(states[m], key) == Says(states[k], key)
    requires states[i].now >= states[k].now + c.ttlMs + c.lagMs
    ensures RepliesWith(Step(c, states[i], events[i]).1, p, key, Says(states[i], key))
    ensures SeesRow(c, states[i], p, key)
  {
    var at := states[k].now + c.ttlMs + c.lagMs;
    AlwaysConverges(c, states, events, k, p, key);
    SettledIff(c, states[k], p, key, at);
    RestOfRun(c, states, events, k, i, key);
    StaysSettled(c, states[k], states[k..], events[k..], i - k, p, key, at);
    ReplySettled(c, states[i], events[i], p, key, at);
    SettledNow(c, states[i], p, key, at);
    SeesRowIff(c, states[i], p, key);
  }

  // Once a key has been revoked or disabled for TTL + lag, every process refuses it.
  lemma RevokedIsRefused(c: Setup, states: seq<World>, events: seq<Event>, k: nat, i: nat, key: string)
    requires c.ttlMs > 0 && c.lagMs >= 0
    requires IsRun(c, states, events) && k <= i < |events|
    requires forall m :: k <= m <= i ==> Says(states[m], key) == None
    requires states[i].now >= states[k].now + c.ttlMs + c.lagMs
    ensures var output := Step(c, states[i], events[i]).1;
      output.Replied? && output.key == key ==> output.tenant == None
  {
    var output := Step(c, states[i], events[i]).1;
    if output.Replied? { UnchangedIsSeen(c, states, events, k, i, output.process, key); }
  }

  // ---- runs that miss a change ----

  function StaleEvents(c: Setup, key: string, revoker: nat): seq<Event>
    requires c.ttlMs > 0 && c.lagMs >= 0
  {
    [BeginResolve(0, 0, key), Read(0), BeginRevoke(1, revoker, key), ApplyDelete(1),
     Tick(c.lagMs), Deliver(0), Tick(c.ttlMs - 1), BeginResolve(2, 0, key)]
  }

  function StaleStates(c: Setup, key: string, row: Row, revoker: nat): seq<World> {
    var rows: Rows := map[key := row];
    var asked, answered := Task(0, key, Asked), Task(0, key, Answered(Some(RowToTenant(row)), 0));
    var cleared: map<nat, Cache> := map[revoker := map[]];
    var refilled := cleared[0 := map[key := CacheEntry(RowToTenant(row), c.lagMs + c.skew(0) + c.ttlMs)]];
    [World(0, rows, map[], map[]),
     World(0, rows, map[], map[0 := asked]),
     World(0, rows, map[], map[0 := answered]),
     World(0, rows, cleared, map[0 := answered, 1 := Task(revoker, key, Deleting)]),
     World(0, map[], cleared, map[0 := answered]),
     World(c.lagMs, map[], cleared, map[0 := answered]),
     World(c.lagMs, map[], refilled, map[]),
     World(c.lagMs + c.ttlMs - 1, map[], refilled, map[]),
     World(c.lagMs + c.ttlMs - 1, map[], refilled, map[])]
  }

  ghost predicate Steps(c: Setup, states: seq<World>, events: seq<Event>, from: nat, to: nat)
    requires to <= |events| < |states|
  {
    forall i :: from <= i < to ==>
      Enabled(c, states[i], events[i]) && states[i + 1] == Step(c, states[i], events[i]).0
  }

  lemma LookupAnswered(c: Setup, key: string, row: Row, revoker: nat)
    requires c.ttlMs > 0 && c.lagMs >= 0
    ensures Steps(c, StaleStates(c, key, row, revoker), StaleEvents(c, key, revoker), 0, 2)
  {
  }

  lemma RevokeBegins(c: Setup, key: string, row: Row, revoker: nat)
    requires c.ttlMs > 0 && c.lagMs >= 0
    ensures Steps(c, StaleStates(c, key, row, revoker), StaleEvents(c, key, revoker), 2, 3)
  {
  }

  lemma RevokeApplied(c: Setup, key: string, row: Row, revoker: nat)
    requires c.ttlMs > 0 && c.lagMs >= 0
    ensures Steps(c, StaleStates(c, key, row, revoker), StaleEvents(c, key, revoker), 3, 4)
  {
  }

  lemma RefillAfterRevoke(c: Setup, key: string, row: Row, revoker: nat)
    requires c.ttlMs > 0 && c.lagMs >= 0 && !row.disabled
    ensures Steps(c, StaleStates(c, key, row, revoker), StaleEvents(c, key, revoker), 4, 8)
    ensures Step(c, StaleStates(c, key, row, revoker)[7], StaleEvents(c, key, revoker)[7]).1 ==
      Replied(0, key, Some(RowToTenant(row)))
  {
  }

  // The bound cannot be lowered by a single millisecond, whichever process revokes: a lookup
  // answered just before a revocation refills the cache after it, even one the revocation cleared.
  lemma BoundIsTight(c: Setup, key: string, row: Row, revoker: nat)
    returns (states: seq<World>, events: seq<Event>)
    requires c.ttlMs > 0 && c.lagMs >= 0 && !row.disabled
    ensures IsRun(c, states, events) && |events| == 8
    ensures forall m :: 4 <= m <= 7 ==> key !in states[m].rows
    ensures states[7].now == states[4].now + c.ttlMs + c.lagMs - 1
    ensures Step(c, states[7], events[7]).1 == Replied(0, key, Some(RowToTenant(row)))
    ensures events[2] == BeginRevoke(1, revoker, key) && events[3] == ApplyDelete(1)
    ensures forall i :: 0 <= i < 8 && events[i].BeginResolve? ==> events[i].process == 0
  {
    states, events := StaleStates(c, key, row, revoker), StaleEvents(c, key, revoker);
    LookupAnswered(c, key, row, revoker);
    RevokeBegins(c, key, row, revoker);
    RevokeApplied(c, key, row, revoker);
    RefillAfterRevoke(c, key, row, revoker);
  }

  function WindowEvents(c: Setup, key: string): seq<Event>
    requires c.ttlMs > 0
  {
    [BeginRevoke(0, 0, key), BeginResolve(1, 0, key), Read(1), Deliver(1), ApplyDelete(0), Tick(c.ttlMs - 1),
     BeginResolve(1, 0, key)]
  }

  function WindowStates(c: Setup, key: string, row: Row): seq<World> {
    var rows: Rows := map[key := row];
    var asked, answered := Task(0, key, Asked), Task(0, key, Answered(Some(RowToTenant(row)), 0));
    var deleting := Task(0, key, Deleting);
    var cleared: map<nat, Cache> := map[0 := map[]];
    var refilled: map<nat, Cache> := map[0 := map[key := CacheEntry(RowToTenant(row), c.skew(0) + c.ttlMs)]];
    [World(0, rows, map[], map[]),
     World(0, rows, cleared, map[0 := deleting]),
     World(0, rows, cleared, map[0 := deleting, 1 := asked]),
     World(0, rows, cleared, map[0 := deleting, 1 := answered]),
     World(0, rows, refilled, map[0 := deleting]),
     World(0, map[], refilled, map[]),
     World(c.ttlMs - 1, map[], refilled, map[]),
     World(c.ttlMs - 1, map[], refilled, map[])]
  }

  lemma WindowOpens(c: Setup, key: string, row: Row)
    requires c.ttlMs > 0
    ensures Steps(c, WindowStates(c, key, row), WindowEvents(c, key), 0, 2)
  {
  }

  lemma LookupInWindow(c: Setup, key: string, row: Row)
    requires c.ttlMs > 0
    ensures Steps(c, WindowStates(c, key, row), WindowEvents(c, key), 2, 3)
  {
  }

  lemma AnswerInWindow(c: Setup, key: string, row: Row)
    requires c.ttlMs > 0 && c.lagMs >= 0
    ensures Steps(c, WindowStates(c, key, row), WindowEvents(c, key), 3, 4)
  {
  }

  lemma WindowCloses(c: Setup, key: string, row: Row)
    requires c.ttlMs > 0
    ensures Steps(c, WindowStates(c, key, row), WindowEvents(c, key), 4, 6)
  {
  }

  lemma ServedAfterWindow(c: Setup, key: string, row: Row)
    requires c.ttlMs > 0 && !row.disabled
    ensures Steps(c, WindowStates(c, key, row), WindowEvents(c, key), 6, 7)
    ensures Step(c, WindowStates(c, key, row)[6], WindowEvents(c, key)[6]).1 == Replied(0, key, Some(RowToTenant(row)))
  {
  }

  // A second way to miss one's own revocation, open to revokes alone: a lookup that begins after
  // the cache was cleared and ends before the row is deleted. Nothing is in flight afterwards,
  // no answer was late, and the key is served for a whole TTL.
  lemma RevokeWindow(c: Setup, key: string, row: Row) returns (states: seq<World>, events: seq<Event>)
    requires c.ttlMs > 0 && c.lagMs >= 0 && !row.disabled
    ensures IsRun(c, states, events) && |events| == 7
    ensures events[0] == BeginRevoke(0, 0, key) && events[4] == ApplyDelete(0)
    ensures states[5].tasks == map[] && states[5].now == 0
    ensures forall m :: 5 <= m <= 6 ==> key !in states[m].rows
    ensures states[6].now == c.ttlMs - 1 && Step(c, states[6], events[6]).1 == Replied(0, key, Some(RowToTenant(row)))
  {
    states, events := WindowStates(c, key, row), WindowEvents(c, key);
    WindowOpens(c, key, row);
    LookupInWindow(c, key, row);
    AnswerInWindow(c, key, row);
    WindowCloses(c, key, row);
    ServedAfterWindow(c, key, row);
  }

  // The row with its tenant disabled.
  function Disabled(row: Row): Row {
    Patched(row, Patch(None, None, None, None, Some(true)))
  }

  function AbortEvents(c: Setup, key: string): seq<Event>
    requires c.ttlMs > 0
  {
    [BeginResolve(0, 0, key), Read(0), Deliver(0),
     BeginWrite(0, 0, key, PatchRow(Patch(None, None, None, None, Some(true)))), ApplyWrite(0), Abort(0),
     Tick(c.ttlMs - 1), BeginResolve(0, 0, key)]
  }

  function AbortStates(c: Setup, key: string, row: Row): seq<World> {
    var before: Rows := map[key := row];
    var after: Rows := map[key := Disabled(row)];
    var write := PatchRow(Patch(None, None, None, None, Some(true)));
    var filled: map<nat, Cache> := map[0 := map[key := CacheEntry(RowToTenant(row), c.skew(0) + c.ttlMs)]];
    [World(0, before, map[], map[]),
     World(0, before, map[], map[0 := Task(0, key, Asked)]),
     World(0, before, map[], map[0 := Task(0, key, Answered(Some(RowToTenant(row)), 0))]),
     World(0, before, filled, map[]),
     World(0, before, filled, map[0 := Task(0, key, Writing(write))]),
     World(0, after, filled, map[0 := Task(0, key, Wrote)]),
     World(0, after, filled, map[]),
     World(c.ttlMs - 1, after, filled, map[]),
     World(c.ttlMs - 1, after, filled, map[])]
  }

  lemma LookupAsked(c: Setup, key: string, row: Row)
    requires c.ttlMs > 0
    ensures Steps(c, AbortStates(c, key, row), AbortEvents(c, key), 0, 1)
  {
  }

  lemma LookupRead(c: Setup, key: string, row: Row)
    requires c.ttlMs > 0
    ensures Steps(c, AbortStates(c, key, row), AbortEvents(c, key), 1, 2)
  {
  }

  lemma CacheFilled(c: Setup, key: string, row: Row)
    requires c.ttlMs > 0 && c.lagMs >= 0
    ensures Steps(c, AbortStates(c, key, row), AbortEvents(c, key), 2, 3)
  {
  }

  lemma WriteSent(c: Setup, key: string, row: Row)
    requires c.ttlMs > 0
    ensures Steps(c, AbortStates(c, key, row), AbortEvents(c, key), 3, 4)
  {
  }

  lemma WriteApplied(c: Setup, key: string, row: Row)
    requires c.ttlMs > 0
    ensures Steps(c, AbortStates(c, key, row), AbortEvents(c, key), 4, 5)
  {
  }

  lemma WriteAborted(c: Setup, key: string, row: Row)
    requires c.ttlMs > 0
    ensures Steps(c, AbortStates(c, key, row), AbortEvents(c, key), 5, 6)
  {
  }

  lemma ServedAfterAbort(c: Setup, key: string, row: Row)
    requires c.ttlMs > 0 && !row.disabled
    ensures Steps(c, AbortStates(c, key, row), AbortEvents(c, key), 6, 8)
    ensures Step(c, AbortStates(c, key, row)[7], AbortEvents(c, key)[7]).1 == Replied(0, key, Some(RowToTenant(row)))
  {
  }

  // A third way, open to upserts and patches: the call fails after it took effect, so the cache is
  // not cleared, and the process goes on serving the tenant it has just disabled.
  lemma AbortedWrite(c: Setup, key: string, row: Row) returns (states: seq<World>, events: seq<Event>)
    requires c.ttlMs > 0 && c.lagMs >= 0 && !row.disabled
    ensures IsRun(c, states, events) && |events| == 8
    ensures events[4] == ApplyWrite(0) && events[5] == Abort(0)
    ensures states[6].tasks == map[] && states[6].now == 0
    ensures forall m :: 5 <= m <= 7 ==> key in states[m].rows && states[m].rows[key] == row.(disabled := true)
    ensures states[7].now == c.ttlMs - 1 && Step(c, states[7], events[7]).1 == Replied(0, key, Some(RowToTenant(row)))
  {
    states, events := AbortStates(c, key, row), AbortEvents(c, key);
    LookupAsked(c, key, row);
    LookupRead(c, key, row);
    CacheFilled(c, key, row);
    WriteSent(c, key, row);
    WriteApplied(c, key, row);
    WriteAborted(c, key, row);
    ServedAfterAbort(c, key, row);
  }

  // ---- uninterrupted, the steps of a call are the calls of the sequential module ----

  function Local(s: World, process: nat): Store {
    Store(s.rows, CacheOf(s, process))
  }

  lemma UninterruptedResolve(c: Setup, t: Config, s: World, id: nat, process: nat, apiKey: string)
    requires id !in s.tasks && t.ttlMs == c.ttlMs && c.lagMs >= 0
    ensures var key, at := t.hash(apiKey), Clock(c, s, process);
      var (asked, early) := Step(c, s, BeginResolve(id, process, key));
      var (end, reply) :=
        if early.Replied? then (asked, early)
        else Step(c, Step(c, asked, Read(id)).0, Deliver(id));
      && reply.Replied?
      && (Local(end, process), Served(reply.tenant)) ==
           Tenants.Step(t, Local(s, process), Resolve(apiKey, at, at), true)
      && end.tasks == s.tasks
  {
  }

  lemma UninterruptedPut(c: Setup, t: Config, s: World, id: nat, process: nat, apiKey: string, tenant: Tenant)
    requires id !in s.tasks
    ensures var sent := Step(c, s, BeginWrite(id, process, t.hash(apiKey), PutRow(tenant))).0;
      var end := Step(c, Step(c, sent, ApplyWrite(id)).0, ClearAfterWrite(id)).0;
      Local(end, process) == Tenants.Step(t, Local(s, process), Put(apiKey, tenant, s.now), true).0
      && end.tasks == s.tasks
  {
  }

  lemma UninterruptedUpdate(c: Setup, t: Config, s: World, id: nat, process: nat, key: string, patch: Patch)
    requires id !in s.tasks
    ensures var sent := Step(c, s, BeginWrite(id, process, key, PatchRow(patch))).0;
      var applied := Step(c, sent, ApplyWrite(id)).0;
      var end := if key in s.rows then Step(c, applied, ClearAfterWrite(id)).0 else applied;
      Local(end, process) == Tenants.Step(t, Local(s, process), Update(key, patch), true).0
      && end.tasks == s.tasks
  {
  }

  lemma UninterruptedRevoke(c: Setup, t: Config, s: World, id: nat, process: nat, key: string)
    requires id !in s.tasks
    ensures var end := Step(c, Step(c, s, BeginRevoke(id, process, key)).0, ApplyDelete(id)).0;
      Local(end, process) == Tenants.Step(t, Local(s, process), Revoke(key), true).0
      && end.tasks == s.tasks
  {
  }
}
