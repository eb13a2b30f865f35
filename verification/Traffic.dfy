// Whole runs of the service: requests, the async queue and its worker, recognitions in
// flight and an extraction cache that may lose entries (src/http/routes.ts, src/jobs,
// src/pipeline.ts). A request is split where the source awaits the providers.
module Traffic {
  import opened Collections
  import opened Documents
  import opened Router
  import opened Pipeline

  datatype Config = Config(w: World, pdfPages: Bytes -> nat, sizeThreshold: nat, pageThreshold: nat)

  datatype Job = Job(def: FunctionDef, bytes: Bytes)

  datatype Handed = Handed(job: Job, extracted: Extracted)

  datatype Refused = Refused(job: Job, error: Error)

  datatype State = State(
    cache: Cache,
    queue: seq<Job>,
    inflight: set<(nat, Job)>,
    handed: seq<Handed>,
    refused: seq<Refused>)

  datatype Event =
    | Post(id: nat, job: Job, jsonOk: bool, argsOk: bool, enqueueOk: bool, getOk: bool)
    | Work(id: nat, argsOk: bool, getOk: bool)
    | Complete(id: nat, job: Job, attempts: Attempts, setOk: bool)
    | Evict(key: string)

  const INITIAL := State(map[], [], {}, [], [])

  predicate ShouldRunAsync(c: Config, b: Bytes) {
    |b| > c.sizeThreshold || c.pdfPages(b) > c.pageThreshold
  }

  // Only `standard` jobs are ever put on the queue.
  predicate Queues(c: Config, job: Job) {
    job.def.sensitivity.Standard? && ShouldRunAsync(c, job.bytes)
  }

  function Refuse(s: State, job: Job, error: Error): State {
    s.(refused := s.refused + [Refused(job, error)])
  }

  // The page limit, then interpretation.
  function Hand(s: State, job: Job, doc: Document, cached: bool): State {
    if doc.content.pageCount > job.def.maxPages then Refuse(s, job, PageLimitExceeded)
    else s.(handed := s.handed + [Handed(job, Extracted(doc, cached))])
  }

  function JobChain(c: Config, job: Job): seq<Provider>
    requires c.w.sniff(job.bytes).Some?
  {
    ChainFor(c.w, job.def, c.w.sniff(job.bytes).value)
  }

  function JobLookup(c: Config, s: State, job: Job, getOk: bool): Option<Document>
    requires c.w.sniff(job.bytes).Some? && JobChain(c, job) != []
  {
    Lookup(c.w, s.cache, job.def, job.bytes, JobChain(c, job)[0].name, getOk)
  }

  // Admission, routing and the cache lookup, up to the first provider call.
  function Start(c: Config, s: State, id: nat, job: Job, argsOk: bool, getOk: bool): State {
    match Admit(c.w, job.def, argsOk, job.bytes)
    case Err(e) => Refuse(s, job, e)
    case Ok(_) =>
      if job.def.skipExtraction then Hand(s, job, EMPTY_DOCUMENT, false)
      else if JobChain(c, job) == [] then Refuse(s, job, NoProvider)
      else
        match JobLookup(c, s, job, getOk)
        case Some(doc) => Hand(s, job, doc, true)
        case None => s.(inflight := s.inflight + {(id, job)})
  }

  function Finish(c: Config, s: State, id: nat, job: Job, attempts: Attempts, setOk: bool): State
    requires c.w.sniff(job.bytes).Some? && JobChain(c, job) != []
  {
    var s := s.(inflight := s.inflight - {(id, job)});
    match Recognize(c.w, JobChain(c, job), job.bytes, attempts)
    case Err(e) => Refuse(s, job, e)
    case Ok(doc) => Hand(s.(cache := Store(c.w, s.cache, job.def, job.bytes, doc, setOk)), job, doc, false)
  }

  // An event that is not enabled changes nothing. Malformed JSON is refused before the queue, arguments
  // that are well-formed but invalid only when the request starts.
  function Step(c: Config, s: State, e: Event): State {
    match e
    case Post(id, job, jsonOk, argsOk, enqueueOk, getOk) =>
      if (id, job) in s.inflight then s
      else if !jsonOk then Refuse(s, job, InvalidArgs)
      else if Queues(c, job) then
        if enqueueOk then s.(queue := s.queue + [job]) else Refuse(s, job, ProviderUnavailable)
      else Start(c, s, id, job, argsOk, getOk)
    case Work(id, argsOk, getOk) =>
      if s.queue == [] || (id, s.queue[0]) in s.inflight then s
      else Start(c, s.(queue := s.queue[1..]), id, s.queue[0], argsOk, getOk)
    case Complete(id, job, attempts, setOk) =>
      if (id, job) in s.inflight && c.w.sniff(job.bytes).Some? && JobChain(c, job) != []
      then Finish(c, s, id, job, attempts, setOk)
      else s
    case Evict(key) => s.(cache := s.cache - {key})
  }

  function Run(c: Config, s: State, events: seq<Event>): State {
    if events == [] then s else Step(c, Run(c, s, events[..|events| - 1]), events[|events| - 1])
  }

  lemma {:induction false} RunAppend(c: Config, s: State, xs: seq<Event>, ys: seq<Event>)
    ensures Run(c, s, xs + ys) == Run(c, Run(c, s, xs), ys)
  {
    if ys == [] {
      assert xs + ys == xs;
    } else {
      assert (xs + ys)[..|xs + ys| - 1] == xs + ys[..|ys| - 1];
      RunAppend(c, s, xs, ys[..|ys| - 1]);
    }
  }

  // ---- capabilities, in every run ----

  // The document came from a provider able to serve this function on this file, within its
  // page limit; if from the cache, then it is the reading of the provider tried first.
  ghost predicate WellServed(c: Config, h: Handed) {
    var def, doc := h.job.def, h.extracted.doc;
    && c.w.sniff(h.job.bytes).Some?
    && c.w.sniff(h.job.bytes).value in def.accepts
    && doc.content.pageCount <= def.maxPages
    && (def.skipExtraction ==> doc == EMPTY_DOCUMENT && !h.extracted.cached)
    && (!def.skipExtraction ==> exists p :: ServedBy(c.w, def, h.job.bytes, doc, p))
    && (h.extracted.cached ==>
          && def.sensitivity.Standard?
          && JobChain(c, h.job) != []
          && doc.provider == JobChain(c, h.job)[0].name)
  }

  // Extraction is refused only when no provider qualifies, or after all that do were tried.
  ghost predicate FairlyRefused(c: Config, r: Refused) {
    (r.error.NoProvider? || r.error.ExtractionFailed?) ==>
      && c.w.sniff(r.job.bytes).Some?
      && !r.job.def.skipExtraction
      && forall p :: Capable(c.w, r.job.def, c.w.sniff(r.job.bytes).value, p) ==>
           r.error.ExtractionFailed? && p.name in r.error.tried
  }

  ghost predicate Started(c: Config, job: Job) {
    && c.w.sniff(job.bytes).Some?
    && c.w.sniff(job.bytes).value in job.def.accepts
    && !job.def.skipExtraction
    && JobChain(c, job) != []
  }

  ghost predicate Inv(c: Config, s: State) {
    && CacheFaithful(c.w, s.cache)
    && (forall job :: job in s.queue ==> job.def.sensitivity.Standard?)
    && (forall t :: t in s.inflight ==> Started(c, t.1))
    && (forall h :: h in s.handed ==> WellServed(c, h))
    && (forall r :: r in s.refused ==> FairlyRefused(c, r))
  }

  lemma RefusedFairly(c: Config, job: Job, error: Error)
    requires Sound(c.w) && c.w.sniff(job.bytes).Some? && !job.def.skipExtraction
    requires if error.ExtractionFailed? then error.tried == Names(JobChain(c, job)) else JobChain(c, job) == []
    ensures FairlyRefused(c, Refused(job, error))
  {
    var chain, group := JobChain(c, job), c.w.sniff(job.bytes).value;
    ChainCharacterised(c.w.registry, RouteFor(c.w, job.def, group), chain);
    forall p | Capable(c.w, job.def, group, p)
      ensures error.ExtractionFailed? && p.name in error.tried
    {
      var i :| 0 <= i < |chain| && chain[i] == p;
      assert Names(chain)[i] == p.name;
    }
  }

  lemma StartKeepsInv(c: Config, s: State, id: nat, job: Job, argsOk: bool, getOk: bool)
    requires Sound(c.w) && Inv(c, s)
    ensures Inv(c, Start(c, s, id, job, argsOk, getOk))
  {
    var admitted := Admit(c.w, job.def, argsOk, job.bytes);
    if admitted.Ok? && !job.def.skipExtraction && JobChain(c, job) == [] {
      RefusedFairly(c, job, NoProvider);
    } else if admitted.Ok? && !job.def.skipExtraction {
      var chain := JobChain(c, job);
      ChainCharacterised(c.w.registry, RouteFor(c.w, job.def, admitted.value), chain);
      assert chain[0] in chain;
      var found := JobLookup(c, s, job, getOk);
      if found.Some? {
        HitIsPrimaryReading(c.w, s.cache, job.bytes, chain[0].name);
        assert ServedBy(c.w, job.def, job.bytes, found.value, chain[0]);
      }
    }
  }

  lemma FinishKeepsInv(c: Config, s: State, id: nat, job: Job, attempts: Attempts, setOk: bool)
    requires Sound(c.w) && Inv(c, s) && (id, job) in s.inflight
    ensures Inv(c, Finish(c, s, id, job, attempts, setOk))
  {
    var group := c.w.sniff(job.bytes).value;
    RecognizedIsServed(c.w, job.def, group, job.bytes, attempts);
    var r := Recognize(c.w, JobChain(c, job), job.bytes, attempts);
    if r.Ok? {
      StoreKeepsFaithful(c.w, s.cache, job.def, job.bytes, r.value, setOk);
    } else {
      RefusedFairly(c, job, r.error);
    }
  }

  lemma StepKeepsInv(c: Config, s: State, e: Event)
    requires Sound(c.w) && Inv(c, s)
    ensures Inv(c, Step(c, s, e))
  {
    match e
    case Post(id, job, jsonOk, argsOk, enqueueOk, getOk) =>
      if (id, job) !in s.inflight && jsonOk && !Queues(c, job) { StartKeepsInv(c, s, id, job, argsOk, getOk); }
    case Work(id, argsOk, getOk) =>
      if s.queue != [] {
        StartKeepsInv(c, s.(queue := s.queue[1..]), id, s.queue[0], argsOk, getOk);
      }
    case Complete(id, job, attempts, setOk) =>
      if (id, job) in s.inflight { FinishKeepsInv(c, s, id, job, attempts, setOk); }
    case Evict(key) =>
      var after := s.cache - {key};
      forall k | k in after ensures exists b: Bytes :: EntryFrom(c.w, k, after[k], b) {
        assert after[k] == s.cache[k];
      }
  }

  // Whatever fails, is evicted or overlaps, every document handed to interpretation is well served.
  lemma {:induction false} EveryRunWellServed(c: Config, events: seq<Event>)
    requires Sound(c.w)
    ensures Inv(c, Run(c, INITIAL, events))
  {
    if events != [] {
      EveryRunWellServed(c, events[..|events| - 1]);
      StepKeepsInv(c, Run(c, INITIAL, events[..|events| - 1]), events[|events| - 1]);
    }
  }

  // ---- provenance ----

  ghost predicate Posted(events: seq<Event>, job: Job) {
    exists i :: 0 <= i < |events| && events[i].Post? && events[i].job == job
  }

  ghost predicate FiledFor(c: Config, events: seq<Event>, key: string, doc: Document, job: Job) {
    && Posted(events, job)
    && job.def.sensitivity.Standard?
    && key == CacheKey(c.w, job.bytes, doc.provider)
  }

  ghost predicate Origins(c: Config, events: seq<Event>, s: State) {
    && (forall job :: job in s.queue ==> Posted(events, job) && job.def.sensitivity.Standard?)
    && (forall t :: t in s.inflight ==> Posted(events, t.1))
    && (forall key :: key in s.cache ==> exists job :: FiledFor(c, events, key, s.cache[key], job))
  }

  lemma PostedLater(events: seq<Event>, e: Event, job: Job)
    requires Posted(events, job) || (e.Post? && e.job == job)
    ensures Posted(events + [e], job)
  {
    if Posted(events, job) {
      var i :| 0 <= i < |events| && events[i].Post? && events[i].job == job;
      assert (events + [e])[i] == events[i];
    } else {
      assert (events + [e])[|events|] == e;
    }
  }

  lemma OriginsLater(c: Config, events: seq<Event>, s: State, e: Event)
    requires Origins(c, events, s)
    ensures Origins(c, events + [e], s)
  {
    forall job | Posted(events, job) ensures Posted(events + [e], job) { PostedLater(events, e, job); }
    forall key | key in s.cache ensures exists job :: FiledFor(c, events + [e], key, s.cache[key], job) {
      var job :| FiledFor(c, events, key, s.cache[key], job);
      assert FiledFor(c, events + [e], key, s.cache[key], job);
    }
  }

  lemma StoreKeepsOrigins(c: Config, events: seq<Event>, s: State, job: Job, doc: Document, setOk: bool)
    requires Origins(c, events, s) && Posted(events, job)
    ensures Origins(c, events, s.(cache := Store(c.w, s.cache, job.def, job.bytes, doc, setOk)))
  {
    var after := Store(c.w, s.cache, job.def, job.bytes, doc, setOk);
    forall key | key in after ensures exists j :: FiledFor(c, events, key, after[key], j) {
      if after != s.cache && key == CacheKey(c.w, job.bytes, doc.provider) {
        assert FiledFor(c, events, key, after[key], job);
      } else {
        var j :| FiledFor(c, events, key, s.cache[key], j);
        assert FiledFor(c, events, key, after[key], j);
      }
    }
  }

  lemma StartTouches(c: Config, s: State, id: nat, job: Job, argsOk: bool, getOk: bool)
    ensures var after := Start(c, s, id, job, argsOk, getOk);
      after.cache == s.cache && after.queue == s.queue && after.inflight <= s.inflight + {(id, job)}
  {
  }

  lemma SameStoresKeepOrigins(c: Config, events: seq<Event>, s: State, after: State)
    requires Origins(c, events, s) && after.cache == s.cache && after.queue == s.queue
    requires forall t :: t in after.inflight ==> t in s.inflight || Posted(events, t.1)
    ensures Origins(c, events, after)
  {
  }

  lemma StartKeepsOrigins(c: Config, events: seq<Event>, s: State, id: nat, job: Job, argsOk: bool, getOk: bool)
    requires Origins(c, events, s) && Posted(events, job)
    ensures Origins(c, events, Start(c, s, id, job, argsOk, getOk))
  {
    StartTouches(c, s, id, job, argsOk, getOk);
    SameStoresKeepOrigins(c, events, s, Start(c, s, id, job, argsOk, getOk));
  }

  lemma FinishKeepsOrigins(c: Config, events: seq<Event>, s: State, id: nat, job: Job, attempts: Attempts, setOk: bool)
    requires Origins(c, events, s) && Posted(events, job)
    requires c.w.sniff(job.bytes).Some? && JobChain(c, job) != []
    ensures Origins(c, events, Finish(c, s, id, job, attempts, setOk))
  {
    var after := Finish(c, s, id, job, attempts, setOk);
    assert after.queue == s.queue && after.inflight == s.inflight - {(id, job)};
    var r := Recognize(c.w, JobChain(c, job), job.bytes, attempts);
    if r.Ok? { StoreKeepsOrigins(c, events, s, job, r.value, setOk); }
  }

  lemma EvictKeepsOrigins(c: Config, events: seq<Event>, s: State, key: string)
    requires Origins(c, events, s)
    ensures Origins(c, events, s.(cache := s.cache - {key}))
  {
    var after := s.cache - {key};
    forall k | k in after ensures exists job :: FiledFor(c, events, k, after[k], job) {
      assert after[k] == s.cache[k];
    }
  }

  lemma StepKeepsOrigins(c: Config, events: seq<Event>, s: State, e: Event)
    requires Origins(c, events, s)
    ensures Origins(c, events + [e], Step(c, s, e))
  {
    var later := events + [e];
    OriginsLater(c, events, s, e);
    match e
    case Post(id, job, jsonOk, argsOk, _, getOk) =>
      PostedLater(events, e, job);
      if (id, job) !in s.inflight && jsonOk && !Queues(c, job) {
        StartKeepsOrigins(c, later, s, id, job, argsOk, getOk);
      }
    case Work(id, argsOk, getOk) =>
      if s.queue != [] {
        StartKeepsOrigins(c, later, s.(queue := s.queue[1..]), id, s.queue[0], argsOk, getOk);
      }
    case Complete(id, job, attempts, setOk) =>
      if Step(c, s, e) != s { FinishKeepsOrigins(c, later, s, id, job, attempts, setOk); }
    case Evict(key) => EvictKeepsOrigins(c, later, s, key);
  }

  // Every cache entry and every queued job of any run comes from a `standard` request.
  lemma {:induction false} OnlyStandardIsStored(c: Config, events: seq<Event>)
    ensures Origins(c, events, Run(c, INITIAL, events))
  {
    if events != [] {
      var before := events[..|events| - 1];
      OnlyStandardIsStored(c, before);
      StepKeepsOrigins(c, before, Run(c, INITIAL, before), events[|events| - 1]);
      assert before + [events[|events| - 1]] == events;
    }
  }

  // ---- sensitive requests are independent of everything else ----

  function SensitiveHanded(): Handed -> bool { (h: Handed) => !h.job.def.sensitivity.Standard? }

  function SensitiveRefused(): Refused -> bool { (r: Refused) => !r.job.def.sensitivity.Standard? }

  predicate SensitiveEvent(e: Event) {
    (e.Post? || e.Complete?) && !e.job.def.sensitivity.Standard?
  }

  function OnlySensitive(): Event -> bool { (e: Event) => SensitiveEvent(e) }

  function SensitiveView(s: State): State {
    State(map[], [], (set t | t in s.inflight && !t.1.def.sensitivity.Standard?),
          Filter(s.handed, SensitiveHanded()), Filter(s.refused, SensitiveRefused()))
  }

  lemma ViewOfRefuse(s: State, job: Job, error: Error)
    ensures SensitiveView(Refuse(s, job, error)) ==
      if job.def.sensitivity.Standard? then SensitiveView(s) else Refuse(SensitiveView(s), job, error)
  {
    FilterAppend(s.refused, [Refused(job, error)], SensitiveRefused());
  }

  lemma ViewOfHand(s: State, job: Job, doc: Document, cached: bool)
    ensures SensitiveView(Hand(s, job, doc, cached)) ==
      if job.def.sensitivity.Standard? then SensitiveView(s) else Hand(SensitiveView(s), job, doc, cached)
  {
    ViewOfRefuse(s, job, PageLimitExceeded);
    FilterAppend(s.handed, [Handed(job, Extracted(doc, cached))], SensitiveHanded());
  }

  lemma ViewOfStart(c: Config, s: State, id: nat, job: Job, argsOk: bool, getOk: bool)
    ensures SensitiveView(Start(c, s, id, job, argsOk, getOk)) ==
      if job.def.sensitivity.Standard? then SensitiveView(s) else Start(c, SensitiveView(s), id, job, argsOk, getOk)
  {
    var admitted := Admit(c.w, job.def, argsOk, job.bytes);
    if admitted.Err? {
      ViewOfRefuse(s, job, admitted.error);
    } else if job.def.skipExtraction {
      ViewOfHand(s, job, EMPTY_DOCUMENT, false);
    } else if JobChain(c, job) == [] {
      ViewOfRefuse(s, job, NoProvider);
    } else {
      var found := JobLookup(c, s, job, getOk);
      if found.Some? {
        ViewOfHand(s, job, found.value, true);
      } else {
        assert SensitiveView(Start(c, s, id, job, argsOk, getOk)).inflight ==
          if job.def.sensitivity.Standard? then SensitiveView(s).inflight else SensitiveView(s).inflight + {(id, job)};
      }
    }
  }

  lemma ViewOfFinish(c: Config, s: State, id: nat, job: Job, attempts: Attempts, setOk: bool)
    requires c.w.sniff(job.bytes).Some? && JobChain(c, job) != []
    ensures SensitiveView(Finish(c, s, id, job, attempts, setOk)) ==
      if job.def.sensitivity.Standard? then SensitiveView(s) else Finish(c, SensitiveView(s), id, job, attempts, setOk)
  {
    var taken := s.(inflight := s.inflight - {(id, job)});
    assert SensitiveView(taken).inflight ==
      if job.def.sensitivity.Standard? then SensitiveView(s).inflight else SensitiveView(s).inflight - {(id, job)};
    match Recognize(c.w, JobChain(c, job), job.bytes, attempts)
    case Err(e) => ViewOfRefuse(taken, job, e);
    case Ok(doc) =>
      ViewOfHand(taken.(cache := Store(c.w, s.cache, job.def, job.bytes, doc, setOk)), job, doc, false);
  }

  lemma ViewOfStep(c: Config, s: State, e: Event)
    requires forall job :: job in s.queue ==> job.def.sensitivity.Standard?
    ensures SensitiveView(Step(c, s, e)) ==
      if SensitiveEvent(e) then Step(c, SensitiveView(s), e) else SensitiveView(s)
  {
    match e
    case Post(id, job, jsonOk, argsOk, _, getOk) =>
      if (id, job) !in s.inflight && jsonOk && !Queues(c, job) {
        ViewOfStart(c, s, id, job, argsOk, getOk);
      } else {
        ViewOfRefuse(s, job, InvalidArgs);
        ViewOfRefuse(s, job, ProviderUnavailable);
      }
    case Work(id, argsOk, getOk) =>
      if s.queue != [] { ViewOfStart(c, s.(queue := s.queue[1..]), id, s.queue[0], argsOk, getOk); }
    case Complete(id, job, attempts, setOk) =>
      if c.w.sniff(job.bytes).Some? && JobChain(c, job) != [] { ViewOfFinish(c, s, id, job, attempts, setOk); }
    case Evict(_) =>
  }

  // Noninterference: erase all `standard` traffic, the queue and every eviction, and the
  // sensitive requests still get the very same documents and refusals, with an empty cache.
  lemma {:induction false} SensitiveIndependence(c: Config, events: seq<Event>)
    ensures SensitiveView(Run(c, INITIAL, events)) == Run(c, INITIAL, Filter(events, OnlySensitive()))
  {
    if events != [] {
      var before, e := events[..|events| - 1], events[|events| - 1];
      SensitiveIndependence(c, before);
      OnlyStandardIsStored(c, before);
      ViewOfStep(c, Run(c, INITIAL, before), e);
      assert events == before + [e];
      FilterAppend(before, [e], OnlySensitive());
      var kept := Filter(before, OnlySensitive());
      if SensitiveEvent(e) {
        assert (kept + [e])[..|kept + [e]| - 1] == kept;
      } else {
        assert kept + [] == kept;
      }
    }
  }

  // ---- the cache refines "no cache" ----

  function AllSucceed(): Attempts { (k: nat) => Recognized(0) }

  // Would this request be answered from the cache?
  predicate Hits(c: Config, s: State, job: Job, argsOk: bool, getOk: bool) {
    && Admit(c.w, job.def, argsOk, job.bytes).Ok?
    && !job.def.skipExtraction
    && JobChain(c, job) != []
    && JobLookup(c, s, job, getOk).Some?
  }

  // The same event without a cache: a hit becomes a recognition whose primary succeeds,
  // and nothing is ever stored.
  function Uncached(c: Config, s: State, e: Event): seq<Event> {
    match e
    case Post(id, job, jsonOk, argsOk, _, getOk) =>
      if (id, job) !in s.inflight && jsonOk && !Queues(c, job) && Hits(c, s, job, argsOk, getOk)
      then [e, Complete(id, job, AllSucceed(), false)] else [e]
    case Work(id, argsOk, getOk) =>
      if s.queue != [] && (id, s.queue[0]) !in s.inflight && Hits(c, s, s.queue[0], argsOk, getOk)
      then [e, Complete(id, s.queue[0], AllSucceed(), false)] else [e]
    case Complete(id, job, attempts, _) => [Complete(id, job, attempts, false)]
    case Evict(_) => []
  }

  function UncachedRun(c: Config, events: seq<Event>): seq<Event> {
    if events == [] then []
    else
      var before := events[..|events| - 1];
      UncachedRun(c, before) + Uncached(c, Run(c, INITIAL, before), events[|events| - 1])
  }

  ghost predicate NeverStores(events: seq<Event>) {
    forall i :: 0 <= i < |events| ==> events[i].Complete? ==> !events[i].setOk
  }

  // Equal but for `durationMs`, `fellBackFrom` and the `cached` flag.
  predicate SameReading(h: Handed, u: Handed) {
    && h.job == u.job
    && h.extracted.doc.content == u.extracted.doc.content
    && h.extracted.doc.provider == u.extracted.doc.provider
  }

  ghost predicate Matches(s: State, u: State) {
    && u.cache == map[]
    && u.queue == s.queue
    && u.inflight == s.inflight
    && u.refused == s.refused
    && |u.handed| == |s.handed|
    && forall i :: 0 <= i < |s.handed| ==> SameReading(s.handed[i], u.handed[i])
  }

  lemma MatchesHand(s: State, u: State, job: Job, doc: Document, cached: bool, doc': Document, cached': bool)
    requires Matches(s, u) && doc.content == doc'.content && doc.provider == doc'.provider
    ensures Matches(Hand(s, job, doc, cached), Hand(u, job, doc', cached'))
  {
  }

  lemma MatchesFinish(c: Config, s: State, u: State, id: nat, job: Job, attempts: Attempts, setOk: bool)
    requires Matches(s, u) && c.w.sniff(job.bytes).Some? && JobChain(c, job) != []
    ensures Matches(Finish(c, s, id, job, attempts, setOk), Finish(c, u, id, job, attempts, false))
  {
    match Recognize(c.w, JobChain(c, job), job.bytes, attempts)
    case Err(_) =>
    case Ok(doc) =>
      var s', u' := s.(inflight := s.inflight - {(id, job)}), u.(inflight := u.inflight - {(id, job)});
      var stored := Store(c.w, s.cache, job.def, job.bytes, doc, setOk);
      assert Store(c.w, u.cache, job.def, job.bytes, doc, false) == map[];
      MatchesHand(s'.(cache := stored), u', job, doc, false, doc, false);
  }

  lemma {:induction false} AllSucceedFirst(n: nat)
    requires n > 0
    ensures FirstSuccess(n, AllSucceed()) == Some(0)
  {
    if n > 1 { AllSucceedFirst(n - 1); }
  }

  lemma MatchesHit(c: Config, s: State, u: State, id: nat, job: Job, argsOk: bool, getOk: bool)
    requires Sound(c.w) && Inv(c, s) && Matches(s, u)
    requires (id, job) !in s.inflight && Hits(c, s, job, argsOk, getOk)
    ensures var u' := Start(c, u, id, job, argsOk, getOk);
      && u' == u.(inflight := u.inflight + {(id, job)})
      && Matches(Start(c, s, id, job, argsOk, getOk), Finish(c, u', id, job, AllSucceed(), false))
  {
    var chain := JobChain(c, job);
    var u' := u.(inflight := u.inflight + {(id, job)});
    var doc := JobLookup(c, s, job, getOk).value;
    HitIsPrimaryReading(c.w, s.cache, job.bytes, chain[0].name);
    AllSucceedFirst(|chain|);
    assert u'.inflight - {(id, job)} == u.inflight;
    MatchesHand(s, u, job, doc, true, DocumentFrom(c.w, chain, 0, job.bytes, 0), false);
  }

  lemma MatchesStart(c: Config, s: State, u: State, id: nat, job: Job, argsOk: bool, getOk: bool)
    requires Matches(s, u) && !Hits(c, s, job, argsOk, getOk)
    ensures Matches(Start(c, s, id, job, argsOk, getOk), Start(c, u, id, job, argsOk, getOk))
  {
  }

  lemma RunOne(c: Config, s: State, es: seq<Event>)
    requires |es| == 1
    ensures Run(c, s, es) == Step(c, s, es[0])
  {
    assert Run(c, s, es[..0]) == s;
  }

  lemma RunTwo(c: Config, s: State, es: seq<Event>)
    requires |es| == 2
    ensures Run(c, s, es) == Step(c, Step(c, s, es[0]), es[1])
  {
    assert es[..1][0] == es[0];
    RunOne(c, s, es[..1]);
  }

  lemma MatchesStep(c: Config, s: State, u: State, e: Event)
    requires Sound(c.w) && Inv(c, s) && Matches(s, u)
    ensures Matches(Step(c, s, e), Run(c, u, Uncached(c, s, e)))
  {
    var es := Uncached(c, s, e);
    if |es| == 2 { RunTwo(c, u, es); } else if |es| == 1 { RunOne(c, u, es); }
    match e
    case Post(id, job, jsonOk, argsOk, _, getOk) =>
      if (id, job) !in s.inflight && jsonOk && !Queues(c, job) {
        if Hits(c, s, job, argsOk, getOk) { MatchesHit(c, s, u, id, job, argsOk, getOk); }
        else { MatchesStart(c, s, u, id, job, argsOk, getOk); }
      }
    case Work(id, argsOk, getOk) =>
      if s.queue != [] && (id, s.queue[0]) !in s.inflight {
        var s', u' := s.(queue := s.queue[1..]), u.(queue := u.queue[1..]);
        if Hits(c, s, s.queue[0], argsOk, getOk) { MatchesHit(c, s', u', id, s.queue[0], argsOk, getOk); }
        else { MatchesStart(c, s', u', id, s.queue[0], argsOk, getOk); }
      }
    case Complete(id, job, attempts, setOk) =>
      if c.w.sniff(job.bytes).Some? && JobChain(c, job) != [] { MatchesFinish(c, s, u, id, job, attempts, setOk); }
    case Evict(_) =>
  }

  // Every run with the cache is, but for timing and provenance marks, a run without one.
  lemma {:induction false} CacheRefinesNoCache(c: Config, events: seq<Event>)
    requires Sound(c.w)
    ensures NeverStores(UncachedRun(c, events))
    ensures Matches(Run(c, INITIAL, events), Run(c, INITIAL, UncachedRun(c, events)))
  {
    if events != [] {
      var before, e := events[..|events| - 1], events[|events| - 1];
      CacheRefinesNoCache(c, before);
      EveryRunWellServed(c, before);
      var s := Run(c, INITIAL, before);
      RunAppend(c, INITIAL, UncachedRun(c, before), Uncached(c, s, e));
      MatchesStep(c, s, Run(c, INITIAL, UncachedRun(c, before)), e);
    }
  }

  // ---- a request that nothing overlaps is one call of the pipeline ----

  lemma SynchronousRequest(c: Config, s: State, id: nat, job: Job, argsOk: bool, io: Io)
    requires (id, job) !in s.inflight && !Queues(c, job)
    ensures var (prepared, after) := Prepare(c.w, s.cache, job.def, argsOk, job.bytes, io);
      Run(c, s, [Post(id, job, true, argsOk, true, io.getOk), Complete(id, job, io.attempts, io.setOk)]) ==
      match prepared
      case Ok(extracted) => s.(cache := after, handed := s.handed + [Handed(job, extracted)])
      case Err(e) => s.(cache := after, refused := s.refused + [Refused(job, e)])
  {
    var post, complete := Post(id, job, true, argsOk, true, io.getOk), Complete(id, job, io.attempts, io.setOk);
    RunTwo(c, s, [post, complete]);
    assert s.inflight + {(id, job)} - {(id, job)} == s.inflight;
  }

  // A request whose cache entry is lost in time goes to the providers.
  lemma EvictedIsReread(c: Config, s: State, id: nat, job: Job, getOk: bool)
    requires (id, job) !in s.inflight && !Queues(c, job) && !job.def.skipExtraction
    requires Admit(c.w, job.def, true, job.bytes).Ok? && JobChain(c, job) != []
    ensures var key := CacheKey(c.w, job.bytes, JobChain(c, job)[0].name);
      var after := Run(c, s, [Evict(key), Post(id, job, true, true, true, getOk)]);
      (id, job) in after.inflight && after.handed == s.handed
  {
    var key := CacheKey(c.w, job.bytes, JobChain(c, job)[0].name);
    RunTwo(c, s, [Evict(key), Post(id, job, true, true, true, getOk)]);
  }

  // ---- the queue ----

  // A posted request is queued exactly if it is `standard` and its file too large or too long for
  // the request itself; if the queue does not take it, it is refused.
  lemma QueuedIff(c: Config, s: State, id: nat, job: Job, argsOk: bool, enqueueOk: bool, getOk: bool)
    requires (id, job) !in s.inflight
    ensures var after := Step(c, s, Post(id, job, true, argsOk, enqueueOk, getOk));
      var large := |job.bytes| > c.sizeThreshold || c.pdfPages(job.bytes) > c.pageThreshold;
      && (after.queue != s.queue <==> job.def.sensitivity.Standard? && large && enqueueOk)
      && (after.queue != s.queue ==> after == s.(queue := s.queue + [job]))
      && (job.def.sensitivity.Standard? && large && !enqueueOk ==>
            after == s.(refused := s.refused + [Refused(job, ProviderUnavailable)]))
  {
    assert |s.queue + [job]| == |s.queue| + 1;
  }

  // A request whose JSON is malformed is refused before anything else.
  lemma MalformedRefused(c: Config, s: State, id: nat, job: Job, argsOk: bool, enqueueOk: bool, getOk: bool)
    requires (id, job) !in s.inflight
    ensures Step(c, s, Post(id, job, false, argsOk, enqueueOk, getOk)) ==
      s.(refused := s.refused + [Refused(job, InvalidArgs)])
  {
  }

  // The worker takes the oldest job, and what it does with it is one call of the pipeline.
  lemma WorkedRequest(c: Config, s: State, id: nat, argsOk: bool, io: Io)
    requires s.queue != [] && (id, s.queue[0]) !in s.inflight
    ensures var job, rest := s.queue[0], s.(queue := s.queue[1..]);
      var (prepared, after) := Prepare(c.w, s.cache, job.def, argsOk, job.bytes, io);
      Run(c, s, [Work(id, argsOk, io.getOk), Complete(id, job, io.attempts, io.setOk)]) ==
      match prepared
      case Ok(extracted) => rest.(cache := after, handed := s.handed + [Handed(job, extracted)])
      case Err(e) => rest.(cache := after, refused := s.refused + [Refused(job, e)])
  {
    var job := s.queue[0];
    RunTwo(c, s, [Work(id, argsOk, io.getOk), Complete(id, job, io.attempts, io.setOk)]);
    assert s.inflight + {(id, job)} - {(id, job)} == s.inflight;
  }
}
