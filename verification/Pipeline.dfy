// The per-request pipeline (src/pipeline.ts): admit, route, look up, recognise with
// fallback, store, check the page limit, interpret.
module Pipeline {
  import opened Collections
  import opened Documents
  import opened Router
  import ExtractionCache

  newtype byte = n: int | 0 <= n < 256

  type Bytes = seq<byte>

  // Everything outside the service that extraction depends on: the sniffer, the file
  // hash, and what each provider reads out of a file when it does not fail.
  datatype World = World(
    registry: seq<Provider>,
    policy: Policy,
    sniff: Bytes -> Option<MimeGroup>,
    sha256: Bytes -> string,
    read: (string, Bytes) -> Content)

  // Provider names are distinct; hashes are hex and do not collide.
  ghost predicate Sound(w: World) {
    && DistinctNames(w.registry)
    && (forall b: Bytes :: ':' !in w.sha256(b))
    && (forall a: Bytes, b: Bytes :: w.sha256(a) == w.sha256(b) ==> a == b)
  }

  // The outcome of calling one provider, chosen by an adversary at every call.
  datatype Attempt = Failed(message: string) | Recognized(durationMs: nat)

  type Attempts = nat -> Attempt

  datatype Error =
    | InvalidArgs
    | UnsupportedMediaType
    | ProviderUnavailable
    | NoProvider
    | ExtractionFailed(tried: seq<string>, details: string)
    | PageLimitExceeded
    | InterpretationFailed
    | SchemaValidationFailed

  datatype Extracted = Extracted(doc: Document, cached: bool)

  type Cache = map<string, Document>

  function CacheKey(w: World, b: Bytes, provider: string): string {
    ExtractionCache.Key(w.sha256(b), provider, None)
  }

  function RouteFor(w: World, def: FunctionDef, group: MimeGroup): Route {
    Route(group, def.required, def.key, w.policy)
  }

  function ChainFor(w: World, def: FunctionDef, group: MimeGroup): seq<Provider> {
    Chain(w.registry, RouteFor(w, def, group))
  }

  // ---- recognition with fallback ----

  // First index below n at which the provider does not fail.
  function FirstSuccess(n: nat, attempts: Attempts): (k: Option<nat>)
    ensures k.Some? ==> k.value < n && attempts(k.value).Recognized?
    ensures k.Some? ==> forall i: nat :: i < k.value ==> attempts(i).Failed?
    ensures k.None? ==> forall i: nat :: i < n ==> attempts(i).Failed?
  {
    if n == 0 then None
    else
      var earlier := FirstSuccess(n - 1, attempts);
      if earlier.Some? then earlier
      else if attempts(n - 1).Recognized? then Some(n - 1) else None
  }

  function Names(chain: seq<Provider>): (names: seq<string>)
    ensures |names| == |chain| && forall i :: 0 <= i < |chain| ==> names[i] == chain[i].name
  {
    seq(|chain|, i requires 0 <= i < |chain| => chain[i].name)
  }

  // The document the k-th provider of the chain hands back, stamped when it is a fallback.
  function DocumentFrom(w: World, chain: seq<Provider>, k: nat, b: Bytes, durationMs: nat): Document
    requires k < |chain|
  {
    Document(w.read(chain[k].name, b), chain[k].name, if k > 0 then Some(chain[0].name) else None, durationMs)
  }

  function Recognize(w: World, chain: seq<Provider>, b: Bytes, attempts: Attempts): Result<Document, Error>
    requires chain != []
  {
    match FirstSuccess(|chain|, attempts)
    case Some(k) => Ok(DocumentFrom(w, chain, k, b, attempts(k).durationMs))
    case None =>
      assert attempts(|chain| - 1).Failed?;
      Err(ExtractionFailed(Names(chain), attempts(|chain| - 1).message))
  }

  lemma {:induction false} FirstSuccessStable(m: nat, n: nat, attempts: Attempts)
    requires m <= n && FirstSuccess(m, attempts).Some?
    ensures FirstSuccess(n, attempts) == FirstSuccess(m, attempts)
  {
    if m < n { FirstSuccessStable(m, n - 1, attempts); }
  }

  method RecognizeWithFallback(w: World, primary: Provider, fallbacks: seq<Provider>, b: Bytes, attempts: Attempts)
    returns (result: Result<Document, Error>)
    ensures result == Recognize(w, [primary] + fallbacks, b, attempts)
  {
    var chain := [primary] + fallbacks;
    var lastError := "";
    for i := 0 to |chain|
      invariant FirstSuccess(i, attempts).None?
      invariant i > 0 ==> attempts(i - 1) == Failed(lastError)
    {
      match attempts(i)
      case Recognized(durationMs) =>
        assert FirstSuccess(i + 1, attempts) == Some(i);
        FirstSuccessStable(i + 1, |chain|, attempts);
        var doc := Document(w.read(chain[i].name, b), chain[i].name, None, durationMs);
        if i > 0 {
          doc := doc.(fellBackFrom := Some(primary.name));
        }
        return Ok(doc);
      case Failed(message) =>
        lastError := message;
    }
    result := Err(ExtractionFailed(Names(chain), lastError));
  }

  // ---- the cache around it ----

  // Only `standard` functions read or write the cache; a store failure reads as a miss.
  function Lookup(w: World, cache: Cache, def: FunctionDef, b: Bytes, primary: string, getOk: bool): Option<Document> {
    var key := CacheKey(w, b, primary);
    if def.sensitivity.Standard? && getOk && key in cache then Some(cache[key]) else None
  }

  // Stored under the provider that really ran, not under the primary.
  function Store(w: World, cache: Cache, def: FunctionDef, b: Bytes, doc: Document, setOk: bool): Cache {
    if def.sensitivity.Standard? && setOk then cache[CacheKey(w, b, doc.provider) := doc] else cache
  }

  // What the cache store and the providers do during one extraction.
  datatype Io = Io(getOk: bool, setOk: bool, attempts: Attempts)

  function Extract(w: World, cache: Cache, def: FunctionDef, group: MimeGroup, b: Bytes, io: Io)
    : (Result<Extracted, Error>, Cache)
  {
    var chain := ChainFor(w, def, group);
    if chain == [] then (Err(NoProvider), cache)
    else
      match Lookup(w, cache, def, b, chain[0].name, io.getOk)
      case Some(doc) => (Ok(Extracted(doc, true)), cache)
      case None =>
        match Recognize(w, chain, b, io.attempts)
        case Ok(doc) => (Ok(Extracted(doc, false)), Store(w, cache, def, b, doc, io.setOk))
        case Err(e) => (Err(e), cache)
  }

  const EMPTY_DOCUMENT := Document(Content("", "", [], [], 0, None), "none", None, 0)

  function Admit(w: World, def: FunctionDef, argsOk: bool, b: Bytes): Result<MimeGroup, Error> {
    if !argsOk then Err(InvalidArgs)
    else
      match w.sniff(b)
      case None => Err(UnsupportedMediaType)
      case Some(group) => if group in def.accepts then Ok(group) else Err(UnsupportedMediaType)
  }

  // The document a request hands to interpretation, or why it gets none.
  function Prepare(w: World, cache: Cache, def: FunctionDef, argsOk: bool, b: Bytes, io: Io)
    : (Result<Extracted, Error>, Cache)
  {
    match Admit(w, def, argsOk, b)
    case Err(e) => (Err(e), cache)
    case Ok(group) =>
      var (extracted, after) :=
        if def.skipExtraction then (Ok(Extracted(EMPTY_DOCUMENT, false)), cache)
        else Extract(w, cache, def, group, b, io);
      if extracted.Ok? && extracted.value.doc.content.pageCount > def.maxPages
      then (Err(PageLimitExceeded), after)
      else (extracted, after)
  }

  datatype Meta = Meta(
    provider: string,
    fellBackFrom: Option<string>,
    pageCount: nat,
    cached: bool,
    durationMs: int,
    tokensUsed: Option<nat>)

  // What a response says about the document it rests on; the duration is the whole request's.
  function MetaOf(e: Extracted, durationMs: int): Meta {
    Meta(e.doc.provider, e.doc.fellBackFrom, e.doc.content.pageCount, e.cached, durationMs, e.doc.content.tokensUsed)
  }

  datatype Outcome = Outcome(result: string, meta: Meta)

  class Service {
    const w: World
    var cache: Cache

    constructor (w: World)
      ensures this.w == w && cache == map[]
    {
      this.w := w;
      cache := map[];
    }

    method ExtractDocument(def: FunctionDef, group: MimeGroup, b: Bytes, io: Io) returns (r: Result<Extracted, Error>)
      modifies this`cache
      ensures (r, cache) == Extract(w, old(cache), def, group, b, io)
    {
      var decision := RouteProvider(w.registry, RouteFor(w, def, group));
      if decision.None? {
        return Err(NoProvider);
      }
      var primary := decision.value.provider;
      var usesCache := def.sensitivity.Standard?;
      var key := CacheKey(w, b, primary.name);
      if usesCache {
        if io.getOk && key in cache {
          return Ok(Extracted(cache[key], true));
        }
      }
      var recognized := RecognizeWithFallback(w, primary, decision.value.fallbacks, b, io.attempts);
      if recognized.Err? {
        return Err(recognized.error);
      }
      var doc := recognized.value;
      if usesCache && io.setOk {
        cache := cache[CacheKey(w, b, doc.provider) := doc];
      }
      r := Ok(Extracted(doc, false));
    }

    // `interpret` is the function's own step with result validation: foreign code.
    method RunPipeline(def: FunctionDef, argsOk: bool, b: Bytes, io: Io, interpret: Document -> Result<string, Error>,
                       startedAt: int, finishedAt: int)
      returns (outcome: Result<Outcome, Error>)
      modifies this`cache
      ensures var (extracted, after) := Prepare(w, old(cache), def, argsOk, b, io);
        && cache == after
        && (extracted.Err? ==> outcome == Err(extracted.error))
        && (extracted.Ok? ==>
              var doc := extracted.value.doc;
              var interpreted := interpret(doc);
              && (interpreted.Err? ==> outcome == Err(interpreted.error))
              && (interpreted.Ok? ==>
                    outcome == Ok(Outcome(interpreted.value, MetaOf(extracted.value, finishedAt - startedAt)))))
    {
      if !argsOk {
        return Err(InvalidArgs);
      }
      var sniffed := w.sniff(b);
      if sniffed.None? || sniffed.value !in def.accepts {
        return Err(UnsupportedMediaType);
      }
      var doc, cached := EMPTY_DOCUMENT, false;
      if !def.skipExtraction {
        var extracted := ExtractDocument(def, sniffed.value, b, io);
        if extracted.Err? {
          return Err(extracted.error);
        }
        doc, cached := extracted.value.doc, extracted.value.cached;
      }
      if doc.content.pageCount > def.maxPages {
        return Err(PageLimitExceeded);
      }
      match interpret(doc)
      case Err(e) => outcome := Err(e);
      case Ok(result) =>
        var meta := Meta(doc.provider, doc.fellBackFrom, doc.content.pageCount, cached, finishedAt - startedAt,
                         doc.content.tokensUsed);
        outcome := Ok(Outcome(result, meta));
    }
  }

  // ---- what one extraction promises ----

  // A provider that may serve the function on this file, and what it reads there.
  ghost predicate ServedBy(w: World, def: FunctionDef, b: Bytes, doc: Document, p: Provider) {
    && p in w.registry
    && p.name == doc.provider
    && doc.content == w.read(p.name, b)
    && w.sniff(b).Some? && w.sniff(b).value in p.accepts
    && forall c :: c in def.required ==> c in p.capabilities
  }

  // A provider of the registry that may serve the function on a file of this group.
  ghost predicate Capable(w: World, def: FunctionDef, group: MimeGroup, p: Provider) {
    p in w.registry && group in p.accepts && forall c :: c in def.required ==> c in p.capabilities
  }

  // Every entry holds what the provider it is filed under reads out of one file.
  ghost predicate EntryFrom(w: World, key: string, doc: Document, b: Bytes) {
    && key == CacheKey(w, b, doc.provider)
    && doc.content == w.read(doc.provider, b)
  }

  ghost predicate CacheFaithful(w: World, cache: Cache) {
    forall key :: key in cache ==> exists b: Bytes :: EntryFrom(w, key, cache[key], b)
  }

  // A hit is the routed primary's own reading of these bytes, because keys are injective and
  // entries are filed under the provider that ran.
  lemma HitIsPrimaryReading(w: World, cache: Cache, b: Bytes, primary: string)
    requires Sound(w) && CacheFaithful(w, cache) && CacheKey(w, b, primary) in cache
    ensures var doc := cache[CacheKey(w, b, primary)];
      doc.provider == primary && doc.content == w.read(primary, b)
  {
    var key := CacheKey(w, b, primary);
    var b': Bytes :| EntryFrom(w, key, cache[key], b');
    ExtractionCache.KeyInjective(w.sha256(b), primary, None, w.sha256(b'), cache[key].provider, None);
  }

  lemma RecognizedIsServed(w: World, def: FunctionDef, group: MimeGroup, b: Bytes, attempts: Attempts)
    requires Sound(w) && w.sniff(b) == Some(group) && ChainFor(w, def, group) != []
    ensures var r := Recognize(w, ChainFor(w, def, group), b, attempts);
      && (r.Ok? ==> exists p :: ServedBy(w, def, b, r.value, p))
      && (r.Ok? ==> r.value.content == w.read(r.value.provider, b))
      && (r.Err? <==> forall k: nat :: k < |ChainFor(w, def, group)| ==> attempts(k).Failed?)
  {
    var chain := ChainFor(w, def, group);
    ChainCharacterised(w.registry, RouteFor(w, def, group), chain);
    match FirstSuccess(|chain|, attempts)
    case Some(k) =>
      assert chain[k] in chain;
      assert ServedBy(w, def, b, DocumentFrom(w, chain, k, b, attempts(k).durationMs), chain[k]);
    case None =>
  }

  lemma StoreKeepsFaithful(w: World, cache: Cache, def: FunctionDef, b: Bytes, doc: Document, setOk: bool)
    requires CacheFaithful(w, cache) && doc.content == w.read(doc.provider, b)
    ensures CacheFaithful(w, Store(w, cache, def, b, doc, setOk))
  {
    var after := Store(w, cache, def, b, doc, setOk);
    forall key | key in after ensures exists b': Bytes :: EntryFrom(w, key, after[key], b') {
      if key == CacheKey(w, b, doc.provider) && after != cache {
        assert EntryFrom(w, key, after[key], b);
      } else {
        assert after[key] == cache[key];
      }
    }
  }

  // What comes out was read by a provider with every required capability; a hit is the
  // primary's; nothing comes out only if no provider qualifies or every qualifying one failed.
  lemma ExtractionSound(w: World, cache: Cache, def: FunctionDef, group: MimeGroup, b: Bytes, io: Io)
    requires Sound(w) && CacheFaithful(w, cache) && w.sniff(b) == Some(group)
    ensures var (r, after) := Extract(w, cache, def, group, b, io);
      && CacheFaithful(w, after)
      && (r.Ok? ==> exists p :: ServedBy(w, def, b, r.value.doc, p))
      && (r.Ok? && r.value.cached ==> r.value.doc.provider == ChainFor(w, def, group)[0].name)
      && (r == Err(NoProvider) <==> forall p :: !Capable(w, def, group, p))
      && (r.Err? && r != Err(NoProvider) <==>
            && ChainFor(w, def, group) != []
            && Lookup(w, cache, def, b, ChainFor(w, def, group)[0].name, io.getOk).None?
            && forall k: nat :: k < |ChainFor(w, def, group)| ==> io.attempts(k).Failed?)
      && (r.Err? && r != Err(NoProvider) ==>
            && r.error.ExtractionFailed?
            && forall p :: Capable(w, def, group, p) ==> p.name in r.error.tried)
  {
    var chain := ChainFor(w, def, group);
    ChainCharacterised(w.registry, RouteFor(w, def, group), chain);
    if chain == [] {
    } else {
      assert chain[0] in chain && Capable(w, def, group, chain[0]);
      RecognizedIsServed(w, def, group, b, io.attempts);
      match Lookup(w, cache, def, b, chain[0].name, io.getOk)
      case Some(doc) =>
        HitIsPrimaryReading(w, cache, b, chain[0].name);
        assert ServedBy(w, def, b, doc, chain[0]);
      case None =>
        var r := Recognize(w, chain, b, io.attempts);
        if r.Ok? { StoreKeepsFaithful(w, cache, def, b, r.value, io.setOk); }
    }
  }

  // Of n providers the k-th is the first not to fail.
  ghost predicate IsFirst(attempts: Attempts, n: nat, k: nat) {
    k < n && attempts(k).Recognized? && forall j: nat :: j < k ==> attempts(j).Failed?
  }

  // The provider that answers is the first of the chain not to fail, with its own reading; a
  // fallback names the one tried first. Nobody answers exactly if all fail, and then all are named.
  lemma AnsweredByFirst(w: World, chain: seq<Provider>, b: Bytes, attempts: Attempts)
    requires chain != []
    ensures var r := Recognize(w, chain, b, attempts);
      && (forall k: nat :: IsFirst(attempts, |chain|, k) ==>
            && r.Ok?
            && r.value.provider == chain[k].name
            && r.value.content == w.read(chain[k].name, b)
            && r.value.durationMs == attempts(k).durationMs
            && r.value.fellBackFrom == if k == 0 then None else Some(chain[0].name))
      && (r.Ok? <==> exists k: nat :: k < |chain| && attempts(k).Recognized?)
      && (r.Err? ==> && r.error.ExtractionFailed? && |r.error.tried| == |chain|
                     && (forall i :: 0 <= i < |chain| ==> r.error.tried[i] == chain[i].name)
                     && attempts(|chain| - 1) == Failed(r.error.details))
  {
    var first := FirstSuccess(|chain|, attempts);
    forall k: nat | IsFirst(attempts, |chain|, k) ensures first == Some(k) {
    }
  }

  lemma SecondIsNotPrimary(w: World, route: Route, names: seq<string>, a: nat)
    requires Sound(w) && Configured(route, names) && 0 < a < |Chain(w.registry, route)|
    ensures Chain(w.registry, route)[a].name != names[0]
  {
    var chain := Chain(w.registry, route);
    ChainCharacterised(w.registry, route, chain);
    if chain[a].name == names[0] {
      OrderConfigured(route, names);
      NothingBefore(w.registry, names, chain[0], chain[a]);
      assert false;
    }
  }

  lemma PrimaryLeads(w: World, def: FunctionDef, group: MimeGroup, names: seq<string>, p: Provider)
    requires Sound(w) && Capable(w, def, group, p)
    requires Configured(Route(group, def.required, def.key, w.policy), names) && names[0] == p.name
    ensures ChainFor(w, def, group) != [] && ChainFor(w, def, group)[0] == p
  {
    var route, chain := Route(group, def.required, def.key, w.policy), ChainFor(w, def, group);
    ChainCharacterised(w.registry, route, chain);
    assert p in chain;
    var a :| 0 <= a < |chain| && chain[a] == p;
    if a > 0 { SecondIsNotPrimary(w, route, names, a); }
  }

  // Providers are tried in the order configured for this very function: the configured primary, if
  // it is capable, reads the file or is named as the one fallen back from.
  lemma PrimaryFirst(w: World, cache: Cache, def: FunctionDef, group: MimeGroup, b: Bytes, io: Io,
                     names: seq<string>, p: Provider)
    requires Sound(w) && CacheFaithful(w, cache) && Capable(w, def, group, p)
    requires Configured(Route(group, def.required, def.key, w.policy), names) && names[0] == p.name
    ensures var r := Extract(w, cache, def, group, b, io).0;
      && r != Err(NoProvider)
      && (r.Ok? && (r.value.cached || r.value.doc.fellBackFrom.None?) ==> r.value.doc.provider == p.name)
      && (r.Ok? && !r.value.cached && r.value.doc.provider != p.name ==> r.value.doc.fellBackFrom == Some(p.name))
  {
    PrimaryLeads(w, def, group, names, p);
    match Lookup(w, cache, def, b, p.name, io.getOk)
    case Some(_) => HitIsPrimaryReading(w, cache, b, p.name);
    case None =>
  }

  // Only `standard` functions touch the cache. For them, a document the primary has read is handed
  // out again without asking anyone; one that a fallback has read is not.
  lemma RepeatIsHit(w: World, cache: Cache, def: FunctionDef, group: MimeGroup, b: Bytes, io: Io, again: Io)
    requires Sound(w) && ChainFor(w, def, group) != []
    requires CacheKey(w, b, ChainFor(w, def, group)[0].name) !in cache && io.setOk && again.getOk
    ensures var (r, after) := Extract(w, cache, def, group, b, io);
      && (r.Ok? && def.sensitivity.Standard? && r.value.doc.fellBackFrom.None? ==>
            Extract(w, after, def, group, b, again) == (Ok(Extracted(r.value.doc, true)), after))
      && (r.Ok? && r.value.doc.fellBackFrom.Some? ==>
            Extract(w, after, def, group, b, again).0 == Extract(w, cache, def, group, b, again).0)
      && (!def.sensitivity.Standard? ==> after == cache && (r.Ok? ==> !r.value.cached))
  {
    var chain := ChainFor(w, def, group);
    var (r, after) := Extract(w, cache, def, group, b, io);
    if r.Ok? && r.value.doc.fellBackFrom.Some? {
      var k := FirstSuccess(|chain|, io.attempts).value;
      ChainCharacterised(w.registry, RouteFor(w, def, group), chain);
      assert chain[0] in chain && chain[k] in chain && chain[0] != chain[k];
      if CacheKey(w, b, chain[0].name) == CacheKey(w, b, chain[k].name) {
        ExtractionCache.KeyInjective(w.sha256(b), chain[0].name, None, w.sha256(b), chain[k].name, None);
      }
    }
  }

  // What decides a request, stage by stage: a document is handed over exactly if the arguments are
  // valid, the file is of a kind the function accepts, it was read, and it is within the page limit.
  lemma HandedOverIff(w: World, cache: Cache, def: FunctionDef, argsOk: bool, b: Bytes, io: Io)
    ensures var (r, after) := Prepare(w, cache, def, argsOk, b, io);
      var accepted := w.sniff(b).Some? && w.sniff(b).value in def.accepts;
      && (r == Err(InvalidArgs) <==> !argsOk)
      && (r == Err(UnsupportedMediaType) <==> argsOk && !accepted)
      && (argsOk && accepted && def.skipExtraction ==>
            && r.Ok? && !r.value.cached && after == cache
            && r.value.doc.provider == "none" && r.value.doc.content == Content("", "", [], [], 0, None))
      && (argsOk && accepted && !def.skipExtraction ==>
            var (e, stored) := Extract(w, cache, def, w.sniff(b).value, b, io);
            && after == stored
            && (r.Ok? <==> e.Ok? && e.value.doc.content.pageCount <= def.maxPages)
            && (r == Err(PageLimitExceeded) <==> e.Ok? && e.value.doc.content.pageCount > def.maxPages)
            && (e.Err? || r.Ok? ==> r == e))
      && (!argsOk || !accepted ==> after == cache)
  {
  }
}
