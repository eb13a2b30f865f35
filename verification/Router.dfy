// Provider routing (src/providers/router.ts, src/config/providers.ts).
module Router {
  import opened Collections
  import opened Documents

  datatype Provider = Provider(name: string, accepts: seq<MimeGroup>, capabilities: seq<Capability>)

  datatype FallbackChain = FallbackChain(primary: string, fallbacks: seq<string>)

  datatype Override = Override(image: Option<FallbackChain>, scannedPdf: Option<FallbackChain>)

  datatype Policy = Policy(image: FallbackChain, scannedPdf: FallbackChain, overrides: map<FunctionKey, Override>)

  datatype Route = Route(group: MimeGroup, required: seq<Capability>, fn: FunctionKey, policy: Policy)

  datatype RoutingDecision = RoutingDecision(provider: Provider, fallbacks: seq<Provider>)

  // Provider names key the registry: no two providers share one.
  ghost predicate DistinctNames(registry: seq<Provider>) {
    forall i, j :: 0 <= i < j < |registry| ==> registry[i].name != registry[j].name
  }

  function Satisfies(group: MimeGroup, required: seq<Capability>): Provider -> bool {
    (p: Provider) => group in p.accepts && forall c :: c in required ==> c in p.capabilities
  }

  function PolicyForFunction(policy: Policy, fn: FunctionKey): Policy {
    if fn !in policy.overrides then policy
    else
      var o := policy.overrides[fn];
      Policy(if o.image.Some? then o.image.value else policy.image,
             if o.scannedPdf.Some? then o.scannedPdf.value else policy.scannedPdf,
             policy.overrides)
  }

  predicate TextOnly(required: seq<Capability>) {
    forall c :: c in required ==> c == Text
  }

  function PreferenceOrder(r: Route): seq<string> {
    var policy := PolicyForFunction(r.policy, r.fn);
    match r.group
    case Docx => ["mammoth"]
    case PlainText => ["plain-text"]
    case Image => [policy.image.primary] + policy.image.fallbacks
    case Pdf =>
      var scanned := [policy.scannedPdf.primary] + policy.scannedPdf.fallbacks;
      if TextOnly(r.required) then ["pdf-text"] + scanned else scanned
  }

  // ---- what a chain is, independently of how it is built ----

  predicate Named(xs: seq<Provider>, name: string) {
    exists p :: p in xs && p.name == name
  }

  // Position of a name in the preference order; |order| when the policy does not mention it.
  function Preference(order: seq<string>, name: string): (i: nat)
    ensures i <= |order|
    ensures i < |order| ==> order[i] == name
    ensures forall j :: 0 <= j < i ==> order[j] != name
    ensures i == |order| <==> name !in order
  {
    if order == [] then 0
    else if order[0] == name then 0
    else
      assert forall j :: 1 <= j < |order| ==> order[j] == order[1..][j - 1];
      1 + Preference(order[1..], name)
  }

  ghost predicate Precedes(registry: seq<Provider>, a: Provider, b: Provider) {
    exists i, j :: 0 <= i < j < |registry| && registry[i] == a && registry[j] == b
  }

  // `a` is to be tried before `b`: the policy prefers it, or the policy mentions
  // neither and the registry lists it first.
  ghost function Before(registry: seq<Provider>, order: seq<string>): (Provider, Provider) -> bool {
    (a: Provider, b: Provider) =>
      var i, j := Preference(order, a.name), Preference(order, b.name);
      i < j || (i == j == |order| && Precedes(registry, a, b))
  }

  // The documented chain: exactly the providers that accept the file and have every required
  // capability, in order of preference.
  ghost predicate IsChain(chain: seq<Provider>, registry: seq<Provider>, r: Route) {
    && (forall p :: p in chain <==>
          p in registry && r.group in p.accepts && forall c :: c in r.required ==> c in p.capabilities)
    && Pairwise(chain, Before(registry, PreferenceOrder(r)))
  }

  lemma PrecedesOneWay(registry: seq<Provider>, a: Provider, b: Provider)
    requires DistinctNames(registry) && Precedes(registry, a, b)
    ensures !Precedes(registry, b, a) && a.name != b.name
  {
  }

  lemma BeforeOneWay(registry: seq<Provider>, order: seq<string>, a: Provider, b: Provider)
    requires DistinctNames(registry)
    ensures !(Before(registry, order)(a, b) && Before(registry, order)(b, a))
  {
    if Precedes(registry, a, b) { PrecedesOneWay(registry, a, b); }
  }

  lemma ChainUnique(xs: seq<Provider>, ys: seq<Provider>, registry: seq<Provider>, r: Route)
    requires DistinctNames(registry) && IsChain(xs, registry, r) && IsChain(ys, registry, r)
    ensures xs == ys
  {
    var before := Before(registry, PreferenceOrder(r));
    forall x, y | x in xs && y in xs ensures !(before(x, y) && before(y, x)) {
      BeforeOneWay(registry, PreferenceOrder(r), x, y);
    }
    OrderedListUnique(xs, ys, before);
  }

  // ---- how the router builds it ----

  // `new Map(registry.map(...))`: the last provider registered under a name wins.
  function ByName(registry: seq<Provider>, name: string): (p: Option<Provider>)
    ensures p.Some? ==> p.value in registry && p.value.name == name
    ensures p.None? ==> !Named(registry, name)
  {
    if registry == [] then None
    else
      var last := registry[|registry| - 1];
      assert registry == registry[..|registry| - 1] + [last];
      if last.name == name then Some(last) else ByName(registry[..|registry| - 1], name)
  }

  function Push(ordered: seq<Provider>, candidate: Option<Provider>, r: Route): seq<Provider> {
    if candidate.Some? && Satisfies(r.group, r.required)(candidate.value) && !Named(ordered, candidate.value.name)
    then ordered + [candidate.value]
    else ordered
  }

  function PushPreferred(registry: seq<Provider>, names: seq<string>, r: Route): seq<Provider> {
    if names == [] then []
    else Push(PushPreferred(registry, names[..|names| - 1], r), ByName(registry, names[|names| - 1]), r)
  }

  function PushRest(ordered: seq<Provider>, rest: seq<Provider>, r: Route): seq<Provider> {
    if rest == [] then ordered
    else Push(PushRest(ordered, rest[..|rest| - 1], r), Some(rest[|rest| - 1]), r)
  }

  function Chain(registry: seq<Provider>, r: Route): seq<Provider> {
    PushRest(PushPreferred(registry, PreferenceOrder(r), r), registry, r)
  }

  // The two loops of the source over `order` and `registry`, sharing `ordered` and `seen`.
  method RouteProvider(registry: seq<Provider>, r: Route) returns (decision: Option<RoutingDecision>)
    ensures decision.None? <==> Chain(registry, r) == []
    ensures decision.Some? ==> [decision.value.provider] + decision.value.fallbacks == Chain(registry, r)
  {
    var order := PreferenceOrder(r);
    var ordered: seq<Provider> := [];
    var seen: set<string> := {};
    for i := 0 to |order|
      invariant ordered == PushPreferred(registry, order[..i], r)
      invariant forall n :: n in seen <==> Named(ordered, n)
    {
      assert order[..i + 1][..i] == order[..i];
      var p := ByName(registry, order[i]);
      if p.Some? && Satisfies(r.group, r.required)(p.value) && p.value.name !in seen {
        ordered, seen := ordered + [p.value], seen + {p.value.name};
      }
    }
    assert order[..|order|] == order;
    ghost var preferred := ordered;
    for i := 0 to |registry|
      invariant ordered == PushRest(preferred, registry[..i], r)
      invariant forall n :: n in seen <==> Named(ordered, n)
    {
      assert registry[..i + 1][..i] == registry[..i];
      var p := registry[i];
      if Satisfies(r.group, r.required)(p) && p.name !in seen {
        ordered, seen := ordered + [p], seen + {p.name};
      }
    }
    assert registry[..|registry|] == registry;
    if ordered == [] {
      decision := None;
    } else {
      decision := Some(RoutingDecision(ordered[0], ordered[1..]));
    }
  }

  // ---- the two agree ----

  lemma SameNameSameProvider(registry: seq<Provider>, a: Provider, b: Provider)
    requires DistinctNames(registry) && a in registry && b in registry && a.name == b.name
    ensures a == b
  {
  }

  lemma {:induction false} PreferredPart(registry: seq<Provider>, order: seq<string>, n: nat, r: Route)
    requires DistinctNames(registry) && n <= |order|
    ensures var part := PushPreferred(registry, order[..n], r);
      && (forall p :: p in part <==> p in registry && Satisfies(r.group, r.required)(p) && p.name in order[..n])
      && Pairwise(part, Before(registry, order))
  {
    if n > 0 {
      assert order[..n][..n - 1] == order[..n - 1];
      PreferredPart(registry, order, n - 1, r);
      var part := PushPreferred(registry, order[..n - 1], r);
      var name := order[n - 1];
      assert forall m :: m in order[..n] <==> m in order[..n - 1] || m == name;
      var candidate := ByName(registry, name);
      forall p | p in registry && p.name == name ensures candidate == Some(p) {
        SameNameSameProvider(registry, p, candidate.value);
      }
      if name !in order[..n - 1] {
        assert Preference(order, name) == n - 1;
        forall p | p in part ensures Preference(order, p.name) < n - 1 {}
      }
    }
  }

  lemma {:induction false} ChainMembers(registry: seq<Provider>, order: seq<string>, n: nat, r: Route, p: Provider)
    requires DistinctNames(registry) && n <= |registry|
    ensures p in PushRest(PushPreferred(registry, order, r), registry[..n], r) <==>
      p in registry && Satisfies(r.group, r.required)(p) && (p.name in order || p in registry[..n])
  {
    if n == 0 {
      assert order[..|order|] == order;
      PreferredPart(registry, order, |order|, r);
    } else {
      assert registry[..n][..n - 1] == registry[..n - 1];
      assert registry[..n] == registry[..n - 1] + [registry[n - 1]];
      ChainMembers(registry, order, n - 1, r, p);
      var part := PushRest(PushPreferred(registry, order, r), registry[..n - 1], r);
      if Named(part, registry[n - 1].name) {
        var q :| q in part && q.name == registry[n - 1].name;
        ChainMembers(registry, order, n - 1, r, q);
        SameNameSameProvider(registry, registry[n - 1], q);
      }
    }
  }

  // A provider the policy does not mention comes after the mentioned ones and the earlier ones.
  lemma RestAfter(registry: seq<Provider>, order: seq<string>, k: nat, q: Provider)
    requires k < |registry| && registry[k].name !in order
    requires q.name in order || q in registry[..k]
    ensures Before(registry, order)(q, registry[k])
  {
    if q.name !in order {
      var i :| 0 <= i < k && registry[i] == q;
      assert Precedes(registry, registry[i], registry[k]);
    } else {
      assert Preference(order, q.name) < |order| == Preference(order, registry[k].name);
    }
  }

  lemma {:induction false} ChainOrdered(registry: seq<Provider>, order: seq<string>, n: nat, r: Route)
    requires DistinctNames(registry) && n <= |registry|
    ensures Pairwise(PushRest(PushPreferred(registry, order, r), registry[..n], r), Before(registry, order))
  {
    if n == 0 {
      assert order[..|order|] == order;
      PreferredPart(registry, order, |order|, r);
    } else {
      assert registry[..n][..n - 1] == registry[..n - 1];
      ChainOrdered(registry, order, n - 1, r);
      var part := PushRest(PushPreferred(registry, order, r), registry[..n - 1], r);
      var p := registry[n - 1];
      if Satisfies(r.group, r.required)(p) && !Named(part, p.name) {
        ChainMembers(registry, order, n - 1, r, p);
        forall q | q in part ensures Before(registry, order)(q, p) {
          ChainMembers(registry, order, n - 1, r, q);
          RestAfter(registry, order, n - 1, q);
        }
      }
    }
  }

  // The chain is the one list that holds exactly the satisfying providers, the
  // preferred names first in policy order and the rest in registry order.
  lemma ChainCharacterised(registry: seq<Provider>, r: Route, chain: seq<Provider>)
    requires DistinctNames(registry)
    ensures IsChain(chain, registry, r) <==> chain == Chain(registry, r)
    ensures NoDuplicates(Chain(registry, r))
  {
    assert registry[..|registry|] == registry;
    var built := Chain(registry, r);
    forall p ensures p in built <==> p in registry && Satisfies(r.group, r.required)(p) {
      ChainMembers(registry, PreferenceOrder(r), |registry|, r, p);
    }
    ChainOrdered(registry, PreferenceOrder(r), |registry|, r);
    assert IsChain(built, registry, r);
    if IsChain(chain, registry, r) { ChainUnique(chain, built, registry, r); }
    forall i, j | 0 <= i < j < |built| ensures built[i] != built[j] {
      BeforeOneWay(registry, PreferenceOrder(r), built[i], built[j]);
    }
  }

  // ---- the configured preference ----

  // The chain of names configured for a function on images or on PDFs: its own, if it has one.
  ghost predicate Configured(r: Route, names: seq<string>) {
    && (r.group.Image? ==>
          var chain := if r.fn in r.policy.overrides && r.policy.overrides[r.fn].image.Some?
                       then r.policy.overrides[r.fn].image.value else r.policy.image;
          names == [chain.primary] + chain.fallbacks)
    && (r.group.Pdf? ==>
          var chain := if r.fn in r.policy.overrides && r.policy.overrides[r.fn].scannedPdf.Some?
                       then r.policy.overrides[r.fn].scannedPdf.value else r.policy.scannedPdf;
          names == (if forall c :: c in r.required ==> c == Text then ["pdf-text"] else [])
                   + [chain.primary] + chain.fallbacks)
    && (r.group.Docx? ==> names == ["mammoth"])
    && (r.group.PlainText? ==> names == ["plain-text"])
  }

  // The first mention of a name in the order.
  ghost predicate FirstAt(names: seq<string>, name: string, i: nat) {
    i < |names| && names[i] == name && forall j :: 0 <= j < i ==> names[j] != name
  }

  lemma FirstIsPreference(names: seq<string>, name: string, i: nat)
    requires FirstAt(names, name, i)
    ensures Preference(names, name) == i
  {
  }

  lemma OrderConfigured(r: Route, names: seq<string>)
    requires Configured(r, names)
    ensures PreferenceOrder(r) == names
  {
  }

  lemma PreferredFirst(registry: seq<Provider>, names: seq<string>, chain: seq<Provider>, a: nat, b: nat)
    requires DistinctNames(registry) && Pairwise(chain, Before(registry, names))
    requires a < |chain| && b < |chain|
    requires Before(registry, names)(chain[a], chain[b])
    ensures a < b
  {
    BeforeOneWay(registry, names, chain[a], chain[b]);
  }

  // Providers are tried in the configured order, a name's first mention counting; those that are
  // not mentioned come last, in registry order.
  lemma ConfiguredOrder(registry: seq<Provider>, r: Route, names: seq<string>, a: nat, b: nat)
    requires DistinctNames(registry) && Configured(r, names)
    requires a < |Chain(registry, r)| && b < |Chain(registry, r)|
    ensures var p, q := Chain(registry, r)[a], Chain(registry, r)[b];
      && (forall i, j :: FirstAt(names, p.name, i) && FirstAt(names, q.name, j) && i < j ==> a < b)
      && (p.name in names && q.name !in names ==> a < b)
      && (p.name !in names && q.name !in names && Precedes(registry, p, q) ==> a < b)
  {
    var chain := Chain(registry, r);
    var p, q := chain[a], chain[b];
    ChainCharacterised(registry, r, chain);
    OrderConfigured(r, names);
    forall i, j | FirstAt(names, p.name, i) && FirstAt(names, q.name, j) && i < j ensures a < b {
      FirstIsPreference(names, p.name, i);
      FirstIsPreference(names, q.name, j);
      PreferredFirst(registry, names, chain, a, b);
    }
    if p.name in names && q.name !in names {
      assert Preference(names, p.name) < |names| == Preference(names, q.name);
      PreferredFirst(registry, names, chain, a, b);
    }
    if p.name !in names && q.name !in names && Precedes(registry, p, q) {
      PreferredFirst(registry, names, chain, a, b);
    }
  }

  // ---- laws ----

  function NotNamed(name: string): Provider -> bool {
    (p: Provider) => p.name != name
  }

  function Has(c: Capability): Provider -> bool {
    (p: Provider) => c in p.capabilities
  }

  lemma SmallerRegistry(registry: seq<Provider>, k: nat, p: Provider)
    requires DistinctNames(registry) && k < |registry|
    ensures p in registry[..k] + registry[k + 1..] <==> p in registry && p.name != registry[k].name
  {
    if p in registry && p.name != registry[k].name {
      var i :| 0 <= i < |registry| && registry[i] == p;
      assert i != k;
      if i < k { assert registry[..k][i] == p; } else { assert registry[k + 1..][i - k - 1] == p; }
    }
  }

  lemma SmallerKeepsOrder(registry: seq<Provider>, k: nat, a: Provider, b: Provider)
    requires k < |registry| && Precedes(registry, a, b)
    requires a.name != registry[k].name && b.name != registry[k].name
    ensures Precedes(registry[..k] + registry[k + 1..], a, b)
  {
    var smaller := registry[..k] + registry[k + 1..];
    var i, j :| 0 <= i < j < |registry| && registry[i] == a && registry[j] == b;
    var i' := if i < k then i else i - 1;
    var j' := if j < k then j else j - 1;
    assert smaller[i'] == a && smaller[j'] == b;
  }

  lemma SmallerKeepsBefore(registry: seq<Provider>, k: nat, order: seq<string>, kept: seq<Provider>)
    requires k < |registry| && Pairwise(kept, Before(registry, order))
    requires forall p :: p in kept ==> p.name != registry[k].name
    ensures Pairwise(kept, Before(registry[..k] + registry[k + 1..], order))
  {
    forall i, j | 0 <= i < j < |kept| ensures Before(registry[..k] + registry[k + 1..], order)(kept[i], kept[j]) {
      assert kept[i] in kept && kept[j] in kept;
      assert Before(registry, order)(kept[i], kept[j]);
      if Precedes(registry, kept[i], kept[j]) { SmallerKeepsOrder(registry, k, kept[i], kept[j]); }
    }
  }

  // Taking one provider out of the registry (a disabled GLM, say) takes it out of the chain
  // and reorders nothing.
  lemma DeletingProviderDeletesFromChain(registry: seq<Provider>, k: nat, r: Route)
    requires DistinctNames(registry) && k < |registry|
    ensures Chain(registry[..k] + registry[k + 1..], r) == Filter(Chain(registry, r), NotNamed(registry[k].name))
  {
    var smaller := registry[..k] + registry[k + 1..];
    var keep := NotNamed(registry[k].name);
    var chain := Chain(registry, r);
    var kept := Filter(chain, keep);
    ChainCharacterised(registry, r, chain);
    forall p ensures p in kept <==> p in chain && p.name != registry[k].name { FilterMember(chain, keep, p); }
    forall p ensures p in smaller <==> p in registry && p.name != registry[k].name {
      SmallerRegistry(registry, k, p);
    }
    FilterPairwise(chain, keep, Before(registry, PreferenceOrder(r)));
    SmallerKeepsBefore(registry, k, PreferenceOrder(r), kept);
    ChainCharacterised(smaller, r, kept);
  }

  lemma FilterIsChain(registry: seq<Provider>, r: Route, c: Capability)
    requires DistinctNames(registry)
    ensures var kept := Filter(Chain(registry, r), Has(c));
      && (forall p :: p in kept <==> p in registry && Satisfies(r.group, r.required + [c])(p))
      && Pairwise(kept, Before(registry, PreferenceOrder(r)))
  {
    var chain := Chain(registry, r);
    ChainCharacterised(registry, r, chain);
    forall p ensures p in Filter(chain, Has(c)) <==> p in registry && Satisfies(r.group, r.required + [c])(p) {
      FilterMember(chain, Has(c), p);
      assert c in r.required + [c];
    }
    FilterPairwise(chain, Has(c), Before(registry, PreferenceOrder(r)));
  }

  // Requiring one more capability just filters the chain, unless it turns a text-only
  // PDF request into one that is not.
  lemma RequiringMoreFilters(registry: seq<Provider>, r: Route, c: Capability)
    requires DistinctNames(registry)
    requires r.group.Pdf? && TextOnly(r.required) ==> c == Text
    ensures Chain(registry, r.(required := r.required + [c])) == Filter(Chain(registry, r), Has(c))
  {
    var r' := r.(required := r.required + [c]);
    if r.group.Pdf? && !TextOnly(r.required) {
      var d :| d in r.required && d != Text;
      assert d in r'.required;
    }
    assert PreferenceOrder(r') == PreferenceOrder(r);
    FilterIsChain(registry, r, c);
    ChainCharacterised(registry, r', Filter(Chain(registry, r), Has(c)));
  }

  // Ahead of every other provider that satisfies the request, by policy and registry alone.
  ghost predicate Foremost(registry: seq<Provider>, r: Route, p: Provider) {
    forall q :: q in registry && q != p && Satisfies(r.group, r.required)(q) ==>
      Before(registry, PreferenceOrder(r))(p, q)
  }

  lemma NothingBefore(registry: seq<Provider>, order: seq<string>, a: Provider, b: Provider)
    requires order != [] && order[0] == b.name
    ensures !Before(registry, order)(a, b)
  {
    assert Preference(order, a.name) >= 0 == Preference(order, b.name);
  }

  // Whoever bears the head name comes first in a list ordered with and without that name.
  lemma LeaderFirst(registry: seq<Provider>, name: string, order: seq<string>, xs: seq<Provider>,
                    p: Provider, q: Provider)
    requires Pairwise(xs, Before(registry, order)) && Pairwise(xs, Before(registry, [name] + order))
    requires p in xs && p.name == name && q in xs && q != p
    ensures Before(registry, order)(p, q)
  {
    var i, j :| 0 <= i < |xs| && 0 <= j < |xs| && xs[i] == p && xs[j] == q;
    NothingBefore(registry, [name] + order, q, p);
    assert i < j;
  }

  // Dropping the head name from the order swaps no two providers, if whoever bears it is ahead anyway.
  lemma HeadStart(registry: seq<Provider>, name: string, order: seq<string>, a: Provider, b: Provider)
    requires DistinctNames(registry)
    requires a.name == name && a != b ==> Before(registry, order)(a, b)
    requires Before(registry, [name] + order)(a, b)
    ensures Before(registry, order)(a, b)
  {
    var longer := [name] + order;
    assert longer[0] == name && longer[1..] == order;
    BeforeOneWay(registry, longer, a, b);
    if a.name != name {
      assert Preference(longer, a.name) == 1 + Preference(order, a.name);
      if b.name == name { NothingBefore(registry, longer, a, b); }
      assert Preference(longer, b.name) == 1 + Preference(order, b.name);
    }
  }

  // When a text-only PDF request gains another capability, "pdf-text" loses its head start. Then
  // the law holds exactly when no provider of that name can serve the stronger request, or policy
  // and registry put it ahead of all others that can.
  lemma PdfTextException(registry: seq<Provider>, r: Route, c: Capability)
    requires DistinctNames(registry)
    requires r.group.Pdf? && TextOnly(r.required) && c != Text
    ensures var r' := r.(required := r.required + [c]);
      Chain(registry, r') == Filter(Chain(registry, r), Has(c)) <==>
      forall p :: p in registry && p.name == "pdf-text" && Satisfies(Pdf, r'.required)(p) ==> Foremost(registry, r', p)
  {
    var r' := r.(required := r.required + [c]);
    var filtered, stricter := Filter(Chain(registry, r), Has(c)), Chain(registry, r');
    assert c in r'.required;
    FilterIsChain(registry, r, c);
    ChainCharacterised(registry, r', stricter);
    var order := PreferenceOrder(r');
    assert PreferenceOrder(r) == ["pdf-text"] + order;
    if filtered == stricter {
      forall p, q | p in stricter && p.name == "pdf-text" && q in stricter && q != p
        ensures Before(registry, order)(p, q)
      {
        LeaderFirst(registry, "pdf-text", order, filtered, p, q);
      }
    }
    if forall p :: p in registry && p.name == "pdf-text" && Satisfies(Pdf, r'.required)(p) ==>
         Foremost(registry, r', p) {
      forall i, j | 0 <= i < j < |filtered| ensures Before(registry, order)(filtered[i], filtered[j]) {
        assert filtered[i] in filtered && filtered[j] in filtered;
        HeadStart(registry, "pdf-text", order, filtered[i], filtered[j]);
      }
      assert IsChain(filtered, registry, r');
      ChainCharacterised(registry, r', filtered);
    }
  }

  // With a "pdf-text" that reads nothing but text, as the shipped one does, the law always holds.
  lemma TextOnlyProviderFilters(registry: seq<Provider>, r: Route, c: Capability)
    requires DistinctNames(registry)
    requires forall p :: p in registry && p.name == "pdf-text" ==> TextOnly(p.capabilities)
    ensures Chain(registry, r.(required := r.required + [c])) == Filter(Chain(registry, r), Has(c))
  {
    if r.group.Pdf? && TextOnly(r.required) && c != Text {
      var r' := r.(required := r.required + [c]);
      assert c in r'.required;
      PdfTextException(registry, r, c);
    } else {
      RequiringMoreFilters(registry, r, c);
    }
  }

  // A registry for which it fails: a "pdf-text" that also reads tables is tried first for text,
  // but not for text with tables.
  lemma FilteringCanFail(fn: FunctionKey) returns (registry: seq<Provider>, r: Route)
    ensures DistinctNames(registry) && r.group.Pdf? && r.required == [Text] && r.fn == fn
    ensures Chain(registry, r.(required := [Text, Tables])) != Filter(Chain(registry, r), Has(Tables))
  {
    var glm, pdfText := Provider("glm-ocr", [Pdf], [Text, Tables]), Provider("pdf-text", [Pdf], [Text, Tables]);
    var chain := FallbackChain("glm-ocr", []);
    registry, r := [glm, pdfText], Route(Pdf, [Text], fn, Policy(chain, chain, map[]));
    var r' := r.(required := [Text] + [Tables]);
    assert r'.required == [Text, Tables];
    PdfTextException(registry, r, Tables);
    assert Tables in r'.required && PreferenceOrder(r') == ["glm-ocr"];
    NothingBefore(registry, ["glm-ocr"], pdfText, glm);
    assert glm in registry && glm != pdfText && Satisfies(Pdf, r'.required)(glm);
    assert pdfText in registry && !Foremost(registry, r', pdfText);
  }
}
