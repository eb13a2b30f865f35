// Keys of the extraction cache (src/cache.ts).
module ExtractionCache {
  import opened Collections
  import opened Text

  const PREFIX := "ocr:extract:"

  function RangeSuffix(pageRange: Option<(nat, nat)>): (suffix: string)
    ensures suffix != "" && (suffix[0] == 'a' <==> pageRange.None?)
    ensures ':' !in suffix
  {
    match pageRange
    case None => "all"
    case Some(range) => Decimal(range.0) + ['-'] + Decimal(range.1)
  }

  function Key(sha256: string, provider: string, pageRange: Option<(nat, nat)>): string {
    PREFIX + (sha256 + [':'] + (provider + [':'] + RangeSuffix(pageRange)))
  }

  lemma RangeInjective(a: Option<(nat, nat)>, b: Option<(nat, nat)>)
    requires RangeSuffix(a) == RangeSuffix(b)
    ensures a == b
  {
    if a.Some? && b.Some? {
      SplitAtFirst(Decimal(a.value.0), Decimal(a.value.1), Decimal(b.value.0), Decimal(b.value.1), '-');
      DecimalInjective(a.value.0, b.value.0);
      DecimalInjective(a.value.1, b.value.1);
    }
  }

  lemma DropPrefix(prefix: string, s: string, t: string)
    requires prefix + s == prefix + t
    ensures s == t
  {
    assert (prefix + s)[|prefix|..] == s && (prefix + t)[|prefix|..] == t;
  }

  // A key tells the file, the provider (whatever its name) and the page range apart.
  lemma KeyInjective(sha: string, provider: string, range: Option<(nat, nat)>,
                     sha': string, provider': string, range': Option<(nat, nat)>)
    requires ':' !in sha && ':' !in sha'
    requires Key(sha, provider, range) == Key(sha', provider', range')
    ensures sha == sha' && provider == provider' && range == range'
  {
    var tail, tail' := provider + [':'] + RangeSuffix(range), provider' + [':'] + RangeSuffix(range');
    DropPrefix(PREFIX, sha + [':'] + tail, sha' + [':'] + tail');
    SplitAtFirst(sha, tail, sha', tail', ':');
    SplitAtLast(provider, RangeSuffix(range), provider', RangeSuffix(range'), ':');
    RangeInjective(range, range');
  }
}
