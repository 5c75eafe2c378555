/**
 Work partitions: the symbol universe cut into stable buckets, one partition per bucket and
 provider. The hash is a parameter; nothing depends on which one it is.
 */
module Partitions {
  import opened Wrappers
  import opened Text
  import opened SeqFacts
  import opened Recovery

  datatype WorkPartition = WorkPartition(slot: Slot, symbols: seq<string>)

  datatype PartitionError = BadBucketCount | NoSymbols | NoProviders

  // ------------------------------------------------------------ sorting without repetition

  ghost predicate TotalOrder<T(!new)>(le: (T, T) -> bool) {
    && (forall x, y :: le(x, y) || le(y, x))
    && (forall x, y :: le(x, y) && le(y, x) ==> x == y)
    && (forall x, y, z :: le(x, y) && le(y, z) ==> le(x, z))
  }

  ghost predicate StrictlySorted<T(!new)>(s: seq<T>, le: (T, T) -> bool) {
    forall i, j :: 0 <= i < j < |s| ==> le(s[i], s[j]) && s[i] != s[j]
  }

  function Insert<T(==)>(x: T, s: seq<T>, le: (T, T) -> bool): seq<T> {
    if s == [] then [x]
    else if s[0] == x then s
    else if le(x, s[0]) then [x] + s
    else [s[0]] + Insert(x, s[1..], le)
  }

  /** `sorted(set(xs))`. */
  function SortUnique<T(==)>(xs: seq<T>, le: (T, T) -> bool): seq<T> {
    if xs == [] then [] else Insert(xs[0], SortUnique(xs[1..], le), le)
  }

  lemma SortedTail<T(!new)>(s: seq<T>, le: (T, T) -> bool)
    requires StrictlySorted(s, le) && s != []
    ensures StrictlySorted(s[1..], le)
    ensures forall y :: y in s[1..] ==> le(s[0], y) && y != s[0]
  {
  }

  lemma SortedCons<T(!new)>(x: T, s: seq<T>, le: (T, T) -> bool)
    requires StrictlySorted(s, le)
    requires forall y :: y in s ==> le(x, y) && y != x
    ensures StrictlySorted([x] + s, le)
  {
  }

  lemma {:induction false} InsertSorts<T(!new)>(x: T, s: seq<T>, le: (T, T) -> bool)
    requires TotalOrder(le) && StrictlySorted(s, le)
    ensures StrictlySorted(Insert(x, s, le), le)
    ensures forall y :: y in Insert(x, s, le) <==> y == x || y in s
  {
    if s == [] {
    } else {
      SortedTail(s, le);
      assert s == [s[0]] + s[1..];
      if s[0] != x {
        if le(x, s[0]) {
          SortedCons(x, s, le);
        } else {
          InsertSorts(x, s[1..], le);
          SortedCons(s[0], Insert(x, s[1..], le), le);
        }
      }
    }
  }

  lemma {:induction false} SortUniqueSorts<T(!new)>(xs: seq<T>, le: (T, T) -> bool)
    requires TotalOrder(le)
    ensures StrictlySorted(SortUnique(xs, le), le)
    ensures forall y :: y in SortUnique(xs, le) <==> y in xs
  {
    if xs != [] {
      SortUniqueSorts(xs[1..], le);
      InsertSorts(xs[0], SortUnique(xs[1..], le), le);
      assert xs == [xs[0]] + xs[1..];
    }
  }

  lemma HasElement<T(!new)>(t: seq<T>)
    ensures t != [] ==> exists y :: y in t
  {
    if t != [] {
      assert t[0] in t;
    }
  }

  /** There is only one strictly sorted sequence of given elements. */
  lemma {:induction false} SortedIsUnique<T(!new)>(s: seq<T>, t: seq<T>, le: (T, T) -> bool)
    requires TotalOrder(le) && StrictlySorted(s, le) && StrictlySorted(t, le)
    requires forall y :: y in s <==> y in t
    ensures s == t
  {
    if s == [] {
      HasElement(t);
    } else {
      assert s[0] in t && t != [];
      assert t[0] in s;
      assert s == [s[0]] + s[1..] && t == [t[0]] + t[1..];
      assert le(s[0], t[0]) && le(t[0], s[0]);
      forall y ensures y in s[1..] <==> y in t[1..] {
        assert y in s[1..] ==> y in s && y != s[0];
        assert y in t[1..] ==> y in t && y != t[0];
      }
      SortedIsUnique(s[1..], t[1..], le);
    }
  }

  lemma TextIsOrdered()
    ensures TotalOrder(AtMost)
  {
    forall x, y ensures AtMost(x, y) || AtMost(y, x) { AtMostTotal(x, y); }
    forall x, y | AtMost(x, y) && AtMost(y, x) ensures x == y { AtMostAntisymmetric(x, y); }
    forall x, y, z | AtMost(x, y) && AtMost(y, z) ensures AtMost(x, z) { AtMostTransitive(x, y, z); }
  }

  predicate NatAtMost(x: nat, y: nat) {
    x <= y
  }

  // ------------------------------------------------------------ the partitions

  function CanonAll(xs: seq<string>): (r: seq<string>)
    ensures |r| == |xs|
  {
    seq(|xs|, i requires 0 <= i < |xs| => Canon(xs[i]))
  }

  /** `dict.fromkeys(...)`: first occurrences, in order. */
  function FirstOccurrences(xs: seq<string>): seq<string> {
    if xs == [] then []
    else
      var before, last := FirstOccurrences(xs[..|xs| - 1]), xs[|xs| - 1];
      if last in before then before else before + [last]
  }

  /** `symbol_bucket` for a canonical symbol. */
  function BucketOf(symbol: string, bucketCount: nat, hash: string -> nat): nat
    requires bucketCount > 0
  {
    hash(Canon(symbol)) % bucketCount
  }

  function InBucket(symbols: seq<string>, b: nat, bucketCount: nat, hash: string -> nat): seq<string>
    requires bucketCount > 0
  {
    if symbols == [] then []
    else
      var last := symbols[|symbols| - 1];
      InBucket(symbols[..|symbols| - 1], b, bucketCount, hash)
      + if BucketOf(last, bucketCount, hash) == b then [last] else []
  }

  function BucketsOf(symbols: seq<string>, bucketCount: nat, hash: string -> nat): seq<nat>
    requires bucketCount > 0
  {
    seq(|symbols|, i requires 0 <= i < |symbols| => BucketOf(symbols[i], bucketCount, hash))
  }

  function ForProviders(providers: seq<string>, b: nat, symbols: seq<string>): seq<WorkPartition> {
    seq(|providers|, i requires 0 <= i < |providers| => WorkPartition(Slot(providers[i], b), symbols))
  }

  function ForBuckets(buckets: seq<nat>, providers: seq<string>, symbols: seq<string>, bucketCount: nat,
                      hash: string -> nat): seq<seq<WorkPartition>>
    requires bucketCount > 0
  {
    seq(|buckets|, i requires 0 <= i < |buckets| =>
      ForProviders(providers, buckets[i], InBucket(symbols, buckets[i], bucketCount, hash)))
  }

  /** What `build_work_partitions` returns. */
  function Build(symbols: seq<string>, providers: seq<string>, bucketCount: int,
                 hash: string -> nat)
    : Result<seq<WorkPartition>, PartitionError>
  {
    if symbols == [] then Err(NoSymbols)
    else if providers == [] then Err(NoProviders)
    else if bucketCount <= 0 then Err(BadBucketCount)
    else
      var universe := SortUnique(CanonAll(symbols), AtMost);
      var buckets := SortUnique(BucketsOf(universe, bucketCount, hash), NatAtMost);
      Ok(Concat(ForBuckets(buckets, FirstOccurrences(CanonAll(providers)), universe, bucketCount, hash)))
  }

  /** The inner loop of `build_work_partitions`: one partition per provider for one bucket. */
  method OnePerProvider(providers: seq<string>, b: nat, symbols: seq<string>) returns (block: seq<WorkPartition>)
    ensures block == ForProviders(providers, b, symbols)
  {
    block := [];
    for i := 0 to |providers|
      invariant block == ForProviders(providers, b, symbols)[..i]
    {
      block := block + [WorkPartition(Slot(providers[i], b), symbols)];
    }
  }

  /** The bucket dictionary and the partition list, filled in loops. */
  method BuildWorkPartitions(symbols: seq<string>, providers: seq<string>, bucketCount: int, hash: string -> nat)
    returns (r: Result<seq<WorkPartition>, PartitionError>)
    ensures r == Build(symbols, providers, bucketCount, hash)
    ensures r.Err? <==> symbols == [] || providers == [] || bucketCount <= 0
    ensures r.Err? ==> r.error == if symbols == [] then NoSymbols
                                  else if providers == [] then NoProviders else BadBucketCount
    ensures r.Ok? ==> CoversConfigured(r.value, symbols, providers, bucketCount, hash)
  {
    if symbols != [] && providers != [] && bucketCount > 0 {
      BuildCovers(symbols, providers, bucketCount, hash);
    }
    var universe := SortUnique(CanonAll(symbols), AtMost);
    var names := FirstOccurrences(CanonAll(providers));
    if symbols == [] {
      return Err(NoSymbols);
    }
    if providers == [] {
      return Err(NoProviders);
    }
    if bucketCount <= 0 {
      return Err(BadBucketCount);
    }
    var buckets: map<nat, seq<string>> := FillBuckets(universe, bucketCount, hash);
    var order := SortUnique(BucketsOf(universe, bucketCount, hash), NatAtMost);
    assert TotalOrder(NatAtMost);
    SortUniqueSorts(BucketsOf(universe, bucketCount, hash), NatAtMost);
    ghost var blocks := ForBuckets(order, names, universe, bucketCount, hash);
    var partitions := [];
    for k := 0 to |order|
      invariant partitions == Concat(blocks[..k])
    {
      assert order[k] in order;
      ConcatSnoc(blocks, k);
      var block := OnePerProvider(names, order[k], buckets[order[k]]);
      assert block == blocks[k];
      partitions := partitions + block;
    }
    assert blocks[..|order|] == blocks;
    r := Ok(partitions);
  }

  /** `buckets.setdefault(symbol_bucket(symbol), []).append(symbol)` for every symbol. */
  method FillBuckets(universe: seq<string>, bucketCount: nat, hash: string -> nat)
    returns (buckets: map<nat, seq<string>>)
    requires bucketCount > 0
    ensures forall b :: b in buckets <==> b in BucketsOf(universe, bucketCount, hash)
    ensures forall b :: b in buckets ==> buckets[b] == InBucket(universe, b, bucketCount, hash)
  {
    buckets := map[];
    for k := 0 to |universe|
      invariant forall b :: b in buckets <==> b in BucketsOf(universe[..k], bucketCount, hash)
      invariant forall b: nat ::
                  InBucket(universe[..k], b, bucketCount, hash) == if b in buckets then buckets[b] else []
    {
      var b := BucketOf(universe[k], bucketCount, hash);
      assert universe[..k + 1][..k] == universe[..k];
      assert BucketsOf(universe[..k + 1], bucketCount, hash) == BucketsOf(universe[..k], bucketCount, hash) + [b];
      buckets := buckets[b := (if b in buckets then buckets[b] else []) + [universe[k]]];
    }
    assert universe[..|universe|] == universe;
  }

  // ------------------------------------------------------------ what the partitions are

  lemma {:induction false} FirstOccurrencesAre(xs: seq<string>)
    ensures NoDuplicates(FirstOccurrences(xs))
    ensures forall x :: x in FirstOccurrences(xs) <==> x in xs
  {
    if xs != [] {
      FirstOccurrencesAre(xs[..|xs| - 1]);
      assert xs == xs[..|xs| - 1] + [xs[|xs| - 1]];
    }
  }

  lemma {:induction false} InBucketIs(symbols: seq<string>, b: nat, bucketCount: nat, hash: string -> nat)
    requires bucketCount > 0
    ensures forall s ::
              s in InBucket(symbols, b, bucketCount, hash) <==> s in symbols && BucketOf(s, bucketCount, hash) == b
  {
    if symbols != [] {
      InBucketIs(symbols[..|symbols| - 1], b, bucketCount, hash);
      assert symbols == symbols[..|symbols| - 1] + [symbols[|symbols| - 1]];
    }
  }

  lemma UniverseIs(symbols: seq<string>, s: string)
    ensures s in SortUnique(CanonAll(symbols), AtMost) <==> s in CanonAll(symbols)
    ensures s in CanonAll(symbols) ==> Canon(s) == s
  {
    TextIsOrdered();
    SortUniqueSorts(CanonAll(symbols), AtMost);
    if s in CanonAll(symbols) {
      var i :| 0 <= i < |symbols| && CanonAll(symbols)[i] == s;
      CanonIdempotent(symbols[i]);
    }
  }

  /** A partition of the result is a bucket that occurs, at a provider that was asked for. */
  lemma PartitionIs(symbols: seq<string>, providers: seq<string>, bucketCount: int, hash: string -> nat,
                    w: WorkPartition)
    requires Build(symbols, providers, bucketCount, hash).Ok?
    ensures var universe := SortUnique(CanonAll(symbols), AtMost);
            w in Build(symbols, providers, bucketCount, hash).value
            <==> w.slot.provider in CanonAll(providers) && w.slot.bucket in BucketsOf(universe, bucketCount, hash)
                 && w.symbols == InBucket(universe, w.slot.bucket, bucketCount, hash)
  {
    var universe := SortUnique(CanonAll(symbols), AtMost);
    var buckets := SortUnique(BucketsOf(universe, bucketCount, hash), NatAtMost);
    var names := FirstOccurrences(CanonAll(providers));
    var blocks := ForBuckets(buckets, names, universe, bucketCount, hash);
    assert TotalOrder(NatAtMost);
    SortUniqueSorts(BucketsOf(universe, bucketCount, hash), NatAtMost);
    FirstOccurrencesAre(CanonAll(providers));
    if w in Concat(blocks) {
      var k := BlockOf(blocks, w);
      var i :| 0 <= i < |names| && blocks[k][i] == w;
      assert names[i] in names && buckets[k] in buckets;
    }
    if w.slot.provider in CanonAll(providers) && w.slot.bucket in BucketsOf(universe, bucketCount, hash)
       && w.symbols == InBucket(universe, w.slot.bucket, bucketCount, hash) {
      var k :| 0 <= k < |buckets| && buckets[k] == w.slot.bucket;
      var i :| 0 <= i < |names| && names[i] == w.slot.provider;
      assert blocks[k][i] == w;
      InBlock(blocks, w, k);
    }
  }

  /**
   Exact cover: at every provider each canonical symbol is in the partition of its bucket and in no
   other, and partitions hold nothing else.
   */
  lemma PartitionsCoverExactly(symbols: seq<string>, providers: seq<string>, bucketCount: int, hash: string -> nat,
                               p: string, s: string)
    requires Build(symbols, providers, bucketCount, hash).Ok? && p in CanonAll(providers)
    ensures var parts := Build(symbols, providers, bucketCount, hash).value;
            && (s in CanonAll(symbols) <==> exists w :: w in parts && w.slot.provider == p && s in w.symbols)
            && (forall w :: w in parts && s in w.symbols ==> w.slot.bucket == BucketOf(s, bucketCount, hash))
            && (forall w, w' :: w in parts && w' in parts && w.slot == w'.slot ==> w == w')
  {
    var universe := SortUnique(CanonAll(symbols), AtMost);
    var parts := Build(symbols, providers, bucketCount, hash).value;
    UniverseIs(symbols, s);
    forall w
      ensures w in parts ==> (s in w.symbols <==> s in universe && BucketOf(s, bucketCount, hash) == w.slot.bucket)
    {
      PartitionIs(symbols, providers, bucketCount, hash, w);
      InBucketIs(universe, w.slot.bucket, bucketCount, hash);
    }
    if s in universe {
      var b := BucketOf(s, bucketCount, hash);
      var w := WorkPartition(Slot(p, b), InBucket(universe, b, bucketCount, hash));
      var i :| 0 <= i < |universe| && universe[i] == s;
      assert BucketsOf(universe, bucketCount, hash)[i] == b;
      PartitionIs(symbols, providers, bucketCount, hash, w);
    }
    forall w, w' | w in parts && w' in parts && w.slot == w'.slot ensures w == w' {
      PartitionIs(symbols, providers, bucketCount, hash, w);
      PartitionIs(symbols, providers, bucketCount, hash, w');
    }
  }

  /** Some entry of the list differs from `x` in case and surrounding white space only. */
  ghost predicate Lists(symbols: seq<string>, x: string) {
    exists j :: 0 <= j < |symbols| && SameSpelling(x, symbols[j])
  }

  /** Every symbol of one list is listed in the other, in some spelling. */
  ghost predicate Respelled(symbols: seq<string>, symbols': seq<string>) {
    forall i :: 0 <= i < |symbols| ==> Lists(symbols', symbols[i])
  }

  lemma CanonListed(symbols: seq<string>, x: string)
    requires Lists(symbols, x)
    ensures Canon(x) in CanonAll(symbols)
  {
    var j :| 0 <= j < |symbols| && SameSpelling(x, symbols[j]);
    CanonAgreesIff(x, symbols[j]);
    assert CanonAll(symbols)[j] == Canon(x);
  }

  lemma RespelledIsCanonical(symbols: seq<string>, symbols': seq<string>)
    requires Respelled(symbols, symbols')
    ensures forall s :: s in CanonAll(symbols) ==> s in CanonAll(symbols')
  {
    forall i | 0 <= i < |symbols| ensures CanonAll(symbols)[i] in CanonAll(symbols') {
      CanonListed(symbols', symbols[i]);
    }
  }

  lemma SameUniverse(symbols: seq<string>, symbols': seq<string>)
    requires forall s :: s in CanonAll(symbols) <==> s in CanonAll(symbols')
    ensures SortUnique(CanonAll(symbols), AtMost) == SortUnique(CanonAll(symbols'), AtMost)
    ensures symbols == [] <==> symbols' == []
  {
    TextIsOrdered();
    SortUniqueSorts(CanonAll(symbols), AtMost);
    SortUniqueSorts(CanonAll(symbols'), AtMost);
    SortedIsUnique(SortUnique(CanonAll(symbols), AtMost), SortUnique(CanonAll(symbols'), AtMost), AtMost);
    if symbols != [] { assert CanonAll(symbols)[0] in CanonAll(symbols); }
    if symbols' != [] { assert CanonAll(symbols')[0] in CanonAll(symbols'); }
  }

  /** Order, case, padding and repetition of the configured symbols do not matter. */
  lemma SpellingDoesNotMatter(symbols: seq<string>, symbols': seq<string>, providers: seq<string>, bucketCount: int,
                              hash: string -> nat)
    requires Respelled(symbols, symbols') && Respelled(symbols', symbols)
    ensures Build(symbols, providers, bucketCount, hash) == Build(symbols', providers, bucketCount, hash)
  {
    RespelledIsCanonical(symbols, symbols');
    RespelledIsCanonical(symbols', symbols);
    SameUniverse(symbols, symbols');
  }

  lemma BucketIsRemainder(h: nat, n: nat)
    requires n > 0
    ensures h % n < n && exists q: nat :: h == q * n + h % n
  {
    var q: nat := h / n;
    assert h == q * n + h % n;
  }

  lemma PartitionOf(symbols: seq<string>, providers: seq<string>, bucketCount: int, hash: string -> nat,
                    x: string, p: string) returns (w: WorkPartition)
    requires Build(symbols, providers, bucketCount, hash).Ok? && x in symbols && p in CanonAll(providers)
    ensures var parts := Build(symbols, providers, bucketCount, hash).value;
            && w in parts && w.slot.provider == p && Canon(x) in w.symbols
            && (forall w' :: w' in parts && w'.slot.provider == p && Canon(x) in w'.symbols ==> w' == w)
    ensures w.slot.bucket == hash(Canon(x)) % bucketCount
  {
    var k :| 0 <= k < |symbols| && symbols[k] == x;
    assert CanonAll(symbols)[k] == Canon(x);
    CanonIdempotent(x);
    PartitionsCoverExactly(symbols, providers, bucketCount, hash, p, Canon(x));
    w :| w in Build(symbols, providers, bucketCount, hash).value && w.slot.provider == p && Canon(x) in w.symbols;
  }

  /**
   Every configured symbol is worked on once per provider: it has one upper-case spelling, which is in
   the partition of the bucket that its hash leaves, and in no other.
   */
  lemma EverySymbolOnce(symbols: seq<string>, providers: seq<string>, bucketCount: int, hash: string -> nat,
                        x: string, p: string) returns (s: string, w: WorkPartition)
    requires Build(symbols, providers, bucketCount, hash).Ok? && x in symbols && p in CanonAll(providers)
    ensures var parts := Build(symbols, providers, bucketCount, hash).value;
            && Spells(s, x) && w in parts && w.slot.provider == p && s in w.symbols
            && (forall s', w' :: Spells(s', x) && w' in parts && w'.slot.provider == p && s' in w'.symbols
                                 ==> s' == s && w' == w)
            && w.slot.bucket < bucketCount
            && exists q: nat :: hash(s) == q * bucketCount + w.slot.bucket
  {
    s := Canon(x);
    forall u ensures Spells(u, x) <==> u == s {
      CanonIff(u, x);
    }
    w := PartitionOf(symbols, providers, bucketCount, hash, x, p);
    BucketIsRemainder(hash(s), bucketCount);
  }

  /** Nothing is worked on that was not asked for. */
  lemma OnlyConfiguredSymbols(symbols: seq<string>, providers: seq<string>, bucketCount: int, hash: string -> nat,
                              w: WorkPartition, s: string) returns (x: string, p: string)
    requires Build(symbols, providers, bucketCount, hash).Ok?
    requires w in Build(symbols, providers, bucketCount, hash).value && s in w.symbols
    ensures x in symbols && Spells(s, x) && p in providers && Spells(w.slot.provider, p)
  {
    PartitionIs(symbols, providers, bucketCount, hash, w);
    PartitionsCoverExactly(symbols, providers, bucketCount, hash, w.slot.provider, s);
    var k :| 0 <= k < |symbols| && CanonAll(symbols)[k] == s;
    var m :| 0 <= m < |providers| && CanonAll(providers)[m] == w.slot.provider;
    x, p := symbols[k], providers[m];
    CanonIff(s, x);
    CanonIff(w.slot.provider, p);
  }

  ghost predicate SpelledBy(xs: seq<string>, s: string) {
    exists x :: x in xs && Spells(s, x)
  }

  ghost predicate WorksOn(parts: seq<WorkPartition>, p: string, s: string) {
    exists w :: w in parts && w.slot.provider == p && s in w.symbols
  }

  /** `b` is what `n` leaves of `h`. */
  ghost predicate IsRemainder(h: nat, n: int, b: nat) {
    b < n && exists q: nat :: h == q * n + b
  }

  /**
   Each spelling of a configured symbol is worked on at each spelling of a configured provider and
   nothing else is; no partition is empty or comes twice, and each has the symbols of its bucket.
   */
  ghost predicate CoversConfigured(parts: seq<WorkPartition>, symbols: seq<string>, providers: seq<string>,
                                   bucketCount: int, hash: string -> nat)
  {
    && (forall p, s :: WorksOn(parts, p, s) <==> SpelledBy(providers, p) && SpelledBy(symbols, s))
    && (forall w :: w in parts ==> w.symbols != [])
    && (forall w, s :: w in parts && s in w.symbols ==> IsRemainder(hash(s), bucketCount, w.slot.bucket))
    && (forall i, j :: 0 <= i < j < |parts| ==> parts[i].slot != parts[j].slot)
  }

  lemma SpelledIff(xs: seq<string>, s: string)
    ensures SpelledBy(xs, s) <==> s in CanonAll(xs)
  {
    if x :| x in xs && Spells(s, x) {
      CanonIff(s, x);
      var i :| 0 <= i < |xs| && xs[i] == x;
      assert CanonAll(xs)[i] == s;
    }
    if s in CanonAll(xs) {
      var i :| 0 <= i < |xs| && CanonAll(xs)[i] == s;
      CanonIff(s, xs[i]);
      assert xs[i] in xs;
    }
  }

  lemma WorksOnIff(symbols: seq<string>, providers: seq<string>, bucketCount: int, hash: string -> nat,
                   p: string, s: string)
    requires Build(symbols, providers, bucketCount, hash).Ok?
    ensures WorksOn(Build(symbols, providers, bucketCount, hash).value, p, s)
            <==> SpelledBy(providers, p) && SpelledBy(symbols, s)
  {
    var parts := Build(symbols, providers, bucketCount, hash).value;
    SpelledIff(providers, p);
    SpelledIff(symbols, s);
    if p in CanonAll(providers) {
      PartitionsCoverExactly(symbols, providers, bucketCount, hash, p, s);
    } else {
      forall w | w in parts ensures w.slot.provider != p {
        PartitionIs(symbols, providers, bucketCount, hash, w);
      }
    }
  }

  lemma SymbolsOfPartition(symbols: seq<string>, providers: seq<string>, bucketCount: int, hash: string -> nat,
                           w: WorkPartition)
    requires Build(symbols, providers, bucketCount, hash).Ok?
    requires w in Build(symbols, providers, bucketCount, hash).value
    ensures w.symbols != []
    ensures forall s :: s in w.symbols ==> IsRemainder(hash(s), bucketCount, w.slot.bucket)
  {
    var universe, b := SortUnique(CanonAll(symbols), AtMost), w.slot.bucket;
    PartitionIs(symbols, providers, bucketCount, hash, w);
    InBucketIs(universe, b, bucketCount, hash);
    var i :| 0 <= i < |universe| && BucketsOf(universe, bucketCount, hash)[i] == b;
    assert universe[i] in w.symbols;
    forall s | s in w.symbols ensures IsRemainder(hash(s), bucketCount, b) {
      UniverseIs(symbols, s);
      BucketIsRemainder(hash(s), bucketCount);
    }
  }

  lemma BuildCovers(symbols: seq<string>, providers: seq<string>, bucketCount: int, hash: string -> nat)
    requires Build(symbols, providers, bucketCount, hash).Ok?
    ensures CoversConfigured(Build(symbols, providers, bucketCount, hash).value, symbols, providers, bucketCount, hash)
  {
    var parts := Build(symbols, providers, bucketCount, hash).value;
    forall p, s ensures WorksOn(parts, p, s) <==> SpelledBy(providers, p) && SpelledBy(symbols, s) {
      WorksOnIff(symbols, providers, bucketCount, hash, p, s);
    }
    forall w | w in parts
      ensures w.symbols != [] && forall s :: s in w.symbols ==> IsRemainder(hash(s), bucketCount, w.slot.bucket)
    {
      SymbolsOfPartition(symbols, providers, bucketCount, hash, w);
    }
    SlotsDiffer(symbols, providers, bucketCount, hash);
    forall i, j | 0 <= i < j < |parts| ensures parts[i].slot != parts[j].slot {
      assert SlotOf(parts[i]) != SlotOf(parts[j]);
    }
  }

  // ------------------------------------------------------------ order

  /** `x` is listed before `y` is listed for the first time. */
  ghost predicate ListedFirst(xs: seq<string>, x: string, y: string) {
    exists k :: 0 <= k < |xs| && xs[k] == x && y !in xs[..k + 1]
  }

  lemma {:induction false} FirstOccurrencesInOrder(xs: seq<string>, i: nat, j: nat)
    requires i < j < |FirstOccurrences(xs)|
    ensures ListedFirst(xs, FirstOccurrences(xs)[i], FirstOccurrences(xs)[j])
  {
    var n := |xs| - 1;
    var before := FirstOccurrences(xs[..n]);
    var x, y := FirstOccurrences(xs)[i], FirstOccurrences(xs)[j];
    FirstOccurrencesAre(xs[..n]);
    if j < |before| {
      FirstOccurrencesInOrder(xs[..n], i, j);
      var k :| 0 <= k < n && xs[..n][k] == x && y !in xs[..n][..k + 1];
      assert xs[k] == x && xs[..k + 1] == xs[..n][..k + 1];
    } else {
      assert x in before;
      var k :| 0 <= k < n && xs[..n][k] == x;
      assert xs[k] == x && y !in xs[..k + 1] by {
        assert forall c :: c in xs[..k + 1] ==> c in xs[..n];
      }
    }
  }

  /** Buckets ascend, and within a bucket the providers come as they are listed. */
  predicate InOrder(names: seq<string>, v: WorkPartition, w: WorkPartition) {
    || v.slot.bucket < w.slot.bucket
    || (v.slot.bucket == w.slot.bucket
        && exists i, j :: 0 <= i < j < |names| && names[i] == v.slot.provider && names[j] == w.slot.provider)
  }

  /** The order of the partitions, and of the symbols in each. */
  lemma PartitionsAreOrdered(symbols: seq<string>, providers: seq<string>, bucketCount: int, hash: string -> nat)
    requires Build(symbols, providers, bucketCount, hash).Ok?
    ensures var parts := Build(symbols, providers, bucketCount, hash).value;
            && (forall i, j :: 0 <= i < j < |parts| ==>
                  InOrder(FirstOccurrences(CanonAll(providers)), parts[i], parts[j]))
            && (forall w, i, j :: w in parts && 0 <= i < j < |w.symbols| ==>
                  AtMost(w.symbols[i], w.symbols[j]) && w.symbols[i] != w.symbols[j])
  {
    var universe := SortUnique(CanonAll(symbols), AtMost);
    var buckets := SortUnique(BucketsOf(universe, bucketCount, hash), NatAtMost);
    var names := FirstOccurrences(CanonAll(providers));
    var blocks := ForBuckets(buckets, names, universe, bucketCount, hash);
    var before := (v: WorkPartition, w: WorkPartition) => InOrder(names, v, w);
    TextIsOrdered();
    SortUniqueSorts(CanonAll(symbols), AtMost);
    assert TotalOrder(NatAtMost);
    SortUniqueSorts(BucketsOf(universe, bucketCount, hash), NatAtMost);
    forall k | 0 <= k < |blocks| ensures OrderedBy(blocks[k], before) {
    }
    forall k, m, x, y | 0 <= k < m < |blocks| && x in blocks[k] && y in blocks[m] ensures before(x, y) {
      assert x.slot.bucket == buckets[k] && y.slot.bucket == buckets[m];
      assert NatAtMost(buckets[k], buckets[m]) && buckets[k] != buckets[m];
    }
    ConcatOrdered(blocks, before);
    forall w | w in Concat(blocks) ensures StrictlySorted(w.symbols, AtMost) {
      PartitionIs(symbols, providers, bucketCount, hash, w);
      InBucketSorted(universe, w.slot.bucket, bucketCount, hash);
    }
  }

  lemma {:induction false} InBucketSorted(symbols: seq<string>, b: nat, bucketCount: nat, hash: string -> nat)
    requires bucketCount > 0 && StrictlySorted(symbols, AtMost)
    ensures StrictlySorted(InBucket(symbols, b, bucketCount, hash), AtMost)
  {
    if symbols != [] {
      var before, last := symbols[..|symbols| - 1], symbols[|symbols| - 1];
      InBucketSorted(before, b, bucketCount, hash);
      InBucketIs(before, b, bucketCount, hash);
      var kept := InBucket(before, b, bucketCount, hash);
      forall i | 0 <= i < |kept| ensures AtMost(kept[i], last) && kept[i] != last {
        assert kept[i] in before;
      }
    }
  }

  // ------------------------------------------------------------ the plan of a run

  function SlotOf(w: WorkPartition): Slot {
    w.slot
  }

  /** The plan that the batch derives from its partitions. */
  function PlanOf(providers: seq<string>, parts: seq<WorkPartition>): Plan {
    Plan(FirstOccurrences(CanonAll(providers)), seq(|parts|, i requires 0 <= i < |parts| => parts[i].slot))
  }

  lemma BlockSlotsDiffer(providers: seq<string>, b: nat, symbols: seq<string>)
    requires NoDuplicates(providers)
    ensures DistinctBy(ForProviders(providers, b, symbols), SlotOf)
  {
  }

  lemma SlotsDiffer(symbols: seq<string>, providers: seq<string>, bucketCount: int, hash: string -> nat)
    requires Build(symbols, providers, bucketCount, hash).Ok?
    ensures DistinctBy(Build(symbols, providers, bucketCount, hash).value, SlotOf)
  {
    var universe := SortUnique(CanonAll(symbols), AtMost);
    var buckets := SortUnique(BucketsOf(universe, bucketCount, hash), NatAtMost);
    var names := FirstOccurrences(CanonAll(providers));
    var blocks := ForBuckets(buckets, names, universe, bucketCount, hash);
    assert TotalOrder(NatAtMost);
    SortUniqueSorts(BucketsOf(universe, bucketCount, hash), NatAtMost);
    FirstOccurrencesAre(CanonAll(providers));
    forall k | 0 <= k < |blocks| ensures DistinctBy(blocks[k], SlotOf) {
      BlockSlotsDiffer(names, buckets[k], InBucket(universe, buckets[k], bucketCount, hash));
    }
    forall k, m, x, y | 0 <= k < m < |blocks| && x in blocks[k] && y in blocks[m] ensures SlotOf(x) != SlotOf(y) {
      assert x.slot.bucket == buckets[k] && y.slot.bucket == buckets[m];
    }
    ConcatDistinct(blocks, SlotOf);
  }

  /** The partitions make a proper plan: distinct slots at known, distinct providers. */
  lemma PlanIsWellFormed(symbols: seq<string>, providers: seq<string>, bucketCount: int, hash: string -> nat)
    requires Build(symbols, providers, bucketCount, hash).Ok?
    ensures var parts := Build(symbols, providers, bucketCount, hash).value;
            var plan := PlanOf(providers, parts);
            && plan.WellFormed()
            && |plan.slots| == |parts| && (forall i :: 0 <= i < |parts| ==> plan.slots[i] == parts[i].slot)
            && forall p :: p in plan.providers <==> SpelledBy(providers, p)
  {
    forall p ensures SpelledBy(providers, p) <==> p in CanonAll(providers) {
      SpelledIff(providers, p);
    }
    var parts := Build(symbols, providers, bucketCount, hash).value;
    var plan := PlanOf(providers, parts);
    SlotsDiffer(symbols, providers, bucketCount, hash);
    FirstOccurrencesAre(CanonAll(providers));
    forall i | 0 <= i < |plan.slots| ensures plan.slots[i].provider in plan.providers {
      assert parts[i] in parts;
      PartitionIs(symbols, providers, bucketCount, hash, parts[i]);
    }
    forall i, j | 0 <= i < j < |plan.slots| ensures plan.slots[i] != plan.slots[j] {
      assert SlotOf(parts[i]) != SlotOf(parts[j]);
    }
  }
}
