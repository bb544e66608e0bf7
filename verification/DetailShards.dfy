/** The published job details, spread over hash buckets
    (scripts/generate_docs_search_index.py). */
module DetailShards {
  import opened Numerals
  import opened Orders
  import opened Wrappers

  const DETAIL_BUCKET_COUNT: nat := 1024
  const WORD: nat := 0x1_0000_0000

  /** The base-31 polynomial of a job id, without overflow. */
  function Polynomial(id: string): nat {
    if id == [] then 0 else Polynomial(id[..|id| - 1]) * 31 + id[|id| - 1] as int
  }

  function BucketNumber(id: string): nat { Polynomial(id) % DETAIL_BUCKET_COUNT }

  function BucketName(h: nat): string { Padded(Hexadecimal, 2, h) }

  function Power31(n: nat): nat { if n == 0 then 1 else 31 * Power31(n - 1) }

  /** Each character weighs 31 to the number of characters after it. */
  function Weighted(id: string): nat {
    if id == [] then 0 else id[0] as int * Power31(|id| - 1) + Weighted(id[1..])
  }

  lemma {:induction false} WeightedSnoc(id: string, c: char)
    ensures Weighted(id + [c]) == 31 * Weighted(id) + c as int
  {
    if id == [] {
      assert [c][1..] == [];
      assert Weighted([c][1..]) == 0 && Power31(0) == 1;
    } else {
      WeightedSnoc(id[1..], c);
      assert (id + [c])[1..] == id[1..] + [c];
      var d := id[0] as int;
      assert d * (31 * Power31(|id| - 1)) == 31 * (d * Power31(|id| - 1));
    }
  }

  lemma {:induction false} PolynomialMeans(id: string)
    ensures Polynomial(id) == Weighted(id)
  {
    if id != [] {
      var last := |id| - 1;
      PolynomialMeans(id[..last]);
      WeightedSnoc(id[..last], id[last]);
      assert id == id[..last] + [id[last]];
    }
  }

  /** Two hexadecimal digits at least, in lower case. */
  lemma BucketNames()
    ensures BucketName(0) == "00" && BucketName(10) == "0a" && BucketName(0x2F) == "2f" && BucketName(1023) == "3ff"
  {
    assert Numeral(Hexadecimal, 63) == "3f";
    assert Numeral(Hexadecimal, 1023) == "3ff";
  }

  lemma MaskedStep(masked: nat, full: nat, c: nat)
    requires masked == full % WORD
    ensures (masked * 31 + c) % WORD == (full * 31 + c) % WORD
  {
    var q := full / WORD;
    assert full * 31 + c == (masked * 31 + c) + WORD * (31 * q);
    SameResidue(masked * 31 + c, 31 * q);
  }

  lemma SameResidue(n: nat, k: nat)
    ensures (n + WORD * k) % WORD == n % WORD
  {
  }

  lemma MaskedBucket(full: nat)
    ensures (full % WORD) % DETAIL_BUCKET_COUNT == full % DETAIL_BUCKET_COUNT
  {
  }

  /** `_detail_bucket`: masking to 32 bits at every character does not change the bucket. */
  method DetailBucket(id: string) returns (name: string)
    ensures name == BucketName(BucketNumber(id))
  {
    hide BucketName;
    var hash := 0;
    for i := 0 to |id|
      invariant hash == Polynomial(id[..i]) % WORD
    {
      assert id[..i + 1][..i] == id[..i];
      MaskedStep(hash, Polynomial(id[..i]), id[i] as int);
      hash := (hash * 31 + id[i] as int) % WORD;
    }
    assert id[..|id|] == id;
    MaskedBucket(Polynomial(id));
    name := BucketName(hash % DETAIL_BUCKET_COUNT);
  }

  datatype Tier = T1 | T2

  datatype Shard<B> = Shard(tier: Tier, body: B)

  type Files<B> = map<string, map<string, Shard<B>>>

  /** An order in which a dictionary can be walked: every key once. */
  ghost predicate WalksOver<P>(order: seq<string>, records: map<string, P>) {
    NoRepeats(order) && forall id :: id in order <==> id in records
  }

  predicate Kept<P>(record: P, isOpen: P -> bool, openOnly: bool) { !openOnly || isOpen(record) }

  predicate IsKept<P>(id: string, records: map<string, P>, isOpen: P -> bool, openOnly: bool) {
    id in records && Kept(records[id], isOpen, openOnly)
  }

  /** The ids of the published records, in walking order. */
  function KeptIds<P>(order: seq<string>, records: map<string, P>, isOpen: P -> bool, openOnly: bool): seq<string>
    requires forall i | 0 <= i < |order| :: order[i] in records
  {
    if order == [] then []
    else
      var last := |order| - 1;
      KeptIds(order[..last], records, isOpen, openOnly)
      + (if Kept(records[order[last]], isOpen, openOnly) then [order[last]] else [])
  }

  lemma {:induction false} KeptIdsAre<P>(order: seq<string>, records: map<string, P>, isOpen: P -> bool, openOnly: bool)
    requires NoRepeats(order)
    requires forall i | 0 <= i < |order| :: order[i] in records
    ensures NoRepeats(KeptIds(order, records, isOpen, openOnly))
    ensures forall id ::
      id in KeptIds(order, records, isOpen, openOnly) <==> id in order && IsKept(id, records, isOpen, openOnly)
  {
    hide Kept;
    if order != [] {
      var last := |order| - 1;
      KeptIdsAre(order[..last], records, isOpen, openOnly);
      assert order == order[..last] + [order[last]];
      assert order[last] !in order[..last];
    }
  }

  function TierOf(id: string, indexable: set<string>): Tier { if id in indexable then T2 else T1 }

  function BucketOf(id: string): string { BucketName(BucketNumber(id)) }

  /** The bucket is the weighted sum of the characters, modulo 1024. */
  lemma BucketMeans(id: string)
    ensures BucketOf(id) == Padded(Hexadecimal, 2, Weighted(id) % 1024)
  {
    hide Padded;
    PolynomialMeans(id);
  }

  /** `buckets.setdefault(bucket, {})[job_id] = shard_payload`. */
  function PutShard<B>(files: Files<B>, id: string, shard: Shard<B>): Files<B> {
    var b := BucketOf(id);
    files[b := (if b in files then files[b] else map[])[id := shard]]
  }

  /** Looking a job up in the bucket named by its hash. */
  function LookUp<B>(files: Files<B>, id: string): Option<Shard<B>> {
    var b := BucketOf(id);
    if b in files && id in files[b] then Some(files[b][id]) else None
  }

  function CountAt<B>(files: Files<B>, b: string): nat { if b in files then |files[b]| else 0 }

  /** The sum of the bucket counts. */
  function Total<B>(files: Files<B>, buckets: nat): nat {
    if buckets == 0 then 0 else Total(files, buckets - 1) + CountAt(files, BucketName(buckets - 1))
  }

  lemma SizeGrows<B>(files: Files<B>, id: string, shard: Shard<B>, h: nat)
    requires LookUp(files, id).None?
    ensures CountAt(PutShard(files, id, shard), BucketName(h))
      == CountAt(files, BucketName(h)) + if BucketNumber(id) == h then 1 else 0
  {
    hide BucketName, BucketNumber;
    if BucketNumber(id) == h {
      assert BucketOf(id) == BucketName(h);
    } else {
      BucketNamesDiffer(BucketNumber(id), h);
    }
  }

  lemma {:induction false} TotalGrows<B>(files: Files<B>, id: string, shard: Shard<B>, buckets: nat)
    requires LookUp(files, id).None?
    ensures Total(PutShard(files, id, shard), buckets)
      == Total(files, buckets) + if BucketNumber(id) < buckets then 1 else 0
  {
    hide BucketName, BucketNumber, CountAt, PutShard, LookUp;
    if buckets > 0 {
      TotalGrows(files, id, shard, buckets - 1);
      SizeGrows(files, id, shard, buckets - 1);
    }
  }

  lemma BucketNamesDiffer(g: nat, h: nat)
    requires g != h
    ensures BucketName(g) != BucketName(h)
  {
    if BucketName(g) == BucketName(h) { PaddedIsInjective(Hexadecimal, 2, g, h); }
  }

  function ShardOf<P, B>(id: string, record: P, indexable: set<string>, shape: (P, bool) -> B): Shard<B> {
    Shard(TierOf(id, indexable), shape(record, id in indexable))
  }

  /** Every file is a bucket, not empty, and holds only records of that bucket. */
  ghost predicate Bucketed<B>(files: Files<B>) {
    forall b | b in files :: files[b] != map[] && forall id | id in files[b] :: BucketOf(id) == b
  }

  /** What `_write_detail_shards` writes and reports. */
  datatype Published<B> = Published(files: Files<B>, ids: seq<string>, t1: nat, t2: nat)

  /** `_write_detail_shards`. */
  method WriteDetailShards<P, B>(order: seq<string>, records: map<string, P>, isOpen: P -> bool, openOnly: bool,
      indexable: set<string>, shape: (P, bool) -> B)
    returns (out: Published<B>)
    requires WalksOver(order, records)
    ensures Ascending(StringLeq, out.ids) && NoRepeats(out.ids)
    ensures forall id :: id in out.ids <==> IsKept(id, records, isOpen, openOnly)
    ensures Bucketed(out.files)
    ensures forall id | IsKept(id, records, isOpen, openOnly) ::
      LookUp(out.files, id) == Some(ShardOf(id, records[id], indexable, shape))
    ensures forall id | !IsKept(id, records, isOpen, openOnly) :: LookUp(out.files, id) == None
    ensures forall id ::
      && (id in out.ids <==> id in records && (openOnly ==> isOpen(records[id])))
      && (LookUp(out.files, id).Some? <==> id in out.ids)
      && (id in out.ids ==>
        LookUp(out.files, id).value == Shard(if id in indexable then T2 else T1, shape(records[id], id in indexable)))
    ensures Total(out.files, DETAIL_BUCKET_COUNT) == out.t1 + out.t2 == |out.ids|
    ensures out.t2 == |set id | id in out.ids && id in indexable|
  {
    hide BucketOf, Total, StringLeq, KeptIds;
    KeptIdsAre(order, records, isOpen, openOnly);
    var kept := KeptIds(order, records, isOpen, openOnly);
    var ids := Sort(StringLeq, kept);
    StringOrder();
    SortSorts(StringLeq, kept);
    SortKeepsNoRepeats(StringLeq, kept);
    var files: Files<B>, t1, t2 := FillBuckets(ids, records, indexable, shape);
    out := Published(files, ids, t1, t2);
  }

  lemma NothingInBuckets<B>()
    ensures Bucketed<B>(map[]) && forall id :: LookUp<B>(map[], id) == None
  {
  }

  method FillBuckets<P, B>(ids: seq<string>, records: map<string, P>, indexable: set<string>, shape: (P, bool) -> B)
    returns (files: Files<B>, t1: nat, t2: nat)
    requires NoRepeats(ids)
    requires forall id | id in ids :: id in records
    ensures Bucketed(files)
    ensures forall id | id in ids :: LookUp(files, id) == Some(ShardOf(id, records[id], indexable, shape))
    ensures forall id | id !in ids :: LookUp(files, id) == None
    ensures Total(files, DETAIL_BUCKET_COUNT) == t1 + t2 == |ids|
    ensures t2 == |set id | id in ids && id in indexable|
  {
    hide BucketName, BucketNumber, Total, PutShard, LookUp, Bucketed, BucketOf;
    files, t1, t2 := map[], 0, 0;
    EmptyTotal<B>(DETAIL_BUCKET_COUNT);
    NothingInBuckets<B>();
    ghost var seen: set<string> := {};
    for i := 0 to |ids|
      invariant Bucketed(files)
      invariant forall id | id in ids[..i] :: LookUp(files, id) == Some(ShardOf(id, records[id], indexable, shape))
      invariant forall id | id !in ids[..i] :: LookUp(files, id) == None
      invariant Total(files, DETAIL_BUCKET_COUNT) == t1 + t2 == i
      invariant seen == (set id | id in ids[..i] && id in indexable)
      invariant t2 == |seen|
    {
      var id := ids[i];
      assert ids[..i + 1] == ids[..i] + [id];
      assert id !in ids[..i];
      var shard := ShardOf(id, records[id], indexable, shape);
      BucketInRange(id);
      TotalGrows(files, id, shard, DETAIL_BUCKET_COUNT);
      PutShardAt(files, id, shard);
      if shard.tier.T1? { t1 := t1 + 1; } else { t2 := t2 + 1; seen := seen + {id}; }
      files := PutShard(files, id, shard);
    }
    assert ids[..|ids|] == ids;
  }

  lemma BucketInRange(id: string)
    ensures BucketNumber(id) < DETAIL_BUCKET_COUNT
  {
  }

  lemma {:induction false} EmptyTotal<B>(buckets: nat)
    ensures Total<B>(map[], buckets) == 0
  {
    if buckets > 0 { EmptyTotal<B>(buckets - 1); }
  }

  lemma PutShardAt<B>(files: Files<B>, id: string, shard: Shard<B>)
    requires Bucketed(files)
    ensures Bucketed(PutShard(files, id, shard))
    ensures forall other ::
      LookUp(PutShard(files, id, shard), other) == if other == id then Some(shard) else LookUp(files, other)
  {
    hide BucketName, BucketNumber;
    var changed := PutShard(files, id, shard);
    assert id in changed[BucketOf(id)];
    forall b | b in changed ensures changed[b] != map[] && forall i | i in changed[b] :: BucketOf(i) == b {
      if b == BucketOf(id) { assert id in changed[b]; }
    }
  }
}
