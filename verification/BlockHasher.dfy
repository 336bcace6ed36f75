/** Prefix-cache block hashes: the extra keys of a block, the chain of hashes over a growing request, the coarser
    view on that chain, and the packing of a hash with its group id. */
module BlockHasher {
  import opened Arithmetic
  import opened Wrappers

  newtype Byte = x: int | 0 <= x < 256

  type Bytes = seq<Byte>

  /** A multimodal input: its hash and the token positions it takes. */
  datatype Feature = Feature(identifier: string, offset: int, length: int)
  {
    function End(): int { offset + length }
  }

  /** An entry of the extra-key tuple; adapter names, salts and the refusal setting are plain text there. */
  datatype Key = Text(text: string) | Media(identifier: string, start: int) | Digest(digest: Bytes)

  /** A request with, in `refusal`, the setting of the global dial at the time its first block is hashed. An empty salt
      is none. */
  datatype Request = Request(
    tokens: seq<int>, features: seq<Feature>, lora: Option<string>, salt: Option<string>,
    embeds: Option<(int, int) -> Bytes>, refusal: Option<string>)

  datatype Hasher = Hasher(fn: (Bytes, seq<int>, Option<seq<Key>>) -> Bytes, none: Bytes, size: nat)
  {
    /** No two blocks share a hash, and no hash is empty. */
    ghost predicate Valid() {
      && size > 0
      && (forall p, t, k :: fn(p, t, k) != [])
      && (forall p, t, k, p', t', k' :: fn(p, t, k) == fn(p', t', k') ==> p == p' && t == t' && k == k')
    }
  }

  /** Sorted by position, not empty and not overlapping. */
  ghost predicate InOrder(features: seq<Feature>) {
    && (forall i :: 0 <= i < |features| ==> features[i].length > 0)
    && (forall i, j :: 0 <= i < j < |features| ==> features[i].End() <= features[j].offset)
  }

  predicate Overlaps(f: Feature, start: int, end: int) { f.offset < end && start < f.End() }

  // ---------------------------------------------------------------- extra keys

  /** One key for each feature from `c` on that overlaps the block, with its place relative to the block. */
  function MediaKeys(features: seq<Feature>, c: nat, start: int, end: int): seq<Key>
    requires c <= |features|
    decreases |features| - c
  {
    if c == |features| then []
    else
      var f := features[c];
      (if Overlaps(f, start, end) then [Media(f.identifier, f.offset - start)] else [])
      + MediaKeys(features, c + 1, start, end)
  }

  function ExtraKeys(r: Request, media: seq<Key>, start: int, end: int): Option<seq<Key>> {
    var keys := (if r.lora.Some? then [Text(r.lora.value)] else [])
                + media
                + (if start == 0 && r.salt.Some? then [Text(r.salt.value)] else [])
                + (if r.embeds.Some? then [Digest(r.embeds.value(start, end))] else [])
                + (if start == 0 && r.refusal.Some? then [Text("refusal_lambda=" + r.refusal.value)] else []);
    if keys == [] then None else Some(keys)
  }

  ghost predicate Within(t: int, start: int, end: int) { start <= t < end }

  /** The feature has a token in the block. */
  ghost predicate Shares(f: Feature, start: int, end: int) {
    exists t :: Within(t, start, end) && Within(t, f.offset, f.offset + f.length)
  }

  lemma SharesIff(f: Feature, start: int, end: int)
    requires start < end && f.length > 0
    ensures Shares(f, start, end) <==> Overlaps(f, start, end)
  {
    var t := if f.offset <= start then start else f.offset;
    assert Overlaps(f, start, end) ==> Within(t, start, end) && Within(t, f.offset, f.offset + f.length);
  }

  /** The key is for the feature at `i`: it names it, and where it begins relative to the block. */
  ghost predicate KeyOf(features: seq<Feature>, i: nat, start: int, end: int, key: Key) {
    && i < |features| && Shares(features[i], start, end)
    && key.Media? && key.identifier == features[i].identifier && start + key.start == features[i].offset
  }

  ghost predicate KeyOfSome(features: seq<Feature>, c: nat, start: int, end: int, key: Key) {
    exists i: nat :: c <= i && KeyOf(features, i, start, end, key)
  }

  lemma KeyOfSomeStep(features: seq<Feature>, c: nat, start: int, end: int, key: Key)
    ensures KeyOfSome(features, c, start, end, key)
            <==> KeyOf(features, c, start, end, key) || KeyOfSome(features, c + 1, start, end, key)
  {
    if i: nat :| c <= i && KeyOf(features, i, start, end, key) { assert i == c || c + 1 <= i; }
  }

  lemma LaterKeysBehind(features: seq<Feature>, c: nat, start: int, end: int, key: Key)
    requires InOrder(features) && c < |features| && KeyOfSome(features, c + 1, start, end, key)
    ensures key.Media? && key.start > features[c].offset - start
  {
    var i: nat :| c + 1 <= i && KeyOf(features, i, start, end, key);
    assert features[c].End() <= features[i].offset;
  }

  /** The media keys are those of the features that have a token in the block, in the order of their places. */
  lemma {:induction false} MediaKeysAre(features: seq<Feature>, c: nat, start: int, end: int)
    requires InOrder(features) && c <= |features| && start < end
    ensures forall key :: key in MediaKeys(features, c, start, end) <==> KeyOfSome(features, c, start, end, key)
    ensures Placed(MediaKeys(features, c, start, end))
    decreases |features| - c
  {
    if c < |features| {
      var f, rest, keys := features[c], MediaKeys(features, c + 1, start, end), MediaKeys(features, c, start, end);
      MediaKeysAre(features, c + 1, start, end);
      SharesIff(f, start, end);
      var own := if Overlaps(f, start, end) then [Media(f.identifier, f.offset - start)] else [];
      assert keys == own + rest;
      forall key ensures key in keys <==> KeyOfSome(features, c, start, end, key) {
        KeyOfSomeStep(features, c, start, end, key);
        assert key in keys <==> key in own || key in rest;
        assert key in own <==> KeyOf(features, c, start, end, key);
      }
      forall i | 0 <= i < |rest| ensures rest[i].Media? && rest[i].start > f.offset - start {
        LaterKeysBehind(features, c, start, end, rest[i]);
      }
    }
  }

  ghost predicate Placed(keys: seq<Key>) {
    && (forall i :: 0 <= i < |keys| ==> keys[i].Media?)
    && (forall i, j :: 0 <= i < j < |keys| ==> keys[i].start < keys[j].start)
  }

  /** Adapter, media, salt, embeddings and dial follow each other; salt and dial count for the first block only. */
  lemma ExtraKeysAre(r: Request, media: seq<Key>, start: int, end: int)
    ensures var keys := ExtraKeys(r, media, start, end);
      var lora, salt := if r.lora.Some? then 1 else 0, if start == 0 && r.salt.Some? then 1 else 0;
      var embeds, dial := if r.embeds.Some? then 1 else 0, if start == 0 && r.refusal.Some? then 1 else 0;
      var all := if keys.Some? then keys.value else [];
      && (keys.Some? <==> all != []) && |all| == lora + |media| + salt + embeds + dial
      && (lora == 1 ==> all[0] == Text(r.lora.value))
      && all[lora..lora + |media|] == media
      && (salt == 1 ==> all[lora + |media|] == Text(r.salt.value))
      && (embeds == 1 ==> all[lora + |media| + salt] == Digest(r.embeds.value(start, end)))
      && (dial == 1 ==> all[|all| - 1] == Text("refusal_lambda=" + r.refusal.value))
  {
  }

  ghost predicate AnyOverlap(features: seq<Feature>, c: nat, d: nat, start: int, end: int)
    requires d <= |features|
  {
    exists i :: c <= i < d && Overlaps(features[i], start, end)
  }

  lemma AnyOverlapStep(features: seq<Feature>, c: nat, d: nat, start: int, end: int)
    requires c < d <= |features|
    ensures AnyOverlap(features, c, d, start, end)
            <==> Overlaps(features[c], start, end) || AnyOverlap(features, c + 1, d, start, end)
  {
  }

  /** Beginning the scan later makes a difference exactly when a feature in between overlaps the block. */
  lemma {:induction false} LaterScanIff(features: seq<Feature>, c: nat, d: nat, start: int, end: int)
    requires c <= d <= |features|
    ensures !AnyOverlap(features, c, d, start, end)
            ==> MediaKeys(features, c, start, end) == MediaKeys(features, d, start, end)
    ensures AnyOverlap(features, c, d, start, end)
            ==> |MediaKeys(features, c, start, end)| > |MediaKeys(features, d, start, end)|
    decreases d - c
  {
    if c < d {
      AnyOverlapStep(features, c, d, start, end);
      LaterScanIff(features, c + 1, d, start, end);
      var rest := MediaKeys(features, c + 1, start, end);
      assert |MediaKeys(features, c, start, end)| == |rest| + if Overlaps(features[c], start, end) then 1 else 0;
    }
  }

  /** Nothing from feature `c` on overlaps a block that ends before it begins. */
  lemma {:induction false} NoMediaKeysBeyond(features: seq<Feature>, c: nat, start: int, end: int)
    requires InOrder(features) && c <= |features|
    requires (c < |features| ==> end <= features[c].offset)
        || (c < |features| && features[|features| - 1].End() <= start)
    ensures MediaKeys(features, c, start, end) == []
    decreases |features| - c
  {
    if c + 1 < |features| {
      assert features[c].End() <= features[c + 1].offset;
      assert features[c].End() <= features[|features| - 1].End();
      NoMediaKeysBeyond(features, c + 1, start, end);
    }
  }

  /** The feature an index means: negative ones count from the end. */
  function Resolve(features: seq<Feature>, index: int): (c: nat)
    requires -|features| <= index <= |features|
  {
    if index < 0 then |features| + index else index
  }

  /** What a scan has found and what is still to come make up all the keys. */
  ghost predicate Scanned(features: seq<Feature>, c: nat, start: int, end: int, keys: seq<Key>, next: nat)
    requires c <= |features|
  {
    && c <= next <= |features|
    && keys + MediaKeys(features, next, start, end) == MediaKeys(features, c, start, end)
    && forall j :: c <= j < next ==> features[j].End() <= end
  }

  lemma ScanStep(features: seq<Feature>, c: nat, start: int, end: int, keys: seq<Key>, next: nat)
    requires c <= |features| && next < |features| && Scanned(features, c, start, end, keys, next)
    ensures var f := features[next];
      && (!Overlaps(f, start, end) && f.End() <= end ==> Scanned(features, c, start, end, keys, next + 1))
      && (Overlaps(f, start, end) ==>
          var more := keys + [Media(f.identifier, f.offset - start)];
          && more + MediaKeys(features, next + 1, start, end) == MediaKeys(features, c, start, end)
          && (f.End() <= end ==> Scanned(features, c, start, end, more, next + 1)))
  {
    var f := features[next];
    var rest := MediaKeys(features, next + 1, start, end);
    var key := Media(f.identifier, f.offset - start);
    if Overlaps(f, start, end) {
      assert keys + ([key] + rest) == (keys + [key]) + rest;
    } else {
      assert [] + rest == rest;
    }
  }

  /** Scans the features from an index on. The keys are those of all features from there that overlap the block, and
      the scan can go on from `next`: whatever it passed is over by the end of the block. */
  method GenMediaKeys(features: seq<Feature>, start: int, end: int, index: int) returns (keys: seq<Key>, next: int)
    requires InOrder(features) && start < end && (features != [] ==> -|features| <= index <= |features|)
    ensures features == [] ==> keys == [] && next == index
    ensures features != [] ==>
      && -|features| <= next <= |features| && Resolve(features, index) <= Resolve(features, next)
      && keys == MediaKeys(features, Resolve(features, index), start, end)
      && forall i :: Resolve(features, index) <= i < Resolve(features, next) ==> features[i].End() <= end
  {
    if features == [] { return [], index; }
    ghost var c := Resolve(features, index);
    if features[|features| - 1].End() <= start {
      if c < |features| { NoMediaKeysBeyond(features, c, start, end); }
      return [], index;
    }
    keys, next := ScanFeatures(features, start, end, if index < 0 then |features| + index else index);
  }

  method ScanFeatures(features: seq<Feature>, start: int, end: int, c: nat) returns (keys: seq<Key>, next: nat)
    requires InOrder(features) && start < end && c <= |features|
    ensures c <= next <= |features| && keys == MediaKeys(features, c, start, end)
    ensures forall i :: c <= i < next ==> features[i].End() <= end
  {
    keys, next := [], c;
    while next < |features|
      invariant c <= next <= |features| && Scanned(features, c, start, end, keys, next)
    {
      var f := features[next];
      ScanStep(features, c, start, end, keys, next);
      if end > f.offset {
        if start >= f.End() {
          next := next + 1;
          continue;
        }
        keys := keys + [Media(f.identifier, f.offset - start)];
        if end >= f.End() {
          next := next + 1;
        } else {
          NoMediaKeysBeyond(features, next + 1, start, end);
          return;
        }
      } else {
        NoMediaKeysBeyond(features, next, start, end);
        return;
      }
    }
  }

  // ---------------------------------------------------------------- the chain

  function Block(h: Hasher, tokens: seq<int>, k: nat): seq<int>
    requires (k + 1) * h.size <= |tokens|
  {
    tokens[k * h.size..(k + 1) * h.size]
  }

  function BlockKeys(h: Hasher, r: Request, c: nat, k: nat): Option<seq<Key>>
    requires c <= |r.features|
  {
    ExtraKeys(r, MediaKeys(r.features, c, k * h.size, (k + 1) * h.size), k * h.size, (k + 1) * h.size)
  }

  /** hash_block_tokens(): an absent parent is replaced by the seed. */
  function HashBlock(h: Hasher, parent: Bytes, tokens: seq<int>, keys: Option<seq<Key>>): Bytes {
    h.fn(if parent == [] then h.none else parent, tokens, keys)
  }

  function Last(hashes: seq<Bytes>, otherwise: Bytes): Bytes {
    if hashes == [] then otherwise else hashes[|hashes| - 1]
  }

  /** The hashes of the blocks from one to another, each on top of the one before. */
  function Chain(h: Hasher, r: Request, c: nat, parent: Bytes, from: nat, until: nat): (s: seq<Bytes>)
    requires c <= |r.features| && from <= until && until * h.size <= |r.tokens|
    ensures |s| == until - from
    decreases until
  {
    if from == until then []
    else
      var k := until - 1;
      FewerBlocks(h, r, k, until);
      var before := Chain(h, r, c, parent, from, k);
      before + [HashBlock(h, Last(before, parent), Block(h, r.tokens, k), BlockKeys(h, r, c, k))]
  }

  lemma FewerBlocks(h: Hasher, r: Request, a: nat, b: nat)
    requires a <= b && b * h.size <= |r.tokens|
    ensures a * h.size <= |r.tokens|
  {
    assert b * h.size == a * h.size + (b - a) * h.size && (b - a) * h.size >= 0;
  }

  lemma Quotient(n: nat, size: nat)
    requires size > 0
    ensures n / size * size <= n < (n / size + 1) * size
  {
    assert n == n / size * size + n % size;
  }

  lemma WholeBlocks(h: Hasher, n: nat, k: nat)
    requires h.size > 0
    ensures k <= n / h.size <==> k * h.size <= n
  {
    Quotient(n, h.size);
    if k <= n / h.size {
      TimesMonotone(k, n / h.size, h.size);
    } else {
      TimesMonotone(n / h.size + 1, k, h.size);
    }
  }

  /** Each hash is that of its block on top of the hash before. */
  lemma {:induction false} ChainAt(h: Hasher, r: Request, c: nat, parent: Bytes, from: nat, until: nat, k: nat)
    requires c <= |r.features| && from <= k < until && until * h.size <= |r.tokens|
    ensures (k + 1) * h.size <= |r.tokens|
    ensures var s := Chain(h, r, c, parent, from, until);
      s[k - from] ==
          HashBlock(h, if k == from then parent else s[k - from - 1], Block(h, r.tokens, k), BlockKeys(h, r, c, k))
    decreases until
  {
    FewerBlocks(h, r, k + 1, until);
    FewerBlocks(h, r, until - 1, until);
    if k < until - 1 { ChainAt(h, r, c, parent, from, until - 1, k); }
  }

  /** The hash of a full block is that of what comes before, its tokens and the extra keys of its place. */
  ghost predicate IsHash(h: Hasher, r: Request, c: nat, before: Bytes, k: nat, hash: Bytes)
    requires c <= |r.features|
  {
    var start, end := k * h.size, k * h.size + h.size;
    && 0 <= start <= end <= |r.tokens|
    && hash == h.fn(before, r.tokens[start..end], ExtraKeys(r, MediaKeys(r.features, c, start, end), start, end))
  }

  lemma HashBlockIs(h: Hasher, r: Request, c: nat, parent: Bytes, k: nat)
    requires c <= |r.features| && (k + 1) * h.size <= |r.tokens|
    ensures IsHash(h, r, c, if parent == [] then h.none else parent, k,
                   HashBlock(h, parent, Block(h, r.tokens, k), BlockKeys(h, r, c, k)))
  {
    BlockInRange(h, k);
  }

  lemma {:induction false} ChainSplit(h: Hasher, r: Request, c: nat, parent: Bytes, from: nat, mid: nat, until: nat)
    requires c <= |r.features| && from <= mid <= until && until * h.size <= |r.tokens|
    ensures mid * h.size <= |r.tokens|
    ensures var front := Chain(h, r, c, parent, from, mid);
      Chain(h, r, c, parent, from, until) == front + Chain(h, r, c, Last(front, parent), mid, until)
    decreases until
  {
    FewerBlocks(h, r, mid, until);
    if mid < until {
      FewerBlocks(h, r, until - 1, until);
      ChainSplit(h, r, c, parent, from, mid, until - 1);
    }
  }

  /** The hashes of a longer request begin with those of the shorter one. */
  lemma {:induction false} ChainOfPrefix(h: Hasher, r: Request, n: nat, c: nat, parent: Bytes, from: nat, until: nat)
    requires c <= |r.features| && from <= until && until * h.size <= n <= |r.tokens|
    ensures Chain(h, r.(tokens := r.tokens[..n]), c, parent, from, until) == Chain(h, r, c, parent, from, until)
    decreases until
  {
    if from < until {
      var k := until - 1;
      FewerBlocks(h, r.(tokens := r.tokens[..n]), k, until);
      ChainOfPrefix(h, r, n, c, parent, from, k);
      GrownBlock(h, r, n, c, k);
    }
  }

  lemma BlockInRange(h: Hasher, k: nat)
    ensures 0 <= k * h.size <= (k + 1) * h.size == k * h.size + h.size
  {
  }

  // ---------------------------------------------------------------- hashing what is new

  /** After the first call the scan starts at the last feature. */
  function ResumeFrom(r: Request, hashes: seq<Bytes>): (c: nat)
    ensures c <= |r.features|
  {
    if hashes == [] || r.features == [] then 0 else |r.features| - 1
  }

  function NewHashes(h: Hasher, r: Request, hashes: seq<Bytes>): seq<Bytes>
    requires h.size > 0
  {
    var done, full := |hashes|, |r.tokens| / h.size;
    if full <= done then []
    else
      WholeBlocks(h, |r.tokens|, full);
      Chain(h, r, ResumeFrom(r, hashes), Last(hashes, []), done, full)
  }

  /** A scan that began at feature `c` may go on from `index`: what it passed is over. */
  ghost predicate Passed(r: Request, c: nat, index: int, start: int) {
    r.features != [] ==>
      && -|r.features| <= index <= |r.features| && c <= Resolve(r.features, index)
      && forall i :: c <= i < Resolve(r.features, index) ==> r.features[i].End() <= start
  }

  lemma PassedSkipsNothing(r: Request, c: nat, index: int, start: int, end: int)
    requires r.features != [] && c <= |r.features| && Passed(r, c, index, start)
    ensures MediaKeys(r.features, c, start, end) == MediaKeys(r.features, Resolve(r.features, index), start, end)
  {
    LaterScanIff(r.features, c, Resolve(r.features, index), start, end);
  }

  method GenExtraKeys(r: Request, start: int, end: int, index: int, ghost c: nat)
    returns (keys: Option<seq<Key>>, next: int)
    requires InOrder(r.features) && start < end && c <= |r.features| && Passed(r, c, index, start)
    ensures keys == ExtraKeys(r, MediaKeys(r.features, c, start, end), start, end) && Passed(r, c, next, end)
  {
    var media;
    media, next := GenMediaKeys(r.features, start, end, index);
    if r.features != [] { PassedSkipsNothing(r, c, index, start, end); }
    keys := ExtraKeys(r, media, start, end);
  }

  lemma ChainGrows(h: Hasher, r: Request, c: nat, parent: Bytes, from: nat, k: nat)
    requires c <= |r.features| && from <= k && (k + 1) * h.size <= |r.tokens|
    ensures k * h.size <= |r.tokens|
    ensures var s := Chain(h, r, c, parent, from, k);
      Chain(h, r, c, parent, from, k + 1)
      == s + [HashBlock(h, Last(s, parent), Block(h, r.tokens, k), BlockKeys(h, r, c, k))]
  {
    FewerBlocks(h, r, k, k + 1);
  }

  method HashNextBlock(
    h: Hasher, r: Request, start: nat, end: nat, parent: Bytes, index: int, ghost k: nat, ghost c: nat)
    returns (hash: Bytes, next: int)
    requires h.Valid() && InOrder(r.features) && c <= |r.features| && Passed(r, c, index, start)
    requires start == k * h.size && end == (k + 1) * h.size && end <= |r.tokens|
    ensures hash == HashBlock(h, parent, Block(h, r.tokens, k), BlockKeys(h, r, c, k)) && Passed(r, c, next, end)
  {
    BlockInRange(h, k);
    var keys;
    keys, next := GenExtraKeys(r, start, end, index, c);
    hash := HashBlock(h, parent, r.tokens[start..end], keys);
  }

  lemma StartOfNew(h: Hasher, r: Request, hashes: seq<Bytes>, start: nat)
    requires h.size > 0 && start == |hashes| * h.size
    ensures start > 0 <==> hashes != []
    ensures start + h.size > |r.tokens| ==> NewHashes(h, r, hashes) == []
  {
    if hashes != [] { BlockInRange(h, |hashes| - 1); }
    BlockInRange(h, |hashes|);
    WholeBlocks(h, |r.tokens|, |hashes| + 1);
  }

  lemma NewHashesAre(h: Hasher, r: Request, hashes: seq<Bytes>, k: nat)
    requires h.size > 0 && |hashes| <= k && k * h.size <= |r.tokens| < k * h.size + h.size
    ensures NewHashes(h, r, hashes) == Chain(h, r, ResumeFrom(r, hashes), Last(hashes, []), |hashes|, k)
  {
    BlockInRange(h, k);
    WholeBlocks(h, |r.tokens|, k);
    WholeBlocks(h, |r.tokens|, k + 1);
  }

  /** The loop: from block `from` on, whose parent is given, as far as the tokens go. */
  method HashFrom(
    h: Hasher, r: Request, first: Bytes, start0: nat, index0: int, ghost from: nat, ghost c: nat)
    returns (added: seq<Bytes>, ghost k: nat)
    requires h.Valid() && InOrder(r.features) && c <= |r.features|
    requires start0 == from * h.size <= |r.tokens| && Passed(r, c, index0, start0)
    ensures from <= k && k * h.size <= |r.tokens| < k * h.size + h.size
    ensures added == Chain(h, r, c, first, from, k)
  {
    var start, index, parent := start0, index0, first;
    added, k := [], from;
    while start + h.size <= |r.tokens|
      invariant k >= from && start == k * h.size <= |r.tokens| && Passed(r, c, index, start)
      invariant added == Chain(h, r, c, first, from, k) && parent == Last(added, first)
      decreases |r.tokens| - start
    {
      var end := start + h.size;
      BlockInRange(h, k);
      ChainGrows(h, r, c, first, from, k);
      var hash;
      hash, index := HashNextBlock(h, r, start, end, parent, index, k, c);
      added := added + [hash];
      start := end;
      parent := hash;
      k := k + 1;
    }
  }

  /** The hashes of the blocks that have filled up since the last call. */
  method HashNewBlocks(h: Hasher, r: Request, hashes: seq<Bytes>) returns (added: seq<Bytes>)
    requires h.Valid() && InOrder(r.features)
    ensures added == NewHashes(h, r, hashes)
  {
    var start := |hashes| * h.size;
    StartOfNew(h, r, hashes, start);
    if start + h.size > |r.tokens| { return []; }
    var index := if start > 0 then -1 else 0;
    ghost var k;
    added, k := HashFrom(h, r, Last(hashes, []), start, index, |hashes|, ResumeFrom(r, hashes));
    NewHashesAre(h, r, hashes, k);
  }

  // ---------------------------------------------------------------- in pieces and at once

  function Grown(r: Request, n: nat): Request
    requires n <= |r.tokens|
  {
    r.(tokens := r.tokens[..n])
  }

  /** The hashes of a request that is hashed each time it has grown to the next of the lengths. */
  function InPieces(h: Hasher, r: Request, lengths: seq<nat>): (s: seq<Bytes>)
    requires h.size > 0 && Growing(r, lengths)
  {
    if lengths == [] then []
    else
      var last := |lengths| - 1;
      assert Growing(r, lengths[..last]);
      var before := InPieces(h, r, lengths[..last]);
      before + NewHashes(h, Grown(r, lengths[last]), before)
  }

  function AtOnce(h: Hasher, r: Request, n: nat): seq<Bytes>
    requires h.size > 0 && n <= |r.tokens|
  {
    NewHashes(h, Grown(r, n), [])
  }

  ghost predicate Growing(r: Request, lengths: seq<nat>) {
    && (forall i :: 0 <= i < |lengths| ==> lengths[i] <= |r.tokens|)
    && (forall i, j :: 0 <= i < j < |lengths| ==> lengths[i] <= lengths[j])
  }

  /** One of the first `c` features reaches into the block. */
  ghost predicate Reaches(h: Hasher, r: Request, c: nat, k: nat)
    requires c <= |r.features|
  {
    exists i :: 0 <= i < c && Overlaps(r.features[i], k * h.size, (k + 1) * h.size)
  }

  ghost predicate ReachesSome(h: Hasher, r: Request, c: nat, done: nat, full: nat)
    requires c <= |r.features|
  {
    exists k :: done <= k < full && Reaches(h, r, c, k)
  }

  /** A feature other than the last one reaches into one of the blocks from `done` to `full`. */
  ghost predicate Missed(h: Hasher, r: Request, done: nat, full: nat) {
    r.features != [] && ReachesSome(h, r, |r.features| - 1, done, full)
  }

  /** Grown from `m` to `n` tokens, the request has new blocks that an earlier feature reaches into. */
  ghost predicate MissedBetween(h: Hasher, r: Request, m: nat, n: nat)
    requires h.size > 0
  {
    m / h.size > 0 && Missed(h, r, m / h.size, n / h.size)
  }

  /** No call but the first has to hash a block that an earlier feature reaches into. */
  ghost predicate Resumable(h: Hasher, r: Request, lengths: seq<nat>)
    requires h.size > 0
  {
    forall i :: 0 < i < |lengths| ==> !MissedBetween(h, r, lengths[i - 1], lengths[i])
  }

  /** It is enough that all features but the last are over when hashing resumes. */
  lemma EndedFeaturesAreNotMissed(h: Hasher, r: Request, done: nat, full: nat)
    requires forall i :: 0 <= i < |r.features| - 1 ==> r.features[i].End() <= done * h.size
    ensures !Missed(h, r, done, full)
  {
    if r.features != [] {
      var c: nat := |r.features| - 1;
      forall k | done <= k < full ensures !Reaches(h, r, c, k) {
        TimesMonotone(done, k, h.size);
      }
    }
  }

  lemma BlockKeysIff(h: Hasher, r: Request, c: nat, k: nat)
    requires c <= |r.features|
    ensures BlockKeys(h, r, 0, k) == BlockKeys(h, r, c, k) <==> !Reaches(h, r, c, k)
  {
    LaterScanIff(r.features, 0, c, k * h.size, (k + 1) * h.size);
  }

  /** Leaving out features changes the hashes exactly when one of them reaches into the blocks. */
  lemma {:induction false} ChainFromIff(h: Hasher, r: Request, c: nat, parent: Bytes, from: nat, until: nat)
    requires h.Valid() && c <= |r.features| && from <= until && until * h.size <= |r.tokens|
    ensures Chain(h, r, 0, parent, from, until) == Chain(h, r, c, parent, from, until)
            <==> !ReachesSome(h, r, c, from, until)
    decreases until
  {
    if from < until {
      var k := until - 1;
      FewerBlocks(h, r, k, until);
      ChainFromIff(h, r, c, parent, from, k);
      BlockKeysIff(h, r, c, k);
      var a, b := Chain(h, r, 0, parent, from, k), Chain(h, r, c, parent, from, k);
      var x, y := Chain(h, r, 0, parent, from, until), Chain(h, r, c, parent, from, until);
      assert a == x[..k - from] && b == y[..k - from];
      if a == b { assert x == y <==> x[k - from] == y[k - from]; }
    }
  }

  lemma NewHashesFill(h: Hasher, r: Request, hashes: seq<Bytes>)
    requires h.Valid() && |hashes| <= |r.tokens| / h.size
    ensures |NewHashes(h, r, hashes)| == |r.tokens| / h.size - |hashes|
  {
  }

  lemma PiecesStep(h: Hasher, r: Request, lengths: seq<nat>)
    requires h.Valid() && Growing(r, lengths) && lengths != []
    ensures var last := |lengths| - 1;
      && Growing(r, lengths[..last])
      && InPieces(h, r, lengths)
         == InPieces(h, r, lengths[..last]) + NewHashes(h, Grown(r, lengths[last]), InPieces(h, r, lengths[..last]))
  {
  }

  lemma {:induction false} PiecesLength(h: Hasher, r: Request, lengths: seq<nat>, n: nat)
    requires h.Valid() && Growing(r, lengths + [n])
    ensures |InPieces(h, r, lengths + [n])| == n / h.size
  {
    var all := lengths + [n];
    assert all[..|lengths|] == lengths && all[|lengths|] == n;
    PiecesStep(h, r, all);
    if lengths == [] {
      QuotientIsNat(n, h.size);
      assert InPieces(h, r, lengths) == [];
    } else {
      var m := lengths[|lengths| - 1];
      assert lengths == lengths[..|lengths| - 1] + [m] && all[|lengths| - 1] == m;
      PiecesLength(h, r, lengths[..|lengths| - 1], m);
      QuotientMonotone(m, n, h.size);
    }
    FilledLength(h, r, InPieces(h, r, lengths), n);
  }

  lemma QuotientIsNat(n: nat, size: nat)
    requires size > 0
    ensures n / size >= 0
  {
  }

  lemma FilledLength(h: Hasher, r: Request, before: seq<Bytes>, n: nat)
    requires h.Valid() && n <= |r.tokens| && |before| <= n / h.size
    ensures |before + NewHashes(h, Grown(r, n), before)| == n / h.size
  {
    NewHashesFill(h, Grown(r, n), before);
  }

  lemma QuotientMonotone(a: nat, b: nat, size: nat)
    requires size > 0 && a <= b
    ensures a / size <= b / size
  {
    Quotient(a, size);
    Quotient(b, size);
    if a / size > b / size { TimesMonotone(b / size + 1, a / size, size); }
  }

  /** The hashes of a request as it was at `m` tokens, seen from when it has `n`. */
  lemma AtOnceIsChain(h: Hasher, r: Request, m: nat, n: nat)
    requires h.Valid() && m <= n <= |r.tokens|
    ensures m / h.size * h.size <= n
    ensures AtOnce(h, r, m) == Chain(h, Grown(r, n), 0, [], 0, m / h.size)
  {
    var done, g := m / h.size, Grown(r, n);
    Quotient(m, h.size);
    assert g.tokens[..m] == r.tokens[..m];
    ChainOfPrefix(h, g, m, 0, [], 0, done);
  }

  /** What is added to correct hashes is what hashing at once would give, unless a feature is missed. */
  lemma ResumeChainIff(h: Hasher, r: Request, done: nat, full: nat)
    requires h.Valid() && done <= full && full * h.size <= |r.tokens|
    ensures done * h.size <= |r.tokens|
    ensures var before := Chain(h, r, 0, [], 0, done);
      before + Chain(h, r, ResumeFrom(r, before), Last(before, []), done, full) == Chain(h, r, 0, [], 0, full)
      <==> !(done > 0 && Missed(h, r, done, full))
  {
    ChainSplit(h, r, 0, [], 0, done, full);
    var before := Chain(h, r, 0, [], 0, done);
    var x, y := Chain(h, r, 0, Last(before, []), done, full),
                Chain(h, r, ResumeFrom(r, before), Last(before, []), done, full);
    ChainFromIff(h, r, ResumeFrom(r, before), Last(before, []), done, full);
    assert x == (before + x)[done..] && y == (before + y)[done..];
  }

  lemma ResumeIff(h: Hasher, r: Request, m: nat, n: nat)
    requires h.Valid() && m <= n <= |r.tokens|
    ensures var before := AtOnce(h, r, m);
      before + NewHashes(h, Grown(r, n), before) == AtOnce(h, r, n)
      <==> !MissedBetween(h, r, m, n)
  {
    var done, full, g := m / h.size, n / h.size, Grown(r, n);
    QuotientMonotone(m, n, h.size);
    Quotient(n, h.size);
    AtOnceIsChain(h, r, m, n);
    AtOnceIsChain(h, r, n, n);
    ResumeChainIff(h, g, done, full);
    assert Missed(h, r, done, full) == Missed(h, g, done, full) by { SameFeatures(h, r, g, done, full); }
  }

  lemma SameFeatures(h: Hasher, r: Request, g: Request, done: nat, full: nat)
    requires r.features == g.features
    ensures Missed(h, r, done, full) == Missed(h, g, done, full)
  {
    if r.features != [] {
      var c: nat := |r.features| - 1;
      assert forall k :: Reaches(h, r, c, k) == Reaches(h, g, c, k);
    }
  }

  lemma ResumableStep(h: Hasher, r: Request, lengths: seq<nat>, n: nat)
    requires h.size > 0 && lengths != []
    ensures Resumable(h, r, lengths + [n])
            <==> Resumable(h, r, lengths) && !MissedBetween(h, r, lengths[|lengths| - 1], n)
  {
    var all := lengths + [n];
    assert all[|lengths|] == n && all[|lengths| - 1] == lengths[|lengths| - 1];
    forall i | 0 < i < |lengths|
        ensures MissedBetween(h, r, all[i - 1], all[i]) == MissedBetween(h, r, lengths[i - 1], lengths[i]) {
    }
  }

  /** A piece added to hashes that are already wrong does not put them right. */
  lemma WrongStaysWrong(h: Hasher, r: Request, before: seq<Bytes>, more: seq<Bytes>, m: nat, n: nat)
    requires h.Valid() && m <= n <= |r.tokens| && |before| == m / h.size && before != AtOnce(h, r, m)
    ensures before + more != AtOnce(h, r, n)
  {
    AtOncePrefix(h, r, m, n);
    assert (before + more)[..m / h.size] == before;
  }

  lemma OnePiece(h: Hasher, r: Request, n: nat)
    requires h.Valid() && n <= |r.tokens|
    ensures InPieces(h, r, [n]) == AtOnce(h, r, n)
  {
    PiecesStep(h, r, [n]);
    assert [n][..0] == [];
    assert InPieces(h, r, []) == [];
  }

  lemma PieceIff(h: Hasher, r: Request, before: seq<Bytes>, m: nat, n: nat)
    requires h.Valid() && m <= n <= |r.tokens| && |before| == m / h.size
    ensures before + NewHashes(h, Grown(r, n), before) == AtOnce(h, r, n)
            <==> before == AtOnce(h, r, m) && !MissedBetween(h, r, m, n)
  {
    if before == AtOnce(h, r, m) {
      ResumeIff(h, r, m, n);
    } else {
      WrongStaysWrong(h, r, before, NewHashes(h, Grown(r, n), before), m, n);
    }
  }

  lemma PiecesIffStep(h: Hasher, r: Request, early: seq<nat>, m: nat, n: nat)
    requires h.Valid() && Growing(r, early + [m] + [n]) && m <= n <= |r.tokens|
    ensures Growing(r, early + [m])
    ensures InPieces(h, r, early + [m] + [n]) == AtOnce(h, r, n)
            <==> InPieces(h, r, early + [m]) == AtOnce(h, r, m)
                 && !MissedBetween(h, r, m, n)
  {
    var rest := early + [m];
    var all := rest + [n];
    assert all[..|rest|] == rest && all[|rest|] == n && all[|early|] == m;
    PiecesStep(h, r, all);
    PiecesLength(h, r, early, m);
    PieceIff(h, r, InPieces(h, r, rest), m, n);
  }

  /** Hashing in pieces gives the hashes of hashing at once exactly when no call misses a feature. */
  lemma {:induction false} InPiecesIsAtOnceIff(h: Hasher, r: Request, lengths: seq<nat>)
    requires h.Valid() && lengths != [] && Growing(r, lengths)
    ensures InPieces(h, r, lengths) == AtOnce(h, r, lengths[|lengths| - 1]) <==> Resumable(h, r, lengths)
  {
    var last := |lengths| - 1;
    var n, rest := lengths[last], lengths[..last];
    if last == 0 {
      assert lengths == [n];
      OnePiece(h, r, n);
    } else {
      var early, m := rest[..last - 1], rest[last - 1];
      assert rest == early + [m] && lengths == early + [m] + [n];
      PiecesIffStep(h, r, early, m, n);
      InPiecesIsAtOnceIff(h, r, rest);
      ResumableStep(h, r, rest, n);
    }
  }

  lemma AtOncePrefix(h: Hasher, r: Request, m: nat, n: nat)
    requires h.Valid() && m <= n <= |r.tokens|
    ensures m / h.size <= |AtOnce(h, r, n)| && AtOnce(h, r, m) == AtOnce(h, r, n)[..m / h.size]
  {
    QuotientMonotone(m, n, h.size);
    Quotient(n, h.size);
    AtOnceIsChain(h, r, m, n);
    AtOnceIsChain(h, r, n, n);
    ChainSplit(h, Grown(r, n), 0, [], 0, m / h.size, n / h.size);
  }

  // ---------------------------------------------------------------- the dial may move between calls

  lemma {:induction false} LaterBlocksIgnoreDial(
    h: Hasher, r: Request, dial: Option<string>, c: nat, parent: Bytes, from: nat, until: nat)
    requires h.size > 0 && c <= |r.features| && 1 <= from <= until && until * h.size <= |r.tokens|
    ensures Chain(h, r.(refusal := dial), c, parent, from, until) == Chain(h, r, c, parent, from, until)
    decreases until
  {
    if from < until {
      var k := until - 1;
      FewerBlocks(h, r, k, until);
      LaterBlocksIgnoreDial(h, r, dial, c, parent, from, k);
      TimesMonotone(1, k, h.size);
      assert BlockKeys(h, r.(refusal := dial), c, k) == BlockKeys(h, r, c, k);
    }
  }

  /** A call that does not hash the first block does not depend on the dial. */
  lemma LaterCallsIgnoreDial(h: Hasher, r: Request, dial: Option<string>, hashes: seq<Bytes>)
    requires h.size > 0 && hashes != []
    ensures NewHashes(h, r.(refusal := dial), hashes) == NewHashes(h, r, hashes)
  {
    var full := |r.tokens| / h.size;
    if full > |hashes| {
      WholeBlocks(h, |r.tokens|, full);
      LaterBlocksIgnoreDial(h, r, dial, ResumeFrom(r, hashes), Last(hashes, []), |hashes|, full);
    }
  }

  /** Hashing in pieces, each call under the dial's setting at its time. */
  function InPiecesUnder(h: Hasher, r: Request, lengths: seq<nat>, dials: seq<Option<string>>): seq<Bytes>
    requires h.size > 0 && Growing(r, lengths) && |dials| == |lengths|
    decreases |lengths|
  {
    if lengths == [] then []
    else
      var last := |lengths| - 1;
      assert Growing(r, lengths[..last]);
      var before := InPiecesUnder(h, r, lengths[..last], dials[..last]);
      before + NewHashes(h, Grown(r, lengths[last]).(refusal := dials[last]), before)
  }

  /** The call with this number is the first that has a full block to hash. */
  ghost predicate HashesFirst(h: Hasher, lengths: seq<nat>, i: nat)
    requires h.size > 0
  {
    i < |lengths| && lengths[i] / h.size > 0 && (i == 0 || lengths[i - 1] / h.size == 0)
  }

  /** However the dial moves between calls, only its setting at the call that hashes the first block matters. */
  lemma {:induction false} OnlyTheFirstDialMatters(
    h: Hasher, r: Request, lengths: seq<nat>, dials: seq<Option<string>>, dial: Option<string>)
    requires h.Valid() && Growing(r, lengths) && |dials| == |lengths|
    requires forall i :: 0 <= i < |lengths| && HashesFirst(h, lengths, i) ==> dials[i] == dial
    ensures Growing(r.(refusal := dial), lengths)
    ensures InPiecesUnder(h, r, lengths, dials) == InPieces(h, r.(refusal := dial), lengths)
    decreases |lengths|
  {
    if lengths != [] {
      var last := |lengths| - 1;
      var early := lengths[..last];
      assert Growing(r, early);
      forall i | 0 <= i < last && HashesFirst(h, early, i) ensures dials[..last][i] == dial {
        assert HashesFirst(h, lengths, i);
      }
      OnlyTheFirstDialMatters(h, r, early, dials[..last], dial);
      OneMoreUnderDial(h, r, lengths, dials, dial);
    }
  }

  lemma OneMoreUnderDial(
    h: Hasher, r: Request, lengths: seq<nat>, dials: seq<Option<string>>, dial: Option<string>)
    requires h.Valid() && Growing(r, lengths) && |dials| == |lengths| && lengths != []
    requires HashesFirst(h, lengths, |lengths| - 1) ==> dials[|lengths| - 1] == dial
    requires var last := |lengths| - 1;
      && Growing(r, lengths[..last]) && Growing(r.(refusal := dial), lengths[..last])
      && InPiecesUnder(h, r, lengths[..last], dials[..last]) == InPieces(h, r.(refusal := dial), lengths[..last])
    ensures Growing(r.(refusal := dial), lengths)
    ensures InPiecesUnder(h, r, lengths, dials) == InPieces(h, r.(refusal := dial), lengths)
  {
    var last := |lengths| - 1;
    var q := r.(refusal := dial);
    GrowingUnderDial(r, lengths, dial);
    var before := InPieces(h, q, lengths[..last]);
    EmptyBeforeFirst(h, q, lengths);
    LastCallUnderDial(h, Grown(r, lengths[last]), dials[last], dial, before, HashesFirst(h, lengths, last));
    PiecesStep(h, q, lengths);
    UnderStep(h, r, lengths, dials);
  }

  lemma GrowingUnderDial(r: Request, lengths: seq<nat>, dial: Option<string>)
    requires Growing(r, lengths) && lengths != []
    ensures Growing(r.(refusal := dial), lengths) && Growing(r.(refusal := dial), lengths[..|lengths| - 1])
    ensures var n := lengths[|lengths| - 1]; Grown(r.(refusal := dial), n) == Grown(r, n).(refusal := dial)
  {
  }

  lemma UnderStep(h: Hasher, r: Request, lengths: seq<nat>, dials: seq<Option<string>>)
    requires h.size > 0 && Growing(r, lengths) && |dials| == |lengths| && lengths != []
    ensures var last := |lengths| - 1;
      && Growing(r, lengths[..last])
      && var before := InPiecesUnder(h, r, lengths[..last], dials[..last]);
         InPiecesUnder(h, r, lengths, dials)
           == before + NewHashes(h, Grown(r, lengths[last]).(refusal := dials[last]), before)
  {
  }

  /** If the calls so far have hashed nothing and the next one will, it is the first to. */
  lemma EmptyBeforeFirst(h: Hasher, r: Request, lengths: seq<nat>)
    requires h.Valid() && Growing(r, lengths) && lengths != []
    ensures var last := |lengths| - 1;
      && Growing(r, lengths[..last])
      && (InPieces(h, r, lengths[..last]) == [] && lengths[last] / h.size > 0 ==> HashesFirst(h, lengths, last))
  {
    var last := |lengths| - 1;
    var early := lengths[..last];
    assert Growing(r, early);
    if last > 0 {
      assert early == early[..last - 1] + [early[last - 1]];
      PiecesLength(h, r, early[..last - 1], early[last - 1]);
      assert early[last - 1] == lengths[last - 1];
    }
  }

  lemma LastCallUnderDial(
    h: Hasher, r: Request, now: Option<string>, dial: Option<string>, before: seq<Bytes>, first: bool)
    requires h.size > 0 && (first ==> now == dial) && (before == [] && |r.tokens| / h.size > 0 ==> first)
    ensures NewHashes(h, r.(refusal := now), before) == NewHashes(h, r.(refusal := dial), before)
  {
    if before != [] {
      LaterCallsIgnoreDial(h, r, now, before);
      LaterCallsIgnoreDial(h, r, dial, before);
    }
  }

  /** A prompt with two inputs in its last, partial block: the block fills up with generated tokens, and its hash
      then leaves out the first of the two. */
  lemma TwoInputsInThePartialBlock(h: Hasher, r: Request)
    requires h.Valid() && h.size == 4 && |r.tokens| == 8
    requires r.features == [Feature("a", 4, 1), Feature("b", 5, 1)]
    ensures Growing(r, [6, 8]) && InPieces(h, r, [6, 8]) != AtOnce(h, r, 8)
  {
    assert 6 / h.size == 1 && 8 / h.size == 2;
    assert Overlaps(r.features[0], 1 * h.size, 2 * h.size);
    assert Reaches(h, r, 1, 1);
    assert [6, 8][|[6, 8]| - 1] == 8 && [6, 8][0] == 6;
    InPiecesIsAtOnceIff(h, r, [6, 8]);
    assert MissedBetween(h, r, [6, 8][0], [6, 8][1]);
  }

  // ---------------------------------------------------------------- what a hash stands for

  ghost predicate SameBlock(h: Hasher, a: Request, b: Request, k: nat) {
    && (k + 1) * h.size <= |a.tokens| && (k + 1) * h.size <= |b.tokens|
    && Block(h, a.tokens, k) == Block(h, b.tokens, k)
    && BlockKeys(h, a, 0, k) == BlockKeys(h, b, 0, k)
  }

  ghost predicate SameUpTo(h: Hasher, a: Request, b: Request, i: nat) {
    forall j :: 0 <= j <= i ==> SameBlock(h, a, b, j)
  }

  lemma SameUpToStep(h: Hasher, a: Request, b: Request, i: nat)
    ensures SameUpTo(h, a, b, i) <==> (i > 0 ==> SameUpTo(h, a, b, i - 1)) && SameBlock(h, a, b, i)
  {
  }

  lemma HashBlockIff(h: Hasher, p: Bytes, t: seq<int>, k: Option<seq<Key>>, p': Bytes, t': seq<int>,
      k': Option<seq<Key>>)
    requires h.Valid() && (p == [] <==> p' == [])
    ensures HashBlock(h, p, t, k) == HashBlock(h, p', t', k') <==> p == p' && t == t' && k == k'
    ensures HashBlock(h, p, t, k) != []
  {
  }

  lemma HashOnTop(h: Hasher, r: Request, n: nat, i: nat, p: Bytes)
    requires h.Valid() && n * h.size <= |r.tokens| && i < n
    requires p == (if i == 0 then [] else Chain(h, r, 0, [], 0, n)[i - 1])
    ensures (i + 1) * h.size <= |r.tokens| && (p == [] <==> i == 0)
    ensures Chain(h, r, 0, [], 0, n)[i] == HashBlock(h, p, Block(h, r.tokens, i), BlockKeys(h, r, 0, i))
  {
    ChainAt(h, r, 0, [], 0, n, i);
    if i > 0 { HashesNotEmpty(h, r, n, i - 1); }
  }

  lemma SameHashStep(h: Hasher, a: Request, b: Request, n: nat, m: nat, i: nat, p: Bytes, q: Bytes)
    requires h.Valid() && n * h.size <= |a.tokens| && m * h.size <= |b.tokens| && i < n && i < m
    requires p == (if i == 0 then [] else Chain(h, a, 0, [], 0, n)[i - 1])
    requires q == (if i == 0 then [] else Chain(h, b, 0, [], 0, m)[i - 1])
    ensures Chain(h, a, 0, [], 0, n)[i] == Chain(h, b, 0, [], 0, m)[i] <==> p == q && SameBlock(h, a, b, i)
  {
    HashOnTop(h, a, n, i, p);
    HashOnTop(h, b, m, i, q);
    HashBlockIff(h, p, Block(h, a.tokens, i), BlockKeys(h, a, 0, i), q, Block(h, b.tokens, i), BlockKeys(h, b, 0, i));
  }

  /** Two requests have the same hash at a block exactly when they have the same tokens and the same extra keys in
      every block up to it. */
  lemma {:induction false} SameHashIff(h: Hasher, a: Request, b: Request, n: nat, m: nat, i: nat)
    requires h.Valid() && n * h.size <= |a.tokens| && m * h.size <= |b.tokens| && i < n && i < m
    ensures Chain(h, a, 0, [], 0, n)[i] == Chain(h, b, 0, [], 0, m)[i] <==> SameUpTo(h, a, b, i)
  {
    SameUpToStep(h, a, b, i);
    if i == 0 {
      SameHashStep(h, a, b, n, m, i, [], []);
    } else {
      SameHashIff(h, a, b, n, m, i - 1);
      SameHashStep(h, a, b, n, m, i, Chain(h, a, 0, [], 0, n)[i - 1], Chain(h, b, 0, [], 0, m)[i - 1]);
    }
  }

  lemma HashesNotEmpty(h: Hasher, r: Request, n: nat, i: nat)
    requires h.Valid() && n * h.size <= |r.tokens| && i < n
    ensures Chain(h, r, 0, [], 0, n)[i] != []
  {
    ChainAt(h, r, 0, [], 0, n, i);
  }

  /** The requests have the same tokens in their first blocks. */
  ghost predicate SamePrefix(h: Hasher, a: Request, b: Request, blocks: nat) {
    && blocks * h.size <= |a.tokens| && blocks * h.size <= |b.tokens|
    && a.tokens[..blocks * h.size] == b.tokens[..blocks * h.size]
  }

  lemma {:induction false} SameBlocksSameTokens(h: Hasher, a: Request, b: Request, i: nat)
    requires h.size > 0 && SameUpTo(h, a, b, i)
    ensures SamePrefix(h, a, b, i + 1)
  {
    assert SameBlock(h, a, b, i);
    BlockInRange(h, i);
    if i > 0 { SameBlocksSameTokens(h, a, b, i - 1); }
    assert a.tokens[..(i + 1) * h.size] == a.tokens[..i * h.size] + Block(h, a.tokens, i);
    assert b.tokens[..(i + 1) * h.size] == b.tokens[..i * h.size] + Block(h, b.tokens, i);
  }

  lemma ParentOf(h: Hasher, r: Request, n: nat, i: nat) returns (parent: Bytes)
    requires h.Valid() && n * h.size <= |r.tokens| && i < n
    requires forall p, t, k :: h.fn(p, t, k) != h.none
    ensures parent == if i == 0 then h.none else Chain(h, r, 0, [], 0, n)[i - 1]
    ensures i > 0 ==> parent != h.none
    ensures exists t, k :: Chain(h, r, 0, [], 0, n)[i] == h.fn(parent, t, k)
  {
    ChainAt(h, r, 0, [], 0, n, i);
    parent := h.none;
    if i > 0 {
      HashesNotEmpty(h, r, n, i - 1);
      ChainAt(h, r, 0, [], 0, n, i - 1);
      parent := Chain(h, r, 0, [], 0, n)[i - 1];
    }
  }

  /** If the seed is not itself a hash, blocks at different depths never share one. */
  lemma {:induction false} NoHashAtTwoDepths(h: Hasher, a: Request, b: Request, n: nat, m: nat, i: nat, j: nat)
    requires h.Valid() && n * h.size <= |a.tokens| && m * h.size <= |b.tokens| && i < n && j < m && i != j
    requires forall p, t, k :: h.fn(p, t, k) != h.none
    ensures Chain(h, a, 0, [], 0, n)[i] != Chain(h, b, 0, [], 0, m)[j]
    decreases i + j
  {
    var p := ParentOf(h, a, n, i);
    var q := ParentOf(h, b, m, j);
    if i > 0 && j > 0 { NoHashAtTwoDepths(h, a, b, n, m, i - 1, j - 1); }
    assert p != q;
  }

  /** Hashed at once, every full block has a hash, on top of the one before and, for the first, of the seed. */
  lemma AtOnceIs(h: Hasher, r: Request, n: nat, k: nat)
    requires h.Valid() && n <= |r.tokens| && k < n / h.size
    ensures var s := AtOnce(h, r, n);
      |s| == n / h.size && IsHash(h, r, 0, if k == 0 then h.none else s[k - 1], k, s[k])
  {
    var g := Grown(r, n);
    Quotient(n, h.size);
    assert AtOnce(h, r, n) == Chain(h, g, 0, [], 0, n / h.size);
    HashOnTop(h, g, n / h.size, k, if k == 0 then [] else AtOnce(h, r, n)[k - 1]);
    WholeBlocks(h, n, k + 1);
    GrownBlock(h, r, n, 0, k);
    HashBlockIs(h, r, 0, if k == 0 then [] else AtOnce(h, r, n)[k - 1], k);
  }

  // ---------------------------------------------------------------- what a hash of a piece stands for

  /** How many blocks the first call that has any hashes. */
  function FirstFull(h: Hasher, lengths: seq<nat>): nat
    requires h.size > 0
  {
    if lengths == [] then 0
    else
      var earlier := FirstFull(h, lengths[..|lengths| - 1]);
      if earlier > 0 then earlier else lengths[|lengths| - 1] / h.size
  }

  /** The feature from which a call looks for those of block `k`: the first one in the first call, later the last. */
  function StartAt(h: Hasher, r: Request, lengths: seq<nat>, k: nat): (c: nat)
    requires h.size > 0
    ensures c <= |r.features|
  {
    if k < FirstFull(h, lengths) || r.features == [] then 0 else |r.features| - 1
  }

  lemma FirstFullIs(h: Hasher, r: Request, lengths: seq<nat>, n: nat)
    requires h.Valid() && Growing(r, lengths + [n])
    ensures lengths != [] ==> lengths[|lengths| - 1] / h.size <= n / h.size
    ensures FirstFull(h, lengths + [n])
            == if FirstFull(h, lengths) > 0 then FirstFull(h, lengths) else n / h.size
  {
    var all := lengths + [n];
    assert all[..|all| - 1] == lengths && all[|all| - 1] == n;
    if lengths != [] {
      assert all[|lengths| - 1] <= all[|lengths|];
      QuotientMonotone(lengths[|lengths| - 1], n, h.size);
    }
  }

  lemma {:induction false} FirstFullBounds(h: Hasher, r: Request, lengths: seq<nat>)
    requires h.Valid() && Growing(r, lengths) && lengths != []
    ensures var full := lengths[|lengths| - 1] / h.size;
      FirstFull(h, lengths) <= full && (FirstFull(h, lengths) == 0 <==> full == 0)
  {
    var early, n := lengths[..|lengths| - 1], lengths[|lengths| - 1];
    assert lengths == early + [n];
    FirstFullIs(h, r, early, n);
    if early != [] { FirstFullBounds(h, r, early); }
  }

  /** The hash of a block in pieces: on top of the hash before, with the keys that its call sees. */
  ghost predicate PieceHash(h: Hasher, r: Request, lengths: seq<nat>, s: seq<Bytes>, i: nat)
    requires h.size > 0 && i < |s|
  {
    && (i + 1) * h.size <= |r.tokens|
    && s[i] == HashBlock(h, if i == 0 then [] else s[i - 1], Block(h, r.tokens, i),
                         BlockKeys(h, r, StartAt(h, r, lengths, i), i))
  }

  /** A call adds hashes on top of what it finds. */
  lemma NewPieceAt(h: Hasher, r: Request, n: nat, before: seq<Bytes>, all: seq<nat>, i: nat)
    requires h.Valid() && n <= |r.tokens| && |before| <= i < n / h.size
    requires StartAt(h, r, all, i) == ResumeFrom(r, before)
    ensures var s := before + NewHashes(h, Grown(r, n), before); |s| == n / h.size && PieceHash(h, r, all, s, i)
  {
    var g, full := Grown(r, n), n / h.size;
    Quotient(n, h.size);
    NewHashesFill(h, g, before);
    ChainAt(h, g, ResumeFrom(g, before), Last(before, []), |before|, full, i);
    FewerBlocks(h, g, i + 1, full);
    GrownBlock(h, r, n, ResumeFrom(r, before), i);
  }

  lemma GrownBlock(h: Hasher, r: Request, n: nat, c: nat, i: nat)
    requires n <= |r.tokens| && (i + 1) * h.size <= n && c <= |r.features|
    ensures Block(h, Grown(r, n).tokens, i) == Block(h, r.tokens, i)
    ensures BlockKeys(h, Grown(r, n), c, i) == BlockKeys(h, r, c, i)
  {
    BlockInRange(h, i);
  }

  lemma PieceStays(
    h: Hasher, r: Request, lengths: seq<nat>, before: seq<Bytes>, all: seq<nat>, more: seq<Bytes>, i: nat)
    requires h.size > 0 && i < |before| && PieceHash(h, r, lengths, before, i)
    requires StartAt(h, r, all, i) == StartAt(h, r, lengths, i)
    ensures PieceHash(h, r, all, before + more, i)
  {
  }

  /** A block that has a hash keeps its start when a call is added; one that has none is looked up from where that call
      resumes. */
  lemma ResumesAfterFirst(h: Hasher, r: Request, lengths: seq<nat>, n: nat, i: nat)
    requires h.Valid() && Growing(r, lengths + [n]) && Growing(r, lengths) && i < n / h.size
    ensures var before := InPieces(h, r, lengths);
      && (lengths == [] ==> before == [])
      && (lengths != [] ==> |before| == lengths[|lengths| - 1] / h.size)
      && StartAt(h, r, lengths + [n], i)
         == if i < |before| then StartAt(h, r, lengths, i) else ResumeFrom(r, before)
  {
    FirstFullIs(h, r, lengths, n);
    if lengths != [] {
      FirstFullBounds(h, r, lengths);
      assert lengths == lengths[..|lengths| - 1] + [lengths[|lengths| - 1]];
      PiecesLength(h, r, lengths[..|lengths| - 1], lengths[|lengths| - 1]);
    }
  }

  lemma {:induction false} PieceAt(h: Hasher, r: Request, lengths: seq<nat>, n: nat, i: nat)
    requires h.Valid() && Growing(r, lengths + [n]) && i < n / h.size
    ensures |InPieces(h, r, lengths + [n])| == n / h.size
    ensures PieceHash(h, r, lengths + [n], InPieces(h, r, lengths + [n]), i)
    decreases |lengths|, 1
  {
    var all := lengths + [n];
    assert all[..|lengths|] == lengths && all[|lengths|] == n;
    PiecesStep(h, r, all);
    ResumesAfterFirst(h, r, lengths, n, i);
    var before := InPieces(h, r, lengths);
    PiecesLength(h, r, lengths, n);
    if i < |before| {
      PieceWas(h, r, lengths, i);
      PieceStays(h, r, lengths, before, all, NewHashes(h, Grown(r, n), before), i);
    } else {
      NewPieceAt(h, r, n, before, all, i);
    }
  }

  lemma {:induction false} PieceWas(h: Hasher, r: Request, lengths: seq<nat>, i: nat)
    requires h.Valid() && Growing(r, lengths) && lengths != [] && i < lengths[|lengths| - 1] / h.size
    ensures i < |InPieces(h, r, lengths)| && PieceHash(h, r, lengths, InPieces(h, r, lengths), i)
    decreases |lengths|, 0
  {
    var early, m := lengths[..|lengths| - 1], lengths[|lengths| - 1];
    assert lengths == early + [m];
    PieceAt(h, r, early, m, i);
  }

  lemma {:induction false} FirstFullAt(h: Hasher, r: Request, lengths: seq<nat>, j: nat)
    requires h.Valid() && Growing(r, lengths) && HashesFirst(h, lengths, j)
    ensures FirstFull(h, lengths) == lengths[j] / h.size
  {
    var early, n := lengths[..|lengths| - 1], lengths[|lengths| - 1];
    assert lengths == early + [n];
    FirstFullIs(h, r, early, n);
    if j < |early| {
      assert HashesFirst(h, early, j);
      FirstFullAt(h, r, early, j);
    } else if early != [] {
      FirstFullBounds(h, r, early);
    }
  }

  /** Hashed in pieces, the blocks of the first call that has any are hashed with the keys of all features, those of the
      later calls with those of the last feature only. */
  lemma InPiecesAre(h: Hasher, r: Request, early: seq<nat>, n: nat, j: nat, i: nat)
    requires h.Valid() && Growing(r, early + [n]) && HashesFirst(h, early + [n], j) && i < n / h.size
    ensures var s := InPieces(h, r, early + [n]);
      var c: nat := if i < (early + [n])[j] / h.size || r.features == [] then 0 else |r.features| - 1;
      |s| == n / h.size && IsHash(h, r, c, if i == 0 then h.none else s[i - 1], i, s[i])
  {
    FirstFullAt(h, r, early + [n], j);
    PieceAt(h, r, early, n, i);
    if i > 0 { PieceAt(h, r, early, n, i - 1); }
    PieceIsHash(h, r, early + [n], InPieces(h, r, early + [n]), i);
  }

  lemma PieceIsHash(h: Hasher, r: Request, lengths: seq<nat>, s: seq<Bytes>, i: nat)
    requires h.Valid() && i < |s| && PieceHash(h, r, lengths, s, i) && (i > 0 ==> PieceHash(h, r, lengths, s, i - 1))
    ensures IsHash(h, r, StartAt(h, r, lengths, i), if i == 0 then h.none else s[i - 1], i, s[i])
  {
    HashBlockIs(h, r, StartAt(h, r, lengths, i), if i == 0 then [] else s[i - 1], i);
    if i > 0 { NoEmptyHash(h, r, lengths, s, i - 1); }
  }

  /** The same tokens, and the same keys as far as the calls see them. */
  ghost predicate SeenSame(h: Hasher, a: Request, la: seq<nat>, b: Request, lb: seq<nat>, k: nat)
    requires h.size > 0
  {
    && (k + 1) * h.size <= |a.tokens| && (k + 1) * h.size <= |b.tokens|
    && Block(h, a.tokens, k) == Block(h, b.tokens, k)
    && BlockKeys(h, a, StartAt(h, a, la, k), k) == BlockKeys(h, b, StartAt(h, b, lb, k), k)
  }

  ghost predicate SeenSameUpTo(h: Hasher, a: Request, la: seq<nat>, b: Request, lb: seq<nat>, i: nat)
    requires h.size > 0
  {
    forall k :: 0 <= k <= i ==> SeenSame(h, a, la, b, lb, k)
  }

  lemma SeenSameUpToStep(h: Hasher, a: Request, la: seq<nat>, b: Request, lb: seq<nat>, i: nat)
    requires h.size > 0
    ensures SeenSameUpTo(h, a, la, b, lb, i)
            <==> (i > 0 ==> SeenSameUpTo(h, a, la, b, lb, i - 1)) && SeenSame(h, a, la, b, lb, i)
  {
  }

  lemma SamePieceStep(
    h: Hasher, a: Request, la: seq<nat>, x: seq<Bytes>, b: Request, lb: seq<nat>, y: seq<Bytes>, i: nat)
    requires h.Valid() && i < |x| && i < |y| && PieceHash(h, a, la, x, i) && PieceHash(h, b, lb, y, i)
    requires i > 0 ==> PieceHash(h, a, la, x, i - 1) && PieceHash(h, b, lb, y, i - 1)
    ensures x[i] == y[i] <==> (i > 0 ==> x[i - 1] == y[i - 1]) && SeenSame(h, a, la, b, lb, i)
  {
    var p, q := if i == 0 then [] else x[i - 1], if i == 0 then [] else y[i - 1];
    if i > 0 {
      NoEmptyHash(h, a, la, x, i - 1);
      NoEmptyHash(h, b, lb, y, i - 1);
    }
    HashBlockIff(h, p, Block(h, a.tokens, i), BlockKeys(h, a, StartAt(h, a, la, i), i),
                 q, Block(h, b.tokens, i), BlockKeys(h, b, StartAt(h, b, lb, i), i));
  }

  lemma NoEmptyHash(h: Hasher, r: Request, lengths: seq<nat>, s: seq<Bytes>, i: nat)
    requires h.Valid() && i < |s| && PieceHash(h, r, lengths, s, i)
    ensures s[i] != []
  {
  }

  lemma {:induction false} SamePieces(
    h: Hasher, a: Request, la: seq<nat>, x: seq<Bytes>, b: Request, lb: seq<nat>, y: seq<Bytes>, i: nat)
    requires h.Valid() && i < |x| && i < |y|
    requires forall k :: 0 <= k <= i ==> PieceHash(h, a, la, x, k) && PieceHash(h, b, lb, y, k)
    ensures x[i] == y[i] <==> SeenSameUpTo(h, a, la, b, lb, i)
  {
    if i > 0 { SamePieces(h, a, la, x, b, lb, y, i - 1); }
    SeenSameUpToStep(h, a, la, b, lb, i);
    SamePieceStep(h, a, la, x, b, lb, y, i);
  }

  /** Hashed in pieces, two requests have the same hash at a block exactly when, in every block up to it, they have the
      same tokens and the calls that hashed it saw the same keys. */
  lemma SamePieceIff(h: Hasher, a: Request, la: seq<nat>, b: Request, lb: seq<nat>, i: nat)
    requires h.Valid() && Growing(a, la) && Growing(b, lb) && la != [] && lb != []
    requires i < la[|la| - 1] / h.size && i < lb[|lb| - 1] / h.size
    ensures i < |InPieces(h, a, la)| && i < |InPieces(h, b, lb)|
    ensures InPieces(h, a, la)[i] == InPieces(h, b, lb)[i] <==> SeenSameUpTo(h, a, la, b, lb, i)
  {
    var x, y := InPieces(h, a, la), InPieces(h, b, lb);
    PieceWas(h, a, la, i);
    PieceWas(h, b, lb, i);
    forall k: nat | k <= i ensures PieceHash(h, a, la, x, k) && PieceHash(h, b, lb, y, k) {
      PieceWas(h, a, la, k);
      PieceWas(h, b, lb, k);
    }
    SamePieces(h, a, la, x, b, lb, y, i);
  }

  /** So if the calls saw the same in all blocks, all hashes are the same. */
  lemma SeenSameCollides(h: Hasher, a: Request, la: seq<nat>, b: Request, lb: seq<nat>, full: nat)
    requires h.Valid() && Growing(a, la) && Growing(b, lb) && la != [] && lb != []
    requires la[|la| - 1] / h.size == lb[|lb| - 1] / h.size == full
    requires forall k :: 0 <= k < full ==> SeenSame(h, a, la, b, lb, k)
    ensures InPieces(h, a, la) == InPieces(h, b, lb)
  {
    assert la == la[..|la| - 1] + [la[|la| - 1]] && lb == lb[..|lb| - 1] + [lb[|lb| - 1]];
    PiecesLength(h, a, la[..|la| - 1], la[|la| - 1]);
    PiecesLength(h, b, lb[..|lb| - 1], lb[|lb| - 1]);
    forall i: nat | i < full ensures InPieces(h, a, la)[i] == InPieces(h, b, lb)[i] {
      SamePieceIff(h, a, la, b, lb, i);
    }
  }

  function TwoInputs(r: Request, x: string): Request { r.(features := [Feature(x, 4, 1), Feature("z", 5, 1)]) }

  lemma KeysOfTwoInputs(r: Request, x: string)
    ensures var f := TwoInputs(r, x).features;
      && MediaKeys(f, 0, 0, 4) == [] && MediaKeys(f, 1, 4, 8) == [Media("z", 1)]
      && MediaKeys(f, 0, 4, 8) == [Media(x, 0), Media("z", 1)]
  {
    var f := TwoInputs(r, x).features;
    assert MediaKeys(f, 2, 0, 4) == [] && MediaKeys(f, 2, 4, 8) == [];
    assert MediaKeys(f, 1, 0, 4) == [] && MediaKeys(f, 1, 4, 8) == [Media("z", 1)];
  }

  lemma BlocksOfTwoInputs(h: Hasher, r: Request, x: string, y: string)
    requires h.size == 4 && x != y
    ensures var a, b := TwoInputs(r, x), TwoInputs(r, y);
      && BlockKeys(h, a, 0, 0) == BlockKeys(h, b, 0, 0) && BlockKeys(h, a, 1, 1) == BlockKeys(h, b, 1, 1)
      && BlockKeys(h, a, 0, 1) != BlockKeys(h, b, 0, 1)
  {
    var a, b := TwoInputs(r, x), TwoInputs(r, y);
    KeysOfTwoInputs(r, x);
    KeysOfTwoInputs(r, y);
    var ka, kb := BlockKeys(h, a, 0, 1), BlockKeys(h, b, 0, 1);
    var at := if r.lora.Some? then 1 else 0;
    assert ka.Some? && ka.value[at] == Media(x, 0);
    assert kb.Some? && kb.value[at] == Media(y, 0);
  }

  lemma StartsOfTwoInputs(h: Hasher, r: Request, x: string)
    requires h.size == 4
    ensures StartAt(h, TwoInputs(r, x), [6, 8], 0) == 0 && StartAt(h, TwoInputs(r, x), [6, 8], 1) == 1
  {
    assert [6, 8][..1] == [6] && [6][..0] == [];
    assert FirstFull(h, [6][..0]) == 0;
    assert FirstFull(h, [6]) == 1;
  }

  lemma PiecesOfTwoBlocks(h: Hasher, r: Request)
    requires h.Valid() && h.size == 4 && |r.tokens| == 8
    ensures Growing(r, [6, 8]) && |InPieces(h, r, [6, 8])| == 2
  {
    assert [6] + [8] == [6, 8];
    PiecesLength(h, r, [6], 8);
  }

  lemma TwoInputsSeenSame(h: Hasher, r: Request, x: string, y: string)
    requires h.size == 4 && |r.tokens| == 8 && x != y
    ensures forall k :: 0 <= k < 2 ==> SeenSame(h, TwoInputs(r, x), [6, 8], TwoInputs(r, y), [6, 8], k)
  {
    var a, b := TwoInputs(r, x), TwoInputs(r, y);
    BlocksOfTwoInputs(h, r, x, y);
    StartsOfTwoInputs(h, r, x);
    StartsOfTwoInputs(h, r, y);
    forall k: nat | k < 2 ensures SeenSame(h, a, [6, 8], b, [6, 8], k) {
      if k == 0 { assert SeenSame(h, a, [6, 8], b, [6, 8], 0); } else { assert SeenSame(h, a, [6, 8], b, [6, 8], 1); }
    }
  }

  /** Two prompts that differ in the first of two inputs in their last, partial block: when it fills up, they have the
      same hashes, though not when hashed at once. */
  lemma MissedInputCollides(h: Hasher, r: Request, x: string, y: string)
    requires h.Valid() && h.size == 4 && |r.tokens| == 8 && x != y
    ensures var a, b := TwoInputs(r, x), TwoInputs(r, y);
      && Growing(a, [6, 8]) && Growing(b, [6, 8])
      && |InPieces(h, a, [6, 8])| == 2 && InPieces(h, a, [6, 8]) == InPieces(h, b, [6, 8])
      && AtOnce(h, a, 8) != AtOnce(h, b, 8)
  {
    var a, b := TwoInputs(r, x), TwoInputs(r, y);
    TwoInputsSeenSame(h, r, x, y);
    PiecesOfTwoBlocks(h, a);
    PiecesOfTwoBlocks(h, b);
    SeenSameCollides(h, a, [6, 8], b, [6, 8], 2);
    BlocksOfTwoInputs(h, r, x, y);
    DifferAtOnce(h, a, b);
  }

  lemma DifferAtOnce(h: Hasher, a: Request, b: Request)
    requires h.Valid() && h.size == 4 && |a.tokens| == 8 && |b.tokens| == 8
    requires BlockKeys(h, a, 0, 1) != BlockKeys(h, b, 0, 1)
    ensures AtOnce(h, a, 8) != AtOnce(h, b, 8)
  {
    assert Grown(a, 8) == a && Grown(b, 8) == b;
    SameHashIff(h, a, b, 2, 2, 1);
    assert !SameBlock(h, a, b, 1);
  }

  // ---------------------------------------------------------------- what extra keys stand for

  lemma {:induction false} MediaKeysAreMedia(features: seq<Feature>, c: nat, start: int, end: int)
    requires c <= |features|
    ensures forall k :: k in MediaKeys(features, c, start, end) ==> k.Media?
    decreases |features| - c
  {
    if c < |features| { MediaKeysAreMedia(features, c + 1, start, end); }
  }

  lemma SameFront<T>(a: seq<T>, b: seq<T>, a': seq<T>, b': seq<T>)
    requires a + b == a' + b' && |a| == |a'|
    ensures a == a' && b == b'
  {
    assert a == (a + b)[..|a|] && a' == (a' + b')[..|a|] && b == (a + b)[|a|..] && b' == (a' + b')[|a|..];
  }

  function Plain(text: Option<string>): seq<Key> { if text.Some? then [Text(text.value)] else [] }

  function Hashed(digest: Option<Bytes>): seq<Key> { if digest.Some? then [Digest(digest.value)] else [] }

  function DialText(dial: Option<string>): Option<string> {
    if dial.Some? then Some("refusal_lambda=" + dial.value) else None
  }

  /** The keys of a first block, by their parts. */
  function FirstKeys(r: Request, media: seq<Key>, digest: Option<Bytes>): seq<Key> {
    Plain(r.lora) + (media + (Plain(r.salt) + (Hashed(digest) + Plain(DialText(r.refusal)))))
  }

  function DigestOf(r: Request, end: int): Option<Bytes> {
    if r.embeds.Some? then Some(r.embeds.value(0, end)) else None
  }

  lemma FirstKeysAre(r: Request, media: seq<Key>, end: int)
    ensures var keys := FirstKeys(r, media, DigestOf(r, end));
      ExtraKeys(r, media, 0, end) == if keys == [] then None else Some(keys)
  {
    var keys := Plain(r.lora) + media + Plain(r.salt) + Hashed(DigestOf(r, end)) + Plain(DialText(r.refusal));
    assert keys == FirstKeys(r, media, DigestOf(r, end));
  }

  ghost predicate SameParts(a: Request, b: Request) {
    a.lora.Some? == b.lora.Some? && a.salt.Some? == b.salt.Some? && a.refusal.Some? == b.refusal.Some?
  }

  lemma MediaAt(r: Request, media: seq<Key>, digest: Option<Bytes>, i: nat)
    requires (forall k :: k in media ==> k.Media?)
    ensures i < |media| ==>
      var at := |Plain(r.lora)| + i; at < |FirstKeys(r, media, digest)| && FirstKeys(r, media, digest)[at].Media?
  {
    assert i < |media| ==> FirstKeys(r, media, digest)[|Plain(r.lora)| + i] == media[i] && media[i] in media;
  }

  lemma NoMediaAt(r: Request, media: seq<Key>, digest: Option<Bytes>)
    ensures var at := |Plain(r.lora)| + |media|;
      at < |FirstKeys(r, media, digest)| ==> !FirstKeys(r, media, digest)[at].Media?
  {
    var rest := Plain(r.salt) + (Hashed(digest) + Plain(DialText(r.refusal)));
    assert forall k :: k in rest ==> !k.Media?;
    assert FirstKeys(r, media, digest) == (Plain(r.lora) + media) + rest;
    assert rest != [] ==> rest[0] in rest;
  }

  /** With the same parts present, as many keys of both kinds between the texts. */
  lemma SameCounts(a: Request, b: Request, ma: seq<Key>, mb: seq<Key>, da: Option<Bytes>, db: Option<Bytes>)
    requires forall k :: k in ma ==> k.Media?
    requires SameParts(a, b) && FirstKeys(a, ma, da) == FirstKeys(b, mb, db)
    ensures |ma| <= |mb|
  {
    assert |Plain(a.lora)| == |Plain(b.lora)|;
    MediaAt(a, ma, da, |mb|);
    NoMediaAt(b, mb, db);
  }

  /** Two requests whose first blocks have the same extra keys agree in adapter, salt and dial exactly if they have the
      same of these at all: the keys are plain texts and do not say which is which. */
  lemma KeysTellPartsIff(a: Request, b: Request, ma: seq<Key>, mb: seq<Key>, end: int)
    requires (forall k :: k in ma ==> k.Media?) && (forall k :: k in mb ==> k.Media?)
    requires ExtraKeys(a, ma, 0, end) == ExtraKeys(b, mb, 0, end)
    ensures a.lora == b.lora && a.salt == b.salt && a.refusal == b.refusal <==> SameParts(a, b)
  {
    if SameParts(a, b) {
      var da, db := DigestOf(a, end), DigestOf(b, end);
      FirstKeysAre(a, ma, end);
      FirstKeysAre(b, mb, end);
      SameCounts(a, b, ma, mb, da, db);
      SameCounts(b, a, mb, ma, db, da);
      SameFront(Plain(a.lora), ma + (Plain(a.salt) + (Hashed(da) + Plain(DialText(a.refusal)))),
                Plain(b.lora), mb + (Plain(b.salt) + (Hashed(db) + Plain(DialText(b.refusal)))));
      SameFront(ma, Plain(a.salt) + (Hashed(da) + Plain(DialText(a.refusal))),
                mb, Plain(b.salt) + (Hashed(db) + Plain(DialText(b.refusal))));
      SameFront(Plain(a.salt), Hashed(da) + Plain(DialText(a.refusal)),
                Plain(b.salt), Hashed(db) + Plain(DialText(b.refusal)));
      SameFront(Hashed(da), Plain(DialText(a.refusal)), Hashed(db), Plain(DialText(b.refusal)));
      SameTexts(a.lora, b.lora);
      SameTexts(a.salt, b.salt);
      SameTexts(DialText(a.refusal), DialText(b.refusal));
      if a.refusal.Some? {
        SameFront("refusal_lambda=", a.refusal.value, "refusal_lambda=", b.refusal.value);
      }
    }
  }

  lemma SameTexts(x: Option<string>, y: Option<string>)
    requires Plain(x) == Plain(y)
    ensures x == y
  {
    assert x.Some? ==> Plain(x)[0] == Text(x.value);
    assert y.Some? ==> Plain(y)[0] == Text(y.value);
  }

  /** An adapter and a salt of the same name: one request has the first, the other the second, and their first blocks
      share their hash if the tokens agree. */
  lemma AdapterReadsLikeSalt(h: Hasher, tokens: seq<int>, name: string)
    requires h.Valid() && |tokens| >= h.size
    ensures var a, b := Request(tokens, [], Some(name), None, None, None),
        Request(tokens, [], None, Some(name), None, None);
      1 * h.size <= |tokens| && Chain(h, a, 0, [], 0, 1) == Chain(h, b, 0, [], 0, 1) && !SameParts(a, b)
  {
    var a, b := Request(tokens, [], Some(name), None, None, None), Request(tokens, [], None, Some(name), None, None);
    FirstKeysAre(a, [], h.size);
    FirstKeysAre(b, [], h.size);
    assert FirstKeys(a, [], None) == [Text(name)] == FirstKeys(b, [], None);
    assert BlockKeys(h, a, 0, 0) == BlockKeys(h, b, 0, 0);
    SameHashIff(h, a, b, 1, 1, 0);
    assert SameUpTo(h, a, b, 0);
  }

  // ---------------------------------------------------------------- coarser blocks

  /** Hashes read at a block size that is a multiple of the one they were computed at. */
  datatype CoarseView = CoarseView(hashes: seq<Bytes>, scale: nat)
  {
    predicate Valid() { scale > 0 }

    function Length(): (n: nat)
      requires Valid()
    {
      |hashes| / scale
    }

    /** The position of the hash that an index means; a negative one counts from the end of the fine hashes. */
    function Position(idx: int): int
      requires Valid()
    {
      var at := (idx + 1) * scale - 1;
      if at < 0 then |hashes| + at else at
    }
  }

  lemma PositionInRange(v: CoarseView, idx: nat)
    requires v.Valid() && idx < v.Length()
    ensures 0 <= v.Position(idx) < |v.hashes| && v.Position(idx) + 1 == (idx + 1) * v.scale
  {
    Quotient(|v.hashes|, v.scale);
    TimesMonotone(idx + 1, |v.hashes| / v.scale, v.scale);
    TimesMonotone(1, idx + 1, v.scale);
  }

  function CoarseHash(v: CoarseView, idx: nat): Bytes
    requires v.Valid() && idx < v.Length()
  {
    PositionInRange(v, idx);
    v.hashes[v.Position(idx)]
  }

  /** A coarse hash stands for the whole prefix to the end of the coarse block: it is shared exactly if tokens and extra
      keys agree in all fine blocks up to its last one. */
  lemma CoarseHashMeansPrefix(h: Hasher, a: Request, b: Request, n: nat, m: nat, scale: nat, idx: nat, last: nat)
    requires h.Valid() && n * h.size <= |a.tokens| && m * h.size <= |b.tokens|
    requires scale > 0 && idx < n / scale && idx < m / scale && last == CoarseView([], scale).Position(idx)
    ensures last + 1 == (idx + 1) * scale
    ensures var v, w := CoarseView(Chain(h, a, 0, [], 0, n), scale), CoarseView(Chain(h, b, 0, [], 0, m), scale);
      CoarseHash(v, idx) == CoarseHash(w, idx) <==> SameUpTo(h, a, b, last)
    ensures SameUpTo(h, a, b, last) ==> SamePrefix(h, a, b, last + 1)
  {
    var v, w := CoarseView(Chain(h, a, 0, [], 0, n), scale), CoarseView(Chain(h, b, 0, [], 0, m), scale);
    PositionInRange(v, idx);
    PositionInRange(w, idx);
    SameHashIff(h, a, b, n, m, last);
    if SameUpTo(h, a, b, last) { SameBlocksSameTokens(h, a, b, last); }
  }

  /** Counting from the end reads the intended hash exactly when the fine hashes fill the coarse blocks. */
  lemma NegativeIndexIff(v: CoarseView, back: nat)
    requires v.Valid() && 1 <= back <= v.Length()
    ensures v.Position(-(back as int)) == v.Position(v.Length() as int - back) <==> |v.hashes| % v.scale == 0
  {
    var q := v.Length();
    PositionInRange(v, q - back);
    assert |v.hashes| == q * v.scale + |v.hashes| % v.scale;
    assert (q - back + 1) * v.scale == q * v.scale + (1 - back) * v.scale;
    TimesMonotone(0, back - 1, v.scale);
    assert (1 - back) * v.scale == -((back - 1) * v.scale);
  }

  // ---------------------------------------------------------------- group ids

  /** The hash followed by the group id in four bytes, most significant first; None if it does not fit. */
  function Pack(hash: Bytes, group: int): Option<Bytes> {
    if 0 <= group < 0x1_0000_0000 then
      Some(hash + [(group / 0x100_0000) as Byte, (group / 0x1_0000 % 0x100) as Byte,
                   (group / 0x100 % 0x100) as Byte, (group % 0x100) as Byte])
    else None
  }

  function HashOf(key: Bytes): Bytes { if |key| < 4 then [] else key[..|key| - 4] }

  function BigEndian(bytes: Bytes): int {
    if bytes == [] then 0 else BigEndian(bytes[..|bytes| - 1]) * 0x100 + bytes[|bytes| - 1] as int
  }

  function GroupOf(key: Bytes): int { BigEndian(if |key| < 4 then key else key[|key| - 4..]) }

  lemma FourBytes(group: int)
    requires 0 <= group < 0x1_0000_0000
    ensures ((group / 0x100_0000 * 0x100 + group / 0x1_0000 % 0x100) * 0x100 + group / 0x100 % 0x100) * 0x100
            + group % 0x100 == group
  {
  }

  lemma BigEndianAppend(s: Bytes, x: Byte)
    ensures BigEndian(s + [x]) == BigEndian(s) * 0x100 + x as int
  {
    assert (s + [x])[..|s|] == s;
  }

  lemma BigEndianOfFour(a: Byte, b: Byte, c: Byte, d: Byte)
    ensures BigEndian([a, b, c, d]) == ((a as int * 0x100 + b as int) * 0x100 + c as int) * 0x100 + d as int
  {
    BigEndianAppend([], a);
    BigEndianAppend([a], b);
    BigEndianAppend([a, b], c);
    BigEndianAppend([a, b, c], d);
    assert [] + [a] == [a] && [a] + [b] == [a, b] && [a, b] + [c] == [a, b, c] && [a, b, c] + [d] == [a, b, c, d];
  }

  /** Packing loses nothing: both parts come back, so different pairs get different keys. */
  lemma PackRoundTrip(hash: Bytes, group: int)
    ensures var key := Pack(hash, group);
      && (key.Some? <==> 0 <= group < 0x1_0000_0000)
      && (key.Some? ==>
          && |key.value| == |hash| + 4 && HashOf(key.value) == hash && GroupOf(key.value) == group
          && var at := key.value[|hash|..];
             ((at[0] as int * 0x100 + at[1] as int) * 0x100 + at[2] as int) * 0x100 + at[3] as int == group)
  {
    if Pack(hash, group).Some? {
      var a, b, c, d := (group / 0x100_0000) as Byte, (group / 0x1_0000 % 0x100) as Byte,
                        (group / 0x100 % 0x100) as Byte, (group % 0x100) as Byte;
      var key := hash + [a, b, c, d];
      assert key[..|key| - 4] == hash && key[|key| - 4..] == [a, b, c, d];
      assert Pack(hash, group).value == key;
      BigEndianOfFour(a, b, c, d);
      FourBytes(group);
      assert GroupOf(key) == BigEndian([a, b, c, d]);
      assert GroupOf(key) == group;
      assert HashOf(key) == hash;
    }
  }
}