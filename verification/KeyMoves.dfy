// How the keys of one slot are moved (cluster/model/manager.go, migrateSlotKeys,
// classifyKeys and migrateBigKey): the list of commands a worker will issue.
module KeyMoves {
  import opened Basics

  type Key = string

  const SMALL_KEY_BATCH := 50
  const CHUNK_DIVISOR := 10
  const BIG_KEY_THRESHOLD := 10 * 1024 * 1024
  const FETCH_LIMIT := 1000

  // Copy is followed by a Delete of the key when the copy succeeds.
  datatype KeyCommand = Copy(key: Key) | Delete(key: Key) | Batch(keys: seq<Key>)

  // The result of MEMORY USAGE for each key; None when the query failed.
  type Sizes = Key -> Option<int>

  function IsNormal(size: Sizes): Key -> bool {
    k => size(k).Some? && size(k).value < BIG_KEY_THRESHOLD
  }

  function IsBig(size: Sizes): Key -> bool {
    k => size(k).Some? && size(k).value >= BIG_KEY_THRESHOLD
  }

  // classifyKeys; keys whose size is unknown are in neither list.
  method ClassifyKeys(keys: seq<Key>, size: Sizes) returns (normal: seq<Key>, big: seq<Key>, failed: seq<Key>)
    ensures normal == Filter(IsNormal(size), keys)
    ensures big == Filter(IsBig(size), keys)
    ensures |normal| + |big| + |failed| == |keys|
    ensures forall k :: k in failed <==> k in keys && size(k) == None
  {
    normal, big, failed := [], [], [];
    for i := 0 to |keys|
      invariant normal == Filter(IsNormal(size), keys[..i])
      invariant big == Filter(IsBig(size), keys[..i])
      invariant |normal| + |big| + |failed| == i
      invariant forall k :: k in failed <==> k in keys[..i] && size(k) == None
    {
      assert Front(keys[..i + 1]) == keys[..i];
      assert keys[..i + 1] == keys[..i] + [keys[i]];
      match size(keys[i])
      case None => failed := failed + [keys[i]];
      case Some(n) =>
        if n >= BIG_KEY_THRESHOLD {
          big := big + [keys[i]];
        } else {
          normal := normal + [keys[i]];
        }
    }
    assert keys[..|keys|] == keys;
  }

  function ChunkSize(n: nat): (c: nat)
    ensures c >= 10
  {
    if n / CHUNK_DIVISOR < 10 then 10 else n / CHUNK_DIVISOR
  }

  // Consecutive chunks of c elements; the last one may be shorter.
  function ChunksOf<T>(s: seq<T>, c: nat): seq<seq<T>>
    requires c > 0
    decreases |s|
  {
    if s == [] then []
    else if |s| <= c then [s]
    else [s[..c]] + ChunksOf(s[c..], c)
  }

  function Concat<T>(ss: seq<seq<T>>): seq<T> {
    if ss == [] then [] else ss[0] + Concat(ss[1..])
  }

  function From<T>(s: seq<T>, i: nat): seq<T> {
    if i < |s| then s[i..] else []
  }

  // The chunks from i on: one that ends at i + c or with the sequence, and the rest.
  lemma NextChunk<T>(s: seq<T>, i: nat, c: nat)
    requires i < |s| && c > 0
    ensures ChunksOf(From(s, i), c) == [s[i..if i + c > |s| then |s| else i + c]] + ChunksOf(From(s, i + c), c)
  {
    if i + c < |s| {
      assert s[i..][c..] == s[i + c..];
      assert s[i..][..c] == s[i..i + c];
    } else {
      assert s[i..|s|] == s[i..];
    }
  }

  lemma OneMoreChunk<T>(s: seq<T>, chunks: seq<seq<T>>, i: nat, c: nat, end: nat)
    requires i < |s| && c > 0 && end == if i + c > |s| then |s| else i + c
    ensures chunks + ChunksOf(From(s, i), c) == chunks + [s[i..end]] + ChunksOf(From(s, i + c), c)
  {
    NextChunk(s, i, c);
  }

  // The chunk loop: from i in steps of c, each chunk cut off at the end.
  method Chunks(normal: seq<Key>) returns (chunks: seq<seq<Key>>)
    ensures chunks == ChunksOf(normal, ChunkSize(|normal|))
  {
    var c := ChunkSize(|normal|);
    chunks := [];
    var i := 0;
    while i < |normal|
      invariant 0 <= i && chunks + ChunksOf(From(normal, i), c) == ChunksOf(normal, c)
      decreases |normal| - i
    {
      var end := i + c;
      if end > |normal| {
        end := |normal|;
      }
      OneMoreChunk(normal, chunks, i, c, end);
      chunks := chunks + [normal[i..end]];
      i := i + c;
    }
  }

  // The chunks are the keys, each exactly once and in order.
  lemma {:induction false} ChunksCover<T>(s: seq<T>, c: nat)
    requires c > 0
    ensures Concat(ChunksOf(s, c)) == s
    ensures forall i :: 0 <= i < |ChunksOf(s, c)| ==> 0 < |ChunksOf(s, c)[i]| <= c
    decreases |s|
  {
    if |s| > c {
      ChunksCover(s[c..], c);
      assert s == s[..c] + s[c..];
    } else if s != [] {
      assert Concat([s]) == s + Concat([]);
    }
  }

  lemma {:induction false} ChunkCount<T>(s: seq<T>, c: nat, n: nat)
    requires c > 0 && |s| <= n * c
    ensures |ChunksOf(s, c)| <= n
    decreases |s|
  {
    if |s| > c {
      assert (n - 1) * c == n * c - c;
      ChunkCount(s[c..], c, n - 1);
    } else if s != [] {
      assert n > 0;
    }
  }

  // However many keys there are, at most eleven batches are sent.
  lemma AtMostElevenChunks(normal: seq<Key>)
    ensures |ChunksOf(normal, ChunkSize(|normal|))| <= 11
  {
    ChunkCount(normal, ChunkSize(|normal|), 11);
  }

  // ----- The commands for one slot -----

  function Copies(big: seq<Key>): seq<KeyCommand> {
    if big == [] then [] else [Copy(big[0])] + Copies(big[1..])
  }

  function Batches(chunks: seq<seq<Key>>): seq<KeyCommand> {
    if chunks == [] then [] else [Batch(chunks[0])] + Batches(chunks[1..])
  }

  // migrateSlotKeys: few keys go in one batch; otherwise big keys are copied one
  // by one first, and the normal ones follow in chunks.
  function Commands(keys: seq<Key>, size: Sizes): seq<KeyCommand> {
    if keys == [] then []
    else if |keys| <= SMALL_KEY_BATCH then [Batch(keys)]
    else
      var normal := Filter(IsNormal(size), keys);
      Copies(Filter(IsBig(size), keys)) + Batches(ChunksOf(normal, ChunkSize(|normal|)))
  }

  function Handled(c: KeyCommand): set<Key> {
    match c
    case Copy(k) => {k}
    case Delete(k) => {k}
    case Batch(ks) => set k | k in ks
  }

  // The keys some command handles.
  function Pending(work: seq<KeyCommand>): set<Key> {
    if work == [] then {} else Handled(work[0]) + Pending(work[1..])
  }

  lemma {:induction false} PendingConcat(a: seq<KeyCommand>, b: seq<KeyCommand>)
    ensures Pending(a + b) == Pending(a) + Pending(b)
  {
    if a == [] {
      assert a + b == b;
    } else {
      assert (a + b)[1..] == a[1..] + b;
      PendingConcat(a[1..], b);
    }
  }

  lemma {:induction false} PendingCopies(big: seq<Key>)
    ensures Pending(Copies(big)) == set k | k in big
    ensures forall i :: 0 <= i < |Copies(big)| ==> Copies(big)[i].Copy?
  {
    if big != [] {
      PendingCopies(big[1..]);
      assert big == [big[0]] + big[1..];
    }
  }

  lemma {:induction false} PendingBatches(chunks: seq<seq<Key>>)
    ensures Pending(Batches(chunks)) == set k | k in Concat(chunks)
    ensures forall i :: 0 <= i < |Batches(chunks)| ==> Batches(chunks)[i].Batch?
  {
    if chunks != [] { PendingBatches(chunks[1..]); }
  }

  // The commands handle exactly the keys that were fetched, apart from those
  // whose size query failed when there are more than fifty; none is a Delete.
  lemma CommandsHandle(keys: seq<Key>, size: Sizes)
    ensures Pending(Commands(keys, size))
            == set k | k in keys && (|keys| <= SMALL_KEY_BATCH || size(k).Some?)
    ensures forall i :: 0 <= i < |Commands(keys, size)| ==> !Commands(keys, size)[i].Delete?
  {
    if |keys| > SMALL_KEY_BATCH {
      var normal, big := Filter(IsNormal(size), keys), Filter(IsBig(size), keys);
      PendingConcat(Copies(big), Batches(ChunksOf(normal, ChunkSize(|normal|))));
      PendingCopies(big);
      PendingBatches(ChunksOf(normal, ChunkSize(|normal|)));
      ChunksCover(normal, ChunkSize(|normal|));
      forall k ensures k in normal || k in big <==> k in keys && size(k).Some? {
        FilterMember(IsNormal(size), keys, k);
        FilterMember(IsBig(size), keys, k);
      }
    } else if keys != [] {
      assert Pending([Batch(keys)]) == Handled(Batch(keys)) + Pending([]);
    }
  }

  // ----- Which key goes by which command -----

  lemma {:induction false} CopiesAre(big: seq<Key>)
    ensures |Copies(big)| == |big| && forall i :: 0 <= i < |big| ==> Copies(big)[i] == Copy(big[i])
  {
    if big != [] {
      CopiesAre(big[1..]);
      assert forall i :: 0 < i < |big| ==> big[i] == big[1..][i - 1] && Copies(big)[i] == Copies(big[1..])[i - 1];
    }
  }

  lemma {:induction false} BatchesAre(chunks: seq<seq<Key>>)
    ensures |Batches(chunks)| == |chunks| && forall i :: 0 <= i < |chunks| ==> Batches(chunks)[i] == Batch(chunks[i])
  {
    if chunks != [] {
      BatchesAre(chunks[1..]);
      assert forall i :: 0 < i < |chunks| ==>
        chunks[i] == chunks[1..][i - 1] && Batches(chunks)[i] == Batches(chunks[1..])[i - 1];
    }
  }

  // All chunks but the last one are full.
  lemma {:induction false} ChunksAreFull<T>(s: seq<T>, c: nat, i: nat)
    requires c > 0 && i < |ChunksOf(s, c)|
    ensures 0 < |ChunksOf(s, c)[i]| <= c && (i < |ChunksOf(s, c)| - 1 ==> |ChunksOf(s, c)[i]| == c)
    decreases |s|
  {
    if |s| > c && i > 0 { ChunksAreFull(s[c..], c, i - 1); }
  }

  // How often a key is named by copies, and by batches.
  function CopiesOf(work: seq<KeyCommand>, k: Key): nat {
    if work == [] then 0 else (if work[0] == Copy(k) then 1 else 0) + CopiesOf(work[1..], k)
  }

  function BatchedOf(work: seq<KeyCommand>, k: Key): nat {
    if work == [] then 0
    else (if work[0].Batch? then multiset(work[0].keys)[k] else 0) + BatchedOf(work[1..], k)
  }

  lemma {:induction false} NamesConcat(a: seq<KeyCommand>, b: seq<KeyCommand>, k: Key)
    ensures CopiesOf(a + b, k) == CopiesOf(a, k) + CopiesOf(b, k)
    ensures BatchedOf(a + b, k) == BatchedOf(a, k) + BatchedOf(b, k)
  {
    if a == [] {
      assert a + b == b;
    } else {
      assert (a + b)[1..] == a[1..] + b;
      NamesConcat(a[1..], b, k);
    }
  }

  lemma CountCons<T>(x: T, s: seq<T>, k: T)
    ensures multiset([x] + s)[k] == (if x == k then 1 else 0) + multiset(s)[k]
  {
  }

  lemma {:induction false} NamesOfCopies(big: seq<Key>, k: Key)
    ensures CopiesOf(Copies(big), k) == multiset(big)[k] && BatchedOf(Copies(big), k) == 0
  {
    if big != [] {
      NamesOfCopies(big[1..], k);
      assert Copies(big)[1..] == Copies(big[1..]);
      CountCons(big[0], big[1..], k);
      assert big == [big[0]] + big[1..];
    }
  }

  lemma {:induction false} NamesOfBatches(chunks: seq<seq<Key>>, k: Key)
    ensures BatchedOf(Batches(chunks), k) == multiset(Concat(chunks))[k] && CopiesOf(Batches(chunks), k) == 0
  {
    if chunks != [] {
      NamesOfBatches(chunks[1..], k);
      assert Batches(chunks)[1..] == Batches(chunks[1..]);
    }
  }

  // The key was found to have at least, or fewer than, ten megabytes.
  predicate Large(size: Sizes, k: Key) {
    size(k).Some? && size(k).value >= 10 * 1024 * 1024
  }

  predicate Small(size: Sizes, k: Key) {
    size(k).Some? && size(k).value < 10 * 1024 * 1024
  }

  // Of more than fifty keys every large one is named by one copy and no batch, every
  // small one by one batch and no copy, as often as it was fetched.
  lemma SortedBySize(keys: seq<Key>, size: Sizes, k: Key)
    requires |keys| > 50
    ensures CopiesOf(Commands(keys, size), k) == if Large(size, k) then multiset(keys)[k] else 0
    ensures BatchedOf(Commands(keys, size), k) == if Small(size, k) then multiset(keys)[k] else 0
  {
    var normal, big := Filter(IsNormal(size), keys), Filter(IsBig(size), keys);
    var chunks := ChunksOf(normal, ChunkSize(|normal|));
    NamesConcat(Copies(big), Batches(chunks), k);
    NamesOfCopies(big, k);
    NamesOfBatches(chunks, k);
    ChunksCover(normal, ChunkSize(|normal|));
    FilterCount(IsNormal(size), keys, k);
    FilterCount(IsBig(size), keys, k);
  }

  // The command copies a large key.
  ghost predicate CopiesLarge(size: Sizes, c: KeyCommand) {
    c.Copy? && Large(size, c.key)
  }

  // The command is a batch of small keys, at most full of them.
  ghost predicate BatchesSmall(size: Sizes, c: KeyCommand, full: nat) {
    c.Batch? && 0 < |c.keys| <= full && forall k :: k in c.keys ==> Small(size, k)
  }

  // The first b commands copy one large key each; the others are batches of small
  // keys, all but the last one of the same size.
  ghost predicate CopiesThenBatches(size: Sizes, work: seq<KeyCommand>, b: nat, full: nat) {
    && b <= |work|
    && (forall i :: 0 <= i < b ==> CopiesLarge(size, work[i]))
    && (forall i :: b <= i < |work| ==> BatchesSmall(size, work[i], full))
    && (forall i :: b <= i < |work| - 1 ==> work[i].Batch? && |work[i].keys| == full)
  }

  lemma {:induction false} InConcat<T>(ss: seq<seq<T>>, i: nat, x: T)
    requires i < |ss| && x in ss[i]
    ensures x in Concat(ss)
  {
    if i > 0 { InConcat(ss[1..], i - 1, x); }
  }

  lemma OnlyNormalInChunks(keys: seq<Key>, size: Sizes, chunks: seq<seq<Key>>, i: nat, k: Key)
    requires Concat(chunks) == Filter(IsNormal(size), keys) && i < |chunks| && k in chunks[i]
    ensures Small(size, k)
  {
    InConcat(chunks, i, k);
    FilterMember(IsNormal(size), keys, k);
  }

  lemma LargeCopies(keys: seq<Key>, size: Sizes, i: nat)
    requires i < |Filter(IsBig(size), keys)|
    ensures |Copies(Filter(IsBig(size), keys))| == |Filter(IsBig(size), keys)|
    ensures CopiesLarge(size, Copies(Filter(IsBig(size), keys))[i])
  {
    var big := Filter(IsBig(size), keys);
    CopiesAre(big);
    assert big[i] in big;
    FilterMember(IsBig(size), keys, big[i]);
  }

  lemma SmallBatches(keys: seq<Key>, size: Sizes, normal: seq<Key>, c: nat, i: nat)
    requires normal == Filter(IsNormal(size), keys) && c > 0 && i < |ChunksOf(normal, c)|
    ensures |Batches(ChunksOf(normal, c))| == |ChunksOf(normal, c)|
    ensures var batch := Batches(ChunksOf(normal, c))[i];
            && BatchesSmall(size, batch, c)
            && (i < |ChunksOf(normal, c)| - 1 ==> |batch.keys| == c)
  {
    var chunks := ChunksOf(normal, c);
    ChunksCover(normal, c);
    BatchesAre(chunks);
    ChunksAreFull(normal, c, i);
    forall k | k in chunks[i] ensures Small(size, k) { OnlyNormalInChunks(keys, size, chunks, i, k); }
  }

  lemma Placed(size: Sizes, copies: seq<KeyCommand>, batches: seq<KeyCommand>, full: nat)
    requires forall i :: 0 <= i < |copies| ==> CopiesLarge(size, copies[i])
    requires forall i :: 0 <= i < |batches| ==> BatchesSmall(size, batches[i], full)
    requires forall i :: 0 <= i < |batches| - 1 ==> batches[i].Batch? && |batches[i].keys| == full
    ensures CopiesThenBatches(size, copies + batches, |copies|, full)
  {
    var work := copies + batches;
    assert forall i :: |copies| <= i < |work| ==> work[i] == batches[i - |copies|];
  }

  lemma ManyKeys(keys: seq<Key>, size: Sizes, normal: seq<Key>, big: seq<Key>)
    requires |keys| > 50 && normal == Filter(IsNormal(size), keys) && big == Filter(IsBig(size), keys)
    ensures CopiesThenBatches(size, Commands(keys, size), |big|, ChunkSize(|normal|))
  {
    var c := ChunkSize(|normal|);
    var copies, batches := Copies(big), Batches(ChunksOf(normal, c));
    CopiesAre(big);
    BatchesAre(ChunksOf(normal, c));
    forall i | 0 <= i < |copies| ensures CopiesLarge(size, copies[i]) { LargeCopies(keys, size, i); }
    forall i | 0 <= i < |batches|
      ensures BatchesSmall(size, batches[i], c) && (i < |batches| - 1 ==> |batches[i].keys| == c)
    {
      SmallBatches(keys, size, normal, c, i);
    }
    Placed(size, copies, batches, c);
  }

  // More than fifty keys: the large ones are copied one by one first, as many as there
  // are, and the small ones follow in batches of a tenth of them, at least ten.
  lemma CopiesComeFirst(keys: seq<Key>, size: Sizes) returns (b: nat, n: nat)
    requires |keys| > 50
    ensures b == |Filter(k => Large(size, k), keys)| && n == |Filter(k => Small(size, k), keys)|
    ensures CopiesThenBatches(size, Commands(keys, size), b, if n < 100 then 10 else n / 10)
  {
    var normal, big := Filter(IsNormal(size), keys), Filter(IsBig(size), keys);
    FilterAgrees(IsBig(size), k => Large(size, k), keys);
    FilterAgrees(IsNormal(size), k => Small(size, k), keys);
    b, n := |big|, |normal|;
    ManyKeys(keys, size, normal, big);
  }

  // Up to fifty keys go in one batch, whatever their sizes.
  lemma FewKeysInOneBatch(keys: seq<Key>, size: Sizes)
    requires |keys| <= 50
    ensures Commands(keys, size) == if keys == [] then [] else [Batch(keys)]
  {
  }
}
