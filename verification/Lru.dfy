// The LRU cache with byte accounting (cache/lru/lru.go).
module LruCache {
  import opened Basics

  // ----- Values: the recency list, most recent entry first -----

  datatype Entry<V> = Entry(key: string, value: V)

  // Value.Len() of the cached values.
  type Len<!V> = V -> nat

  function Size<V>(len: Len<V>, e: Entry<V>): nat {
    |e.key| + len(e.value)
  }

  function Bytes<V>(len: Len<V>, s: seq<Entry<V>>): nat {
    if s == [] then 0 else Bytes(len, Front(s)) + Size(len, Last(s))
  }

  function KeyIsNot<V>(key: string): Entry<V> -> bool {
    (e: Entry<V>) => e.key != key
  }

  function Drop<V>(s: seq<Entry<V>>, key: string): seq<Entry<V>> {
    Filter(KeyIsNot(key), s)
  }

  // The first entry with the key.
  function Lookup<V>(s: seq<Entry<V>>, key: string): Option<V> {
    if s == [] then None
    else
      match Lookup(Front(s), key)
      case Some(v) => Some(v)
      case None => if Last(s).key == key then Some(Last(s).value) else None
  }

  // The key becomes the most recent one.
  function Touch<V>(s: seq<Entry<V>>, key: string): seq<Entry<V>> {
    match Lookup(s, key)
    case None => s
    case Some(v) => [Entry(key, v)] + Drop(s, key)
  }

  predicate Full<V>(len: Len<V>, s: seq<Entry<V>>, max: int) {
    max != 0 && max < Bytes(len, s)
  }

  // What the eviction loop leaves, and what it evicts, in order.
  function Trim<V>(len: Len<V>, s: seq<Entry<V>>, max: nat): seq<Entry<V>> {
    if Full(len, s, max) then Trim(len, Front(s), max) else s
  }

  function Evictions<V>(len: Len<V>, s: seq<Entry<V>>, max: nat): seq<Entry<V>> {
    if Full(len, s, max) then [Last(s)] + Evictions(len, Front(s), max) else []
  }

  function Put<V>(len: Len<V>, s: seq<Entry<V>>, max: nat, key: string, value: V): seq<Entry<V>> {
    Trim(len, [Entry(key, value)] + Drop(s, key), max)
  }

  predicate UniqueKeys<V>(s: seq<Entry<V>>) {
    forall i, j :: 0 <= i < j < |s| ==> s[i].key != s[j].key
  }

  function Reverse<T>(s: seq<T>): seq<T> {
    if s == [] then [] else Reverse(s[1..]) + [s[0]]
  }

  // ----- Eviction leaves the longest recent prefix that fits -----

  // Without a limit nothing is evicted; otherwise what is left fits and every longer
  // prefix does not.
  ghost predicate LongestFitting<V>(len: Len<V>, s: seq<Entry<V>>, max: nat, t: seq<Entry<V>>) {
    && t <= s
    && (max == 0 ==> t == s)
    && (max > 0 ==> Bytes(len, t) <= max && forall n :: |t| < n <= |s| ==> Bytes(len, s[..n]) > max)
  }

  lemma {:induction false} TrimIsLongestPrefix<V>(len: Len<V>, s: seq<Entry<V>>, max: nat)
    ensures LongestFitting(len, s, max, Trim(len, s, max))
    ensures s == Trim(len, s, max) + Reverse(Evictions(len, s, max))
  {
    if Full(len, s, max) {
      TrimIsLongestPrefix(len, Front(s), max);
      var t, rest := Trim(len, s, max), Evictions(len, Front(s), max);
      assert ([Last(s)] + rest)[1..] == rest;
      forall n | |t| < n <= |s| ensures Bytes(len, s[..n]) > max {
        if n < |s| { assert Front(s)[..n] == s[..n]; } else { assert s[..n] == s; }
      }
      assert s == Front(s) + [Last(s)];
    } else {
      assert s + [] == s;
    }
  }

  // The bytes are those of the keys and those of the values.
  function KeyBytes<V>(s: seq<Entry<V>>): nat {
    if s == [] then 0 else |s[0].key| + KeyBytes(s[1..])
  }

  function ValueBytes<V>(len: Len<V>, s: seq<Entry<V>>): nat {
    if s == [] then 0 else len(s[0].value) + ValueBytes(len, s[1..])
  }

  lemma {:induction false} BytesOfCons<V>(len: Len<V>, e: Entry<V>, s: seq<Entry<V>>)
    ensures Bytes(len, [e] + s) == Bytes(len, s) + |e.key| + len(e.value)
  {
    if s == [] {
      assert [e] + s == [e] && Front([e]) == [];
    } else {
      assert Front([e] + s) == [e] + Front(s);
      BytesOfCons(len, e, Front(s));
    }
  }

  lemma {:induction false} BytesAreKeysAndValues<V>(len: Len<V>, s: seq<Entry<V>>)
    ensures Bytes(len, s) == KeyBytes(s) + ValueBytes(len, s)
  {
    if s != [] {
      BytesAreKeysAndValues(len, s[1..]);
      BytesOfCons(len, s[0], s[1..]);
      assert [s[0]] + s[1..] == s;
    }
  }

  // The loop has a state to stop in, one without a limit or within it, exactly when the
  // limit is not negative: the empty cache still counts as too full for a negative one.
  lemma LoopCanStop<V>(len: Len<V>, max: int)
    ensures (exists s: seq<Entry<V>> :: !Full(len, s, max)) <==> 0 <= max
    ensures forall s: seq<Entry<V>> :: Full(len, s, max) <==> max != 0 && Bytes(len, s) > max
  {
    if 0 <= max { assert !Full<V>(len, [], max); }
  }

  // A limit that is at least as generous; 0 is no limit.
  predicate AtLeast(max: nat, max': nat) {
    max' == 0 || (max != 0 && max <= max')
  }

  lemma TrimPrefix<V>(len: Len<V>, s: seq<Entry<V>>, s': seq<Entry<V>>, max: nat, max': nat)
    requires s <= s' && AtLeast(max, max')
    ensures Trim(len, s, max) <= Trim(len, s', max')
  {
    TrimIsLongestPrefix(len, s, max);
    TrimIsLongestPrefix(len, s', max');
    var t, t' := Trim(len, s, max), Trim(len, s', max');
    assert s'[..|t|] == t && !Full(len, t, max');
  }

  // ----- A larger cache never misses where a smaller one hits -----

  // The cache in front of a store: values are written through, invalidated after
  // a change in the store, dropped, or read through.
  datatype Op<V> =
    | Write(key: string, value: V)
    | Invalidate(key: string, value: V)
    | Forget(key: string)
    | Read(key: string)

  function Store<V>(store: map<string, V>, op: Op<V>): map<string, V> {
    match op
    case Write(k, v) => store[k := v]
    case Invalidate(k, v) => store[k := v]
    case Forget(_) => store
    case Read(_) => store
  }

  predicate Hit<V>(s: seq<Entry<V>>, op: Op<V>) {
    op.Read? && Lookup(s, op.key).Some?
  }

  function Do<V>(len: Len<V>, max: nat, store: map<string, V>, s: seq<Entry<V>>, op: Op<V>): seq<Entry<V>> {
    match op
    case Write(k, v) => Put(len, s, max, k, v)
    case Invalidate(k, _) => Drop(s, k)
    case Forget(k) => Drop(s, k)
    case Read(k) =>
      if Lookup(s, k).Some? then Touch(s, k)
      else if k in store then Put(len, s, max, k, store[k])
      else s
  }

  function StoreAfter<V>(ops: seq<Op<V>>): map<string, V> {
    if ops == [] then map[] else Store(StoreAfter(Front(ops)), Last(ops))
  }

  function CacheAfter<V>(len: Len<V>, max: nat, ops: seq<Op<V>>): seq<Entry<V>> {
    if ops == [] then []
    else Do(len, max, StoreAfter(Front(ops)), CacheAfter(len, max, Front(ops)), Last(ops))
  }

  function Hits<V>(len: Len<V>, max: nat, ops: seq<Op<V>>): nat {
    if ops == [] then 0
    else Hits(len, max, Front(ops)) + if Hit(CacheAfter(len, max, Front(ops)), Last(ops)) then 1 else 0
  }

  // Keys are unique and every cached value is the store's.
  ghost predicate Coherent<V>(store: map<string, V>, s: seq<Entry<V>>) {
    && UniqueKeys(s)
    && forall i :: 0 <= i < |s| ==> s[i].key in store && store[s[i].key] == s[i].value
  }

  // One entry at the end, for the functions above.
  lemma Snoc<V>(len: Len<V>, s: seq<Entry<V>>, e: Entry<V>, key: string)
    ensures Bytes(len, s + [e]) == Bytes(len, s) + Size(len, e)
    ensures Drop(s + [e], key) == Drop(s, key) + if e.key == key then [] else [e]
    ensures Lookup(s + [e], key) == if Lookup(s, key).None? && e.key == key then Some(e.value) else Lookup(s, key)
  {
    assert Front(s + [e]) == s;
  }

  lemma {:induction false} LookupMember<V>(s: seq<Entry<V>>, key: string)
    ensures Lookup(s, key).Some? ==> Entry(key, Lookup(s, key).value) in s
    ensures Lookup(s, key).None? ==> forall i :: 0 <= i < |s| ==> s[i].key != key
  {
    if s != [] {
      LookupMember(Front(s), key);
      assert s == Front(s) + [Last(s)];
    }
  }

  lemma {:induction false} DropUnique<V>(s: seq<Entry<V>>, key: string)
    requires UniqueKeys(s)
    ensures UniqueKeys(Drop(s, key))
    ensures forall i :: 0 <= i < |Drop(s, key)| ==> Drop(s, key)[i] in s && Drop(s, key)[i].key != key
  {
    if s != [] {
      DropUnique(Front(s), key);
      assert s == Front(s) + [Last(s)];
      var t := Drop(Front(s), key);
      forall i | 0 <= i < |t| ensures t[i].key != Last(s).key {
        var j :| 0 <= j < |Front(s)| && Front(s)[j] == t[i];
        assert s[j] == t[i];
      }
    }
  }

  lemma {:induction false} DropPrefix<V>(s: seq<Entry<V>>, s': seq<Entry<V>>, key: string)
    requires s <= s'
    ensures Drop(s, key) <= Drop(s', key)
  {
    assert s' == s + s'[|s|..];
    FilterConcat(KeyIsNot(key), s, s'[|s|..]);
  }

  lemma DropAbsent<V>(s: seq<Entry<V>>, key: string)
    requires Lookup(s, key).None?
    ensures Drop(s, key) == s
  {
    LookupMember(s, key);
    FilterAll(KeyIsNot(key), s);
  }

  // Without the key, a change of the key's stored value does not matter.
  lemma DropCoherent<V>(store: map<string, V>, store': map<string, V>, s: seq<Entry<V>>, key: string)
    requires Coherent(store, s)
    requires forall k :: k in store && k != key ==> k in store' && store'[k] == store[k]
    ensures Coherent(store', Drop(s, key))
    ensures forall i :: 0 <= i < |Drop(s, key)| ==> Drop(s, key)[i].key != key
  {
    DropUnique(s, key);
  }

  lemma PutCoherent<V>(len: Len<V>, max: nat, store: map<string, V>, s: seq<Entry<V>>, key: string)
    requires key in store && Coherent(store, Drop(s, key))
    requires forall i :: 0 <= i < |Drop(s, key)| ==> Drop(s, key)[i].key != key
    ensures Coherent(store, Put(len, s, max, key, store[key]))
  {
    var full := [Entry(key, store[key])] + Drop(s, key);
    assert Coherent(store, full);
    TrimIsLongestPrefix(len, full, max);
  }

  lemma DoCoherent<V>(len: Len<V>, max: nat, store: map<string, V>, s: seq<Entry<V>>, op: Op<V>)
    requires Coherent(store, s)
    ensures Coherent(Store(store, op), Do(len, max, store, s, op))
  {
    DropCoherent(store, Store(store, op), s, op.key);
    match op
    case Write(k, v) => PutCoherent(len, max, store[k := v], s, k);
    case Invalidate(_, _) =>
    case Forget(_) =>
    case Read(k) =>
      LookupMember(s, k);
      if Lookup(s, k).None? && k in store { PutCoherent(len, max, store, s, k); }
  }

  lemma PutInclusion<V>(len: Len<V>, max: nat, max': nat, s: seq<Entry<V>>, s': seq<Entry<V>>, k: string, v: V)
    requires AtLeast(max, max') && Drop(s, k) <= Drop(s', k)
    ensures Put(len, s, max, k, v) <= Put(len, s', max', k, v)
  {
    TrimPrefix(len, [Entry(k, v)] + Drop(s, k), [Entry(k, v)] + Drop(s', k), max, max');
  }

  // The smaller cache misses where the larger one hits: the larger one moves the entry
  // to the front, the smaller one loads it.
  lemma LateInclusion<V>(len: Len<V>, max: nat, s: seq<Entry<V>>, s': seq<Entry<V>>, k: string, v: V)
    requires Drop(s, k) <= Drop(s', k)
    ensures Put(len, s, max, k, v) <= [Entry(k, v)] + Drop(s', k)
  {
    TrimIsLongestPrefix(len, [Entry(k, v)] + Drop(s, k), max);
  }

  lemma ReadInclusion<V>(len: Len<V>, max: nat, max': nat, store: map<string, V>,
                         s: seq<Entry<V>>, s': seq<Entry<V>>, k: string)
    requires AtLeast(max, max') && s <= s' && Coherent(store, s') && Drop(s, k) <= Drop(s', k)
    ensures Do(len, max, store, s, Read(k)) <= Do(len, max', store, s', Read(k))
    ensures Hit(s, Read(k)) ==> Hit(s', Read(k))
  {
    LookupMember(s, k);
    LookupMember(s', k);
    if Lookup(s, k).None? {
      DropAbsent(s, k);
      if k in store {
        if Lookup(s', k).Some? {
          LateInclusion(len, max, s, s', k, store[k]);
        } else {
          PutInclusion(len, max, max', s, s', k, store[k]);
        }
      }
    }
  }

  lemma DoInclusion<V>(len: Len<V>, max: nat, max': nat, store: map<string, V>,
                       s: seq<Entry<V>>, s': seq<Entry<V>>, op: Op<V>)
    requires AtLeast(max, max') && s <= s' && Coherent(store, s')
    ensures Do(len, max, store, s, op) <= Do(len, max', store, s', op)
    ensures Hit(s, op) ==> Hit(s', op)
  {
    DropPrefix(s, s', op.key);
    match op
    case Write(k, v) => PutInclusion(len, max, max', s, s', k, v);
    case Invalidate(_, _) =>
    case Forget(_) =>
    case Read(k) => ReadInclusion(len, max, max', store, s, s', k);
  }

  // For every run, the recency list of the smaller cache is a prefix of the
  // larger one's, so whatever the smaller holds the larger holds too, and the
  // larger one never scores fewer hits.
  lemma {:induction false} Inclusion<V>(len: Len<V>, max: nat, max': nat, ops: seq<Op<V>>)
    requires AtLeast(max, max')
    ensures Coherent(StoreAfter(ops), CacheAfter(len, max', ops))
    ensures CacheAfter(len, max, ops) <= CacheAfter(len, max', ops)
    ensures Hits(len, max, ops) <= Hits(len, max', ops)
  {
    if ops != [] {
      var before := Front(ops);
      Inclusion(len, max, max', before);
      DoCoherent(len, max', StoreAfter(before), CacheAfter(len, max', before), Last(ops));
      DoInclusion(len, max, max', StoreAfter(before), CacheAfter(len, max, before),
                  CacheAfter(len, max', before), Last(ops));
    }
  }

  // ----- The list is in the order of use -----

  predicate Uses<V>(op: Op<V>, key: string) {
    (op.Write? || op.Read?) && op.key == key
  }

  // After how many operations the key was last written or read.
  function LastUse<V>(ops: seq<Op<V>>, key: string): (n: nat)
    ensures n <= |ops|
  {
    if ops == [] then 0 else if Uses(Last(ops), key) then |ops| else LastUse(Front(ops), key)
  }

  // Used later means further in front.
  ghost predicate ByUse<V>(ops: seq<Op<V>>, s: seq<Entry<V>>) {
    forall i, j :: 0 <= i < j < |s| ==> LastUse(ops, s[i].key) > LastUse(ops, s[j].key)
  }

  lemma {:induction false} DropByUse<V>(ops: seq<Op<V>>, s: seq<Entry<V>>, key: string)
    requires ByUse(ops, s)
    ensures ByUse(ops, Drop(s, key))
  {
    if s != [] {
      DropByUse(ops, Front(s), key);
      var kept := Drop(Front(s), key);
      forall i | 0 <= i < |kept| ensures LastUse(ops, kept[i].key) > LastUse(ops, Last(s).key) {
        FilterMember(KeyIsNot(key), Front(s), kept[i]);
        var h :| 0 <= h < |Front(s)| && Front(s)[h] == kept[i];
        assert s[h] == kept[i] && s[|s| - 1] == Last(s);
      }
    }
  }

  lemma OthersByUse<V>(ops: seq<Op<V>>, s: seq<Entry<V>>)
    requires ops != [] && ByUse(Front(ops), s) && forall i :: 0 <= i < |s| ==> !Uses(Last(ops), s[i].key)
    ensures ByUse(ops, s)
  {
  }

  lemma DroppedKey<V>(s: seq<Entry<V>>, key: string, i: nat)
    requires i < |Drop(s, key)|
    ensures Drop(s, key)[i].key != key
  {
    FilterMember(KeyIsNot(key), s, Drop(s, key)[i]);
  }

  // The key in front was used by the last operation.
  lemma FrontByUse<V>(ops: seq<Op<V>>, s: seq<Entry<V>>, e: Entry<V>)
    requires ops != [] && Uses(Last(ops), e.key) && ByUse(Front(ops), s)
    ensures ByUse(ops, [e] + Drop(s, e.key))
  {
    var rest := Drop(s, e.key);
    DropByUse(Front(ops), s, e.key);
    forall i | 0 <= i < |rest| ensures rest[i].key != e.key { DroppedKey(s, e.key, i); }
    OthersByUse(ops, rest);
    var full := [e] + rest;
    forall i, j | 0 <= i < j < |full| ensures LastUse(ops, full[i].key) > LastUse(ops, full[j].key) {
      if i > 0 { assert full[i] == rest[i - 1] && full[j] == rest[j - 1]; } else { assert full[j] == rest[j - 1]; }
    }
  }

  lemma PutByUse<V>(len: Len<V>, max: nat, ops: seq<Op<V>>, s: seq<Entry<V>>, key: string, value: V)
    requires ops != [] && Uses(Last(ops), key) && ByUse(Front(ops), s)
    ensures ByUse(ops, Put(len, s, max, key, value))
  {
    FrontByUse(ops, s, Entry(key, value));
    TrimIsLongestPrefix(len, [Entry(key, value)] + Drop(s, key), max);
  }

  lemma DoByUse<V>(len: Len<V>, max: nat, store: map<string, V>, ops: seq<Op<V>>, s: seq<Entry<V>>)
    requires ops != [] && ByUse(Front(ops), s)
    ensures ByUse(ops, Do(len, max, store, s, Last(ops)))
  {
    match Last(ops)
    case Write(k, v) => PutByUse(len, max, ops, s, k, v);
    case Invalidate(k, _) =>
      DropByUse(Front(ops), s, k);
      OthersByUse(ops, Drop(s, k));
    case Forget(k) =>
      DropByUse(Front(ops), s, k);
      OthersByUse(ops, Drop(s, k));
    case Read(k) =>
      LookupMember(s, k);
      match Lookup(s, k)
      case Some(v) => FrontByUse(ops, s, Entry(k, v));
      case None => if k in store { PutByUse(len, max, ops, s, k, store[k]); } else { OthersByUse(ops, s); }
  }

  // In every run, for every limit, the list is in the order of last use, so that
  // eviction takes the entries unused for longest.
  lemma {:induction false} MostRecentFirst<V>(len: Len<V>, max: nat, ops: seq<Op<V>>)
    ensures ByUse(ops, CacheAfter(len, max, ops))
  {
    if ops != [] {
      MostRecentFirst(len, max, Front(ops));
      DoByUse(len, max, StoreAfter(Front(ops)), ops, CacheAfter(len, max, Front(ops)));
    }
  }

  // ----- The cache object -----

  // List and map hold the same keys, one to one.
  ghost predicate Linked<V>(ll: seq<string>, cache: map<string, V>) {
    if ll == [] then cache == map[]
    else Last(ll) in cache && Linked(Front(ll), cache - {Last(ll)})
  }

  // The recency list as keys and values.
  ghost function Entries<V>(ll: seq<string>, cache: map<string, V>): (s: seq<Entry<V>>)
    requires Linked(ll, cache)
    ensures |s| == |ll|
  {
    if ll == [] then []
    else Entries(Front(ll), cache - {Last(ll)}) + [Entry(Last(ll), cache[Last(ll)])]
  }

  lemma {:induction false} LookupLinked<V>(ll: seq<string>, cache: map<string, V>, key: string)
    requires Linked(ll, cache)
    ensures Lookup(Entries(ll, cache), key) == if key in cache then Some(cache[key]) else None
  {
    if ll != [] {
      var sub := cache - {Last(ll)};
      LookupLinked(Front(ll), sub, key);
      assert Front(Entries(ll, cache)) == Entries(Front(ll), sub);
    }
  }

  // Taking a key out of the list and the map.
  lemma {:induction false} TakenOut<V>(ll: seq<string>, cache: map<string, V>, key: string)
    requires Linked(ll, cache)
    ensures Linked(Filter(Not(key), ll), cache - {key})
    ensures Entries(Filter(Not(key), ll), cache - {key}) == Drop(Entries(ll, cache), key)
  {
    if ll != [] {
      var last, front, sub := Last(ll), Front(ll), cache - {Last(ll)};
      TakenOut(front, sub, key);
      assert Front(Entries(ll, cache)) == Entries(front, sub);
      if last == key {
        assert sub - {key} == sub && cache - {key} == sub;
        assert Filter(Not(key), ll) == Filter(Not(key), front);
      } else {
        assert (cache - {key}) - {last} == sub - {key};
        assert Filter(Not(key), ll) == Filter(Not(key), front) + [last];
        assert Front(Filter(Not(key), ll)) == Filter(Not(key), front);
      }
    } else {
      assert cache - {key} == map[];
    }
  }

  lemma BytesTakenNext<V>(len: Len<V>, s: seq<Entry<V>>, e: Entry<V>, key: string, gone: int)
    requires Bytes(len, Drop(s, key)) == Bytes(len, s) - gone
    ensures Bytes(len, Drop(s + [e], key)) == Bytes(len, s + [e]) - gone - if e.key == key then Size(len, e) else 0
  {
    Snoc(len, s, e, key);
    Snoc(len, Drop(s, key), e, key);
    assert e.key == key ==> Drop(s, key) + [] == Drop(s, key);
  }

  // It gives back exactly the key's bytes.
  lemma {:induction false} BytesTakenOut<V>(len: Len<V>, ll: seq<string>, cache: map<string, V>, key: string)
    requires Linked(ll, cache)
    ensures Bytes(len, Drop(Entries(ll, cache), key))
            == Bytes(len, Entries(ll, cache)) - if key in cache then |key| + len(cache[key]) else 0
  {
    if ll != [] {
      var sub, e := cache - {Last(ll)}, Entry(Last(ll), cache[Last(ll)]);
      BytesTakenOut(len, Front(ll), sub, key);
      BytesTakenNext(len, Entries(Front(ll), sub), e, key, if key in sub then |key| + len(sub[key]) else 0);
    }
  }

  // Putting a new key in front of the list and into the map.
  lemma {:induction false} PutIn<V>(len: Len<V>, ll: seq<string>, cache: map<string, V>, key: string, value: V)
    requires Linked(ll, cache) && key !in cache
    ensures Linked([key] + ll, cache[key := value])
    ensures var s := Entries([key] + ll, cache[key := value]);
            && s == [Entry(key, value)] + Entries(ll, cache)
            && Bytes(len, s) == Bytes(len, Entries(ll, cache)) + |key| + len(value)
  {
    if ll == [] {
      assert [key] + ll == [key] && Front([key]) == [];
      assert cache[key := value] - {key} == map[];
      assert Entries([key], cache[key := value]) == [Entry(key, value)];
      assert Front([Entry(key, value)]) == [];
    } else {
      var last, front, sub := Last(ll), Front(ll), cache - {Last(ll)};
      PutIn(len, front, sub, key, value);
      assert Front([key] + ll) == [key] + front;
      assert cache[key := value] - {last} == sub[key := value];
      var s := Entries([key] + ll, cache[key := value]);
      assert Front(s) == Entries([key] + front, sub[key := value]);
      assert Front(Entries(ll, cache)) == Entries(front, sub);
    }
  }

  // Moving a key to the front, with a new value or its old one.
  lemma MovedUp<V>(len: Len<V>, ll: seq<string>, cache: map<string, V>, key: string, value: V)
    requires Linked(ll, cache) && key in cache
    ensures Linked([key] + Filter(Not(key), ll), cache[key := value])
    ensures var s := Entries([key] + Filter(Not(key), ll), cache[key := value]);
            && s == [Entry(key, value)] + Drop(Entries(ll, cache), key)
            && Bytes(len, s) == Bytes(len, Entries(ll, cache)) - len(cache[key]) + len(value)
  {
    TakenOut(ll, cache, key);
    BytesTakenOut(len, ll, cache, key);
    PutIn(len, Filter(Not(key), ll), cache - {key}, key, value);
    assert (cache - {key})[key := value] == cache[key := value];
  }

  // An element of the Go list is the only one with its key; the key stands for it.
  class Cache<V> {
    const maxBytes: int
    const len: Len<V>
    var nbytes: int
    var ll: seq<string>
    var cache: map<string, V>
    var evicted: seq<Entry<V>>   // what OnEvicted was called with, in order

    // nbytes is the sum of the sizes of what the list and the map hold.
    ghost predicate Valid()
      reads this
    {
      Linked(ll, cache) && nbytes == Bytes(len, Entries(ll, cache))
    }

    ghost function Recency(): seq<Entry<V>>
      requires Valid()
      reads this
    {
      Entries(ll, cache)
    }

    constructor (maxBytes: int, len: Len<V>)
      ensures Valid() && Recency() == [] && evicted == []
      ensures this.maxBytes == maxBytes && this.len == len
    {
      this.maxBytes, this.len := maxBytes, len;
      nbytes, ll, cache, evicted := 0, [], map[], [];
    }

    method Get(key: string) returns (value: Option<V>)
      requires Valid()
      modifies this`ll
      ensures Valid() && value == Lookup(old(Recency()), key)
      ensures Recency() == Touch(old(Recency()), key)
    {
      if key in cache {
        LookupLinked(ll, cache, key);
        MovedUp(len, ll, cache, key, cache[key]);
        assert cache[key := cache[key]] == cache;
        ll := [key] + Filter(Not(key), ll);
        return Some(cache[key]);
      }
      LookupLinked(ll, cache, key);
      return None;
    }

    method RemoveOldest()
      requires Valid()
      modifies this
      ensures Valid()
      ensures old(Recency()) == [] ==> Recency() == [] && evicted == old(evicted)
      ensures old(Recency()) != [] ==>
                Recency() == Front(old(Recency())) && evicted == old(evicted) + [Last(old(Recency()))]
    {
      if |ll| > 0 {
        var key := ll[|ll| - 1];
        var value := cache[key];
        assert Front(Entries(ll, cache)) == Entries(Front(ll), cache - {key});
        ll := ll[..|ll| - 1];
        cache := cache - {key};
        nbytes := nbytes - (|key| + len(value));
        evicted := evicted + [Entry(key, value)];
      }
    }

    // A negative limit would make the eviction loop run forever.
    method Add(key: string, value: V)
      requires Valid() && 0 <= maxBytes
      modifies this
      ensures Valid()
      ensures Recency() == Put(len, old(Recency()), maxBytes, key, value)
      ensures evicted == old(evicted)
                         + Evictions(len, [Entry(key, value)] + Drop(old(Recency()), key), maxBytes)
      ensures maxBytes > 0 ==> nbytes <= maxBytes
      ensures maxBytes == 0 || Bytes(len, [Entry(key, value)] + Drop(old(Recency()), key)) <= maxBytes ==>
                evicted == old(evicted) && Recency() == [Entry(key, value)] + Drop(old(Recency()), key)
    {
      Insert(key, value);
      Evict();
    }

    // The first half of Add: the key moves or is pushed to the front.
    method Insert(key: string, value: V)
      requires Valid()
      modifies this`ll, this`cache, this`nbytes
      ensures Valid() && Recency() == [Entry(key, value)] + Drop(old(Recency()), key)
    {
      if key in cache {
        MovedUp(len, ll, cache, key, value);
        ll := [key] + Filter(Not(key), ll);
        nbytes := nbytes + len(value) - len(cache[key]);
        cache := cache[key := value];
      } else {
        PutIn(len, ll, cache, key, value);
        LookupLinked(ll, cache, key);
        DropAbsent(Entries(ll, cache), key);
        ll := [key] + ll;
        cache := cache[key := value];
        nbytes := nbytes + |key| + len(value);
      }
    }

    // The loop in Add.
    method Evict()
      requires Valid() && 0 <= maxBytes
      modifies this
      ensures Valid() && Recency() == Trim(len, old(Recency()), maxBytes)
      ensures evicted == old(evicted) + Evictions(len, old(Recency()), maxBytes)
      ensures maxBytes > 0 ==> nbytes <= maxBytes
      ensures maxBytes == 0 || Bytes(len, old(Recency())) <= maxBytes ==>
                evicted == old(evicted) && Recency() == old(Recency())
    {
      ghost var full := Recency();
      while maxBytes != 0 && maxBytes < nbytes
        invariant Valid()
        invariant Trim(len, Recency(), maxBytes) == Trim(len, full, maxBytes)
        invariant evicted + Evictions(len, Recency(), maxBytes) == old(evicted) + Evictions(len, full, maxBytes)
        decreases |ll|
      {
        RemoveOldest();
      }
    }

    method Remove(key: string) returns (ok: bool)
      requires Valid()
      modifies this
      ensures Valid() && Recency() == Drop(old(Recency()), key)
      ensures match Lookup(old(Recency()), key)
              case None => !ok && evicted == old(evicted)
              case Some(v) => ok && evicted == old(evicted) + [Entry(key, v)]
    {
      LookupLinked(ll, cache, key);
      if key !in cache {
        DropAbsent(Recency(), key);
        return false;
      }
      TakenOut(ll, cache, key);
      BytesTakenOut(len, ll, cache, key);
      var value := cache[key];
      ll := Filter(Not(key), ll);
      cache := cache - {key};
      nbytes := nbytes - (|key| + len(value));
      evicted := evicted + [Entry(key, value)];
      return true;
    }
  }
}
