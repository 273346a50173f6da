// The expiring cache over the LRU (cache/cache.go).  The clock is a parameter.
module ExpiringCache {
  import opened Basics
  import Lru = LruCache

  type ByteView = seq<bv8>

  // The zero time: such an entry never expires.
  const NEVER := 0

  datatype CacheEntry = CacheEntry(value: ByteView, expiresAt: int)

  predicate Expired(e: CacheEntry, now: int) {
    e.expiresAt != NEVER && now > e.expiresAt
  }

  function EntryLen(): Lru.Len<CacheEntry> {
    (e: CacheEntry) => |e.value|
  }

  // ----- Values -----

  type Contents = seq<Lru.Entry<CacheEntry>>

  // Every operation of the cache; a lookup carries the time it happens at.
  datatype Op = Stored(key: string, entry: CacheEntry) | Got(key: string, now: int) | Deleted(key: string) | Purged

  function Do(max: nat, s: Contents, op: Op): Contents {
    match op
    case Stored(k, e) => Lru.Put(EntryLen(), s, max, k, e)
    case Got(k, now) =>
      if Lru.Lookup(s, k).Some? && Expired(Lru.Lookup(s, k).value, now)
      then Lru.Drop(Lru.Touch(s, k), k)
      else Lru.Touch(s, k)
    case Deleted(k) => Lru.Drop(s, k)
    case Purged => []
  }

  // What get answers.
  function Answer(s: Contents, key: string, now: int): Option<ByteView> {
    match Lru.Lookup(s, key)
    case None => None
    case Some(e) => if Expired(e, now) then None else Some(e.value)
  }

  function After(max: nat, ops: seq<Op>): Contents {
    if ops == [] then [] else Do(max, After(max, Front(ops)), Last(ops))
  }

  // ----- What a key was last given -----

  // The entry last stored for the key, unless it was deleted or purged since.
  function LastStored(ops: seq<Op>, key: string): Option<CacheEntry> {
    if ops == [] then None
    else
      match Last(ops)
      case Stored(k, e) => if k == key then Some(e) else LastStored(Front(ops), key)
      case Got(_, _) => LastStored(Front(ops), key)
      case Deleted(k) => if k == key then None else LastStored(Front(ops), key)
      case Purged => None
  }

  lemma LookupPrefix<V>(s: seq<Lru.Entry<V>>, t: seq<Lru.Entry<V>>, key: string)
    requires t <= s && Lru.Lookup(t, key).Some?
    ensures Lru.Lookup(s, key) == Lru.Lookup(t, key)
    decreases |s|
  {
    if t != s {
      assert t <= Front(s);
      LookupPrefix(Front(s), t, key);
    }
  }

  lemma {:induction false} LookupDrop<V>(s: seq<Lru.Entry<V>>, key: string, k: string)
    ensures Lru.Lookup(Lru.Drop(s, k), key) == if k == key then None else Lru.Lookup(s, key)
  {
    if s != [] {
      LookupDrop(Front(s), key, k);
      assert s == Front(s) + [Last(s)];
      Lru.Snoc(_ => 0, Front(s), Last(s), k);
      Lru.Snoc(_ => 0, Front(s), Last(s), key);
      Lru.Snoc(_ => 0, Lru.Drop(Front(s), k), Last(s), key);
      assert Lru.Drop(Front(s), k) + [] == Lru.Drop(Front(s), k);
    }
  }

  lemma {:induction false} LookupCons<V>(e: Lru.Entry<V>, s: seq<Lru.Entry<V>>, key: string)
    ensures Lru.Lookup([e] + s, key) == if e.key == key then Some(e.value) else Lru.Lookup(s, key)
  {
    if s == [] {
      assert [e] + s == [e] && Front([e]) == [];
    } else {
      assert Front([e] + s) == [e] + Front(s);
      LookupCons(e, Front(s), key);
    }
  }

  lemma LookupTouch<V>(s: seq<Lru.Entry<V>>, key: string, k: string)
    ensures Lru.Lookup(Lru.Touch(s, k), key) == Lru.Lookup(s, key)
  {
    if Lru.Lookup(s, k).Some? {
      LookupCons(Lru.Entry(k, Lru.Lookup(s, k).value), Lru.Drop(s, k), key);
      LookupDrop(s, key, k);
    }
  }

  // A store gives the key its new entry or, if that does not fit, none at all,
  // and leaves every other key alone or evicts it.
  lemma LookupPut<V>(len: Lru.Len<V>, s: seq<Lru.Entry<V>>, max: nat, k: string, v: V, key: string)
    ensures var r := Lru.Lookup(Lru.Put(len, s, max, k, v), key);
            && (r.Some? ==> r == if k == key then Some(v) else Lru.Lookup(s, key))
            && (max == 0 ==> r == if k == key then Some(v) else Lru.Lookup(s, key))
  {
    var full := [Lru.Entry(k, v)] + Lru.Drop(s, k);
    LookupCons(Lru.Entry(k, v), Lru.Drop(s, k), key);
    LookupDrop(s, key, k);
    Lru.TrimIsLongestPrefix(len, full, max);
    if Lru.Lookup(Lru.Trim(len, full, max), key).Some? {
      LookupPrefix(full, Lru.Trim(len, full, max), key);
    }
  }

  // ----- The cache never answers with anything else -----

  // In every run, whatever is evicted, the cache holds for a key only the entry
  // last stored for it with no later delete or purge.
  lemma {:induction false} HoldsLastStored(max: nat, ops: seq<Op>, key: string)
    ensures Lru.Lookup(After(max, ops), key).Some? ==>
              Lru.Lookup(After(max, ops), key) == LastStored(ops, key)
  {
    if ops != [] {
      var s := After(max, Front(ops));
      HoldsLastStored(max, Front(ops), key);
      match Last(ops)
      case Stored(k, e) => LookupPut(EntryLen(), s, max, k, e, key);
      case Got(k, now) =>
        LookupTouch(s, key, k);
        LookupDrop(Lru.Touch(s, k), key, k);
      case Deleted(k) => LookupDrop(s, key, k);
      case Purged =>
    }
  }

  // So an answer is the value last stored, and it has not expired.
  lemma AnswersAreCurrent(max: nat, ops: seq<Op>, key: string, now: int)
    requires Answer(After(max, ops), key, now).Some?
    ensures LastStored(ops, key).Some?
    ensures var e := LastStored(ops, key).value;
            !Expired(e, now) && Answer(After(max, ops), key, now) == Some(e.value)
  {
    HoldsLastStored(max, ops, key);
  }

  // ----- Without a limit it is exactly an expiring map -----

  // Time does not run backwards, and now is not before the last lookup.
  ghost predicate ClockUpTo(ops: seq<Op>, now: int) {
    if ops == [] then true
    else if Last(ops).Got? then Last(ops).now <= now && ClockUpTo(Front(ops), Last(ops).now)
    else ClockUpTo(Front(ops), now)
  }

  lemma {:induction false} OnlyExpiredAreMissing(ops: seq<Op>, key: string, now: int)
    requires ClockUpTo(ops, now)
    ensures LastStored(ops, key).Some? && !Expired(LastStored(ops, key).value, now) ==>
              Lru.Lookup(After(0, ops), key) == LastStored(ops, key)
  {
    if ops != [] {
      var s := After(0, Front(ops));
      OnlyExpiredAreMissing(Front(ops), key, if Last(ops).Got? then Last(ops).now else now);
      match Last(ops)
      case Stored(k, e) => LookupPut(EntryLen(), s, 0, k, e, key);
      case Got(k, _) =>
        LookupTouch(s, key, k);
        LookupDrop(Lru.Touch(s, k), key, k);
      case Deleted(k) => LookupDrop(s, key, k);
      case Purged =>
    }
  }

  // A lookup answers exactly when the last stored entry has not expired.
  lemma UnlimitedIsExact(ops: seq<Op>, key: string, now: int)
    requires ClockUpTo(ops, now)
    ensures Answer(After(0, ops), key, now)
            == match LastStored(ops, key)
               case None => None
               case Some(e) => if Expired(e, now) then None else Some(e.value)
  {
    HoldsLastStored(0, ops, key);
    OnlyExpiredAreMissing(ops, key, now);
  }

  // Without a limit a value stored without expiry is answered at every later time, and
  // one that expires at some time exactly until then, unless it was replaced, deleted or
  // purged since.
  lemma AnsweredUntilExpiry(ops: seq<Op>, key: string, value: ByteView, expiresAt: int, now: int)
    requires ClockUpTo(ops, now) && LastStored(ops, key) == Some(CacheEntry(value, expiresAt))
    ensures Answer(After(0, ops), key, now) == if expiresAt == 0 || now <= expiresAt then Some(value) else None
  {
    UnlimitedIsExact(ops, key, now);
  }

  lemma StoredAnswer(s: Contents, key: string, value: ByteView, expiresAt: int, now: int)
    ensures Answer(Do(0, s, Stored(key, CacheEntry(value, expiresAt))), key, now)
            == if expiresAt == 0 || now <= expiresAt then Some(value) else None
  {
    LookupPut(EntryLen(), s, 0, key, CacheEntry(value, expiresAt), key);
  }

  // A lookup drops the key exactly when it answers nothing, and leaves the other keys
  // alone.
  lemma LookupDropsExpired(max: nat, s: Contents, key: string, now: int, other: string)
    ensures Lru.Lookup(Do(max, s, Got(key, now)), key).Some? <==> Answer(s, key, now).Some?
    ensures other != key ==> Lru.Lookup(Do(max, s, Got(key, now)), other) == Lru.Lookup(s, other)
  {
    LookupTouch(s, key, key);
    LookupTouch(s, other, key);
    LookupDrop(Lru.Touch(s, key), key, key);
    LookupDrop(Lru.Touch(s, key), other, key);
  }

  // ----- The cache object -----

  class Cache {
    const cacheBytes: int
    var lru: Lru.Cache?<CacheEntry>

    // The limit is not negative, as eviction demands.
    ghost predicate Valid()
      reads this, lru
    {
      && 0 <= cacheBytes
      && (lru != null ==> lru.Valid() && lru.maxBytes == cacheBytes && lru.len == EntryLen())
    }

    ghost function View(): Contents
      requires Valid()
      reads this, lru
    {
      if lru == null then [] else lru.Recency()
    }

    constructor (maxBytes: int)
      requires 0 <= maxBytes
      ensures Valid() && View() == [] && cacheBytes == maxBytes && lru == null
    {
      cacheBytes := maxBytes;
      lru := null;
    }

    method Store(key: string, entry: CacheEntry)
      requires Valid()
      modifies this, lru
      ensures Valid() && View() == Do(cacheBytes, old(View()), Stored(key, entry))
      ensures lru == old(lru) || fresh(lru)
    {
      if lru == null {
        lru := new Lru.Cache(cacheBytes, EntryLen());
      }
      lru.Add(key, entry);
    }

    method Add(key: string, value: ByteView)
      requires Valid()
      modifies this, lru
      ensures Valid() && View() == Do(cacheBytes, old(View()), Stored(key, CacheEntry(value, NEVER)))
      ensures lru == old(lru) || fresh(lru)
      ensures cacheBytes == 0 ==> forall later :: Answer(View(), key, later) == Some(value)
    {
      ghost var before := View();
      Store(key, CacheEntry(value, NEVER));
      forall later ensures cacheBytes == 0 ==> Answer(View(), key, later) == Some(value) {
        StoredAnswer(before, key, value, NEVER, later);
      }
    }

    method AddWithTTL(key: string, value: ByteView, ttl: int, now: int)
      requires Valid()
      modifies this, lru
      ensures Valid() && View() == Do(cacheBytes, old(View()), Stored(key, CacheEntry(value, now + ttl)))
      ensures lru == old(lru) || fresh(lru)
      ensures cacheBytes == 0 && now + ttl != 0 ==>
                forall later :: Answer(View(), key, later) == if later <= now + ttl then Some(value) else None
    {
      ghost var before := View();
      Store(key, CacheEntry(value, now + ttl));
      forall later
        ensures cacheBytes == 0 && now + ttl != 0 ==>
                  Answer(View(), key, later) == if later <= now + ttl then Some(value) else None
      {
        StoredAnswer(before, key, value, now + ttl, later);
      }
    }

    method Get(key: string, now: int) returns (value: Option<ByteView>)
      requires Valid()
      modifies lru
      ensures Valid() && value == Answer(old(View()), key, now)
      ensures View() == Do(cacheBytes, old(View()), Got(key, now))
    {
      if lru == null {
        return None;
      }
      var found := lru.Get(key);
      match found
      case None => return None;
      case Some(entry) =>
        if Expired(entry, now) {
          var _ := lru.Remove(key);
          return None;
        }
        return Some(entry.value);
    }

    method Delete(key: string)
      requires Valid()
      modifies lru
      ensures Valid() && View() == Do(cacheBytes, old(View()), Deleted(key))
    {
      if lru == null {
        return;
      }
      var _ := lru.Remove(key);
    }

    method Purge()
      requires Valid()
      modifies this
      ensures Valid() && View() == Do(cacheBytes, old(View()), Purged) && lru == null
    {
      lru := null;
    }
  }
}
