/** The verified frames a queue keeps: oldest first, bounded in number, bytes and age. */
module FrameCache {
  import opened Wrappers

  const MAX_CACHE_BYTES := 4 * 1024 * 1024
  const MAX_CACHE_ENTRIES := 8
  const CACHE_TTL_MS := 2 * 60 * 1000

  /** `frame` is the text that names the frame; the cache key is that text with the image flag written into it. */
  datatype Command = Command(frame: string, includeImage: bool)

  datatype Frame = Frame(facts: nat, image: Option<string>)

  datatype Entry = Entry(key: Command, result: Frame, expiresAt: int, bytes: nat)

  datatype Cache = Cache(entries: seq<Entry>, bytes: int)

  datatype Reading = Reading(cache: Cache, found: Option<Frame>)

  function KeyLength(key: Command): nat {
    |key.frame| + if key.includeImage then |"true"| else |"false"|
  }

  /** The bytes an entry is charged: two for each UTF-16 unit, and a fixed overhead. */
  function Charge(key: Command, result: Frame): nat {
    ((if result.image.Some? then |result.image.value| else 0) + KeyLength(key)) * 2 + 512
  }

  function IndexOf(entries: seq<Entry>, key: Command): (i: nat)
    ensures i <= |entries|
    ensures i < |entries| ==> entries[i].key == key
    ensures forall j :: 0 <= j < i ==> entries[j].key != key
  {
    if entries == [] || entries[0].key == key then 0 else 1 + IndexOf(entries[1..], key)
  }

  predicate HasKey(entries: seq<Entry>, key: Command) {
    exists i :: 0 <= i < |entries| && entries[i].key == key
  }

  function Without(entries: seq<Entry>, i: nat): seq<Entry>
    requires i < |entries|
  {
    entries[..i] + entries[i + 1..]
  }

  /** A live entry moves to the back; an expired one is dropped. */
  function Read(c: Cache, key: Command, now: int): Reading {
    var i := IndexOf(c.entries, key);
    if i == |c.entries| then Reading(c, None)
    else
      var entry := c.entries[i];
      var rest := Without(c.entries, i);
      if entry.expiresAt <= now then Reading(Cache(rest, c.bytes - entry.bytes), None)
      else Reading(Cache(rest + [entry], c.bytes), Some(entry.result))
  }

  predicate Full(c: Cache, bytes: nat) {
    |c.entries| >= MAX_CACHE_ENTRIES || c.bytes + bytes > MAX_CACHE_BYTES
  }

  /** Drop the oldest entries until the new one fits, or none is left. */
  function Evict(c: Cache, bytes: nat): Cache
    decreases |c.entries|
  {
    if Full(c, bytes) && c.entries != [] then Evict(Cache(c.entries[1..], c.bytes - c.entries[0].bytes), bytes) else c
  }

  /** A new key goes to the back; a key that is there already is overwritten in place. */
  function Put(entries: seq<Entry>, entry: Entry): seq<Entry> {
    var i := IndexOf(entries, entry.key);
    if i == |entries| then entries + [entry] else entries[i := entry]
  }

  function Remember(c: Cache, key: Command, result: Frame, now: int): Cache {
    var bytes := Charge(key, result);
    if bytes > MAX_CACHE_BYTES then c
    else
      var room := Evict(c, bytes);
      Cache(Put(room.entries, Entry(key, result, now + CACHE_TTL_MS, bytes)), room.bytes + bytes)
  }

  // ----- accounting -----

  /** The text an entry holds: its image, and the key with the image flag written into it. */
  function KeptText(key: Command, result: Frame): string {
    (match result.image case Some(image) => image case None => "")
    + key.frame + (if key.includeImage then "true" else "false")
  }

  lemma ChargeMeans(key: Command, result: Frame)
    ensures Charge(key, result) == 2 * |KeptText(key, result)| + 512
  {
  }

  /** Two bytes for each unit of that text, and the overhead. */
  predicate Charged(e: Entry) {
    e.bytes == 2 * |KeptText(e.key, e.result)| + 512
  }

  function SumBytes(entries: seq<Entry>): nat {
    if entries == [] then 0 else entries[0].bytes + SumBytes(entries[1..])
  }

  ghost predicate KeysApart(entries: seq<Entry>) {
    forall i, j :: 0 <= i < j < |entries| ==> entries[i].key != entries[j].key
  }

  /** The accounts add up and both bounds hold. */
  ghost predicate CacheOk(c: Cache) {
    && c.bytes == SumBytes(c.entries)
    && KeysApart(c.entries)
    && |c.entries| <= MAX_CACHE_ENTRIES
    && c.bytes <= MAX_CACHE_BYTES
    && forall i :: 0 <= i < |c.entries| ==> Charged(c.entries[i])
  }

  lemma {:induction false} SumOfConcat(a: seq<Entry>, b: seq<Entry>)
    ensures SumBytes(a + b) == SumBytes(a) + SumBytes(b)
  {
    if a == [] {
      assert a + b == b;
    } else {
      assert (a + b)[1..] == a[1..] + b;
      SumOfConcat(a[1..], b);
    }
  }

  lemma SumWithout(entries: seq<Entry>, i: nat)
    requires i < |entries|
    ensures SumBytes(Without(entries, i)) == SumBytes(entries) - entries[i].bytes
  {
    SumOfConcat(entries[..i], entries[i + 1..]);
    SumOfConcat(entries[..i], entries[i..]);
    assert entries == entries[..i] + entries[i..];
  }

  /** Reading keeps the accounts, drops only the entry it read, and finds exactly a live entry. */
  lemma ReadKeeps(c: Cache, key: Command, now: int)
    requires CacheOk(c)
    ensures var r := Read(c, key, now);
            && CacheOk(r.cache)
            && (r.found.Some? <==> exists e :: e in c.entries && e.key == key && e.expiresAt > now)
            && (r.found.Some? ==>
                 exists e :: e in c.entries && e.key == key && e.expiresAt > now && e.result == r.found.value)
            && (r.found.None? ==> !HasKey(r.cache.entries, key))
            && (forall e :: e in r.cache.entries <==> e in c.entries && (e.key != key || e.expiresAt > now))
  {
    var i := IndexOf(c.entries, key);
    hide Charged, SumBytes, IndexOf;
    if i < |c.entries| {
      RestKeeps(c, i);
      WithoutKeeps(c.entries, i);
      hide CacheOk, KeysApart;
    }
  }

  /** Dropping an entry, or moving it to the back, keeps the accounts. */
  lemma RestKeeps(c: Cache, i: nat)
    requires CacheOk(c) && i < |c.entries|
    ensures CacheOk(Cache(Without(c.entries, i), c.bytes - c.entries[i].bytes))
    ensures CacheOk(Cache(Without(c.entries, i) + [c.entries[i]], c.bytes))
  {
    var entry := c.entries[i];
    SumWithout(c.entries, i);
    SumOfConcat(Without(c.entries, i), [entry]);
    assert SumBytes([entry]) == entry.bytes;
    hide Charged, SumBytes;
  }

  lemma WithoutKeeps(entries: seq<Entry>, i: nat)
    requires i < |entries| && KeysApart(entries)
    ensures KeysApart(Without(entries, i)) && !HasKey(Without(entries, i), entries[i].key)
    ensures forall e :: e in Without(entries, i) <==> e in entries && e.key != entries[i].key
  {
    var rest := Without(entries, i);
    forall e | e in entries && e.key != entries[i].key ensures e in rest {
      var j :| 0 <= j < |entries| && entries[j] == e;
      assert rest[if j < i then j else j - 1] == e;
    }
  }

  lemma DropOldestKeeps(c: Cache)
    requires CacheOk(c) && c.entries != []
    ensures CacheOk(Cache(c.entries[1..], c.bytes - c.entries[0].bytes))
  {
  }

  /** A cache that has no room for an entry of allowed size is not empty: there is always an oldest one to drop. */
  lemma FullIsNotEmpty(c: Cache, bytes: nat)
    requires CacheOk(c) && bytes <= MAX_CACHE_BYTES && Full(c, bytes)
    ensures c.entries != []
  {
  }

  /** Evicting drops from the front only, makes room, and never finds the cache empty while it is full. */
  lemma {:induction false} EvictMakesRoom(c: Cache, bytes: nat)
    requires CacheOk(c) && bytes <= MAX_CACHE_BYTES
    ensures CacheOk(Evict(c, bytes)) && !Full(Evict(c, bytes), bytes)
    ensures exists n :: 0 <= n <= |c.entries| && Evict(c, bytes).entries == c.entries[n..]
    decreases |c.entries|
  {
    hide CacheOk;
    if Full(c, bytes) {
      FullIsNotEmpty(c, bytes);
      DropOldestKeeps(c);
      var next := Cache(c.entries[1..], c.bytes - c.entries[0].bytes);
      EvictMakesRoom(next, bytes);
      var n :| 0 <= n <= |next.entries| && Evict(next, bytes).entries == next.entries[n..];
      assert next.entries[n..] == c.entries[n + 1..];
    } else {
      assert Evict(c, bytes).entries == c.entries[0..];
    }
  }

  lemma EvictStep(c: Cache, bytes: nat)
    requires Full(c, bytes) && c.entries != []
    ensures Evict(c, bytes) == Evict(Cache(c.entries[1..], c.bytes - c.entries[0].bytes), bytes)
  {
  }

  /** Remembering a key the cache does not hold keeps the accounts and both bounds. */
  lemma RememberKeeps(c: Cache, key: Command, result: Frame, now: int)
    requires CacheOk(c) && !HasKey(c.entries, key)
    ensures var d := Remember(c, key, result, now);
            && CacheOk(d)
            && (forall e :: e in d.entries ==> e in c.entries || (e.key == key && e.result == result))
  {
    var bytes := Charge(key, result);
    if bytes <= MAX_CACHE_BYTES {
      var room := Evict(c, bytes);
      EvictMakesRoom(c, bytes);
      hide Evict;
      SumOfConcat(room.entries, [Entry(key, result, now + CACHE_TTL_MS, bytes)]);
    }
  }

  /** The accounts survive exactly when the key is not still there: an overwritten entry would stay charged. */
  lemma AccountsNeedANewKey(c: Cache, key: Command, result: Frame, now: int)
    requires CacheOk(c) && Charge(key, result) <= MAX_CACHE_BYTES
    ensures var d := Remember(c, key, result, now);
            d.bytes == SumBytes(d.entries) <==> !HasKey(Evict(c, Charge(key, result)).entries, key)
  {
    var bytes := Charge(key, result);
    var room := Evict(c, bytes);
    EvictMakesRoom(c, bytes);
    RoomAccounts(room, key);
    PutCharges(room.entries, Entry(key, result, now + CACHE_TTL_MS, bytes));
    hide Evict, CacheOk, SumBytes, IndexOf, HasKey, Put, Charge;
  }

  lemma RoomAccounts(c: Cache, key: Command)
    requires CacheOk(c)
    ensures c.bytes == SumBytes(c.entries)
    ensures var i := IndexOf(c.entries, key);
            if HasKey(c.entries, key) then i < |c.entries| && c.entries[i].bytes > 0 else i == |c.entries|
  {
  }

  lemma PutCharges(entries: seq<Entry>, entry: Entry)
    ensures var i := IndexOf(entries, entry.key);
            SumBytes(Put(entries, entry)) ==
            SumBytes(entries) + entry.bytes - if i < |entries| then entries[i].bytes else 0
  {
    var i := IndexOf(entries, entry.key);
    if i == |entries| {
      SumOfConcat(entries, [entry]);
    } else {
      SumWithout(entries, i);
      SumWithout(entries[i := entry], i);
      assert Without(entries[i := entry], i) == Without(entries, i);
    }
  }

  // ----- reading back, and what eviction spares -----

  lemma {:induction false} IndexOfLast(entries: seq<Entry>, entry: Entry)
    requires !HasKey(entries, entry.key)
    ensures IndexOf(entries + [entry], entry.key) == |entries|
  {
    var i := IndexOf(entries + [entry], entry.key);
    assert (entries + [entry])[|entries|] == entry;
    assert forall j :: 0 <= j < |entries| ==> (entries + [entry])[j] == entries[j];
  }

  lemma ReadLast(entries: seq<Entry>, bytes: int, entry: Entry, later: int)
    requires !HasKey(entries, entry.key)
    ensures Read(Cache(entries + [entry], bytes), entry.key, later).found
            == if later < entry.expiresAt then Some(entry.result) else None
  {
    IndexOfLast(entries, entry);
    hide IndexOf, HasKey;
  }

  lemma EvictAddsNoKey(c: Cache, bytes: nat, key: Command)
    requires CacheOk(c) && bytes <= MAX_CACHE_BYTES && !HasKey(c.entries, key)
    ensures !HasKey(Evict(c, bytes).entries, key)
  {
    EvictMakesRoom(c, bytes);
    hide CacheOk, Evict;
  }

  lemma NewKeyGoesLast(entries: seq<Entry>, entry: Entry)
    requires !HasKey(entries, entry.key)
    ensures Put(entries, entry) == entries + [entry]
  {
  }

  /** A frame that fits can be read back for exactly its lifetime. */
  lemma RememberThenRead(c: Cache, key: Command, result: Frame, now: int, later: int)
    requires CacheOk(c) && !HasKey(c.entries, key) && 2 * |KeptText(key, result)| + 512 <= 4_194_304
    ensures Read(Remember(c, key, result, now), key, later).found
            == if later < now + 120_000 then Some(result) else None
  {
    ChargeMeans(key, result);
    hide CacheOk, Evict, Charge, KeptText, HasKey, Put, Read;
    var bytes := Charge(key, result);
    var room := Evict(c, bytes);
    var entry := Entry(key, result, now + CACHE_TTL_MS, bytes);
    EvictAddsNoKey(c, bytes, key);
    NewKeyGoesLast(room.entries, entry);
    ReadLast(room.entries, room.bytes + bytes, entry, later);
  }

  /** The frame that was read last is the last to be evicted. */
  lemma RecentReadSurvives(c: Cache, key: Command, now: int, bytes: nat)
    requires CacheOk(c) && Read(c, key, now).found.Some? && bytes <= MAX_CACHE_BYTES
    ensures var room := Evict(Read(c, key, now).cache, bytes);
            room.entries == [] || room.entries[|room.entries| - 1].key == key
  {
    var r := Read(c, key, now);
    ReadKeeps(c, key, now);
    EvictMakesRoom(r.cache, bytes);
    assert r.cache.entries[|r.cache.entries| - 1].key == key;
  }
}
