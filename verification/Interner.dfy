/** The arena-based string interner, under an arbitrary hash function. */
module Interner {
  import opened Text
  import opened Sequences
  import opened Machine

  const SIZE_32: nat := 0x1_0000_0000
  const SIZE_16: nat := 0x1_0000

  type Word16 = n: nat | n < SIZE_16

  // ----- the table it should stand for

  predicate Injective(table: seq<Bytes>) {
    forall i, j :: 0 <= i < j < |table| ==> table[i] != table[j]
  }

  /** Linear search. */
  function IndexOf(table: seq<Bytes>, s: Bytes): (r: Option<nat>)
    ensures r.Some? ==> r.value < |table| && table[r.value] == s
    ensures r.Some? <==> s in table
  {
    if table == [] then None
    else if table[|table| - 1] == s then Some(|table| - 1)
    else IndexOf(table[..|table| - 1], s)
  }

  lemma IndexOfIs(table: seq<Bytes>, s: Bytes, i: nat)
    requires Injective(table) && i < |table| && table[i] == s
    ensures IndexOf(table, s) == Some(i)
  {
    assert s in table;
  }

  function InternSpec(table: seq<Bytes>, s: Bytes): seq<Bytes> {
    if s in table then table else table + [s]
  }

  function IdSpec(table: seq<Bytes>, s: Bytes): (id: nat)
    ensures id < |InternSpec(table, s)| && InternSpec(table, s)[id] == s
  {
    match IndexOf(table, s)
    case Some(i) => i
    case None => |table|
  }

  // ----- how it is stored

  datatype Offset = Offset(start: nat, len: Word16)

  /** Casts to 32 and 16 bits. */
  function Low32(n: nat): (r: nat)
    ensures r < SIZE_32 && (n < SIZE_32 ==> r == n)
  {
    n % SIZE_32
  }

  function Low16(n: nat): (r: Word16)
    ensures r <= n && (r == n <==> n < SIZE_16)
  {
    n % SIZE_16
  }

  predicate InRange(arena: Bytes, offsets: seq<Offset>) {
    forall i :: 0 <= i < |offsets| ==> offsets[i].start + offsets[i].len <= |arena|
  }

  function Slice(arena: Bytes, o: Offset): Option<Bytes> {
    if o.start + o.len <= |arena| then Some(arena[o.start..o.start + o.len]) else None
  }

  /** The bytes of an id, whatever the parts are. */
  function Read(arena: Bytes, offsets: seq<Offset>, id: nat): Option<Bytes> {
    if id < |offsets| then Slice(arena, offsets[id]) else None
  }

  /** Every id reads what the entry of its string reads. */
  ghost predicate ReadsAll(arena: Bytes, offsets: seq<Offset>, keys: seq<Bytes>) {
    forall i: nat :: i < |keys| ==> Read(arena, offsets, i) == Some(Stored(keys[i]))
  }

  function TableOf(arena: Bytes, offsets: seq<Offset>): (table: seq<Bytes>)
    requires InRange(arena, offsets)
    ensures |table| == |offsets|
  {
    if offsets == [] then []
    else
      var n := |offsets| - 1;
      TableOf(arena, offsets[..n]) + [arena[offsets[n].start..offsets[n].start + offsets[n].len]]
  }

  lemma {:induction false} TableAt(arena: Bytes, offsets: seq<Offset>, i: nat)
    requires InRange(arena, offsets) && i < |offsets|
    ensures Slice(arena, offsets[i]) == Some(TableOf(arena, offsets)[i])
  {
    var n := |offsets| - 1;
    if i < n {
      TableAt(arena, offsets[..n], i);
    }
  }

  /** What the entry of a string reads: the string, or what the cast of its length leaves of it. */
  function Stored(s: Bytes): (r: Bytes)
    ensures |r| < SIZE_16 && (r == s <==> |s| < SIZE_16)
  {
    s[..Low16(|s|)]
  }

  function StoredAll(keys: seq<Bytes>): (table: seq<Bytes>)
    ensures |table| == |keys|
  {
    if keys == [] then [] else StoredAll(keys[..|keys| - 1]) + [Stored(keys[|keys| - 1])]
  }

  lemma {:induction false} StoredAt(keys: seq<Bytes>, i: nat)
    requires i < |keys|
    ensures StoredAll(keys)[i] == Stored(keys[i])
  {
    var n := |keys| - 1;
    if i < n {
      StoredAt(keys[..n], i);
    }
  }

  lemma StoredNext(keys: seq<Bytes>, s: Bytes)
    ensures StoredAll(keys + [s]) == StoredAll(keys) + [Stored(s)]
  {
    SnocFront(keys, s);
  }

  predicate AllShort(keys: seq<Bytes>) {
    forall i :: 0 <= i < |keys| ==> |keys[i]| < SIZE_16
  }

  lemma {:induction false} StoredShort(keys: seq<Bytes>)
    requires AllShort(keys)
    ensures StoredAll(keys) == keys
  {
    if keys != [] {
      var n := |keys| - 1;
      StoredShort(keys[..n]);
      Unsnoc(keys);
    }
  }

  // ----- buckets

  /** The ids whose strings hash to `h`, in order. */
  function BucketOf(keys: seq<Bytes>, hash: Bytes -> nat, h: nat): seq<nat> {
    if keys == [] then []
    else
      var n := |keys| - 1;
      var front := BucketOf(keys[..n], hash, h);
      if hash(keys[n]) == h then front + [n] else front
  }

  function BucketIn(lookup: map<nat, seq<nat>>, h: nat): seq<nat> {
    if h in lookup then lookup[h] else []
  }

  function AddTo(lookup: map<nat, seq<nat>>, h: nat, id: nat): map<nat, seq<nat>> {
    lookup[h := BucketIn(lookup, h) + [id]]
  }

  /** The lookup of a list of strings: each id in the bucket of its string's hash. */
  function LookupOf(keys: seq<Bytes>, hash: Bytes -> nat): map<nat, seq<nat>> {
    if keys == [] then map[]
    else var n := |keys| - 1; AddTo(LookupOf(keys[..n], hash), hash(keys[n]), n)
  }

  /** Its entry for `h` is exactly the bucket of `h`. */
  lemma {:induction false} LookupBuckets(keys: seq<Bytes>, hash: Bytes -> nat, h: nat)
    ensures BucketIn(LookupOf(keys, hash), h) == BucketOf(keys, hash, h)
  {
    if keys != [] {
      LookupBuckets(keys[..|keys| - 1], hash, h);
    }
  }

  lemma LookupNext(keys: seq<Bytes>, hash: Bytes -> nat, s: Bytes)
    ensures LookupOf(keys + [s], hash) == AddTo(LookupOf(keys, hash), hash(s), |keys|)
  {
    SnocFront(keys, s);
  }

  lemma LookupStep(keys: seq<Bytes>, hash: Bytes -> nat, i: nat)
    requires i < |keys|
    ensures LookupOf(keys[..i + 1], hash) == AddTo(LookupOf(keys[..i], hash), hash(keys[i]), i)
  {
    Snoc(keys, i);
    LookupNext(keys[..i], hash, keys[i]);
  }

  // ----- what a lookup finds

  /** Entry `i` answers a lookup of `s`. */
  predicate Matches(keys: seq<Bytes>, hash: Bytes -> nat, s: Bytes, i: nat) {
    i < |keys| && hash(keys[i]) == hash(s) && Stored(keys[i]) == s
  }

  /** The first entry that answers. */
  function FindKey(keys: seq<Bytes>, hash: Bytes -> nat, s: Bytes): (r: Option<nat>)
    ensures r.Some? ==> Matches(keys, hash, s, r.value)
  {
    if keys == [] then None
    else
      var n := |keys| - 1;
      var front := FindKey(keys[..n], hash, s);
      if front.Some? then front else if Matches(keys, hash, s, n) then Some(n) else None
  }

  lemma {:induction false} FindsFirst(keys: seq<Bytes>, hash: Bytes -> nat, s: Bytes, i: nat)
    requires Matches(keys, hash, s, i)
    ensures FindKey(keys, hash, s).Some? && FindKey(keys, hash, s).value <= i
  {
    var n := |keys| - 1;
    if i < n {
      assert Matches(keys[..n], hash, s, i);
      FindsFirst(keys[..n], hash, s, i);
    } else {
      var front := FindKey(keys[..n], hash, s);
    }
  }

  lemma FindNext(keys: seq<Bytes>, hash: Bytes -> nat, s: Bytes, x: Bytes)
    ensures FindKey(keys + [x], hash, s)
      == if FindKey(keys, hash, s).Some? then FindKey(keys, hash, s)
         else if hash(x) == hash(s) && Stored(x) == s then Some(|keys|) else None
  {
    SnocFront(keys, x);
  }

  /** What was found once is found again: buckets only grow at their end. */
  lemma {:induction false} FindsAgain(keys: seq<Bytes>, more: seq<Bytes>, hash: Bytes -> nat, s: Bytes)
    requires keys <= more && FindKey(keys, hash, s).Some?
    ensures FindKey(more, hash, s) == FindKey(keys, hash, s)
    decreases |more|
  {
    if keys != more {
      var n := |more| - 1;
      FindsAgain(keys, more[..n], hash, s);
    }
  }

  /** The first id in a list whose entry reads `s`. */
  function SearchIn(keys: seq<Bytes>, ids: seq<nat>, s: Bytes): Option<nat> {
    if ids == [] then None
    else
      var n := |ids| - 1;
      var front := SearchIn(keys, ids[..n], s);
      if front.Some? then front else if ids[n] < |keys| && Stored(keys[ids[n]]) == s then Some(ids[n]) else None
  }

  lemma SearchNext(keys: seq<Bytes>, ids: seq<nat>, s: Bytes, id: nat)
    ensures SearchIn(keys, ids + [id], s)
      == if SearchIn(keys, ids, s).Some? then SearchIn(keys, ids, s)
         else if id < |keys| && Stored(keys[id]) == s then Some(id) else None
  {
    SnocFront(ids, id);
  }

  lemma {:induction false} SearchStops(keys: seq<Bytes>, ids: seq<nat>, s: Bytes, k: nat)
    requires k <= |ids| && SearchIn(keys, ids[..k], s).Some?
    ensures SearchIn(keys, ids, s) == SearchIn(keys, ids[..k], s)
    decreases |ids|
  {
    if k == |ids| {
      assert ids[..k] == ids;
    } else {
      var n := |ids| - 1;
      assert ids[..n][..k] == ids[..k];
      SearchStops(keys, ids[..n], s, k);
    }
  }

  predicate Below(ids: seq<nat>, n: nat) {
    forall i :: 0 <= i < |ids| ==> ids[i] < n
  }

  lemma {:induction false} BucketBelow(keys: seq<Bytes>, hash: Bytes -> nat, h: nat)
    ensures Below(BucketOf(keys, hash, h), |keys|)
  {
    if keys != [] {
      BucketBelow(keys[..|keys| - 1], hash, h);
    }
  }

  lemma {:induction false} SearchFrame(keys: seq<Bytes>, x: Bytes, ids: seq<nat>, s: Bytes)
    requires Below(ids, |keys|)
    ensures SearchIn(keys + [x], ids, s) == SearchIn(keys, ids, s)
  {
    if ids != [] {
      var n := |ids| - 1;
      SearchFrame(keys, x, ids[..n], s);
      assert (keys + [x])[ids[n]] == keys[ids[n]];
    }
  }

  /** Searching the bucket of its hash finds what a search of all entries would. */
  lemma {:induction false} SearchFinds(keys: seq<Bytes>, hash: Bytes -> nat, s: Bytes)
    ensures SearchIn(keys, BucketOf(keys, hash, hash(s)), s) == FindKey(keys, hash, s)
  {
    if keys != [] {
      var n := |keys| - 1;
      var front, x := keys[..n], keys[n];
      var ids := BucketOf(front, hash, hash(s));
      Unsnoc(keys);
      SearchFinds(front, hash, s);
      BucketBelow(front, hash, hash(s));
      SearchFrame(front, x, ids, s);
      FindNext(front, hash, s, x);
      SearchNext(keys, ids, s, n);
    }
  }

  // ----- one intern

  function NextKeys(keys: seq<Bytes>, hash: Bytes -> nat, s: Bytes): seq<Bytes> {
    if FindKey(keys, hash, s).Some? then keys else keys + [s]
  }

  function NextId(keys: seq<Bytes>, hash: Bytes -> nat, s: Bytes): (id: nat)
    ensures id < |NextKeys(keys, hash, s)| && Stored(NextKeys(keys, hash, s)[id]) == Stored(s)
  {
    match FindKey(keys, hash, s)
    case Some(i) => i
    case None => |keys|
  }

  /** A string whose length does not fit into 16 bits is never found, so every intern of it makes a new entry. */
  lemma OverlongIsNew(keys: seq<Bytes>, hash: Bytes -> nat, s: Bytes)
    requires |s| >= SIZE_16
    ensures FindKey(keys, hash, s).None? && NextKeys(keys, hash, s) == keys + [s] && NextId(keys, hash, s) == |keys|
  {
  }

  /** A shorter one is found from then on, by the id it got. */
  lemma ShortIsFound(keys: seq<Bytes>, hash: Bytes -> nat, s: Bytes)
    requires |s| < SIZE_16
    ensures FindKey(NextKeys(keys, hash, s), hash, s) == Some(NextId(keys, hash, s))
  {
    FindNext(keys, hash, s, s);
  }

  lemma InjectiveGrows(table: seq<Bytes>, s: Bytes)
    requires Injective(table) && s !in table
    ensures Injective(table + [s])
  {
  }

  /** With short strings only, under any hash, a lookup is a linear search of an injective table. */
  lemma FindIsIndexOf(keys: seq<Bytes>, hash: Bytes -> nat, s: Bytes)
    requires AllShort(keys) && Injective(keys)
    ensures FindKey(keys, hash, s) == IndexOf(keys, s)
  {
    var r := FindKey(keys, hash, s);
    if r.Some? {
      IndexOfIs(keys, s, r.value);
    } else if s in keys {
      FindsFirst(keys, hash, s, IndexOf(keys, s).value);
    }
  }

  lemma ShortStep(keys: seq<Bytes>, hash: Bytes -> nat, s: Bytes)
    requires AllShort(keys) && Injective(keys) && |s| < SIZE_16
    ensures NextKeys(keys, hash, s) == InternSpec(keys, s) && NextId(keys, hash, s) == IdSpec(keys, s)
    ensures AllShort(NextKeys(keys, hash, s)) && Injective(NextKeys(keys, hash, s))
  {
    FindIsIndexOf(keys, hash, s);
    if s !in keys {
      InjectiveGrows(keys, s);
    }
  }

  // ----- the interner

  /** The parts hold an entry for each of `keys`, in the bucket of its hash. */
  ghost predicate Stores(arena: Bytes, lookup: map<nat, seq<nat>>, offsets: seq<Offset>, hash: Bytes -> nat,
                         keys: seq<Bytes>)
  {
    && InRange(arena, offsets) && |offsets| <= SIZE_32
    && TableOf(arena, offsets) == StoredAll(keys) && lookup == LookupOf(keys, hash)
  }

  class StringInterner {
    const hash: Bytes -> nat
    var arena: Bytes
    var lookup: map<nat, seq<nat>>
    var offsets: seq<Offset>
    ghost var keys: seq<Bytes>   // the strings that entries were made for

    ghost predicate Valid()
      reads this
    {
      Stores(arena, lookup, offsets, hash, keys)
    }

    /** Every entry reads its own string, and no two the same. */
    ghost predicate Exact()
      reads this
    {
      Valid() && AllShort(keys) && Injective(keys)
    }

    ghost function Table(): seq<Bytes>
      requires Valid()
      reads this
    {
      TableOf(arena, offsets)
    }

    constructor (hash: Bytes -> nat)
      ensures Valid() && Exact() && keys == [] && this.hash == hash && arena == "" && offsets == []
    {
      this.hash := hash;
      arena, lookup, offsets, keys := "", map[], [], [];
    }

    function GetBytes(id: nat): (r: Option<Bytes>)
      reads this
      ensures r == Read(arena, offsets, id)
      ensures Valid() ==> r == if id < |keys| then Some(Stored(keys[id])) else None
    {
      assert Valid() ==> Read(arena, offsets, id) == if id < |keys| then Some(Stored(keys[id])) else None by {
        if Valid() {
          ReadsStored(arena, offsets, keys, id);
        }
      }
      Read(arena, offsets, id)
    }

    /** Search of one bucket, which equals a search of all entries. */
    method GetBytesId(s: Bytes) returns (r: Option<nat>)
      requires Valid()
      ensures r == FindKey(keys, hash, s)
      ensures Exact() ==> r == IndexOf(keys, s)
    {
      var ids := BucketIn(lookup, hash(s));
      LookupBuckets(keys, hash, hash(s));
      SearchFinds(keys, hash, s);
      if Exact() {
        FindIsIndexOf(keys, hash, s);
      }
      r := SearchBucket(ids, s);
    }

    method SearchBucket(ids: seq<nat>, s: Bytes) returns (r: Option<nat>)
      requires Valid()
      ensures r == SearchIn(keys, ids, s)
    {
      for k := 0 to |ids|
        invariant SearchIn(keys, ids[..k], s).None?
      {
        Snoc(ids, k);
        SearchNext(keys, ids[..k], s, ids[k]);
        if GetBytes(ids[k]) == Some(s) {
          SearchStops(keys, ids, s, k + 1);
          return Some(ids[k]);
        }
      }
      assert ids[..|ids|] == ids;
      r := None;
    }

    /** A string that is not found gets a new entry at the end. Casts truncate: the start and the id to 32 bits, the
        length to 16. Ids given out before read the same bytes afterwards, whatever is interned. */
    method InternBytes(s: Bytes) returns (id: nat)
      requires Valid()
      modifies this
      ensures FindKey(old(keys), hash, s).Some? ==> unchanged(this) && id == NextId(old(keys), hash, s)
      ensures old(|arena|) < SIZE_32 && old(|offsets|) < SIZE_32 ==>
        Valid() && keys == NextKeys(old(keys), hash, s) && id == NextId(old(keys), hash, s)
      ensures old(|arena|) < SIZE_32 && old(|offsets|) < SIZE_32 ==> (GetBytes(id) == Some(s) <==> |s| < SIZE_16)
      ensures old(Exact()) && |s| < SIZE_16 && old(|arena|) < SIZE_32 && old(|offsets|) < SIZE_32 ==>
        Exact() && keys == InternSpec(old(keys), s) && id == IdSpec(old(keys), s)
      ensures ReadsAll(arena, offsets, old(keys))
      ensures |arena| <= old(|arena|) + |s| && |offsets| <= old(|offsets|) + 1
    {
      if Exact() && |s| < SIZE_16 {
        ShortStep(keys, hash, s);
      }
      var found := GetBytesId(s);
      OldReads(arena, offsets, keys);
      if found.Some? {
        return found.value;
      }
      id := AddEntry(s);
    }

    /** The entry for a string that was not found. */
    method AddEntry(s: Bytes) returns (id: nat)
      requires Valid()
      modifies this
      ensures keys == old(keys) + [s]
      ensures old(|arena|) < SIZE_32 && old(|offsets|) < SIZE_32 ==> Valid() && id == old(|keys|)
      ensures ReadsAll(arena, offsets, old(keys))
      ensures |arena| == old(|arena|) + |s| && |offsets| == old(|offsets|) + 1
    {
      var entry := Offset(Low32(|arena|), Low16(|s|));
      id := Low32(|offsets|);
      OldSlices(arena, offsets, keys, s, entry);
      if |arena| < SIZE_32 && |offsets| < SIZE_32 {
        AppendStored(arena, lookup, offsets, hash, keys, s, entry, id);
      }
      var grown, entries, buckets := arena + s, offsets + [entry], AddTo(lookup, hash(s), id);
      arena, offsets, lookup, keys := grown, entries, buckets, keys + [s];
    }

    method Clear()
      modifies this
      ensures Exact() && keys == []
    {
      arena, lookup, offsets, keys := "", map[], [], [];
    }

    /** Rebuilding from serialized parts: the entries stand for what they read. */
    constructor FromParts(hash: Bytes -> nat, arena: Bytes, offsets: seq<Offset>)
      ensures this.hash == hash && this.arena == arena && this.offsets == offsets
      ensures InRange(arena, offsets) && |offsets| <= SIZE_32 ==> Valid() && keys == TableOf(arena, offsets)
      ensures InRange(arena, offsets) && |offsets| <= SIZE_32 && Injective(TableOf(arena, offsets)) ==> Exact()
    {
      var built := BuildLookup(hash, arena, offsets);
      this.hash := hash;
      this.arena, this.offsets, this.lookup := arena, offsets, built;
      keys := if InRange(arena, offsets) then TableOf(arena, offsets) else [];
      new;
      if InRange(arena, offsets) {
        SlicesAreShort(arena, offsets);
        StoredShort(keys);
      }
    }
  }

  method BuildLookup(hash: Bytes -> nat, arena: Bytes, offsets: seq<Offset>) returns (lookup: map<nat, seq<nat>>)
    ensures InRange(arena, offsets) && |offsets| <= SIZE_32 ==> lookup == LookupOf(TableOf(arena, offsets), hash)
  {
    lookup := map[];
    ghost var sound := InRange(arena, offsets) && |offsets| <= SIZE_32;
    ghost var table := if sound then TableOf(arena, offsets) else [];
    for i := 0 to |offsets|
      invariant sound ==> lookup == LookupOf(table[..i], hash)
    {
      var slice := Slice(arena, offsets[i]);
      if slice.Some? {
        if sound {
          TableAt(arena, offsets, i);
          LookupStep(table, hash, i);
        }
        lookup := AddTo(lookup, hash(slice.value), Low32(i));
      }
    }
    assert sound ==> table[..|offsets|] == table;
  }

  lemma SlicesAreShort(arena: Bytes, offsets: seq<Offset>)
    requires InRange(arena, offsets)
    ensures AllShort(TableOf(arena, offsets))
  {
    forall i | 0 <= i < |offsets|
      ensures |TableOf(arena, offsets)[i]| < SIZE_16
    {
      TableAt(arena, offsets, i);
    }
  }

  lemma ReadsStored(arena: Bytes, offsets: seq<Offset>, keys: seq<Bytes>, id: nat)
    requires InRange(arena, offsets) && TableOf(arena, offsets) == StoredAll(keys)
    ensures Read(arena, offsets, id) == if id < |keys| then Some(Stored(keys[id])) else None
  {
    if id < |offsets| {
      TableAt(arena, offsets, id);
      StoredAt(keys, id);
    }
  }

  lemma OldReads(arena: Bytes, offsets: seq<Offset>, keys: seq<Bytes>)
    requires InRange(arena, offsets) && TableOf(arena, offsets) == StoredAll(keys)
    ensures ReadsAll(arena, offsets, keys)
  {
    forall i: nat | i < |keys|
      ensures Read(arena, offsets, i) == Some(Stored(keys[i]))
    {
      ReadsStored(arena, offsets, keys, i);
    }
  }

  /** What a new entry reads. */
  lemma SliceOfLast(arena: Bytes, s: Bytes)
    ensures Slice(arena + s, Offset(|arena|, Low16(|s|))) == Some(Stored(s))
  {
    var n := Low16(|s|);
    assert (arena + s)[|arena|..|arena| + n] == s[..n];
  }

  /** Appending moves none of the slices that are there. */
  lemma OldSlices(arena: Bytes, offsets: seq<Offset>, keys: seq<Bytes>, s: Bytes, entry: Offset)
    requires InRange(arena, offsets) && TableOf(arena, offsets) == StoredAll(keys)
    ensures ReadsAll(arena + s, offsets + [entry], keys)
  {
    TableKeeps(arena, s, offsets);
    forall i: nat | i < |keys|
      ensures Read(arena + s, offsets + [entry], i) == Some(Stored(keys[i]))
    {
      TableAt(arena + s, offsets, i);
      StoredAt(keys, i);
    }
  }

  lemma AppendStored(arena: Bytes, lookup: map<nat, seq<nat>>, offsets: seq<Offset>, hash: Bytes -> nat,
                     keys: seq<Bytes>, s: Bytes, entry: Offset, id: nat)
    requires Stores(arena, lookup, offsets, hash, keys) && |offsets| < SIZE_32
    requires entry == Offset(|arena|, Low16(|s|)) && id == |offsets|
    ensures Stores(arena + s, AddTo(lookup, hash(s), id), offsets + [entry], hash, keys + [s])
    ensures |offsets| == |keys|
  {
    TableGrows(arena, offsets, s);
    StoredNext(keys, s);
    LookupNext(keys, hash, s);
  }

  lemma TableNext(arena: Bytes, offsets: seq<Offset>, o: Offset, s: Bytes)
    requires InRange(arena, offsets) && Slice(arena, o) == Some(s)
    ensures InRange(arena, offsets + [o]) && TableOf(arena, offsets + [o]) == TableOf(arena, offsets) + [s]
  {
    SnocFront(offsets, o);
  }

  lemma TableGrows(arena: Bytes, offsets: seq<Offset>, s: Bytes)
    requires InRange(arena, offsets)
    ensures var next := offsets + [Offset(|arena|, Low16(|s|))];
      InRange(arena + s, next) && TableOf(arena + s, next) == TableOf(arena, offsets) + [Stored(s)]
  {
    TableKeeps(arena, s, offsets);
    SliceOfLast(arena, s);
    TableNext(arena + s, offsets, Offset(|arena|, Low16(|s|)), Stored(s));
  }

  lemma {:induction false} TableKeeps(arena: Bytes, s: Bytes, offsets: seq<Offset>)
    requires InRange(arena, offsets)
    ensures InRange(arena + s, offsets) && TableOf(arena + s, offsets) == TableOf(arena, offsets)
  {
    if offsets != [] {
      var n := |offsets| - 1;
      TableKeeps(arena, s, offsets[..n]);
      var o := offsets[n];
      assert (arena + s)[o.start..o.start + o.len] == arena[o.start..o.start + o.len];
    }
  }

  // ----- rebuilding

  /** Serializing and rebuilding keeps what every id reads, and the lookup when all strings are short. */
  method Rebuild(interner: StringInterner) returns (copy: StringInterner)
    requires interner.Valid()
    ensures copy.Valid() && copy.Table() == interner.Table() && copy.keys == StoredAll(interner.keys)
    ensures copy.hash == interner.hash
    ensures AllShort(interner.keys) ==> copy.keys == interner.keys && copy.lookup == interner.lookup
  {
    copy := new StringInterner.FromParts(interner.hash, interner.arena, interner.offsets);
    if AllShort(interner.keys) {
      StoredShort(interner.keys);
    }
  }

  /** No earlier entry reads the same as entry `i`. */
  ghost predicate ReadsFirst(keys: seq<Bytes>, i: nat)
    requires i < |keys|
  {
    forall j :: 0 <= j < i ==> Stored(keys[j]) != Stored(keys[i])
  }

  /** Wherever an entry is the first to read some bytes, it lies in the bucket of these bytes. */
  ghost predicate HashesAgree(keys: seq<Bytes>, hash: Bytes -> nat) {
    forall i :: 0 <= i < |keys| && ReadsFirst(keys, i) ==> hash(keys[i]) == hash(Stored(keys[i]))
  }

  /** After rebuilding, a lookup finds the first entry that reads `s`, whatever bucket it was in. */
  lemma RebuiltFinds(keys: seq<Bytes>, hash: Bytes -> nat, s: Bytes, i: nat)
    requires i < |keys| && Stored(keys[i]) == s && ReadsFirst(keys, i)
    ensures FindKey(StoredAll(keys), hash, s) == Some(i)
  {
    var table := StoredAll(keys);
    StoredAt(keys, i);
    assert Matches(table, hash, s, i);
    FindsFirst(table, hash, s, i);
    StoredAt(keys, FindKey(table, hash, s).value);
  }

  /** The first entry that reads `s`, if one does. */
  lemma {:induction false} FirstReader(keys: seq<Bytes>, s: Bytes, k: nat) returns (i: nat)
    requires k < |keys| && Stored(keys[k]) == s
    ensures i <= k && Stored(keys[i]) == s && ReadsFirst(keys, i)
  {
    if j: nat :| j < k && Stored(keys[j]) == s {
      i := FirstReader(keys, s, j);
    } else {
      i := k;
    }
  }

  lemma RebuildAgreesOn(keys: seq<Bytes>, hash: Bytes -> nat, s: Bytes)
    requires HashesAgree(keys, hash)
    ensures FindKey(StoredAll(keys), hash, s) == FindKey(keys, hash, s)
  {
    var r, t := FindKey(keys, hash, s), FindKey(StoredAll(keys), hash, s);
    if r.Some? {
      var i := FirstReader(keys, s, r.value);
      RebuiltFinds(keys, hash, s, i);
      FirstIsFound(keys, hash, s, i);
    } else if t.Some? {
      StoredAt(keys, t.value);
      var i := FirstReader(keys, s, t.value);
      FirstIsFound(keys, hash, s, i);
    }
  }

  lemma FirstIsFound(keys: seq<Bytes>, hash: Bytes -> nat, s: Bytes, i: nat)
    requires i < |keys| && Stored(keys[i]) == s && ReadsFirst(keys, i) && hash(keys[i]) == hash(s)
    ensures FindKey(keys, hash, s) == Some(i)
  {
    FindsFirst(keys, hash, s, i);
  }

  /** Rebuilding keeps the answer to every lookup. */
  ghost predicate SameAnswers(keys: seq<Bytes>, hash: Bytes -> nat) {
    forall s :: FindKey(StoredAll(keys), hash, s) == FindKey(keys, hash, s)
  }

  lemma AnswersAgree(keys: seq<Bytes>, hash: Bytes -> nat, i: nat)
    requires SameAnswers(keys, hash) && i < |keys| && ReadsFirst(keys, i)
    ensures hash(keys[i]) == hash(Stored(keys[i]))
  {
    RebuiltFinds(keys, hash, Stored(keys[i]), i);
  }

  /** It does so exactly if the hashes agree; those of short strings always do. */
  lemma RebuildAgrees(keys: seq<Bytes>, hash: Bytes -> nat)
    ensures SameAnswers(keys, hash) <==> HashesAgree(keys, hash)
    ensures AllShort(keys) ==> HashesAgree(keys, hash)
  {
    if HashesAgree(keys, hash) {
      forall s
        ensures FindKey(StoredAll(keys), hash, s) == FindKey(keys, hash, s)
      {
        RebuildAgreesOn(keys, hash, s);
      }
      assert SameAnswers(keys, hash);
    } else if SameAnswers(keys, hash) {
      forall i | 0 <= i < |keys| && ReadsFirst(keys, i)
        ensures hash(keys[i]) == hash(Stored(keys[i]))
      {
        AnswersAgree(keys, hash, i);
      }
    }
  }

  /** Where they do not, an id moves: a string that is what the cast leaves of an earlier over-long one, in another
      bucket, has the second id before rebuilding and the first one after it. */
  lemma RebuildMovesIds(long: Bytes, s: Bytes, hash: Bytes -> nat)
    requires |long| >= SIZE_16 && s == Stored(long) && hash(long) != hash(s)
    ensures KeysAfter([long, s], hash) == [long, s]
    ensures FindKey([long, s], hash, s) == Some(1) && FindKey(StoredAll([long, s]), hash, s) == Some(0)
  {
    var keys := [long, s];
    assert keys == [long] + [s] && [long] == [] + [long];
    KeysNext([], hash, long);
    KeysNext([long], hash, s);
    FindNext([], hash, s, long);
    FindNext([long], hash, s, s);
    RebuiltFinds(keys, hash, s, 0);
  }

  // ----- every sequence of interns

  function KeysAfter(strings: seq<Bytes>, hash: Bytes -> nat): seq<Bytes> {
    if strings == [] then []
    else var n := |strings| - 1; NextKeys(KeysAfter(strings[..n], hash), hash, strings[n])
  }

  /** The id that the `k`-th intern returned. */
  function IdOf(strings: seq<Bytes>, hash: Bytes -> nat, k: nat): nat
    requires k < |strings|
  {
    NextId(KeysAfter(strings[..k], hash), hash, strings[k])
  }

  lemma KeysNext(past: seq<Bytes>, hash: Bytes -> nat, s: Bytes)
    ensures KeysAfter(past + [s], hash) == NextKeys(KeysAfter(past, hash), hash, s)
  {
    SnocFront(past, s);
  }

  lemma KeysStep(strings: seq<Bytes>, hash: Bytes -> nat, k: nat)
    requires k < |strings|
    ensures KeysAfter(strings[..k + 1], hash) == NextKeys(KeysAfter(strings[..k], hash), hash, strings[k])
  {
    Snoc(strings, k);
    KeysNext(strings[..k], hash, strings[k]);
  }

  /** Entries are only added at the end. */
  lemma {:induction false} KeysGrow(past: seq<Bytes>, more: seq<Bytes>, hash: Bytes -> nat)
    ensures KeysAfter(past, hash) <= KeysAfter(past + more, hash)
    decreases |more|
  {
    if more == [] {
      assert past + more == past;
    } else {
      var n := |more| - 1;
      var front, x := more[..n], more[n];
      assert past + more == (past + front) + [x];
      KeysGrow(past, front, hash);
      KeysNext(past + front, hash, x);
    }
  }

  lemma KeysOnlyGrow(strings: seq<Bytes>, hash: Bytes -> nat, j: nat, k: nat)
    requires j <= k <= |strings|
    ensures KeysAfter(strings[..j], hash) <= KeysAfter(strings[..k], hash)
  {
    assert strings[..k] == strings[..j] + strings[j..k];
    KeysGrow(strings[..j], strings[j..k], hash);
  }

  /** At any later time, an id has an entry, which reads what was stored when it was handed out. */
  lemma IdReads(strings: seq<Bytes>, hash: Bytes -> nat, k: nat, m: nat)
    requires k < m <= |strings|
    ensures var keys, id := KeysAfter(strings[..m], hash), IdOf(strings, hash, k);
      && id < |keys| && Stored(keys[id]) == Stored(strings[k])
      && (|strings[k]| >= SIZE_16 ==> keys[id] == strings[k])
  {
    KeysStep(strings, hash, k);
    KeysOnlyGrow(strings, hash, k + 1, m);
    if |strings[k]| >= SIZE_16 {
      OverlongIsNew(KeysAfter(strings[..k], hash), hash, strings[k]);
    }
  }

  /** A short string gets the same id again. */
  lemma SameStringSameId(strings: seq<Bytes>, hash: Bytes -> nat, j: nat, k: nat)
    requires j < k < |strings| && strings[j] == strings[k] && |strings[k]| < SIZE_16
    ensures IdOf(strings, hash, j) == IdOf(strings, hash, k)
  {
    KeysStep(strings, hash, j);
    ShortIsFound(KeysAfter(strings[..j], hash), hash, strings[j]);
    KeysOnlyGrow(strings, hash, j + 1, k);
    FindsAgain(KeysAfter(strings[..j + 1], hash), KeysAfter(strings[..k], hash), hash, strings[k]);
  }

  lemma SameIdSameBytes(strings: seq<Bytes>, hash: Bytes -> nat, j: nat, k: nat)
    requires j < |strings| && k < |strings| && IdOf(strings, hash, j) == IdOf(strings, hash, k)
    ensures Stored(strings[j]) == Stored(strings[k])
  {
    IdReads(strings, hash, j, |strings|);
    IdReads(strings, hash, k, |strings|);
  }

  /** Over every sequence of interns, short strings get the same id exactly if they are equal, whatever else was
      interned in between. */
  lemma ShortIdsAreStable(strings: seq<Bytes>, hash: Bytes -> nat, j: nat, k: nat)
    requires j < |strings| && k < |strings| && |strings[j]| < SIZE_16 && |strings[k]| < SIZE_16
    ensures IdOf(strings, hash, j) == IdOf(strings, hash, k) <==> strings[j] == strings[k]
  {
    if IdOf(strings, hash, j) == IdOf(strings, hash, k) {
      SameIdSameBytes(strings, hash, j, k);
    }
    if strings[j] == strings[k] && j < k {
      SameStringSameId(strings, hash, j, k);
    } else if strings[j] == strings[k] && k < j {
      SameStringSameId(strings, hash, k, j);
    }
  }

  /** The id of an over-long string is above all ids before it, also those of the same string. */
  lemma OverlongIdIsNew(strings: seq<Bytes>, hash: Bytes -> nat, j: nat, k: nat)
    requires j < k < |strings| && |strings[k]| >= SIZE_16
    ensures IdOf(strings, hash, j) < IdOf(strings, hash, k)
  {
    IdReads(strings, hash, j, k);
    OverlongIsNew(KeysAfter(strings[..k], hash), hash, strings[k]);
  }

  /** It is handed out again only for a later short string that its entry reads and that collides with it. */
  lemma OverlongIdIsShared(strings: seq<Bytes>, hash: Bytes -> nat, j: nat, k: nat)
    requires j < |strings| && k < |strings| && j != k && |strings[k]| >= SIZE_16
    requires IdOf(strings, hash, j) == IdOf(strings, hash, k)
    ensures k < j && strings[j] == Stored(strings[k]) && hash(strings[j]) == hash(strings[k])
  {
    if j < k {
      OverlongIdIsNew(strings, hash, j, k);
    } else if |strings[j]| >= SIZE_16 {
      OverlongIdIsNew(strings, hash, k, j);
    } else {
      IdReads(strings, hash, k, j);
    }
  }

  // ----- runs without over-long strings

  function TableAfter(strings: seq<Bytes>): seq<Bytes> {
    if strings == [] then []
    else InternSpec(TableAfter(strings[..|strings| - 1]), strings[|strings| - 1])
  }

  /** They refine the injective table, independently of the hash. */
  lemma {:induction false} ShortRuns(strings: seq<Bytes>, hash: Bytes -> nat)
    requires AllShort(strings)
    ensures KeysAfter(strings, hash) == TableAfter(strings)
    ensures AllShort(TableAfter(strings)) && Injective(TableAfter(strings))
  {
    if strings != [] {
      var n := |strings| - 1;
      ShortRuns(strings[..n], hash);
      ShortStep(KeysAfter(strings[..n], hash), hash, strings[n]);
    }
  }

  /** In such a run the `k`-th id is the position of the string in the table. */
  lemma IdsAreStable(strings: seq<Bytes>, hash: Bytes -> nat, k: nat)
    requires AllShort(strings) && k < |strings|
    ensures IndexOf(TableAfter(strings), strings[k]) == Some(IdOf(strings, hash, k))
  {
    ShortRuns(strings, hash);
    IdReads(strings, hash, k, |strings|);
    assert strings[..|strings|] == strings;
    IndexOfIs(TableAfter(strings), strings[k], IdOf(strings, hash, k));
  }

  // ----- runs of the interner itself

  function TotalLength(strings: seq<Bytes>): nat {
    if strings == [] then 0 else TotalLength(strings[..|strings| - 1]) + |strings[|strings| - 1]|
  }

  /** The interner has interned exactly these strings. */
  ghost predicate HasInterned(interner: StringInterner, strings: seq<Bytes>)
    reads interner
  {
    && interner.Valid() && interner.keys == KeysAfter(strings, interner.hash)
    && |interner.arena| <= TotalLength(strings) && |interner.offsets| <= |strings|
  }

  /** The ids that the interns of a run returned. */
  function IdsOf(strings: seq<Bytes>, hash: Bytes -> nat): (ids: seq<nat>)
    ensures |ids| == |strings|
  {
    if strings == [] then []
    else var n := |strings| - 1; IdsOf(strings[..n], hash) + [IdOf(strings, hash, n)]
  }

  lemma IdsNext(past: seq<Bytes>, hash: Bytes -> nat, s: Bytes)
    ensures IdsOf(past + [s], hash) == IdsOf(past, hash) + [NextId(KeysAfter(past, hash), hash, s)]
  {
    SnocFront(past, s);
  }

  lemma IdsSplit(strings: seq<Bytes>, hash: Bytes -> nat, k: nat)
    requires k < |strings|
    ensures var n := |strings| - 1;
      IdsOf(strings, hash)[k] == if k < n then IdsOf(strings[..n], hash)[k] else IdOf(strings, hash, n)
  {
  }

  lemma IdOfPrefix(strings: seq<Bytes>, hash: Bytes -> nat, n: nat, k: nat)
    requires k < n <= |strings|
    ensures IdOf(strings[..n], hash, k) == IdOf(strings, hash, k)
  {
    assert strings[..n][..k] == strings[..k] && strings[..n][k] == strings[k];
  }

  lemma {:induction false} IdsAt(strings: seq<Bytes>, hash: Bytes -> nat, k: nat)
    requires k < |strings|
    ensures IdsOf(strings, hash)[k] == IdOf(strings, hash, k)
  {
    IdsSplit(strings, hash, k);
    if k < |strings| - 1 {
      IdsAt(strings[..|strings| - 1], hash, k);
      IdOfPrefix(strings, hash, |strings| - 1, k);
    }
  }

  /** Interning one more string takes the stored entries one step along `KeysAfter`. */
  method InternNext(interner: StringInterner, ghost past: seq<Bytes>, s: Bytes) returns (id: nat)
    requires HasInterned(interner, past) && TotalLength(past) < SIZE_32 && |past| < SIZE_32
    modifies interner
    ensures HasInterned(interner, past + [s]) && id == NextId(KeysAfter(past, interner.hash), interner.hash, s)
  {
    SnocFront(past, s);
    id := interner.InternBytes(s);
  }

  method NewInterner(hash: Bytes -> nat) returns (interner: StringInterner)
    ensures fresh(interner) && HasInterned(interner, []) && interner.hash == hash
  {
    interner := new StringInterner(hash);
  }

  /** Every run of the interner within 32 bits of arena and ids, over-long strings included, ends in `KeysAfter` and
      returns the ids specified. */
  method InternAll(hash: Bytes -> nat, strings: seq<Bytes>) returns (interner: StringInterner, ids: seq<nat>)
    requires TotalLength(strings) < SIZE_32 && |strings| < SIZE_32
    ensures fresh(interner) && HasInterned(interner, strings) && interner.hash == hash && ids == IdsOf(strings, hash)
    decreases |strings|
  {
    if strings == [] {
      interner := NewInterner(hash);
      return interner, [];
    }
    var past, s := strings[..|strings| - 1], strings[|strings| - 1];
    Unsnoc(strings);
    interner, ids := InternAll(hash, past);
    IdsNext(past, hash, s);
    var id := InternNext(interner, past, s);
    ids := ids + [id];
  }

  /** At the end of a run each id reads what was stored for its string; short strings have equal ids exactly if they are
      equal, and an over-long one has an id above all before it. */
  method InternAndRead(hash: Bytes -> nat, strings: seq<Bytes>, j: nat, k: nat)
    returns (a: nat, b: nat, bytes: Option<Bytes>)
    requires TotalLength(strings) < SIZE_32 && |strings| < SIZE_32 && j < |strings| && k < |strings|
    ensures bytes == Some(Stored(strings[k])) && (bytes == Some(strings[k]) <==> |strings[k]| < SIZE_16)
    ensures |strings[j]| < SIZE_16 && |strings[k]| < SIZE_16 ==> (a == b <==> strings[j] == strings[k])
    ensures j < k && |strings[k]| >= SIZE_16 ==> a < b
  {
    var interner, ids := InternAll(hash, strings);
    IdsAt(strings, hash, j);
    IdsAt(strings, hash, k);
    a, b := ids[j], ids[k];
    bytes := interner.GetBytes(b);
    IdReads(strings, hash, k, |strings|);
    assert strings[..|strings|] == strings;
    if |strings[j]| < SIZE_16 && |strings[k]| < SIZE_16 {
      ShortIdsAreStable(strings, hash, j, k);
    } else if j < k && |strings[k]| >= SIZE_16 {
      OverlongIdIsNew(strings, hash, j, k);
    }
  }
}
