/** The open-addressing hash table (src/table.c). The hash function is arbitrary. */
module Tables {
  import opened Wrappers
  import opened Values

  /** A free slot has a null key, also after a deletion: there are no tombstones. */
  datatype Entry = Entry(key: Option<string>, value: Value, occupied: bool)

  const FREE: Entry := Entry(None, Nil, false)

  predicate Tidy(es: seq<Entry>) {
    forall i :: 0 <= i < |es| ==> es[i].occupied == es[i].key.Some?
  }

  /** The slot at distance `d` from `home`, going round the array. */
  function Slot(home: nat, d: nat, cap: nat): (i: nat)
    requires home < cap && d < cap
    ensures i < cap
  {
    if home + d < cap then home + d else home + d - cap
  }

  /** How far slot `i` is from `home` in probe order. */
  function Distance(home: nat, i: nat, cap: nat): (d: nat)
    requires home < cap && i < cap
    ensures d < cap && Slot(home, d, cap) == i
  {
    if i >= home then i - home else i + cap - home
  }

  function Home(hash: string -> nat, key: string, cap: nat): (h: nat)
    requires cap > 0
    ensures h < cap
  {
    hash(key) % cap
  }

  /** The probe for `key` ends at a free slot or at the key itself. */
  predicate Stops(e: Entry, key: string) {
    !e.occupied || e.key == Some(key)
  }

  /** The distance at which the probe for `key` ends, or the capacity. */
  function ProbeLength(hash: string -> nat, es: seq<Entry>, key: string, d: nat): (n: nat)
    requires |es| > 0 && d <= |es|
    ensures d <= n <= |es|
    ensures forall e: nat :: d <= e < n ==> !Stops(es[Slot(Home(hash, key, |es|), e, |es|)], key)
    ensures n < |es| ==> Stops(es[Slot(Home(hash, key, |es|), n, |es|)], key)
    decreases |es| - d
  {
    if d == |es| || Stops(es[Slot(Home(hash, key, |es|), d, |es|)], key) then d
    else ProbeLength(hash, es, key, d + 1)
  }

  predicate HasFree(es: seq<Entry>) {
    exists i :: 0 <= i < |es| && !es[i].occupied
  }

  /** `find_entry`, as a slot number. */
  function Find(hash: string -> nat, es: seq<Entry>, key: string): (i: nat)
    requires HasFree(es)
    ensures i < |es| && Stops(es[i], key)
  {
    var home := Home(hash, key, |es|);
    var n := ProbeLength(hash, es, key, 0);
    assert n < |es| by {
      var i :| 0 <= i < |es| && !es[i].occupied;
      assert Slot(home, Distance(home, i, |es|), |es|) == i;
    }
    Slot(home, n, |es|)
  }

  /** Every stored key is found where it is stored: no probe chain is broken, and no
      key is stored twice. */
  ghost predicate Chained(hash: string -> nat, es: seq<Entry>) {
    forall i :: 0 <= i < |es| && es[i].occupied && es[i].key.Some? ==>
      HasFree(es) && Find(hash, es, es[i].key.value) == i
  }

  /** The bindings stored in the slots. */
  function Bindings(es: seq<Entry>): map<string, Value> {
    if es == [] then map[]
    else
      var e, m := es[|es| - 1], Bindings(es[..|es| - 1]);
      if e.occupied && e.key.Some? then m[e.key.value := e.value] else m
  }

  function Occupied(es: seq<Entry>): (n: nat)
    ensures n <= |es|
  {
    if es == [] then 0 else Occupied(es[..|es| - 1]) + if es[|es| - 1].occupied then 1 else 0
  }

  // ----- bindings and slots -----

  predicate Holds(e: Entry, key: string) {
    e.occupied && e.key == Some(key)
  }

  lemma {:induction false} BindingsKeys(es: seq<Entry>, key: string)
    ensures key in Bindings(es) <==> exists i :: 0 <= i < |es| && Holds(es[i], key)
  {
    if es != [] {
      var n := |es| - 1;
      BindingsKeys(es[..n], key);
      if key in Bindings(es) && !Holds(es[n], key) {
        var i :| 0 <= i < n && Holds(es[..n][i], key);
        assert Holds(es[i], key);
      }
      if i :| 0 <= i < |es| && Holds(es[i], key) {
        if i < n {
          assert Holds(es[..n][i], key);
        }
      }
    }
  }

  lemma {:induction false} BindingsAt(es: seq<Entry>, i: nat, key: string)
    requires i < |es| && Holds(es[i], key)
    requires forall j :: 0 <= j < |es| && Holds(es[j], key) ==> j == i
    ensures key in Bindings(es) && Bindings(es)[key] == es[i].value
  {
    var n := |es| - 1;
    if i < n {
      assert !Holds(es[n], key);
      assert forall j :: 0 <= j < n && Holds(es[..n][j], key) ==> Holds(es[j], key);
      BindingsAt(es[..n], i, key);
    }
  }

  lemma {:induction false} OccupiedUpdate(es: seq<Entry>, i: nat, e: Entry)
    requires i < |es|
    ensures Occupied(es[i := e]) == Occupied(es) - (if es[i].occupied then 1 else 0) + (if e.occupied then 1 else 0)
  {
    var n := |es| - 1;
    if i < n {
      assert es[i := e][..n] == es[..n][i := e];
      OccupiedUpdate(es[..n], i, e);
    } else {
      assert es[i := e][..n] == es[..n];
    }
  }

  lemma {:induction false} OccupiedFull(es: seq<Entry>)
    requires !HasFree(es)
    ensures Occupied(es) == |es|
  {
    if es != [] {
      var n := |es| - 1;
      forall i | 0 <= i < n
        ensures es[..n][i].occupied
      {
        assert es[i].occupied;
      }
      OccupiedFull(es[..n]);
      assert es[n].occupied;
    }
  }

  /** With at least one slot to spare the probe ends. */
  lemma FreeSlot(es: seq<Entry>)
    requires Occupied(es) < |es|
    ensures HasFree(es)
  {
    if !HasFree(es) {
      OccupiedFull(es);
    }
  }

  // ----- finding in an unbroken table -----

  /** Looking a key up agrees with the bindings. */
  lemma FindAgrees(hash: string -> nat, es: seq<Entry>, key: string)
    requires Tidy(es) && Chained(hash, es) && HasFree(es)
    ensures var i := Find(hash, es, key);
      if es[i].occupied then key in Bindings(es) && Bindings(es)[key] == es[i].value && es[i].key == Some(key)
      else key !in Bindings(es)
  {
    var i := Find(hash, es, key);
    BindingsKeys(es, key);
    if es[i].occupied {
      BindingsAt(es, i, key);
    }
  }

  /** The table after storing `key` where the probe for it ended. */
  function Stored(hash: string -> nat, es: seq<Entry>, key: string, v: Value): seq<Entry>
    requires HasFree(es)
  {
    es[Find(hash, es, key) := Entry(Some(key), v, true)]
  }

  lemma ProbeEnds(hash: string -> nat, es: seq<Entry>, key: string, n: nat)
    requires n < |es|
    requires forall d: nat :: d < n ==> !Stops(es[Slot(Home(hash, key, |es|), d, |es|)], key)
    requires Stops(es[Slot(Home(hash, key, |es|), n, |es|)], key)
    ensures ProbeLength(hash, es, key, 0) == n
  {
  }

  /** Other keys are still found where they are. */
  lemma StoredKeepsFinding(hash: string -> nat, es: seq<Entry>, key: string, v: Value, j: nat)
    requires HasFree(es) && HasFree(Stored(hash, es, key, v)) && j < |es|
    requires es[j].occupied && es[j].key.Some? && es[j].key.value != key && Find(hash, es, es[j].key.value) == j
    ensures Find(hash, Stored(hash, es, key, v), es[j].key.value) == j
  {
    var other := es[j].key.value;
    ProbeEnds(hash, Stored(hash, es, key, v), other, ProbeLength(hash, es, other, 0));
  }

  lemma StoredFinds(hash: string -> nat, es: seq<Entry>, key: string, v: Value)
    requires HasFree(es) && HasFree(Stored(hash, es, key, v))
    ensures Find(hash, Stored(hash, es, key, v), key) == Find(hash, es, key)
  {
    ProbeEnds(hash, Stored(hash, es, key, v), key, ProbeLength(hash, es, key, 0));
  }

  /** Storing keeps the chains unbroken and binds exactly this key. */
  lemma StoredBinds(hash: string -> nat, es: seq<Entry>, key: string, v: Value)
    requires Tidy(es) && Chained(hash, es) && HasFree(es)
    requires HasFree(Stored(hash, es, key, v))
    ensures var es' := Stored(hash, es, key, v);
      Tidy(es') && Chained(hash, es') && Bindings(es') == Bindings(es)[key := v]
  {
    var es', i := Stored(hash, es, key, v), Find(hash, es, key);
    StoredFinds(hash, es, key, v);
    forall j | 0 <= j < |es'| && es'[j].occupied && es'[j].key.Some?
      ensures Find(hash, es', es'[j].key.value) == j
    {
      if j != i && es[j].key.value != key {
        StoredKeepsFinding(hash, es, key, v, j);
      }
    }
    assert Chained(hash, es');
    forall k
      ensures k in Bindings(es') <==> k in Bindings(es)[key := v]
      ensures k in Bindings(es') ==> Bindings(es')[k] == Bindings(es)[key := v][k]
    {
      SameBinding(hash, es, key, v, k);
    }
  }

  lemma SameBinding(hash: string -> nat, es: seq<Entry>, key: string, v: Value, k: string)
    requires Tidy(es) && Chained(hash, es) && HasFree(es) && HasFree(Stored(hash, es, key, v))
    requires Chained(hash, Stored(hash, es, key, v))
    ensures
      var m, m' := Bindings(es)[key := v], Bindings(Stored(hash, es, key, v));
      (k in m' <==> k in m) && (k in m' ==> m'[k] == m[k])
  {
    var es', i := Stored(hash, es, key, v), Find(hash, es, key);
    BindingsKeys(es, k);
    BindingsKeys(es', k);
    if k == key {
      assert Holds(es'[i], key);
      BindingsAt(es', i, key);
    } else {
      if j :| 0 <= j < |es| && Holds(es[j], k) {
        assert j != i && Holds(es'[j], k);
        BindingsAt(es, j, k);
        BindingsAt(es', j, k);
      }
      if j :| 0 <= j < |es'| && Holds(es'[j], k) {
        assert j != i && Holds(es[j], k);
      }
    }
  }

  /** What storing does to a table with two slots to spare. */
  lemma StoredStep(hash: string -> nat, es: seq<Entry>, key: string, v: Value)
    requires Tidy(es) && Occupied(es) + 1 < |es| && HasFree(es)
    ensures var es' := Stored(hash, es, key, v);
      && HasFree(es') && Tidy(es')
      && Occupied(es') == Occupied(es) + (if es[Find(hash, es, key)].occupied then 0 else 1)
      && (Chained(hash, es) ==>
            && Chained(hash, es') && Bindings(es') == Bindings(es)[key := v]
            && es[Find(hash, es, key)].occupied == (key in Bindings(es)))
  {
    hide Chained, Bindings, Occupied;
    var i := Find(hash, es, key);
    OccupiedUpdate(es, i, Entry(Some(key), v, true));
    FreeSlot(Stored(hash, es, key, v));
    if Chained(hash, es) {
      FindAgrees(hash, es, key);
      StoredBinds(hash, es, key, v);
    }
  }

  // ----- deletion -----

  /** `sky_table_delete` nulls the key, so the slot ends every probe that reaches it. */
  function Deleted(es: seq<Entry>, i: nat): seq<Entry>
    requires i < |es|
  {
    es[i := Entry(None, es[i].value, false)]
  }

  /** The probe for the key in slot `j` passes slot `i` before it ends. */
  predicate Passes(hash: string -> nat, es: seq<Entry>, j: nat, i: nat)
    requires i < |es| && j < |es| && es[j].key.Some?
  {
    var home := Home(hash, es[j].key.value, |es|);
    Distance(home, i, |es|) < Distance(home, j, |es|)
  }

  lemma SlotDistance(home: nat, d: nat, cap: nat)
    requires home < cap && d < cap
    ensures Distance(home, Slot(home, d, cap), cap) == d
  {
  }

  /** Deletion does not behave as the removal of one binding in general: a key that was
      stored past the deleted slot is lost. It is found again exactly when its probe did
      not pass that slot. */
  lemma DeletedFinds(hash: string -> nat, es: seq<Entry>, i: nat, j: nat)
    requires Tidy(es) && Chained(hash, es) && i < |es| && j < |es| && i != j
    requires es[i].occupied && es[j].occupied
    ensures HasFree(Deleted(es, i))
    ensures Find(hash, Deleted(es, i), es[j].key.value) == j <==> !Passes(hash, es, j, i)
  {
    var es', key := Deleted(es, i), es[j].key.value;
    var home := Home(hash, key, |es|);
    assert !es'[i].occupied;
    var n := ProbeLength(hash, es, key, 0);
    SlotDistance(home, n, |es|);
    if Passes(hash, es, j, i) {
      ProbeEnds(hash, es', key, Distance(home, i, |es|));
    } else {
      forall d: nat | d < n
        ensures !Stops(es'[Slot(home, d, |es|)], key)
      {
        SlotDistance(home, d, |es|);
      }
      ProbeEnds(hash, es', key, n);
    }
  }

  /** The table stays unbroken exactly when no other key's probe passes the deleted slot. */
  lemma DeletedChained(hash: string -> nat, es: seq<Entry>, i: nat)
    requires Tidy(es) && Chained(hash, es) && i < |es| && es[i].occupied
    ensures Chained(hash, Deleted(es, i)) <==>
            forall j :: 0 <= j < |es| && j != i && es[j].occupied ==> !Passes(hash, es, j, i)
  {
    var es' := Deleted(es, i);
    assert !es'[i].occupied;
    forall j | 0 <= j < |es| && j != i && es[j].occupied
      ensures Find(hash, es', es[j].key.value) == j <==> !Passes(hash, es, j, i)
    {
      DeletedFinds(hash, es, i, j);
    }
    if Chained(hash, es') {
      forall j | 0 <= j < |es| && j != i && es[j].occupied
        ensures !Passes(hash, es, j, i)
      {
        assert es'[j].occupied && es'[j].key.Some?;
      }
    }
  }

  /** `^` of numbers below 2^bits. */
  function Xor(a: nat, b: nat, bits: nat): nat {
    if bits == 0 then 0
    else 2 * Xor(a / 2, b / 2, bits - 1) + if a % 2 == b % 2 then 0 else 1
  }

  /** A round of `hash_string`, FNV-1a in 32 bits. */
  function Mix(h: nat, c: char): nat {
    (h / 256 * 256 + Xor(h % 256, c as int % 256, 8)) * 16777619 % 0x1_0000_0000
  }

  function Fnv(h: nat, key: string): nat
    decreases |key|
  {
    if key == "" then h else Fnv(Mix(h, key[0]), key[1..])
  }

  function HashString(key: string): nat {
    Fnv(2166136261, key)
  }

  lemma TwoXors()
    ensures Xor(197, 97, 8) == 164 && Xor(197, 105, 8) == 172
  {
    assert Xor(1, 0, 1) == 1 && Xor(3, 1, 2) == 2 && Xor(6, 3, 3) == 5 && Xor(12, 6, 4) == 10;
    assert Xor(24, 12, 5) == 20 && Xor(49, 24, 6) == 41 && Xor(98, 48, 7) == 82;
    assert Xor(24, 13, 5) == 21 && Xor(49, 26, 6) == 43 && Xor(98, 52, 7) == 86;
  }

  /** The hash of a text of one character. */
  lemma HashOne(c: char, x: nat, h: nat)
    requires Xor(197, c as int % 256, 8) == x && (2166136064 + x) * 16777619 % 0x1_0000_0000 == h
    ensures HashString([c]) == h
  {
    hide Xor;
    assert Fnv(2166136261, [c]) == Fnv(Mix(2166136261, c), [c][1..]);
    assert Mix(2166136261, c) == (2166136064 + x) * 16777619 % 0x1_0000_0000;
  }

  /** In a table of eight slots the keys a and i have the same home. */
  lemma SameHome()
    ensures Home(HashString, "a", 8) == 4 && Home(HashString, "i", 8) == 4
  {
    hide Xor, Mix, Fnv, HashString;
    TwoXors();
    HashOne('a', 164, 0xe40c292c);
    HashOne('i', 172, 0xec0c35c4);
  }

  /** Deleting the first of them loses the second. */
  lemma DeletionLosesAKey()
    ensures
      var es := seq(4, _ => FREE) + [Entry(Some("a"), Int(1), true), Entry(Some("i"), Int(2), true)] +
        seq(2, _ => FREE);
      && HasFree(es) && HasFree(Deleted(es, 4))
      && es[Find(HashString, es, "i")].value == Int(2)
      && "i" in Bindings(Deleted(es, 4)) && !Deleted(es, 4)[Find(HashString, Deleted(es, 4), "i")].occupied
  {
    hide HashString;
    var es := seq(4, _ => FREE) + [Entry(Some("a"), Int(1), true), Entry(Some("i"), Int(2), true)] + seq(2, _ => FREE);
    var es' := Deleted(es, 4);
    assert !es[7].occupied && !es'[4].occupied;
    SameHome();
    ProbeEnds(HashString, es, "i", 1);
    ProbeEnds(HashString, es', "i", 0);
    BindingsKeys(es', "i");
    assert Holds(es'[5], "i");
  }

  // ----- the table itself -----

  lemma {:induction false} OccupiedPrefix(es: seq<Entry>, k: nat)
    requires k <= |es|
    ensures Occupied(es[..k]) <= Occupied(es)
  {
    if k < |es| {
      assert es[..|es| - 1][..k] == es[..k];
      OccupiedPrefix(es[..|es| - 1], k);
    } else {
      assert es[..k] == es;
    }
  }

  lemma {:induction false} OccupiedNone(es: seq<Entry>)
    requires Occupied(es) == 0
    ensures Bindings(es) == map[]
  {
    if es != [] {
      OccupiedNone(es[..|es| - 1]);
    }
  }

  /** One more slot of a prefix. */
  lemma PrefixStep(es: seq<Entry>, i: nat)
    requires i < |es|
    ensures Occupied(es[..i + 1]) == Occupied(es[..i]) + if es[i].occupied then 1 else 0
    ensures Bindings(es[..i + 1]) ==
      if es[i].occupied && es[i].key.Some? then Bindings(es[..i])[es[i].key.value := es[i].value] else Bindings(es[..i])
  {
    assert es[..i + 1][..i] == es[..i];
  }

  class SkyTable {
    const hash: string -> nat
    var entries: array<Entry>
    var count: nat

    /** Kept by every operation, deletion included: slots without a key are free, and
        at most three quarters of the slots are counted, so every probe ends. */
    ghost predicate Valid()
      reads this, entries
    {
      && Tidy(entries[..])
      && Occupied(entries[..]) <= count
      && 4 * count <= 3 * entries.Length
    }

    /** Kept by every operation but deletion. */
    ghost predicate Unbroken()
      reads this, entries
    {
      Chained(hash, entries[..])
    }

    ghost function Contents(): map<string, Value>
      reads this, entries
    {
      Bindings(entries[..])
    }

    /** sky_table_init */
    constructor (hash: string -> nat)
      ensures Valid() && Unbroken() && Contents() == map[] && fresh(entries)
      ensures this.hash == hash && entries.Length == 0
    {
      this.hash := hash;
      entries := new Entry[0];
      count := 0;
    }

    /** `find_entry`: the loop ends within as many turns as there are slots. */
    method FindEntry(es: array<Entry>, key: string) returns (i: nat)
      requires HasFree(es[..]) && Tidy(es[..])
      ensures HasFree(es[..]) && i == Find(hash, es[..], key)
    {
      var home := hash(key) % es.Length;
      i := home;
      ghost var d := 0;
      while es[i].occupied && es[i].key != Some(key)
        invariant d < es.Length && i == Slot(home, d, es.Length)
        invariant forall e: nat :: e < d ==> !Stops(es[Slot(home, e, es.Length)], key)
        decreases es.Length - d
      {
        NotAll(es[..], key, home, d);
        NextSlot(home, d, es.Length);
        i := (i + 1) % es.Length;
        d := d + 1;
      }
      ProbeEnds(hash, es[..], key, d);
    }

    /** `adjust_capacity`: every binding is stored again in a fresh array. */
    method AdjustCapacity(capacity: nat)
      requires Valid() && capacity > count
      modifies this`entries, this`count
      ensures fresh(entries) && entries.Length == capacity && Tidy(entries[..])
      ensures Occupied(entries[..]) <= count <= old(count)
      ensures old(Unbroken()) ==> Unbroken() && Contents() == old(Contents())
    {
      hide Chained, Bindings, Occupied, Find;
      var es := new Entry[capacity](_ => FREE);
      ghost var all := entries[..];
      AllFree(hash, es[..]);
      AllFree(hash, all[..0]);
      count := 0;
      for i := 0 to entries.Length
        invariant fresh(es) && es.Length == capacity && entries == old(entries) && all == entries[..]
        invariant Tidy(es[..]) && Occupied(es[..]) <= count == Occupied(all[..i])
        invariant old(Unbroken()) ==> Chained(hash, es[..]) && Bindings(es[..]) == Bindings(all[..i])
      {
        PrefixStep(all, i);
        OccupiedPrefix(all, i + 1);
        var entry := entries[i];
        if entry.occupied {
          ghost var before := es[..];
          FreeSlot(before);
          var dest := FindEntry(es, entry.key.value);
          es[dest] := Entry(entry.key, entry.value, true);
          count := count + 1;
          assert es[..] == Stored(hash, before, entry.key.value, entry.value);
          StoredStep(hash, before, entry.key.value, entry.value);
        }
      }
      assert all[..entries.Length] == all;
      entries := es;
    }

    /** sky_table_set */
    method Set(key: string, value: Value) returns (isNew: bool)
      requires Valid()
      modifies this`entries, this`count, entries
      ensures Valid() && (entries == old(entries) || fresh(entries))
      ensures old(Unbroken()) ==>
        Unbroken() && Contents() == old(Contents())[key := value] && isNew == (key !in old(Contents()))
    {
      hide Chained, Bindings, Occupied, Find;
      if count + 1 > 3 * entries.Length / 4 {
        AdjustCapacity(if entries.Length < 8 then 8 else entries.Length * 2);
      }
      ghost var before := entries[..];
      FreeSlot(before);
      var i := FindEntry(entries, key);
      isNew := !entries[i].occupied;
      if isNew {
        count := count + 1;
      }
      entries[i] := Entry(Some(key), value, true);
      assert entries[..] == Stored(hash, before, key, value);
      StoredStep(hash, before, key, value);
    }

    /** sky_table_get */
    method Get(key: string) returns (found: bool, value: Value)
      requires Valid()
      ensures Unbroken() ==> found == (key in Contents()) && (found ==> value == Contents()[key])
    {
      value := Nil;
      if count == 0 {
        OccupiedNone(entries[..]);
        return false, value;
      }
      FreeSlot(entries[..]);
      var i := FindEntry(entries, key);
      if Unbroken() {
        FindAgrees(hash, entries[..], key);
      }
      if !entries[i].occupied {
        return false, value;
      }
      return true, entries[i].value;
    }

    /** sky_table_delete: the counter is left as it is. */
    method Delete(key: string) returns (deleted: bool)
      requires Valid()
      modifies entries
      ensures Valid()
      ensures old(Unbroken()) ==> deleted == (key in old(Contents()))
      ensures if deleted
        then HasFree(old(entries[..])) && entries[..] == Deleted(old(entries[..]), Find(hash, old(entries[..]), key))
        else entries[..] == old(entries[..])
    {
      if count == 0 {
        OccupiedNone(entries[..]);
        return false;
      }
      ghost var before := entries[..];
      FreeSlot(before);
      var i := FindEntry(entries, key);
      if Unbroken() {
        FindAgrees(hash, before, key);
      }
      if !entries[i].occupied {
        return false;
      }
      entries[i] := Entry(None, entries[i].value, false);
      assert entries[..] == Deleted(before, i);
      OccupiedUpdate(before, i, entries[i]);
      return true;
    }

    /** sky_table_copy into another table */
    method CopyTo(to: SkyTable)
      requires Valid() && to.Valid() && to != this && to.entries != entries
      modifies to`entries, to`count, to.entries
      ensures to.Valid()
      ensures old(Unbroken() && to.Unbroken()) ==> to.Unbroken() && to.Contents() == old(to.Contents()) + Contents()
    {
      hide Chained, Bindings, Occupied, Find;
      ghost var all := entries[..];
      ghost var was := to.Contents();
      AllFree(hash, all[..0]);
      for i := 0 to entries.Length
        invariant to.Valid() && entries[..] == all && to.entries != entries
        invariant to.entries == old(to.entries) || fresh(to.entries)
        invariant old(Unbroken() && to.Unbroken()) ==> to.Unbroken() && to.Contents() == was + Bindings(all[..i])
      {
        PrefixStep(all, i);
        if entries[i].occupied {
          var _ := to.Set(entries[i].key.value, entries[i].value);
        }
      }
      assert all[..entries.Length] == all;
    }
  }

  lemma NextSlot(home: nat, d: nat, cap: nat)
    requires home < cap && d + 1 < cap
    ensures (Slot(home, d, cap) + 1) % cap == Slot(home, d + 1, cap)
  {
  }

  /** While the probe goes on, some slot has not been looked at. */
  lemma NotAll(es: seq<Entry>, key: string, home: nat, d: nat)
    requires HasFree(es) && home < |es| && d < |es|
    requires forall e: nat :: e <= d ==> !Stops(es[Slot(home, e, |es|)], key)
    ensures d + 1 < |es|
  {
    var i :| 0 <= i < |es| && !es[i].occupied;
    assert Slot(home, Distance(home, i, |es|), |es|) == i;
  }

  lemma {:induction false} AllFree(hash: string -> nat, es: seq<Entry>)
    requires forall i :: 0 <= i < |es| ==> es[i] == FREE
    ensures Occupied(es) == 0 && Bindings(es) == map[] && Chained(hash, es)
  {
    if es != [] {
      AllFree(hash, es[..|es| - 1]);
    }
  }
}
