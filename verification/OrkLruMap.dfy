/** The bounded map that evicts its least recently inserted key: a list of keys with their insertion
    times and a map whose entries hold an iterator into that list. An iterator is the identity of its
    node. */
module OrkLruMap {
  import opened Common

  datatype Node<K> = Node(id: nat, key: K, ts: nat)

  datatype Lru<K(==), V> = Lru(list: seq<Node<K>>, entries: map<K, (V, nat)>, size: nat, nextId: nat)

  function CutAt<T>(s: seq<T>, i: nat): (r: seq<T>)
    requires i < |s|
    ensures |r| == |s| - 1
    ensures forall j | 0 <= j < |r| :: r[j] == s[if j < i then j else j + 1]
  {
    s[..i] + s[i+1..]
  }

  function IndexOfNode<K>(list: seq<Node<K>>, id: nat): (i: nat)
    ensures i <= |list|
    ensures i < |list| ==> list[i].id == id
    ensures forall j | 0 <= j < i :: list[j].id != id
  {
    if list == [] then 0 else if list[0].id == id then 0 else 1 + IndexOfNode(list[1..], id)
  }

  /** list::erase at the node an iterator names. */
  function Erase<K>(list: seq<Node<K>>, id: nat): (r: seq<Node<K>>) {
    var i := IndexOfNode(list, id);
    if i < |list| then CutAt(list, i) else list
  }

  function RemoveOldest<K(==), V>(l: Lru<K, V>): (r: Lru<K, V>) {
    if l.list == [] then l else l.(list := l.list[1..], entries := l.entries - {l.list[0].key})
  }

  function Remove<K(==), V>(l: Lru<K, V>, key: K): (r: Lru<K, V>) {
    if key in l.entries then l.(list := Erase(l.list, l.entries[key].1), entries := l.entries - {key}) else l
  }

  function PushBack<K(==), V>(l: Lru<K, V>, key: K, value: V, now: nat): (r: Lru<K, V>) {
    l.(list := l.list + [Node(l.nextId, key, now)], entries := l.entries[key := (value, l.nextId)],
       nextId := l.nextId + 1)
  }

  /** A full map makes room first and looks for the key after that. */
  function InsertPair<K(==), V>(l: Lru<K, V>, key: K, value: V, now: nat): (r: Lru<K, V>) {
    PushBack(Remove(if |l.entries| >= l.size then RemoveOldest(l) else l, key), key, value, now)
  }

  function Clear<K(==), V>(l: Lru<K, V>): (r: Lru<K, V>) { l.(list := [], entries := map[]) }

  function SetSize<K(==), V>(l: Lru<K, V>, size: nat): (r: Lru<K, V>) { if size >= l.size then l.(size := size) else l }

  // ---------------------------------------------------------------------------------------------
  // List and map agree

  /** No key and no node twice; the map has the keys of the list, each with the node of that key. */
  ghost predicate Agree<K, V>(l: Lru<K, V>) {
    && DistinctNodes(l.list)
    && (forall i | 0 <= i < |l.list| :: NodeKnown(l, i))
    && (forall k | k in l.entries :: EntryListed(l, k))
  }

  ghost predicate NodeKnown<K, V>(l: Lru<K, V>, i: nat)
    requires i < |l.list|
  {
    var n := l.list[i];
    n.id < l.nextId && n.key in l.entries && l.entries[n.key].1 == n.id
  }

  ghost predicate EntryListed<K, V>(l: Lru<K, V>, k: K)
    requires k in l.entries
  {
    exists i :: 0 <= i < |l.list| && l.list[i].key == k
  }

  /** The plain view: entries in the order of their last insertion. */
  datatype Entry<K, V> = Entry(key: K, value: V, ts: nat)

  ghost function Ordered<K, V>(l: Lru<K, V>): (o: seq<Entry<K, V>>)
    requires Agree(l)
    ensures |o| == |l.list|
  {
    seq(|l.list|, i requires 0 <= i < |l.list| && NodeKnown(l, i) => EntryAt(l, i))
  }

  ghost function EntryAt<K, V>(l: Lru<K, V>, i: nat): (e: Entry<K, V>)
    requires i < |l.list| && NodeKnown(l, i)
  {
    Entry(l.list[i].key, l.entries[l.list[i].key].0, l.list[i].ts)
  }

  ghost predicate DistinctNodes<K>(list: seq<Node<K>>) {
    forall i, j | 0 <= i < j < |list| :: list[i].key != list[j].key && list[i].id != list[j].id
  }

  ghost predicate DistinctKeys<K, V>(o: seq<Entry<K, V>>) { forall i, j | 0 <= i < j < |o| :: o[i].key != o[j].key }

  function IndexOfKey<K(==), V>(o: seq<Entry<K, V>>, key: K): (i: nat)
    ensures i <= |o|
    ensures i < |o| ==> o[i].key == key
    ensures forall j | 0 <= j < i :: o[j].key != key
  {
    if o == [] then 0 else if o[0].key == key then 0 else 1 + IndexOfKey(o[1..], key)
  }

  function Without<K(==), V>(o: seq<Entry<K, V>>, key: K): (r: seq<Entry<K, V>>) {
    var i := IndexOfKey(o, key);
    if i < |o| then CutAt(o, i) else o
  }

  function WithoutFirst<K, V>(o: seq<Entry<K, V>>): (r: seq<Entry<K, V>>) { if o == [] then [] else o[1..] }

  function Inserted<K(==), V>(o: seq<Entry<K, V>>, size: nat, key: K, value: V, now: nat): (r: seq<Entry<K, V>>) {
    Without(if |o| >= size then WithoutFirst(o) else o, key) + [Entry(key, value, now)]
  }

  // ---------------------------------------------------------------------------------------------
  // The lookups

  /** The map's count is the list's length. */
  lemma {:induction false} CountIsLength<K, V>(l: Lru<K, V>)
    requires Agree(l)
    ensures |l.entries| == |l.list|
  {
    var keys := KeysOf(l.list);
    forall k | k in l.entries ensures k in keys {
      assert EntryListed(l, k);
    }
    forall k | k in keys ensures k in l.entries {
      var i :| 0 <= i < |l.list| && l.list[i].key == k;
      assert NodeKnown(l, i);
    }
    assert keys == l.entries.Keys;
    KeysCount(l.list);
  }

  ghost function KeysOf<K>(list: seq<Node<K>>): (s: set<K>) { set i | 0 <= i < |list| :: list[i].key }

  lemma {:induction false} KeysCount<K>(list: seq<Node<K>>)
    requires forall i, j | 0 <= i < j < |list| :: list[i].key != list[j].key
    ensures |KeysOf(list)| == |list|
  {
    if list == [] {
    } else {
      var n := |list| - 1;
      KeysCount(list[..n]);
      assert KeysOf(list) == KeysOf(list[..n]) + {list[n].key};
    }
  }

  /** A lookup in the map finds what a search of the plain view finds. */
  lemma LookupsAgree<K, V>(l: Lru<K, V>, key: K)
    requires Agree(l)
    ensures var o := Ordered(l);
            var i := IndexOfKey(o, key);
      && (key in l.entries <==> i < |o|)
      && (i < |o| ==>
           && l.entries[key].0 == o[i].value
           && IndexOfNode(l.list, l.entries[key].1) == i
           && l.list[i].ts == o[i].ts)
  {
    var o := Ordered(l);
    var i := IndexOfKey(o, key);
    if key in l.entries {
      assert EntryListed(l, key);
      var j :| 0 <= j < |l.list| && l.list[j].key == key;
      assert o[j].key == key;
    }
    if i < |o| {
      assert NodeKnown(l, i);
    }
  }

  // ---------------------------------------------------------------------------------------------
  // Each operation keeps the agreement and is the plain one on the plain view

  function RemoveAt<K(==), V>(l: Lru<K, V>, i: nat): (r: Lru<K, V>)
    requires i < |l.list|
  {
    l.(list := CutAt(l.list, i), entries := l.entries - {l.list[i].key})
  }

  lemma RemoveAtNode<K, V>(l: Lru<K, V>, i: nat, j: nat)
    requires Agree(l) && i < |l.list| && j < |l.list| - 1
    ensures var from := if j < i then j else j + 1;
      NodeKnown(RemoveAt(l, i), j) && EntryAt(RemoveAt(l, i), j) == EntryAt(l, from)
  {
    hide EntryListed, CutAt;
    var from := if j < i then j else j + 1;
    assert NodeKnown(l, from);
    assert l.list[from].key != l.list[i].key;
  }

  lemma RemoveAtListed<K, V>(l: Lru<K, V>, i: nat, k: K)
    requires Agree(l) && i < |l.list| && k in l.entries && k != l.list[i].key
    ensures EntryListed(RemoveAt(l, i), k)
  {
    hide NodeKnown, CutAt;
    assert EntryListed(l, k);
    var j :| 0 <= j < |l.list| && l.list[j].key == k;
    assert RemoveAt(l, i).list[if j < i then j else j - 1].key == k;
  }

  /** Taking node `i` out of both. */
  lemma RemoveAtKeeps<K, V>(l: Lru<K, V>, i: nat)
    requires Agree(l) && i < |l.list|
    ensures var r := RemoveAt(l, i);
      Agree(r) && Ordered(r) == CutAt(Ordered(l), i) && l.list[i].key !in r.entries
  {
    hide NodeKnown, EntryListed, EntryAt, CutAt;
    var r := RemoveAt(l, i);
    forall j | 0 <= j < |r.list|
      ensures NodeKnown(r, j) && EntryAt(r, j) == EntryAt(l, if j < i then j else j + 1)
    {
      RemoveAtNode(l, i, j);
    }
    forall k | k in r.entries ensures EntryListed(r, k) {
      RemoveAtListed(l, i, k);
    }
  }

  lemma RemoveOldestKeeps<K, V>(l: Lru<K, V>)
    requires Agree(l)
    ensures Agree(RemoveOldest(l)) && Ordered(RemoveOldest(l)) == WithoutFirst(Ordered(l))
  {
    hide Agree, Ordered;
    if l.list != [] {
      RemoveAtKeeps(l, 0);
      assert CutAt(l.list, 0) == l.list[1..];
      assert CutAt(Ordered(l), 0) == Ordered(l)[1..];
    }
  }

  lemma RemoveKeeps<K, V>(l: Lru<K, V>, key: K)
    requires Agree(l)
    ensures Agree(Remove(l, key)) && Ordered(Remove(l, key)) == Without(Ordered(l), key)
    ensures key !in Remove(l, key).entries
  {
    hide Agree, Ordered;
    LookupsAgree(l, key);
    if key in l.entries {
      var i := IndexOfKey(Ordered(l), key);
      KeyAt(l, i);
      RemoveAtKeeps(l, i);
    }
  }

  lemma KeyAt<K, V>(l: Lru<K, V>, i: nat)
    requires Agree(l) && i < |l.list|
    ensures Ordered(l)[i].key == l.list[i].key
  {}

  lemma PushBackNode<K, V>(l: Lru<K, V>, key: K, value: V, now: nat, j: nat)
    requires Agree(l) && key !in l.entries && j <= |l.list|
    ensures var r := PushBack(l, key, value, now);
      && NodeKnown(r, j)
      && EntryAt(r, j) == (if j < |l.list| then EntryAt(l, j) else Entry(key, value, now))
      && (j < |l.list| ==> l.list[j].key != key && l.list[j].id < l.nextId)
  {
    hide EntryListed;
    if j < |l.list| {
      assert NodeKnown(l, j);
    }
  }

  lemma PushBackListed<K, V>(l: Lru<K, V>, key: K, value: V, now: nat, k: K)
    requires Agree(l) && (k == key || k in l.entries)
    ensures EntryListed(PushBack(l, key, value, now), k)
  {
    hide NodeKnown;
    var r := PushBack(l, key, value, now);
    if k == key {
      assert r.list[|l.list|].key == k;
    } else {
      assert EntryListed(l, k);
      var j :| 0 <= j < |l.list| && l.list[j].key == k;
      assert r.list[j].key == k;
    }
  }

  lemma PushBackKeeps<K, V>(l: Lru<K, V>, key: K, value: V, now: nat)
    requires Agree(l) && key !in l.entries
    ensures var r := PushBack(l, key, value, now);
      Agree(r) && Ordered(r) == Ordered(l) + [Entry(key, value, now)]
  {
    hide NodeKnown, EntryListed, EntryAt;
    var r := PushBack(l, key, value, now);
    forall j | 0 <= j < |r.list|
      ensures NodeKnown(r, j)
      ensures EntryAt(r, j) == if j < |l.list| then EntryAt(l, j) else Entry(key, value, now)
      ensures j < |l.list| ==> l.list[j].key != key && l.list[j].id < l.nextId
    {
      PushBackNode(l, key, value, now, j);
    }
    forall k | k in r.entries ensures EntryListed(r, k) {
      PushBackListed(l, key, value, now, k);
    }
    assert DistinctNodes(r.list);
  }

  lemma InsertKeeps<K, V>(l: Lru<K, V>, key: K, value: V, now: nat)
    requires Agree(l)
    ensures var r := InsertPair(l, key, value, now);
      Agree(r) && Ordered(r) == Inserted(Ordered(l), l.size, key, value, now)
  {
    hide Agree, Ordered, Remove, RemoveOldest, PushBack;
    CountIsLength(l);
    RemoveOldestKeeps(l);
    var room := if |l.entries| >= l.size then RemoveOldest(l) else l;
    RemoveKeeps(room, key);
    PushBackKeeps(Remove(room, key), key, value, now);
  }

  // ---------------------------------------------------------------------------------------------
  // Runs

  datatype Op<K, V> = Insert(key: K, value: V, now: nat) | Delete(key: K) | DeleteOldest | DeleteAll | Resize(to: nat)

  function Apply<K(==), V>(l: Lru<K, V>, op: Op<K, V>): (r: Lru<K, V>) {
    match op
    case Insert(key, value, now) => InsertPair(l, key, value, now)
    case Delete(key) => Remove(l, key)
    case DeleteOldest => RemoveOldest(l)
    case DeleteAll => Clear(l)
    case Resize(to) => SetSize(l, to)
  }

  /** The plain ordered map: its entries and its size. */
  function ApplyPlain<K(==), V>(o: seq<Entry<K, V>>, size: nat, op: Op<K, V>): (r: (seq<Entry<K, V>>, nat)) {
    match op
    case Insert(key, value, now) => (Inserted(o, size, key, value, now), size)
    case Delete(key) => (Without(o, key), size)
    case DeleteOldest => (WithoutFirst(o), size)
    case DeleteAll => ([], size)
    case Resize(to) => (o, if to >= size then to else size)
  }

  function Run<K(==), V>(l: Lru<K, V>, ops: seq<Op<K, V>>): (r: Lru<K, V>)
    decreases |ops|
  {
    if ops == [] then l else Run(Apply(l, ops[0]), ops[1..])
  }

  function RunPlain<K(==), V>(o: seq<Entry<K, V>>, size: nat, ops: seq<Op<K, V>>): (r: (seq<Entry<K, V>>, nat))
    decreases |ops|
  {
    if ops == [] then (o, size)
    else
      var (p, s) := ApplyPlain(o, size, ops[0]);
      RunPlain(p, s, ops[1..])
  }

  function EmptyLru<K(==), V>(size: nat): (l: Lru<K, V>) { Lru([], map[], size, 0) }

  lemma ApplyKeeps<K, V>(l: Lru<K, V>, op: Op<K, V>)
    requires Agree(l)
    ensures var r := Apply(l, op); Agree(r) && (Ordered(r), r.size) == ApplyPlain(Ordered(l), l.size, op)
  {
    hide Agree, Ordered, Inserted, Without, WithoutFirst;
    match op {
      case Insert(key, value, now) => InsertKeeps(l, key, value, now);
      case Delete(key) => RemoveKeeps(l, key);
      case DeleteOldest => RemoveOldestKeeps(l);
      case DeleteAll => ClearKeeps(l);
      case Resize(to) => ResizeKeeps(l, to);
    }
  }

  lemma ClearKeeps<K, V>(l: Lru<K, V>)
    requires Agree(l)
    ensures Agree(Clear(l)) && Ordered(Clear(l)) == []
  {}

  lemma ResizeKeeps<K, V>(l: Lru<K, V>, to: nat)
    requires Agree(l)
    ensures Agree(SetSize(l, to)) && Ordered(SetSize(l, to)) == Ordered(l)
  {
    var r := SetSize(l, to);
    assert forall i | 0 <= i < |l.list| :: NodeKnown(l, i) ==> NodeKnown(r, i);
    assert forall k | k in l.entries :: EntryListed(l, k) ==> EntryListed(r, k);
  }

  /** After any operations list and map agree, and the plain ordered map is what they represent. */
  lemma {:induction false} RunsRefinePlainMap<K, V>(l: Lru<K, V>, ops: seq<Op<K, V>>)
    requires Agree(l)
    ensures Agree(Run(l, ops))
    ensures (Ordered(Run(l, ops)), Run(l, ops).size) == RunPlain(Ordered(l), l.size, ops)
    decreases |ops|
  {
    hide Agree, Ordered, Apply, ApplyPlain;
    if ops == [] {
    } else {
      ApplyKeeps(l, ops[0]);
      RunsRefinePlainMap(Apply(l, ops[0]), ops[1..]);
    }
  }

  // ---------------------------------------------------------------------------------------------
  // What holds of the plain map, so of every run

  /** Insertion times do not go back, and none is later than `latest`. */
  ghost predicate OldestFirst<K, V>(o: seq<Entry<K, V>>, latest: nat) {
    && (forall i, j | 0 <= i < j < |o| :: o[i].ts <= o[j].ts)
    && (forall i | 0 <= i < |o| :: o[i].ts <= latest)
  }

  /** A clock that does not go back, from `now` on. */
  ghost predicate Monotone<K, V>(now: nat, ops: seq<Op<K, V>>)
    decreases |ops|
  {
    ops != [] ==>
      if ops[0].Insert? then now <= ops[0].now && Monotone(ops[0].now, ops[1..]) else Monotone(now, ops[1..])
  }

  ghost predicate Bounded<K, V>(o: seq<Entry<K, V>>, size: nat) { size >= 1 && |o| <= size && DistinctKeys(o) }

  lemma PlainStep<K, V>(o: seq<Entry<K, V>>, size: nat, op: Op<K, V>, now: nat)
    requires Bounded(o, size) && OldestFirst(o, now)
    requires op.Insert? ==> now <= op.now
    ensures var (p, s) := ApplyPlain(o, size, op);
      Bounded(p, s) && OldestFirst(p, if op.Insert? then op.now else now)
  {
    hide Without;
    match op {
      case Insert(key, value, ts) =>
        var room := if |o| >= size then WithoutFirst(o) else o;
        WithoutKeeps(room, key, size, now);
        AppendKeeps(Without(room, key), size, Entry(key, value, ts), now);
      case Delete(key) => WithoutKeeps(o, key, size, now);
      case DeleteOldest =>
      case DeleteAll =>
      case Resize(to) =>
    }
  }

  lemma WithoutKeeps<K, V>(o: seq<Entry<K, V>>, key: K, size: nat, now: nat)
    requires Bounded(o, size) && OldestFirst(o, now)
    ensures var r := Without(o, key);
      && Bounded(r, size) && OldestFirst(r, now) && |r| <= |o|
      && (forall i | 0 <= i < |r| :: r[i].key != key)
  {
    hide CutAt;
  }

  lemma AppendKeeps<K, V>(o: seq<Entry<K, V>>, size: nat, e: Entry<K, V>, now: nat)
    requires Bounded(o, size) && OldestFirst(o, now) && |o| < size && now <= e.ts
    requires forall i | 0 <= i < |o| :: o[i].key != e.key
    ensures Bounded(o + [e], size) && OldestFirst(o + [e], e.ts)
  {}

  /** At most `size` entries, each key once, in the order of their times. */
  lemma {:induction false} PlainRuns<K, V>(o: seq<Entry<K, V>>, size: nat, ops: seq<Op<K, V>>, now: nat) returns (end: nat)
    requires Bounded(o, size) && OldestFirst(o, now) && Monotone(now, ops)
    ensures var (p, s) := RunPlain(o, size, ops); Bounded(p, s) && OldestFirst(p, end)
    decreases |ops|
  {
    hide Bounded, OldestFirst, ApplyPlain;
    if ops == [] {
      end := now;
    } else {
      PlainStep(o, size, ops[0], now);
      var (p, s) := ApplyPlain(o, size, ops[0]);
      end := PlainRuns(p, s, ops[1..], if ops[0].Insert? then ops[0].now else now);
    }
  }

  /** The map after any run from empty, under a clock that does not go back. */
  lemma EveryRunIsHealthy<K, V>(size: nat, ops: seq<Op<K, V>>) returns (end: nat)
    requires size >= 1 && Monotone(0, ops)
    ensures var l := Run(EmptyLru<K, V>(size), ops);
      && Agree(l) && |l.entries| == |l.list| <= l.size
      && (Ordered(l), l.size) == RunPlain([], size, ops)
      && OldestFirst(Ordered(l), end)
  {
    hide Run, RunPlain;
    var start := EmptyLru<K, V>(size);
    assert Agree(start) && Ordered(start) == [];
    RunsRefinePlainMap(start, ops);
    end := PlainRuns([], size, ops, 0);
    CountIsLength(Run(start, ops));
  }

  /** What an insertion leaves: the key with its value and time, newest; of the others those there
      before, but for the oldest when the map was full. So renewing a key of a full map loses the oldest
      entry all the same, and the map is then one short unless that entry was the key's own. */
  lemma InsertionResult<K, V>(o: seq<Entry<K, V>>, size: nat, key: K, value: V, now: nat)
    requires Bounded(o, size)
    ensures var p := Inserted(o, size, key, value, now);
            var dropped := if |o| == size then 1 else 0;
      && p != [] && p[|p|-1] == Entry(key, value, now)
      && (forall e | e != p[|p|-1] :: e in p <==> e in o[dropped..] && e.key != key)
      && |p| == |o| - dropped + 1 - (if exists e :: e in o[dropped..] && e.key == key then 1 else 0)
  {
    var dropped := if |o| == size then 1 else 0;
    var room, p := o[dropped..], Inserted(o, size, key, value, now);
    assert room == if |o| >= size then WithoutFirst(o) else o;
    var i, rest := IndexOfKey(room, key), Without(room, key);
    assert p == rest + [Entry(key, value, now)];
    forall e ensures e in rest <==> e in room && e.key != key {
      WithoutMembers(room, key, e);
    }
    if i < |room| {
      assert room[i] in room;
    }
  }

  /** What a removal leaves: all entries but the key's, in their order. */
  lemma RemovalResult<K, V>(o: seq<Entry<K, V>>, key: K, at: nat)
    requires DistinctKeys(o) && at <= |o| && (at < |o| <==> exists i :: 0 <= i < |o| && o[i].key == key)
    requires at < |o| ==> o[at].key == key
    ensures Without(o, key) == if at < |o| then o[..at] + o[at+1..] else o
    ensures o != [] ==> WithoutFirst(o) == o[1..]
  {
    var i := IndexOfKey(o, key);
    assert at < |o| ==> i == at;
  }

  lemma WithoutMembers<K, V>(o: seq<Entry<K, V>>, key: K, e: Entry<K, V>)
    requires DistinctKeys(o)
    ensures e in Without(o, key) <==> e in o && e.key != key
  {
    var i, r := IndexOfKey(o, key), Without(o, key);
    if e in r {
      var j :| 0 <= j < |r| && r[j] == e;
      assert o[if j < i then j else j + 1] == e;
    }
    if e in o && e.key != key {
      var j :| 0 <= j < |o| && o[j] == e;
      assert r[if j < i then j else j - 1] == e;
    }
  }

  /** Inserting keys that all differ keeps exactly the latest ones, as many as fit. */
  lemma {:induction false} LatestKeysStay<K, V>(size: nat, given: seq<Entry<K, V>>)
    requires size >= 1 && DistinctKeys(given)
    ensures RunPlain([], size, Insertions(given))
         == (given[if |given| > size then |given| - size else 0..], size)
  {
    hide Inserted, DistinctKeys;
    if given == [] {
    } else {
      var n := |given| - 1;
      assert given[..n] + [given[n]] == given;
      assert DistinctKeys(given[..n]) by { DistinctPrefix(given, n); }
      LatestKeysStay(size, given[..n]);
      assert Insertions(given) == Insertions(given[..n]) + [Insert(given[n].key, given[n].value, given[n].ts)];
      RunPlainSum<K, V>([], size, Insertions(given[..n]), [Insert(given[n].key, given[n].value, given[n].ts)]);
      InsertNewKey(size, given);
    }
  }

  function Insertions<K, V>(given: seq<Entry<K, V>>): (ops: seq<Op<K, V>>)
    ensures |ops| == |given|
  {
    seq(|given|, i requires 0 <= i < |given| => Insert(given[i].key, given[i].value, given[i].ts))
  }

  lemma DistinctPrefix<K, V>(o: seq<Entry<K, V>>, n: nat)
    requires DistinctKeys(o) && n <= |o|
    ensures DistinctKeys(o[..n])
  {}

  lemma InsertNewKey<K, V>(size: nat, given: seq<Entry<K, V>>)
    requires size >= 1 && given != [] && DistinctKeys(given)
    ensures var n := |given| - 1;
            var e := given[n];
      Inserted(given[..n][if n > size then n - size else 0..], size, e.key, e.value, e.ts)
      == given[if n + 1 > size then n + 1 - size else 0..]
  {
    var n := |given| - 1;
    var held := given[..n][if n > size then n - size else 0..];
    var room := if |held| >= size then WithoutFirst(held) else held;
    assert forall i | 0 <= i < |room| :: room[i].key != given[n].key;
  }

  lemma {:induction false} RunPlainSum<K, V>(o: seq<Entry<K, V>>, size: nat, a: seq<Op<K, V>>, b: seq<Op<K, V>>)
    ensures var (p, s) := RunPlain(o, size, a); RunPlain(o, size, a + b) == RunPlain(p, s, b)
    decreases |a|
  {
    hide ApplyPlain;
    if a == [] {
      assert a + b == b;
    } else {
      assert (a + b)[1..] == a[1..] + b;
      var (p, s) := ApplyPlain(o, size, a[0]);
      RunPlainSum(p, s, a[1..], b);
    }
  }

  // ---------------------------------------------------------------------------------------------
  // The class

  /** What the 64-bit timestamps answer for a key that is not there. */
  const NO_TIMESTAMP := 0xFFFF_FFFF_FFFF_FFFF

  class OrekaLruMap<K(==), V> {
    var size: nat
    var list: seq<Node<K>>
    var entries: map<K, (V, nat)>
    /** Tells the next node from those before. */
    var nextId: nat

    ghost function Model(): (l: Lru<K, V>)
      reads this
    {
      Lru(list, entries, size, nextId)
    }

    ghost predicate Valid()
      reads this
    {
      size >= 1 && Agree(Model())
    }

    ghost function Contents(): (o: seq<Entry<K, V>>)
      requires Valid()
      reads this
    {
      Ordered(Model())
    }

    constructor (size: nat)
      requires size >= 1
      ensures Valid() && Contents() == [] && this.size == size
    {
      this.size, list, entries, nextId := size, [], map[], 0;
    }

    method RemoveOldest()
      requires Valid()
      modifies this`list, this`entries
      ensures Valid() && Contents() == WithoutFirst(old(Contents()))
    {
      hide Agree, Ordered;
      RemoveOldestKeeps(Model());
      if |list| > 0 {
        var key := list[0].key;
        entries := entries - {key};
        list := list[1..];
      }
    }

    method Remove(key: K) returns (removed: bool)
      requires Valid()
      modifies this`list, this`entries
      ensures Valid() && Contents() == Without(old(Contents()), key)
      ensures removed <==> IndexOfKey(old(Contents()), key) < |old(Contents())|
    {
      hide Agree, Ordered;
      RemoveKeeps(Model(), key);
      LookupsAgree(Model(), key);
      removed := key in entries;
      if removed {
        list := Erase(list, entries[key].1);
        entries := entries - {key};
      }
    }

    method InsertPair(key: K, value: V, now: nat)
      requires Valid()
      modifies this
      ensures Valid() && size == old(size) && Contents() == Inserted(old(Contents()), size, key, value, now)
    {
      hide Agree, Ordered;
      InsertKeeps(Model(), key, value, now);
      if |entries| >= size {
        EvictedExists(Model());
        var removeKey := list[0].key;
        entries := entries - {removeKey};
        list := list[1..];
      }
      if key in entries {
        list := Erase(list, entries[key].1);
        entries := entries - {key};
      }
      list := list + [Node(nextId, key, now)];
      entries := entries[key := (value, nextId)];
      nextId := nextId + 1;
    }

    method GetValue(key: K, fallback: V) returns (found: bool, value: V)
      requires Valid()
      ensures var i := IndexOfKey(Contents(), key);
        && (found <==> i < |Contents()|)
        && value == if found then Contents()[i].value else fallback
    {
      hide Agree, Ordered;
      LookupsAgree(Model(), key);
      found, value := key in entries, fallback;
      if found {
        value := entries[key].0;
      }
    }

    method GetEntryTs(key: K) returns (ts: nat)
      requires Valid()
      ensures var i := IndexOfKey(Contents(), key);
        ts == if i < |Contents()| then Contents()[i].ts else NO_TIMESTAMP
    {
      hide Agree, Ordered;
      LookupsAgree(Model(), key);
      ts := NO_TIMESTAMP;
      if key in entries {
        ts := list[IndexOfNode(list, entries[key].1)].ts;
      }
    }

    method GetOldestTs() returns (ts: nat)
      requires Valid()
      ensures ts == if Contents() == [] then NO_TIMESTAMP else Contents()[0].ts
    {
      ts := if |list| > 0 then list[0].ts else NO_TIMESTAMP;
    }

    method Clear()
      requires Valid()
      modifies this`list, this`entries
      ensures Valid() && Contents() == []
    {
      ClearKeeps(Model());
      entries, list := map[], [];
    }

    method SetSize(size: nat) returns (now: nat)
      requires Valid()
      modifies this`size
      ensures Valid() && Contents() == old(Contents())
      ensures now == this.size == if size >= old(this.size) then size else old(this.size)
    {
      hide Agree, Ordered;
      ResizeKeeps(Model(), size);
      if size >= this.size {
        this.size := size;
      }
      now := this.size;
    }
  }

  lemma EvictedExists<K, V>(l: Lru<K, V>)
    requires Agree(l) && l.size >= 1 && |l.entries| >= l.size
    ensures l.list != []
  {
    CountIsLength(l);
  }
}
