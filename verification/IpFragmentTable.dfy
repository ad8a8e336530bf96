/** All datagrams being reassembled, by packet id, and the classes of the source. */
module IpFragmentTable {
  import opened Common
  import opened IpPackets
  import Ip = IpFragmentation
  import SizedBuffers

  const TIMEOUT_SEC := 60

  datatype Table = Table(entries: map<nat, Ip.Reassembly>, lastCheck: int)

  function Purge(t: Table, now: int): (r: Table) {
    if now - t.lastCheck >= TIMEOUT_SEC then
      Table(map id | id in t.entries && now - t.entries[id].lastUpdate < TIMEOUT_SEC :: t.entries[id], now)
    else t
  }

  /** A minute after the last check the entries not heard of for a minute go, and no others. */
  lemma PurgeTells(t: Table, now: int, id: nat)
    ensures id in Purge(t, now).entries <==>
      id in t.entries && (now - t.lastCheck < 60 || now - t.entries[id].lastUpdate < 60)
    ensures id in Purge(t, now).entries ==> Purge(t, now).entries[id] == t.entries[id]
    ensures Purge(t, now).lastCheck == if now - t.lastCheck >= 60 then now else t.lastCheck
  {}

  function Entry(t: Table, id: nat): Ip.Reassembly { if id in t.entries then t.entries[id] else Ip.EMPTY }

  function Handle(t: Table, f: Fragment, now: int): (r: (Table, Option<Packet>)) {
    var p := Purge(t, now);
    var n := Ip.AddFragment(Entry(p, PacketId(f)), f, now);
    (p.(entries := if n.drop || n.complete then p.entries - {PacketId(f)} else p.entries[PacketId(f) := n]),
     if n.complete then n.packetData else None)
  }

  /** The rebuilt packets, with their ids, in the order they were returned. */
  function Run(t: Table, arrivals: seq<(Fragment, int)>): (r: (Table, seq<(nat, Packet)>))
    decreases |arrivals|
  {
    if arrivals == [] then (t, [])
    else
      var (n, done) := Handle(t, arrivals[0].0, arrivals[0].1);
      var (m, more) := Run(n, arrivals[1..]);
      (m, (if done.Some? then [(PacketId(arrivals[0].0), done.value)] else []) + more)
  }

  // ---------------------------------------------------------------------------------------------
  // What the table keeps

  /** Entries are under way: neither dropped nor complete. */
  ghost predicate Healthy(t: Table) {
    forall id | id in t.entries :: Ip.Sound(t.entries[id]) && !t.entries[id].drop && !t.entries[id].complete
  }

  lemma EmptyIsSound()
    ensures Ip.Sound(Ip.EMPTY) && !Ip.EMPTY.drop && !Ip.EMPTY.complete
  {}

  /** A fragment never both drops and completes its datagram, so its entry is erased at most once;
      what is returned is a finished datagram if and only if no empty fragment that announces more sits
      at its end. */
  lemma HandleHealthy(t: Table, f: Fragment, now: int)
    requires Healthy(t)
    ensures var n := Ip.AddFragment(Entry(Purge(t, now), PacketId(f)), f, now);
      && Healthy(Handle(t, f, now).0)
      && !(n.drop && n.complete)
      && (Handle(t, f, now).1.Some? ==>
            Handle(t, f, now).1 == n.packetData && (Ip.Finished(n) <==> !Ip.EmptyAtEnd(n)))
  {
    hide Ip.AddFragment, Ip.Finished, Ip.EmptyAtEnd, Ip.Sorted, Ip.EndsAt, Ip.TotalPayload;
    EmptyIsSound();
    Ip.AddFragmentSound(Entry(Purge(t, now), PacketId(f)), f, now);
  }

  /** Every fragment stored carries a payload. */
  ghost predicate AllPayloads(t: Table) { forall id | id in t.entries :: Ip.NonEmpty(t.entries[id].fragments) }

  /** While all fragments do, what is returned is finished. */
  lemma HandleFinishes(t: Table, f: Fragment, now: int)
    requires Healthy(t) && AllPayloads(t) && PayloadLen(f) > 0
    ensures var n := Ip.AddFragment(Entry(Purge(t, now), PacketId(f)), f, now);
      AllPayloads(Handle(t, f, now).0) && (Handle(t, f, now).1.Some? ==> Ip.Finished(n))
  {
    hide Ip.AddFragment, Ip.Finished, Ip.EmptyAtEnd, Ip.NonEmpty, Ip.Sound, PayloadLen;
    HandleHealthy(t, f, now);
    var r := Entry(Purge(t, now), PacketId(f));
    assert Ip.NonEmpty(r.fragments) by { NothingIsNonEmpty(); }
    Ip.AddFragmentNonEmpty(r, f, now);
    Ip.NonEmptyHasNoEmptyAtEnd(Ip.AddFragment(r, f, now));
  }

  lemma NothingIsNonEmpty()
    ensures Ip.NonEmpty([])
  {}

  /** Arrivals of packet `id` only. */
  function Only(arrivals: seq<(Fragment, int)>, id: nat): (r: seq<(Fragment, int)>) {
    if arrivals == [] then []
    else (if PacketId(arrivals[0].0) == id then [arrivals[0]] else []) + Only(arrivals[1..], id)
  }

  function OnlyPackets(packets: seq<(nat, Packet)>, id: nat): (r: seq<Packet>) {
    if packets == [] then [] else (if packets[0].0 == id then [packets[0].1] else []) + OnlyPackets(packets[1..], id)
  }

  ghost predicate NoPurge(lastCheck: int, arrivals: seq<(Fragment, int)>) {
    forall k | 0 <= k < |arrivals| :: arrivals[k].1 - lastCheck < TIMEOUT_SEC
  }

  ghost predicate SameEntry(t: Table, u: Table, id: nat) {
    (id in t.entries <==> id in u.entries) && Entry(t, id) == Entry(u, id)
  }

  /** A purge at `now`, if it is due, leaves the entry of `id`. */
  ghost predicate Spared(t: Table, now: int, id: nat) { id in t.entries ==> id in Purge(t, now).entries }

  /** No arrival, of any id, triggers a purge that finds the entry of `id` too old. */
  ghost predicate Kept(t: Table, arrivals: seq<(Fragment, int)>, id: nat)
    decreases |arrivals|
  {
    arrivals == [] ||
    (Spared(t, arrivals[0].1, id) && Kept(Handle(t, arrivals[0].0, arrivals[0].1).0, arrivals[1..], id))
  }

  /** So it is when no purge is due at all. */
  lemma {:induction false} NoPurgeKeeps(t: Table, arrivals: seq<(Fragment, int)>, id: nat)
    requires NoPurge(t.lastCheck, arrivals)
    ensures Kept(t, arrivals, id)
    decreases |arrivals|
  {
    hide Ip.AddFragment;
    if arrivals == [] {
    } else {
      NoPurgeKeeps(Handle(t, arrivals[0].0, arrivals[0].1).0, arrivals[1..], id);
    }
  }

  /** Checks recent enough for no purge to be due. */
  lemma {:induction false} RecentCheck(arrivals: seq<(Fragment, int)>) returns (lastCheck: int)
    ensures NoPurge(lastCheck, arrivals)
  {
    if arrivals == [] {
      lastCheck := 0;
    } else {
      lastCheck := RecentCheck(arrivals[1..]);
      if lastCheck < arrivals[0].1 {
        lastCheck := arrivals[0].1;
      }
      assert forall k | 1 <= k < |arrivals| :: arrivals[k] == arrivals[1..][k-1];
    }
  }

  lemma OtherIdUntouched(t: Table, f: Fragment, now: int, id: nat)
    requires Spared(t, now, id) && PacketId(f) != id
    ensures SameEntry(Handle(t, f, now).0, t, id)
  {
    hide Ip.AddFragment;
  }

  lemma OwnIdAlike(t: Table, u: Table, f: Fragment, now: int)
    requires Spared(t, now, PacketId(f)) && Spared(u, now, PacketId(f)) && SameEntry(t, u, PacketId(f))
    ensures Handle(t, f, now).1 == Handle(u, f, now).1
    ensures SameEntry(Handle(t, f, now).0, Handle(u, f, now).0, PacketId(f))
  {
    hide Ip.AddFragment;
  }

  lemma OnlyPacketsCons(id': nat, done: Option<Packet>, more: seq<(nat, Packet)>, id: nat)
    ensures OnlyPackets((if done.Some? then [(id', done.value)] else []) + more, id)
      == (if done.Some? && id' == id then [done.value] else []) + OnlyPackets(more, id)
  {
    if done.Some? {
      assert ([(id', done.value)] + more)[1..] == more;
    } else {
      assert [] + more == more;
    }
  }

  /** Packet ids are separate machines: interleaving other datagrams changes nothing for `id`, as long as
      its entry is never old enough for a purge. */
  lemma {:induction false} IdsAreSeparate(t: Table, u: Table, arrivals: seq<(Fragment, int)>, id: nat)
    requires Kept(t, arrivals, id) && Kept(u, Only(arrivals, id), id) && SameEntry(t, u, id)
    ensures SameEntry(Run(t, arrivals).0, Run(u, Only(arrivals, id)).0, id)
    ensures OnlyPackets(Run(t, arrivals).1, id) == OnlyPackets(Run(u, Only(arrivals, id)).1, id)
    decreases |arrivals|
  {
    hide Handle, OnlyPackets;
    if arrivals == [] {
    } else {
      var (f, now) := arrivals[0];
      var (n, done) := Handle(t, f, now);
      OnlyPacketsCons(PacketId(f), done, Run(n, arrivals[1..]).1, id);
      if PacketId(f) == id {
        assert Only(arrivals, id)[0] == arrivals[0] && Only(arrivals, id)[1..] == Only(arrivals[1..], id);
        var m := Handle(u, f, now).0;
        OwnIdAlike(t, u, f, now);
        OnlyPacketsCons(id, done, Run(m, Only(arrivals[1..], id)).1, id);
        IdsAreSeparate(n, m, arrivals[1..], id);
      } else {
        assert Only(arrivals, id) == Only(arrivals[1..], id);
        OtherIdUntouched(t, f, now, id);
        IdsAreSeparate(n, u, arrivals[1..], id);
      }
    }
  }

  /** A datagram fed alone through the table: nothing comes out before its last missing fragment,
      which brings out the whole datagram and leaves no entry. */
  lemma {:induction false} AloneReassembles(t: Table, id: nat, cut: seq<Fragment>, seen: set<nat>,
                                            arrivals: seq<(Fragment, int)>, indices: seq<nat>)
    requires Ip.IsCut(cut) && Ip.Partial(Entry(t, id), cut, seen) && !Ip.Covers(seen, |cut|)
    requires Ip.Delivers(arrivals, indices, cut, seen) && Kept(t, arrivals, id)
    requires forall k | 0 <= k < |arrivals| :: PacketId(arrivals[k].0) == id
    requires arrivals != [] && !Ip.Covers(Ip.SeenAfter(indices[..|indices|-1], seen), |cut|)
    ensures var (n, packets) := Run(t, arrivals);
      if Ip.Covers(Ip.SeenAfter(indices, seen), |cut|) then
        id !in n.entries && packets ==
          [(id, SetPacketLen(Header(cut[0]), HeaderLen(cut[0]) + Ip.TotalPayload(cut)) + Ip.JoinedPayload(cut))]
      else packets == []
    decreases |arrivals|
  {
    hide Ip.AddFragment, Ip.IsCut, Ip.Partial, Ip.Covers, Handle, Run;
    var (f, now) := arrivals[0];
    Ip.FirstArrival(Entry(t, id), cut, seen, arrivals, indices);
    HandleOwn(t, f, now);
    var (m, done) := Handle(t, f, now);
    var seen', indices' := seen + {indices[0]}, indices[1..];
    if |arrivals| == 1 {
      assert Ip.SeenAfter(indices', seen') == seen';
      RunOfOne(t, arrivals, m, done);
    } else {
      LastButOne(indices, seen);
      NotYetCovered(cut, indices'[..|indices'|-1], seen');
      AloneReassembles(m, id, cut, seen', arrivals[1..], indices');
      RunOfMore(t, arrivals, m);
    }
  }

  /** What handling a fragment means for the entry of its own id. */
  lemma HandleOwn(t: Table, f: Fragment, now: int)
    requires Spared(t, now, PacketId(f))
    ensures var n, (m, done), id := Ip.AddFragment(Entry(t, PacketId(f)), f, now), Handle(t, f, now), PacketId(f);
      && (n.drop || n.complete ==> id !in m.entries)
      && (!n.drop && !n.complete ==> Entry(m, id) == n)
      && done == if n.complete then n.packetData else None
  {
    hide Ip.AddFragment;
  }

  lemma RunOfOne(t: Table, arrivals: seq<(Fragment, int)>, m: Table, done: Option<Packet>)
    requires |arrivals| == 1 && (m, done) == Handle(t, arrivals[0].0, arrivals[0].1)
    ensures Run(t, arrivals) == (m, if done.Some? then [(PacketId(arrivals[0].0), done.value)] else [])
  {
    hide Handle;
    assert Run(m, arrivals[1..]) == (m, []);
    assert (if done.Some? then [(PacketId(arrivals[0].0), done.value)] else []) + []
      == if done.Some? then [(PacketId(arrivals[0].0), done.value)] else [];
  }

  lemma RunOfMore(t: Table, arrivals: seq<(Fragment, int)>, m: Table)
    requires arrivals != [] && (m, None) == Handle(t, arrivals[0].0, arrivals[0].1)
    ensures Run(t, arrivals) == Run(m, arrivals[1..])
  {
    hide Handle;
    assert [] + Run(m, arrivals[1..]).1 == Run(m, arrivals[1..]).1;
  }

  lemma LastButOne(indices: seq<nat>, seen: set<nat>)
    requires |indices| > 1
    ensures Ip.SeenAfter(indices[..|indices|-1], seen)
      == Ip.SeenAfter(indices[1..][..|indices|-2], seen + {indices[0]})
  {
    assert indices[..|indices|-1] == [indices[0]] + indices[1..][..|indices|-2];
  }

  lemma NotYetCovered(cut: seq<Fragment>, indices: seq<nat>, seen: set<nat>)
    requires !Ip.Covers(Ip.SeenAfter(indices, seen), |cut|)
    ensures !Ip.Covers(seen, |cut|)
  {
    var i :| 0 <= i < |cut| && i !in Ip.SeenAfter(indices, seen);
    assert i !in seen;
  }

  /** The whole claim: a datagram whose fragments arrive in any order, mixed with any other traffic,
      comes out once and whole, when its last missing fragment arrives. */
  lemma DatagramSurvivesTraffic(t: Table, id: nat, cut: seq<Fragment>, arrivals: seq<(Fragment, int)>, indices: seq<nat>)
    requires Ip.IsCut(cut) && id !in t.entries && Kept(t, arrivals, id)
    requires Ip.Delivers(Only(arrivals, id), indices, cut, {}) && indices != []
    requires Ip.AllIn(indices, |cut|) && !Ip.AllIn(indices[..|indices|-1], |cut|)
    ensures OnlyPackets(Run(t, arrivals).1, id)
      == [SetPacketLen(Header(cut[0]), HeaderLen(cut[0]) + Ip.TotalPayload(cut)) + Ip.JoinedPayload(cut)]
  {
    var r, none := Ip.NothingSeen(cut);
    var lastCheck := RecentCheck(arrivals);
    var alone := Table(map[], lastCheck);
    OnlyHasId(arrivals, id, alone.lastCheck);
    NoPurgeKeeps(alone, Only(arrivals, id), id);
    IdsAreSeparate(t, alone, arrivals, id);
    Ip.AllSeen(indices, none, |cut|);
    Ip.AllSeen(indices[..|indices|-1], none, |cut|);
    assert 0 !in none;
    AloneReassembles(alone, id, cut, none, Only(arrivals, id), indices);
    var packets := Run(alone, Only(arrivals, id)).1;
    assert packets[1..] == [];
    assert OnlyPackets(packets, id) == [packets[0].1] + OnlyPackets(packets[1..], id);
  }

  lemma {:induction false} OnlyHasId(arrivals: seq<(Fragment, int)>, id: nat, lastCheck: int)
    requires NoPurge(lastCheck, arrivals)
    ensures forall k | 0 <= k < |Only(arrivals, id)| :: PacketId(Only(arrivals, id)[k].0) == id
    ensures NoPurge(lastCheck, Only(arrivals, id))
  {
    if arrivals == [] {
    } else {
      OnlyHasId(arrivals[1..], id, lastCheck);
    }
  }

  // ---------------------------------------------------------------------------------------------
  // The classes

  class ForwardSequentialAlgorithm {
    var drop: bool
    var isComplete: bool
    var packetData: SizedBuffers.SizedBuffer?

    ghost function Footprint(): (f: set<object>)
      reads this, packetData
    {
      if packetData == null then {this}
      else
        var data: SizedBuffers.SizedBuffer := packetData;
        {this, data, data.buffer}
    }

    ghost predicate Valid()
      reads this, packetData, Footprint()
    {
      packetData != null ==> packetData.Valid() && |packetData.Contents()| >= 20
    }

    ghost function Model(): Ip.Forward
      requires Valid()
      reads this, packetData, Footprint()
    {
      Ip.Forward(drop, isComplete, if packetData == null then None else Some(packetData.Contents()))
    }

    constructor ()
      ensures Valid() && Model() == Ip.FORWARD_START && fresh(Footprint())
    {
      drop, isComplete, packetData := false, false, null;
    }

    method AddFragment(header: Fragment)
      requires Valid()
      modifies Footprint()
      ensures Valid() && Model() == Ip.ForwardAdd(old(Model()), header)
      ensures fresh(Footprint() - old(Footprint()))
    {
      if packetData == null {
        if Offset(header) != 0 {
          drop := true;
          return;
        }
        packetData := new SizedBuffers.SizedBuffer();
        packetData.Reset(header);
      } else {
        var original: Packet := packetData.buffer[..];
        if PayloadLen(original) != Offset(header) {
          drop := true;
          return;
        }
        var len := HeaderLen(original) + PayloadLen(original) + PayloadLen(header);
        packetData.Append(Payload(header));
        ghost var appended := packetData.Contents();
        packetData.Write(2, [len % 65536 / 256, len % 256]);
        LengthWritten(appended, packetData.Contents(), len);
      }
      if IsLastFragment(header) {
        isComplete := true;
      }
    }
  }

  /** Writing the two bytes of the length field in place. */
  lemma LengthWritten(before: Packet, after: seq<Byte>, len: nat)
    requires SizedBuffers.IsWritten(before, after, 2, [len % 65536 / 256, len % 256])
    ensures after == SetPacketLen(before, len)
  {
    assert after[2..4] == [after[2], after[3]];
  }

  class WaitAllAndSortAlgorithm {
    var orderedFragments: seq<Fragment>
    var finalSize: nat
    var currentSize: int
    var isComplete: bool
    var drop: bool
    var packetData: Option<Packet>
    var lastUpdate: int

    ghost function Model(): Ip.Reassembly
      reads this
    {
      Ip.Reassembly(orderedFragments, finalSize, currentSize, isComplete, drop, packetData, lastUpdate)
    }

    constructor ()
      ensures Model() == Ip.EMPTY
    {
      orderedFragments, finalSize, currentSize, lastUpdate := [], 0, 0, 0;
      isComplete, drop, packetData := false, false, None;
    }

    method FindPosition(header: Fragment) returns (k: nat)
      ensures k == Ip.FirstNotBelow(orderedFragments, Offset(header))
    {
      k := 0;
      while k < |orderedFragments| && Offset(orderedFragments[k]) < Offset(header)
        invariant k <= |orderedFragments|
        invariant Ip.FirstNotBelow(orderedFragments, Offset(header))
          == k + Ip.FirstNotBelow(orderedFragments[k..], Offset(header))
      {
        assert orderedFragments[k..][1..] == orderedFragments[k+1..];
        k := k + 1;
      }
    }

    method RunSimpleHandler() returns (dropped: bool, packet: Option<Packet>)
      ensures var w := Ip.ForwardAll(Ip.FORWARD_START, orderedFragments); dropped == w.drop && packet == w.packet
    {
      hide Ip.ForwardAdd;
      var simpleHandler := new ForwardSequentialAlgorithm();
      var i := 0;
      while i < |orderedFragments| && !simpleHandler.drop
        invariant i <= |orderedFragments| && fresh(simpleHandler.Footprint()) && simpleHandler.Valid()
        invariant Ip.ForwardAll(Ip.FORWARD_START, orderedFragments)
          == Ip.ForwardAll(simpleHandler.Model(), orderedFragments[i..])
      {
        assert orderedFragments[i..][1..] == orderedFragments[i+1..];
        simpleHandler.AddFragment(orderedFragments[i]);
        i := i + 1;
      }
      dropped, packet := simpleHandler.drop, None;
      if simpleHandler.packetData != null {
        packet := Some(simpleHandler.packetData.buffer[..]);
      }
    }

    method AddFragment(header: Fragment, now: int)
      modifies this
      ensures Model() == Ip.AddFragment(old(Model()), header, now)
    {
      var k := FindPosition(header);
      if k < |orderedFragments| && Offset(orderedFragments[k]) == Offset(header) {
        return;
      }
      orderedFragments := orderedFragments[..k] + [header] + orderedFragments[k..];
      if IsLastFragment(header) {
        finalSize := Offset(header) + PayloadLen(header);
      }
      currentSize := currentSize + PayloadLen(header);
      if finalSize != 0 && currentSize > finalSize {
        drop := true;
        return;
      }
      if currentSize == finalSize {
        var dropped, packet := RunSimpleHandler();
        if dropped {
          drop := true;
          return;
        }
        packetData := packet;
        isComplete := true;
      }
      lastUpdate := now;
    }
  }

  class IpFragments {
    var fragmentMap: map<nat, WaitAllAndSortAlgorithm>
    var lastCheck: int

    ghost predicate Valid()
      reads this
    {
      forall i, j | i in fragmentMap && j in fragmentMap && i != j :: fragmentMap[i] != fragmentMap[j]
    }

    ghost function Model(): Table
      reads this, fragmentMap.Values
    {
      Table(map id | id in fragmentMap :: fragmentMap[id].Model(), lastCheck)
    }

    constructor ()
      ensures Valid() && Model() == Table(map[], 0)
    {
      fragmentMap, lastCheck := map[], 0;
    }

    method DeleteOld(now: int)
      requires Valid()
      modifies this
      ensures Valid() && Model() == Purge(old(Model()), now)
      ensures fragmentMap.Values <= old(fragmentMap.Values)
    {
      if now - lastCheck >= TIMEOUT_SEC {
        var toBeDeleted := set id | id in fragmentMap && now - fragmentMap[id].lastUpdate >= TIMEOUT_SEC;
        fragmentMap := fragmentMap - toBeDeleted;
        lastCheck := now;
      }
    }

    method FindOrInsert(id: nat) returns (algorithm: WaitAllAndSortAlgorithm)
      requires Valid()
      modifies this
      ensures Valid() && id in fragmentMap && algorithm == fragmentMap[id]
      ensures algorithm.Model() == Entry(old(Model()), id)
      ensures Model() == old(Model()).(entries := old(Model()).entries[id := algorithm.Model()])
      ensures algorithm in old(fragmentMap.Values) || fresh(algorithm)
      ensures fragmentMap.Values <= old(fragmentMap.Values) + {algorithm}
    {
      if id !in fragmentMap {
        algorithm := new WaitAllAndSortAlgorithm();
        fragmentMap := fragmentMap[id := algorithm];
      } else {
        algorithm := fragmentMap[id];
        assert algorithm in fragmentMap.Values;
      }
    }

    method Update(id: nat, algorithm: WaitAllAndSortAlgorithm, header: Fragment, now: int)
      requires Valid() && id in fragmentMap && algorithm == fragmentMap[id]
      modifies algorithm
      ensures algorithm.Model() == Ip.AddFragment(old(algorithm.Model()), header, now)
      ensures Model() == old(Model()).(entries := old(Model()).entries[id := algorithm.Model()])
    {
      algorithm.AddFragment(header, now);
    }

    method AddTo(id: nat, header: Fragment, now: int) returns (algorithm: WaitAllAndSortAlgorithm)
      requires Valid()
      modifies this, fragmentMap.Values
      ensures Valid() && id in fragmentMap && algorithm == fragmentMap[id]
      ensures algorithm.Model() == Ip.AddFragment(Entry(old(Model()), id), header, now)
      ensures Model() == old(Model()).(entries := old(Model()).entries[id := algorithm.Model()])
    {
      algorithm := FindOrInsert(id);
      Update(id, algorithm, header, now);
    }

    method Erase(id: nat)
      requires Valid()
      modifies this
      ensures Valid() && Model() == old(Model()).(entries := old(Model()).entries - {id})
      ensures fragmentMap.Values <= old(fragmentMap.Values)
    {
      fragmentMap := fragmentMap - {id};
    }

    /** Erasing twice would be an error in the source; with entries under way and fragments that
        carry a payload it does not happen. */
    method HandleIpFragment(header: Fragment, now: int) returns (packet: Option<Packet>)
      requires Valid()
      modifies this, fragmentMap.Values
      ensures Valid()
      ensures Model() == Handle(old(Model()), header, now).0
      ensures packet == Handle(old(Model()), header, now).1
    {
      DeleteOld(now);
      ghost var p := Model();
      var algorithm := AddTo(PacketId(header), header, now);
      ghost var n := algorithm.Model();
      packet := None;
      if algorithm.drop {
        Erase(PacketId(header));
      }
      if algorithm.isComplete {
        Erase(PacketId(header));
        packet := algorithm.packetData;
      }
      ErasedEntries(p.entries, PacketId(header), n);
    }
  }

  lemma ErasedEntries(entries: map<nat, Ip.Reassembly>, id: nat, n: Ip.Reassembly)
    ensures entries[id := n] - {id} == entries - {id} == entries - {id} - {id}
  {}
}
