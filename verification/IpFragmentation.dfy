/** Reassembly of fragmented IP datagrams (RFC 791, section 3.2): fragments are kept sorted by
    offset until their sizes add up, then walked once in order to rebuild the packet. */
module IpFragmentation {
  import opened Common
  import opened IpPackets

  // ---------------------------------------------------------------------------------------------
  // The sequential pass

  datatype Forward = Forward(drop: bool, complete: bool, packet: Option<Packet>)

  const FORWARD_START := Forward(false, false, None)

  /** One fragment of the sequential pass. */
  function ForwardAdd(w: Forward, f: Fragment): (r: Forward)
  {
    match w.packet
    case None =>
      if Offset(f) != 0 then w.(drop := true)
      else Forward(w.drop, w.complete || IsLastFragment(f), Some(f))
    case Some(p) =>
      if PayloadLen(p) != Offset(f) then w.(drop := true)
      else
        var len := HeaderLen(p) + PayloadLen(p) + PayloadLen(f);
        Forward(w.drop, w.complete || IsLastFragment(f), Some(SetPacketLen(p + Payload(f), len)))
  }

  /** The pass over all fragments, left as soon as one is dropped. */
  function ForwardAll(w: Forward, fragments: seq<Fragment>): (r: Forward)
    decreases |fragments|
  {
    if fragments == [] || w.drop then w
    else ForwardAll(ForwardAdd(w, fragments[0]), fragments[1..])
  }

  // ---------------------------------------------------------------------------------------------
  // One datagram

  datatype Reassembly = Reassembly(
    fragments: seq<Fragment>,
    finalSize: nat,
    currentSize: int,
    complete: bool,
    drop: bool,
    packetData: Option<Packet>,
    lastUpdate: int)

  const EMPTY := Reassembly([], 0, 0, false, false, None, 0)

  /** Where the scan for the insertion point stops. */
  function FirstNotBelow(fragments: seq<Fragment>, offset: nat): (k: nat)
    ensures k <= |fragments|
  {
    if fragments == [] || Offset(fragments[0]) >= offset then 0
    else 1 + FirstNotBelow(fragments[1..], offset)
  }

  function Insert(fragments: seq<Fragment>, f: Fragment, k: nat): (n: seq<Fragment>)
    requires k <= |fragments|
    ensures |n| == |fragments| + 1 && n[k] == f
    ensures forall i | 0 <= i < k :: n[i] == fragments[i]
    ensures forall i | k <= i < |fragments| :: n[i+1] == fragments[i]
  {
    fragments[..k] + [f] + fragments[k..]
  }

  function AddFragment(r: Reassembly, f: Fragment, now: int): (n: Reassembly)
  {
    var k := FirstNotBelow(r.fragments, Offset(f));
    if k < |r.fragments| && Offset(r.fragments[k]) == Offset(f) then r
    else
      var fragments := Insert(r.fragments, f, k);
      var final := if IsLastFragment(f) then Offset(f) + PayloadLen(f) else r.finalSize;
      var current := r.currentSize + PayloadLen(f);
      var n := r.(fragments := fragments, finalSize := final, currentSize := current);
      if final != 0 && current > final then n.(drop := true)
      else if current == final then
        var pass := ForwardAll(FORWARD_START, fragments);
        if pass.drop then n.(drop := true)
        else n.(packetData := pass.packet, complete := true, lastUpdate := now)
      else n.(lastUpdate := now)
  }

  function TotalPayload(fragments: seq<Fragment>): (n: nat)
  {
    if fragments == [] then 0 else PayloadLen(fragments[0]) + TotalPayload(fragments[1..])
  }

  function JoinedPayload(fragments: seq<Fragment>): (p: seq<Byte>)
    ensures |p| == TotalPayload(fragments)
  {
    if fragments == [] then [] else Payload(fragments[0]) + JoinedPayload(fragments[1..])
  }

  /** Strictly sorted by offset, each starting where the one before it ends, the first at `start`. */
  ghost predicate ContiguousFrom(fragments: seq<Fragment>, start: nat)
  {
    fragments == [] ||
    (Offset(fragments[0]) == start && ContiguousFrom(fragments[1..], start + PayloadLen(fragments[0])))
  }

  ghost predicate Sorted(fragments: seq<Fragment>)
  {
    forall i, j | 0 <= i < j < |fragments| :: Offset(fragments[i]) < Offset(fragments[j])
  }

  ghost predicate NonEmpty(fragments: seq<Fragment>)
  {
    forall i | 0 <= i < |fragments| :: PayloadLen(fragments[i]) > 0
  }

  /** What the pass holds after the fragments of `head` joined with `payload`. */
  ghost predicate Rebuilt(p: Packet, first: Fragment, payload: seq<Byte>)
  {
    p == SetPacketLen(Header(first), HeaderLen(first) + |payload|) + payload
  }

  lemma RebuiltReads(p: Packet, first: Fragment, payload: seq<Byte>)
    requires Rebuilt(p, first, payload)
    ensures HeaderLen(p) == HeaderLen(first)
    ensures PacketLen(p) == (HeaderLen(first) + |payload|) % 65536
  {
    SetPacketLenReads(Header(first), HeaderLen(first) + |payload|);
  }

  lemma FirstIsRebuilt(first: Fragment)
    ensures Rebuilt(first, first, Payload(first))
  {
    assert first == Header(first) + Payload(first);
    assert |first| == PacketLen(first) < 65536;
    SetSamePacketLen(Header(first));
  }

  lemma AppendIsRebuilt(p: Packet, first: Fragment, payload: seq<Byte>, more: seq<Byte>, len: nat)
    requires Rebuilt(p, first, payload)
    requires len == HeaderLen(first) + |payload| + |more|
    ensures Rebuilt(SetPacketLen(p + more, len), first, payload + more)
  {
    assert p + more == SetPacketLen(Header(first), HeaderLen(first) + |payload|) + (payload + more);
    SetPacketLenTwice(Header(first), payload + more, HeaderLen(first) + |payload|, len);
  }

  /** One fragment of the pass after the first: it is dropped exactly when it does not start where
      the length field says the packet ends. */
  lemma ForwardStep(w: Forward, first: Fragment, payload: seq<Byte>, f: Fragment)
    requires w.packet.Some? && !w.drop && Rebuilt(w.packet.value, first, payload)
    ensures var r := ForwardAdd(w, f);
      && (r.drop <==> (HeaderLen(first) + |payload|) % 65536 - HeaderLen(first) != Offset(f))
      && (!r.drop && Offset(f) == |payload| ==>
            r.packet.Some? && Rebuilt(r.packet.value, first, payload + Payload(f)))
  {
    var p := w.packet.value;
    RebuiltReads(p, first, payload);
    if PayloadLen(p) == Offset(f) == |payload| {
      AppendIsRebuilt(p, first, payload, Payload(f), HeaderLen(p) + PayloadLen(p) + PayloadLen(f));
    }
  }

  lemma NoWrap(header: nat, len: nat, more: nat)
    requires header + len + more <= 65535
    ensures (header + len) % 65536 == header + len
  {}

  lemma PayloadAssociates(a: seq<Byte>, b: seq<Byte>, c: seq<Byte>)
    ensures a + b + c == a + (b + c)
  {}

  /** The pass accepts contiguous fragments and joins them. */
  lemma {:induction false} ForwardJoins(w: Forward, first: Fragment, payload: seq<Byte>, rest: seq<Fragment>)
    requires w.packet.Some? && !w.drop && Rebuilt(w.packet.value, first, payload)
    requires ContiguousFrom(rest, |payload|) && HeaderLen(first) + |payload| + TotalPayload(rest) <= 65535
    ensures var r := ForwardAll(w, rest);
      !r.drop && r.packet.Some? && Rebuilt(r.packet.value, first, payload + JoinedPayload(rest))
    decreases |rest|
  {
    hide ForwardAdd, Rebuilt, Offset, PayloadLen, Payload;
    if rest == [] {
      assert payload + [] == payload;
    } else {
      NoWrap(HeaderLen(first), |payload|, TotalPayload(rest));
      ForwardStep(w, first, payload, rest[0]);
      ForwardJoins(ForwardAdd(w, rest[0]), first, payload + Payload(rest[0]), rest[1..]);
      PayloadAssociates(payload, Payload(rest[0]), JoinedPayload(rest[1..]));
    }
  }

  lemma FragmentRanges(f: Fragment)
    ensures Offset(f) <= 65528 && HeaderLen(f) <= 60 && PayloadLen(f) < 65536
  {}

  lemma SortedTail(last: Fragment, rest: seq<Fragment>)
    requires Sorted([last] + rest) && rest != []
    ensures Offset(last) < Offset(rest[0]) && Sorted([rest[0]] + rest[1..])
  {
    var all := [last] + rest;
    assert all[0] == last && all[1] == rest[0] && [rest[0]] + rest[1..] == all[1..];
  }

  /** A pass that drops nothing saw contiguous fragments, and joined them. */
  lemma {:induction false} ForwardAccepts(w: Forward, first: Fragment, payload: seq<Byte>, last: Fragment, rest: seq<Fragment>)
    requires w.packet.Some? && !w.drop && Rebuilt(w.packet.value, first, payload)
    requires Offset(last) + PayloadLen(last) == |payload|
    requires Sorted([last] + rest) && !ForwardAll(w, rest).drop
    ensures ContiguousFrom(rest, |payload|)
    ensures var r := ForwardAll(w, rest);
      r.packet.Some? && Rebuilt(r.packet.value, first, payload + JoinedPayload(rest))
    decreases |rest|
  {
    hide ForwardAdd, Rebuilt, Offset, PayloadLen, Payload, Sorted;
    if rest == [] {
      assert payload + [] == payload;
    } else {
      var f := rest[0];
      ForwardStep(w, first, payload, f);
      assert !ForwardAdd(w, f).drop;
      SortedTail(last, rest);
      FragmentRanges(last);
      FragmentRanges(first);
      LengthDidNotWrap(HeaderLen(first), Offset(last), PayloadLen(last), Offset(f));
      ForwardAccepts(ForwardAdd(w, f), first, payload + Payload(f), f, rest[1..]);
      PayloadAssociates(payload, Payload(f), JoinedPayload(rest[1..]));
    }
  }

  lemma LengthDidNotWrap(header: nat, offset: nat, len: nat, next: nat)
    requires offset < next && len < 65536 && header <= 60 && offset <= 65528
    requires (header + offset + len) % 65536 - header == next
    ensures next == offset + len
  {
    var n := header + offset + len;
    assert n / 65536 <= 2;
  }

  // ---------------------------------------------------------------------------------------------
  // Soundness, for any fragments with a payload

  lemma {:induction false} TotalPayloadOfSum(a: seq<Fragment>, b: seq<Fragment>)
    ensures TotalPayload(a + b) == TotalPayload(a) + TotalPayload(b)
  {
    if a == [] {
      assert a + b == b;
    } else {
      assert (a + b)[1..] == a[1..] + b;
      TotalPayloadOfSum(a[1..], b);
    }
  }

  lemma {:induction false} InsertionPoint(fragments: seq<Fragment>, offset: nat)
    requires Sorted(fragments)
    ensures var k := FirstNotBelow(fragments, offset);
      && (forall i | 0 <= i < k :: Offset(fragments[i]) < offset)
      && (forall i | k <= i < |fragments| :: offset <= Offset(fragments[i]))
  {
    if fragments == [] || Offset(fragments[0]) >= offset {
    } else {
      InsertionPoint(fragments[1..], offset);
      var k := FirstNotBelow(fragments[1..], offset);
      assert forall i | 1 <= i < |fragments| :: fragments[i] == fragments[1..][i-1];
    }
  }

  /** In contiguous fragments only the last one reaches the end. */
  lemma {:induction false} OnlyLastReachesEnd(fragments: seq<Fragment>, start: nat, i: nat)
    requires ContiguousFrom(fragments, start) && NonEmpty(fragments) && i < |fragments|
    ensures Offset(fragments[i]) + PayloadLen(fragments[i]) <= start + TotalPayload(fragments)
    ensures Offset(fragments[i]) + PayloadLen(fragments[i]) == start + TotalPayload(fragments) <==> i == |fragments| - 1
  {
    if i == 0 {
      if |fragments| > 1 {
        assert PayloadLen(fragments[1]) > 0;
        assert TotalPayload(fragments[1..]) == PayloadLen(fragments[1]) + TotalPayload(fragments[1..][1..]);
      }
    } else {
      assert forall j | 0 <= j < |fragments| - 1 :: fragments[1..][j] == fragments[j+1];
      OnlyLastReachesEnd(fragments[1..], start + PayloadLen(fragments[0]), i - 1);
    }
  }

  /** A complete datagram: contiguous from 0, ended by its last fragment, joined under the first
      one's header. The length field wraps when the datagram is longer than it can say. */
  ghost predicate Finished(r: Reassembly) {
    && r.fragments != []
    && Sorted(r.fragments) && ContiguousFrom(r.fragments, 0)
    && IsLastFragment(r.fragments[|r.fragments|-1])
    && r.packetData.Some?
    && Rebuilt(r.packetData.value, r.fragments[0], JoinedPayload(r.fragments))
  }

  /** A fragment without payload that announces more sits where the datagram should end. */
  ghost predicate EmptyAtEnd(r: Reassembly) { exists i | 0 <= i < |r.fragments| :: IsEmptyAt(r.fragments[i], r.finalSize) }

  predicate IsEmptyAt(f: Fragment, offset: nat) { PayloadLen(f) == 0 && !IsLastFragment(f) && Offset(f) == offset }

  /** The books of a datagram under way, whatever arrived; complete means finished, but for an empty
      fragment at the end. */
  ghost predicate Sound(r: Reassembly) {
    && Sorted(r.fragments)
    && r.currentSize == TotalPayload(r.fragments)
    && (r.finalSize != 0 ==> EndsAt(r.fragments, r.finalSize))
    && !(r.drop && r.complete)
    && (r.complete ==> (Finished(r) <==> !EmptyAtEnd(r)))
  }

  lemma InsertSortedAt(fragments: seq<Fragment>, f: Fragment, k: nat, i: nat, j: nat)
    requires Sorted(fragments) && k <= |fragments| && i < j <= |fragments|
    requires forall m | 0 <= m < k :: Offset(fragments[m]) < Offset(f)
    requires forall m | k <= m < |fragments| :: Offset(f) < Offset(fragments[m])
    ensures Offset(Insert(fragments, f, k)[i]) < Offset(Insert(fragments, f, k)[j])
  {
    hide Offset, Insert;
    var n := Insert(fragments, f, k);
    if j < k {
      assert n[i] == fragments[i] && n[j] == fragments[j];
    } else if j == k {
      assert n[i] == fragments[i];
    } else if i == k {
      assert n[j] == fragments[j-1];
    } else {
      assert n[j] == fragments[j-1] && n[i] == if i < k then fragments[i] else fragments[i-1];
    }
  }

  lemma InsertSorted(fragments: seq<Fragment>, f: Fragment, k: nat)
    requires Sorted(fragments) && k == FirstNotBelow(fragments, Offset(f))
    requires k < |fragments| ==> Offset(fragments[k]) != Offset(f)
    ensures Sorted(Insert(fragments, f, k))
  {
    hide Offset, Insert, FirstNotBelow;
    InsertionPoint(fragments, Offset(f));
    var n := Insert(fragments, f, k);
    forall i, j | 0 <= i < j < |n| ensures Offset(n[i]) < Offset(n[j]) {
      InsertSortedAt(fragments, f, k, i, j);
    }
  }

  lemma InsertTotal(fragments: seq<Fragment>, f: Fragment, k: nat)
    requires k <= |fragments|
    ensures TotalPayload(Insert(fragments, f, k)) == TotalPayload(fragments) + PayloadLen(f)
  {
    assert fragments == fragments[..k] + fragments[k..];
    TotalPayloadOfSum(fragments[..k], fragments[k..]);
    TotalPayloadOfSum(fragments[..k] + [f], fragments[k..]);
    TotalPayloadOfSum(fragments[..k], [f]);
    assert [f][1..] == [];
  }

  lemma InsertNonEmpty(fragments: seq<Fragment>, f: Fragment, k: nat)
    requires k <= |fragments| && NonEmpty(fragments) && PayloadLen(f) > 0
    ensures NonEmpty(Insert(fragments, f, k))
  {
    var n := Insert(fragments, f, k);
    forall i | 0 <= i < |n| ensures PayloadLen(n[i]) > 0 {
      if i > k { assert n[i] == fragments[i-1]; }
    }
  }

  /** A stored fragment without the more-fragments bit ends at `size`. */
  ghost predicate EndsAt(fragments: seq<Fragment>, size: nat) {
    exists i | 0 <= i < |fragments| ::
      IsLastFragment(fragments[i]) && Offset(fragments[i]) + PayloadLen(fragments[i]) == size
  }

  lemma InsertEndsAt(fragments: seq<Fragment>, f: Fragment, k: nat, size: nat)
    requires k <= |fragments| && EndsAt(fragments, size)
    ensures EndsAt(Insert(fragments, f, k), size)
  {
    var n := Insert(fragments, f, k);
    var i :| 0 <= i < |fragments| && IsLastFragment(fragments[i]) && Offset(fragments[i]) + PayloadLen(fragments[i]) == size;
    assert n[if i < k then i else i + 1] == fragments[i];
  }

  lemma InsertedEndsAt(fragments: seq<Fragment>, f: Fragment, k: nat)
    requires k <= |fragments| && IsLastFragment(f)
    ensures EndsAt(Insert(fragments, f, k), Offset(f) + PayloadLen(f))
  {
    assert Insert(fragments, f, k)[k] == f;
  }

  lemma AddFragmentSound(r: Reassembly, f: Fragment, now: int)
    requires Sound(r) && !r.drop && !r.complete
    ensures Sound(AddFragment(r, f, now))
  {
    hide FirstNotBelow, ForwardAll, TotalPayload, Sorted, EndsAt, EmptyAtEnd, Finished, Offset, PayloadLen, IsLastFragment, Insert;
    var k := FirstNotBelow(r.fragments, Offset(f));
    if !(k < |r.fragments| && Offset(r.fragments[k]) == Offset(f)) {
      InsertSorted(r.fragments, f, k);
      InsertTotal(r.fragments, f, k);
      if IsLastFragment(f) {
        InsertedEndsAt(r.fragments, f, k);
      } else if r.finalSize != 0 {
        InsertEndsAt(r.fragments, f, k, r.finalSize);
      }
      var n := AddFragment(r, f, now);
      if n.complete {
        CompleteIsFinished(n);
      }
    }
  }

  /** What the pass accepted is contiguous from 0 and joined. */
  lemma CompleteIsJoined(n: Reassembly)
    requires Sorted(n.fragments) && n.fragments != []
    requires !ForwardAll(FORWARD_START, n.fragments).drop
    requires n.packetData == ForwardAll(FORWARD_START, n.fragments).packet
    ensures ContiguousFrom(n.fragments, 0) && n.packetData.Some?
    ensures Rebuilt(n.packetData.value, n.fragments[0], JoinedPayload(n.fragments))
  {
    hide Offset, PayloadLen, IsLastFragment, Sorted, Rebuilt, Payload;
    var first, rest := n.fragments[0], n.fragments[1..];
    assert n.fragments == [first] + rest;
    assert !ForwardAdd(FORWARD_START, first).drop;
    FirstIsRebuilt(first);
    ForwardAccepts(ForwardAdd(FORWARD_START, first), first, Payload(first), first, rest);
  }

  /** The highest fragment ends the datagram if and only if no empty one sits behind the end. */
  lemma CompleteIsFinished(n: Reassembly)
    requires Sorted(n.fragments) && n.fragments != []
    requires n.currentSize == TotalPayload(n.fragments) == n.finalSize
    requires n.finalSize != 0 ==> EndsAt(n.fragments, n.finalSize)
    requires !ForwardAll(FORWARD_START, n.fragments).drop
    requires n.packetData == ForwardAll(FORWARD_START, n.fragments).packet
    ensures Finished(n) <==> !EmptyAtEnd(n)
  {
    CompleteIsJoined(n);
    HighestIsLast(n.fragments, n.finalSize);
    hide Offset, PayloadLen, IsLastFragment, Sorted, Rebuilt, Payload, ContiguousFrom, ForwardAll, IsEmptyAt;
  }

  lemma NotNegative(f: Fragment)
    ensures Offset(f) >= 0 && PayloadLen(f) >= 0
  {}

  lemma BelowHighest(fragments: seq<Fragment>, i: nat)
    requires Sorted(fragments) && i < |fragments|
    ensures var highest := Offset(fragments[|fragments|-1]);
      i + 1 < |fragments| ==> Offset(fragments[i]) < highest && Offset(fragments[i+1]) <= highest
  {}

  lemma HighestIsLast(fragments: seq<Fragment>, size: nat)
    requires fragments != [] && Sorted(fragments) && ContiguousFrom(fragments, 0)
    requires TotalPayload(fragments) == size && (size != 0 ==> EndsAt(fragments, size))
    ensures IsLastFragment(fragments[|fragments|-1])
       <==> !(exists i | 0 <= i < |fragments| :: IsEmptyAt(fragments[i], size))
  {
    hide Offset, PayloadLen, IsLastFragment, ContiguousFrom, TotalPayload, Sorted;
    var h := |fragments| - 1;
    StartsAddUp(fragments, 0, h);
    NotNegative(fragments[h]);
    if PayloadLen(fragments[h]) == 0 {
      if !IsLastFragment(fragments[h]) {
        assert IsEmptyAt(fragments[h], size);
      }
    } else {
      var i :| 0 <= i < |fragments| && IsLastFragment(fragments[i]) && Offset(fragments[i]) + PayloadLen(fragments[i]) == size;
      StartsAddUp(fragments, 0, i);
      BelowHighest(fragments, i);
    }
    forall i | 0 <= i < |fragments| && IsEmptyAt(fragments[i], size) ensures i == h {
      BelowHighest(fragments, i);
    }
  }

  /** A first fragment without payload, at offset 0, completes its datagram on the spot even when more
      fragments are announced. No other first fragment does. */
  lemma FirstFragmentCompletes(f: Fragment, now: int)
    ensures AddFragment(EMPTY, f, now).complete <==> Offset(f) == 0 && (IsLastFragment(f) || PayloadLen(f) == 0)
  {
    var fragments := Insert([], f, 0);
    assert fragments == [f];
    assert ForwardAll(ForwardAdd(FORWARD_START, f), fragments[1..]) == ForwardAdd(FORWARD_START, f);
  }

  /** Fragments of one datagram in order of arrival, until it is complete or dropped. */
  function Feed(r: Reassembly, arrivals: seq<(Fragment, int)>): (n: Reassembly)
    decreases |arrivals|
  {
    if arrivals == [] || r.drop || r.complete then r
    else Feed(AddFragment(r, arrivals[0].0, arrivals[0].1), arrivals[1..])
  }

  /** Whatever arrives, a datagram is never both dropped and complete, and a complete one is finished
      if and only if no empty fragment that announces more sits at its end. */
  lemma {:induction false} FeedSound(r: Reassembly, arrivals: seq<(Fragment, int)>)
    requires Sound(r)
    ensures Sound(Feed(r, arrivals))
    decreases |arrivals|
  {
    hide Sound, AddFragment;
    if arrivals == [] || r.drop || r.complete {
    } else {
      AddFragmentSound(r, arrivals[0].0, arrivals[0].1);
      FeedSound(AddFragment(r, arrivals[0].0, arrivals[0].1), arrivals[1..]);
    }
  }

  lemma AddFragmentNonEmpty(r: Reassembly, f: Fragment, now: int)
    requires NonEmpty(r.fragments) && PayloadLen(f) > 0
    ensures NonEmpty(AddFragment(r, f, now).fragments)
  {
    hide ForwardAll, NonEmpty, Offset, PayloadLen, IsLastFragment, Insert;
    InsertNonEmpty(r.fragments, f, FirstNotBelow(r.fragments, Offset(f)));
  }

  lemma NonEmptyHasNoEmptyAtEnd(r: Reassembly)
    requires NonEmpty(r.fragments)
    ensures !EmptyAtEnd(r)
  {
    hide PayloadLen, IsLastFragment, Offset;
  }

  /** So fragments that all carry a payload give a finished datagram. */
  lemma {:induction false} PayloadsFinish(r: Reassembly, arrivals: seq<(Fragment, int)>)
    requires Sound(r) && NonEmpty(r.fragments) && forall i | 0 <= i < |arrivals| :: PayloadLen(arrivals[i].0) > 0
    ensures var n := Feed(r, arrivals); NonEmpty(n.fragments) && (n.complete ==> Finished(n))
    decreases |arrivals|
  {
    hide Sound, AddFragment, Finished, NonEmpty, EmptyAtEnd;
    if arrivals == [] || r.drop || r.complete {
      NonEmptyHasNoEmptyAtEnd(r);
      SoundMeans(r);
    } else {
      var (f, now) := arrivals[0];
      AddFragmentSound(r, f, now);
      AddFragmentNonEmpty(r, f, now);
      PayloadsFinish(AddFragment(r, f, now), arrivals[1..]);
    }
  }

  lemma SoundMeans(r: Reassembly)
    requires Sound(r)
    ensures r.complete ==> (Finished(r) <==> !EmptyAtEnd(r))
  {}

  // ---------------------------------------------------------------------------------------------
  // Order independence

  /** `cut` is some datagram of at most 65535 bytes cut into fragments, in order. */
  ghost predicate IsCut(cut: seq<Fragment>) {
    && cut != []
    && ContiguousFrom(cut, 0) && NonEmpty(cut)
    && (forall i | 0 <= i < |cut| :: IsLastFragment(cut[i]) <==> i == |cut| - 1)
    && HeaderLen(cut[0]) + TotalPayload(cut) <= 65535
  }

  /** The fragments of `cut` between `lo` and `hi` whose index was seen. */
  ghost function Select(cut: seq<Fragment>, seen: set<nat>, lo: nat, hi: nat): (r: seq<Fragment>)
    requires lo <= hi <= |cut|
    decreases hi - lo
  {
    if lo == hi then [] else (if lo in seen then [cut[lo]] else []) + Select(cut, seen, lo + 1, hi)
  }

  ghost predicate Covers(seen: set<nat>, n: nat) { forall i | 0 <= i < n :: i in seen }

  lemma {:induction false} SelectSplit(cut: seq<Fragment>, seen: set<nat>, lo: nat, mid: nat, hi: nat)
    requires lo <= mid <= hi <= |cut|
    ensures Select(cut, seen, lo, hi) == Select(cut, seen, lo, mid) + Select(cut, seen, mid, hi)
    decreases mid - lo
  {
    if lo == mid {
    } else {
      SelectSplit(cut, seen, lo + 1, mid, hi);
    }
  }

  lemma {:induction false} SelectIgnores(cut: seq<Fragment>, seen: set<nat>, i: nat, lo: nat, hi: nat)
    requires lo <= hi <= |cut| && !(lo <= i < hi)
    ensures Select(cut, seen + {i}, lo, hi) == Select(cut, seen, lo, hi)
    decreases hi - lo
  {
    if lo == hi {
    } else {
      SelectIgnores(cut, seen, i, lo + 1, hi);
    }
  }

  /** Offset of index `i` of a cut, and the end of the datagram for the index past the last. */
  ghost function StartOf(cut: seq<Fragment>, i: nat): nat
    requires i <= |cut|
  {
    if i < |cut| then Offset(cut[i]) else TotalPayload(cut)
  }

  lemma {:induction false} StartsAddUp(cut: seq<Fragment>, start: nat, i: nat)
    requires ContiguousFrom(cut, start) && i < |cut|
    ensures Offset(cut[i]) + PayloadLen(cut[i]) == if i + 1 < |cut| then Offset(cut[i+1]) else start + TotalPayload(cut)
  {
    if i == 0 {
      if |cut| > 1 { assert cut[1] == cut[1..][0]; }
      assert |cut| == 1 ==> TotalPayload(cut[1..]) == 0;
    } else {
      StartsAddUp(cut[1..], start + PayloadLen(cut[0]), i - 1);
    }
  }

  lemma NextStart(cut: seq<Fragment>, i: nat)
    requires IsCut(cut) && i < |cut|
    ensures StartOf(cut, i + 1) == StartOf(cut, i) + PayloadLen(cut[i]) && PayloadLen(cut[i]) > 0
  {
    StartsAddUp(cut, 0, i);
  }

  lemma {:induction false} StartsGrow(cut: seq<Fragment>, lo: nat, hi: nat)
    requires IsCut(cut) && lo <= hi <= |cut|
    ensures StartOf(cut, lo) + hi - lo <= StartOf(cut, hi)
    decreases hi - lo
  {
    if lo == hi {
    } else {
      NextStart(cut, lo);
      StartsGrow(cut, lo + 1, hi);
    }
  }

  /** What was selected has offsets in its range. */
  lemma {:induction false} SelectRange(cut: seq<Fragment>, seen: set<nat>, lo: nat, hi: nat)
    requires IsCut(cut) && lo <= hi <= |cut|
    ensures forall k | 0 <= k < |Select(cut, seen, lo, hi)| ::
      StartOf(cut, lo) <= Offset(Select(cut, seen, lo, hi)[k]) < StartOf(cut, hi)
    decreases hi - lo
  {
    hide IsCut, Offset;
    if lo == hi {
    } else {
      StartsGrow(cut, lo, lo + 1);
      StartsGrow(cut, lo + 1, hi);
      SelectRange(cut, seen, lo + 1, hi);
      var all, rest := Select(cut, seen, lo, hi), Select(cut, seen, lo + 1, hi);
      assert lo in seen ==> all[0] == cut[lo] && forall k | 0 < k <= |rest| :: all[k] == rest[k-1];
      assert lo !in seen ==> all == rest;
    }
  }

  /** Its bytes fall short of the range exactly when an index is missing. */
  lemma {:induction false} SelectTotal(cut: seq<Fragment>, seen: set<nat>, lo: nat, hi: nat)
    requires IsCut(cut) && lo <= hi <= |cut|
    ensures TotalPayload(Select(cut, seen, lo, hi)) <= StartOf(cut, hi) - StartOf(cut, lo)
    ensures TotalPayload(Select(cut, seen, lo, hi)) == StartOf(cut, hi) - StartOf(cut, lo) <==>
      forall i | lo <= i < hi :: i in seen
    decreases hi - lo
  {
    hide IsCut, StartOf, PayloadLen, Select;
    if lo == hi {
      assert Select(cut, seen, lo, hi) == [] by { SelectUnfold(cut, seen, lo, hi); }
    } else {
      NextStart(cut, lo);
      SelectTotal(cut, seen, lo + 1, hi);
      SelectUnfold(cut, seen, lo, hi);
    }
  }

  lemma SelectUnfold(cut: seq<Fragment>, seen: set<nat>, lo: nat, hi: nat)
    requires lo <= hi <= |cut|
    ensures lo == hi ==> Select(cut, seen, lo, hi) == []
    ensures lo < hi ==>
      TotalPayload(Select(cut, seen, lo, hi))
        == (if lo in seen then PayloadLen(cut[lo]) as int else 0) + TotalPayload(Select(cut, seen, lo + 1, hi))
  {
    if lo < hi {
      var rest := Select(cut, seen, lo + 1, hi);
      assert lo in seen ==> ([cut[lo]] + rest)[1..] == rest;
      assert [] + rest == rest;
    }
  }

  lemma {:induction false} SelectAll(cut: seq<Fragment>, seen: set<nat>, lo: nat)
    requires lo <= |cut| && Covers(seen, |cut|)
    ensures Select(cut, seen, lo, |cut|) == cut[lo..]
    decreases |cut| - lo
  {
    if lo == |cut| {
    } else {
      SelectAll(cut, seen, lo + 1);
      assert cut[lo..] == [cut[lo]] + cut[lo+1..];
    }
  }

  lemma {:induction false} FirstNotBelowSplit(a: seq<Fragment>, b: seq<Fragment>, offset: nat)
    requires forall k | 0 <= k < |a| :: Offset(a[k]) < offset
    requires b != [] ==> offset <= Offset(b[0])
    ensures FirstNotBelow(a + b, offset) == |a|
  {
    if a == [] {
      assert a + b == b;
    } else {
      assert (a + b)[1..] == a[1..] + b;
      FirstNotBelowSplit(a[1..], b, offset);
    }
  }

  /** What is stored while indices are missing. */
  ghost predicate Partial(r: Reassembly, cut: seq<Fragment>, seen: set<nat>)
    requires cut != []
  {
    && !r.drop && !r.complete
    && r.fragments == Select(cut, seen, 0, |cut|)
    && r.currentSize == TotalPayload(r.fragments)
    && r.finalSize == if |cut| - 1 in seen then TotalPayload(cut) else 0
  }

  /** The datagram, under the first fragment's header with the length of the whole. */
  ghost predicate Restored(r: Reassembly, cut: seq<Fragment>)
    requires cut != []
  {
    && r.complete && !r.drop
    && r.packetData == Some(SetPacketLen(Header(cut[0]), HeaderLen(cut[0]) + TotalPayload(cut)) + JoinedPayload(cut))
  }

  /** The fragment with index `i` splits what is stored into what comes before and after it. */
  lemma SplitAt(cut: seq<Fragment>, seen: set<nat>, i: nat) returns (a: seq<Fragment>, b: seq<Fragment>)
    requires IsCut(cut) && i < |cut|
    ensures Select(cut, seen, 0, |cut|) == a + (if i in seen then [cut[i]] else []) + b
    ensures FirstNotBelow(Select(cut, seen, 0, |cut|), Offset(cut[i])) == |a|
    ensures b != [] ==> Offset(cut[i]) < Offset(b[0])
    ensures Select(cut, seen + {i}, 0, |cut|) == a + [cut[i]] + b
  {
    hide Offset, PayloadLen, IsLastFragment;
    a, b := Select(cut, seen, 0, i), Select(cut, seen, i + 1, |cut|);
    SelectSplit(cut, seen, 0, i, |cut|);
    SelectSplit(cut, seen + {i}, 0, i, |cut|);
    SelectIgnores(cut, seen, i, 0, i);
    SelectIgnores(cut, seen, i, i + 1, |cut|);
    SelectRange(cut, seen, 0, i);
    SelectRange(cut, seen, i + 1, |cut|);
    NextStart(cut, i);
    FirstNotBelowSplit(a, (if i in seen then [cut[i]] else []) + b, Offset(cut[i]));
    assert a + ((if i in seen then [cut[i]] else []) + b) == a + (if i in seen then [cut[i]] else []) + b;
  }

  /** A fragment whose offset was seen changes nothing. */
  lemma RepeatIgnored(r: Reassembly, cut: seq<Fragment>, seen: set<nat>, i: nat, f: Fragment, now: int)
    requires IsCut(cut) && Partial(r, cut, seen) && i < |cut| && i in seen && Offset(f) == Offset(cut[i])
    ensures AddFragment(r, f, now) == r
  {
    hide Select, IsCut, Offset, ForwardAll, TotalPayload;
    var a, b := SplitAt(cut, seen, i);
    assert (a + [cut[i]] + b)[|a|] == cut[i];
  }

  lemma NewFragmentStored(r: Reassembly, cut: seq<Fragment>, seen: set<nat>, i: nat)
    requires IsCut(cut) && Partial(r, cut, seen) && i < |cut| && i !in seen
    ensures var k := FirstNotBelow(r.fragments, Offset(cut[i]));
      && (k < |r.fragments| ==> Offset(r.fragments[k]) != Offset(cut[i]))
      && Insert(r.fragments, cut[i], k) == Select(cut, seen + {i}, 0, |cut|)
  {
    hide Select, IsCut, Offset, FirstNotBelow, TotalPayload;
    var a, b := SplitAt(cut, seen, i);
    assert a + [] + b == a + b;
    assert (a + b)[..|a|] == a && (a + b)[|a|..] == b;
  }

  lemma NewFragmentAdded(r: Reassembly, cut: seq<Fragment>, seen: set<nat>, i: nat, now: int)
    requires IsCut(cut) && Partial(r, cut, seen) && i < |cut| && i !in seen
    ensures var n := AddFragment(r, cut[i], now);
      if Covers(seen + {i}, |cut|) then Restored(n, cut) else Partial(n, cut, seen + {i})
  {
    hide Select, Insert, FirstNotBelow, ForwardAll, ContiguousFrom, Offset, PayloadLen, IsLastFragment, JoinedPayload;
    NewFragmentStored(r, cut, seen, i);
    InsertTotal(r.fragments, cut[i], FirstNotBelow(r.fragments, Offset(cut[i])));
    SelectTotal(cut, seen + {i}, 0, |cut|);
    NextStart(cut, |cut| - 1);
    NextStart(cut, i);
    assert IsLastFragment(cut[i]) <==> i == |cut| - 1;
    if Covers(seen + {i}, |cut|) {
      SelectAll(cut, seen + {i}, 0);
      CutIsJoined(cut);
    }
  }

  lemma CutIsJoined(cut: seq<Fragment>)
    requires IsCut(cut)
    ensures var pass := ForwardAll(FORWARD_START, cut);
      && !pass.drop
      && pass.packet == Some(SetPacketLen(Header(cut[0]), HeaderLen(cut[0]) + TotalPayload(cut)) + JoinedPayload(cut))
  {
    hide PayloadLen, Payload, Header;
    FirstIsRebuilt(cut[0]);
    ForwardJoins(ForwardAdd(FORWARD_START, cut[0]), cut[0], Payload(cut[0]), cut[1..]);
  }

  /** Arrivals that deliver the cut: each has the offset of its index, and the first one at an
      offset is the fragment itself. */
  ghost predicate Delivers(arrivals: seq<(Fragment, int)>, indices: seq<nat>, cut: seq<Fragment>, seen: set<nat>) {
    && |arrivals| == |indices|
    && (forall k | 0 <= k < |indices| :: indices[k] < |cut| && Offset(arrivals[k].0) == Offset(cut[indices[k]]))
    && (forall k | 0 <= k < |indices| ::
          arrivals[k].0 == cut[indices[k]] || indices[k] in seen || indices[k] in indices[..k])
  }

  ghost function SeenAfter(indices: seq<nat>, seen: set<nat>): set<nat> { seen + set i | i in indices }

  /** The first arrival, and what is then left to deliver. */
  lemma FirstArrival(r: Reassembly, cut: seq<Fragment>, seen: set<nat>, arrivals: seq<(Fragment, int)>, indices: seq<nat>)
    requires IsCut(cut) && Partial(r, cut, seen) && !Covers(seen, |cut|)
    requires Delivers(arrivals, indices, cut, seen) && arrivals != []
    ensures var n := AddFragment(r, arrivals[0].0, arrivals[0].1);
      if Covers(seen + {indices[0]}, |cut|) then Restored(n, cut) else Partial(n, cut, seen + {indices[0]})
    ensures var n := AddFragment(r, arrivals[0].0, arrivals[0].1);
      !n.drop && (n.complete <==> Covers(seen + {indices[0]}, |cut|))
    ensures Delivers(arrivals[1..], indices[1..], cut, seen + {indices[0]})
    ensures SeenAfter(indices, seen) == SeenAfter(indices[1..], seen + {indices[0]})
  {
    hide AddFragment, IsCut, Select, TotalPayload, JoinedPayload, Offset;
    var i := indices[0];
    assert indices == [i] + indices[1..];
    if i in seen {
      RepeatIgnored(r, cut, seen, i, arrivals[0].0, arrivals[0].1);
      assert seen + {i} == seen;
    } else {
      NewFragmentAdded(r, cut, seen, i, arrivals[0].1);
    }
    forall k | 0 <= k < |indices| - 1
      ensures arrivals[k+1].0 == cut[indices[k+1]] || indices[k+1] in seen + {i} || indices[k+1] in indices[1..][..k]
    {
      assert indices[..k+1] == [i] + indices[1..][..k];
    }
  }

  /** Reassembly does not depend on the order of arrival. Until every index was seen nothing is
      dropped and nothing is complete; the arrival that brings the last one completes the datagram. */
  lemma {:induction false} AnyOrderReassembles(r: Reassembly, cut: seq<Fragment>, seen: set<nat>,
                                               arrivals: seq<(Fragment, int)>, indices: seq<nat>)
    requires IsCut(cut) && Partial(r, cut, seen) && !Covers(seen, |cut|)
    requires Delivers(arrivals, indices, cut, seen)
    ensures var n := Feed(r, arrivals);
      if Covers(SeenAfter(indices, seen), |cut|) then Restored(n, cut) else Partial(n, cut, SeenAfter(indices, seen))
    decreases |arrivals|
  {
    hide AddFragment, IsCut, Restored, Select, TotalPayload;
    if arrivals == [] {
      assert SeenAfter(indices, seen) == seen;
    } else {
      FirstArrival(r, cut, seen, arrivals, indices);
      if Covers(seen + {indices[0]}, |cut|) {
        assert Covers(SeenAfter(indices, seen), |cut|);
      } else {
        AnyOrderReassembles(AddFragment(r, arrivals[0].0, arrivals[0].1), cut, seen + {indices[0]},
                            arrivals[1..], indices[1..]);
      }
    }
  }

  ghost predicate AllIn(indices: seq<nat>, n: nat) { forall i | 0 <= i < n :: i in indices }

  /** The same from the start: complete exactly when every fragment of the cut has arrived. */
  lemma ReassemblyIsOrderIndependent(cut: seq<Fragment>, arrivals: seq<(Fragment, int)>, indices: seq<nat>)
    requires IsCut(cut) && Delivers(arrivals, indices, cut, {})
    ensures var n := Feed(EMPTY, arrivals);
      && !n.drop
      && (n.complete <==> AllIn(indices, |cut|))
      && (n.complete ==> Restored(n, cut))
  {
    var r, none := NothingSeen(cut);
    assert 0 !in none;
    AnyOrderReassembles(r, cut, none, arrivals, indices);
    AllSeen(indices, none, |cut|);
  }

  lemma NothingSeen(cut: seq<Fragment>) returns (r: Reassembly, none: set<nat>)
    requires IsCut(cut)
    ensures r == EMPTY && none == {} && Partial(r, cut, none)
  {
    r, none := EMPTY, {};
    SelectNothing(cut, 0);
  }

  lemma AllSeen(indices: seq<nat>, none: set<nat>, n: nat)
    requires none == {}
    ensures Covers(SeenAfter(indices, none), n) <==> AllIn(indices, n)
  {
    assert forall i :: i in SeenAfter(indices, none) <==> i in indices;
  }

  lemma {:induction false} SelectNothing(cut: seq<Fragment>, lo: nat)
    requires lo <= |cut|
    ensures Select(cut, {}, lo, |cut|) == []
    decreases |cut| - lo
  {
    if lo == |cut| {
    } else {
      SelectNothing(cut, lo + 1);
    }
  }
}
