/** Reassembly told in bytes: a payload cut at multiples of eight, each piece behind a header written
    out as RFC 791, section 3.1, lays it down. */
module IpWire {
  import opened Common
  import opened IpPackets
  import Ip = IpFragmentation
  import Tb = IpFragmentTable

  /** A header as it comes, length and fragment fields still open: its low nibble counts its words. */
  predicate IsHeader(h: seq<Byte>) { 20 <= |h| <= 60 && |h| % 4 == 0 && h[0] % 16 == |h| / 4 }

  /** The piece of the payload from `start` to `end`: total length in bytes 2 and 3, the position in units
      of eight in bytes 6 and 7, with the more-fragments bit unless it is the last piece. */
  function Wire(h: seq<Byte>, payload: seq<Byte>, start: nat, end: nat): (b: seq<Byte>)
    requires IsHeader(h) && start < end <= |payload| && |h| + |payload| <= 65535
  {
    var len, position := |h| + end - start, start / 8;
    h[..2] + [len / 256, len % 256] + h[4..6]
    + [position / 256 + (if end < |payload| then 32 else 0), position % 256] + h[8..] + payload[start..end]
  }

  /** The whole datagram: the first header with the whole length. Its fragment bytes stay as they were. */
  function Whole(h: seq<Byte>, payload: seq<Byte>, more: bool): (b: seq<Byte>)
    requires IsHeader(h) && |h| + |payload| <= 65535
  {
    var len := |h| + |payload|;
    h[..2] + [len / 256, len % 256] + h[4..6] + [if more then 32 else 0, 0] + h[8..] + payload
  }

  /** Where the payload is cut: from 0 to its end, at multiples of eight in between. */
  predicate AreCuts(cuts: seq<nat>, size: nat) {
    && |cuts| >= 2 && cuts[0] == 0 && cuts[|cuts|-1] == size
    && (forall i | 0 <= i < |cuts| - 1 :: cuts[i] < cuts[i+1] && cuts[i] % 8 == 0)
  }

  predicate AreHeaders(headers: seq<seq<Byte>>, n: nat, size: nat) {
    |headers| == n && forall i | 0 <= i < n :: IsHeader(headers[i]) && |headers[i]| + size <= 65535
  }

  lemma {:induction false} CutsInside(cuts: seq<nat>, size: nat, i: nat, j: nat)
    requires AreCuts(cuts, size) && i <= j < |cuts|
    ensures cuts[i] <= cuts[j] <= size
    decreases |cuts| - i
  {
    if i < j {
      CutsInside(cuts, size, i + 1, j);
    } else if j < |cuts| - 1 {
      CutsInside(cuts, size, j + 1, |cuts| - 1);
    }
  }

  // ---------------------------------------------------------------------------------------------
  // What the accessors read

  lemma WireHeader(h: seq<Byte>, payload: seq<Byte>, start: nat, end: nat)
    requires IsHeader(h) && start < end <= |payload| && |h| + |payload| <= 65535
    ensures var b, len, position := Wire(h, payload, start, end), |h| + end - start, start / 8;
      && |b| == len && b[0] == h[0] && b[2] == len / 256 && b[3] == len % 256 && b[4] == h[4] && b[5] == h[5]
      && b[6] == position / 256 + (if end < |payload| then 32 else 0) && b[7] == position % 256
      && b[|h|..] == payload[start..end]
      && b[..|h|] == h[..2] + [b[2], b[3]] + h[4..6] + [b[6], b[7]] + h[8..]
  {}

  lemma TwoByteNumber(n: nat)
    requires n < 65536
    ensures n / 256 * 256 + n % 256 == n
  {}

  lemma PositionRead(position: nat, more: bool)
    requires position < 8192
    ensures var w := (position / 256 + (if more then 32 else 0)) * 256 + position % 256;
      w % 8192 == position && w / 8192 == if more then 1 else 0
  {
    TwoByteNumber(position);
  }

  lemma WireReads(h: seq<Byte>, payload: seq<Byte>, start: nat, end: nat)
    requires IsHeader(h) && start < end <= |payload| && |h| + |payload| <= 65535 && start % 8 == 0
    ensures var b := Wire(h, payload, start, end);
      && |b| >= 20 && HeaderLen(b) == |h| && PacketLen(b) == |b| && Offset(b) == start
      && (IsLastFragment(b) <==> end == |payload|)
      && PacketId(b) == 256 * h[4] as int + h[5] as int
      && Payload(b) == payload[start..end] && PayloadLen(b) == end - start
  {
    hide Wire;
    WireHeader(h, payload, start, end);
    var b, len := Wire(h, payload, start, end), |h| + end - start;
    TwoByteNumber(len);
    PositionRead(start / 8, end < |payload|);
  }

  /** The pieces of a payload. */
  ghost function Pieces(headers: seq<seq<Byte>>, payload: seq<Byte>, cuts: seq<nat>): (r: seq<Fragment>)
    requires AreCuts(cuts, |payload|) && AreHeaders(headers, |cuts| - 1, |payload|)
    ensures |r| == |cuts| - 1
    ensures forall i | 0 <= i < |r| :: r[i] == Piece(headers, payload, cuts, i)
  {
    seq(|cuts| - 1, i requires 0 <= i < |cuts| - 1 => Piece(headers, payload, cuts, i))
  }

  ghost function Piece(headers: seq<seq<Byte>>, payload: seq<Byte>, cuts: seq<nat>, i: nat): (f: Fragment)
    requires AreCuts(cuts, |payload|) && AreHeaders(headers, |cuts| - 1, |payload|) && i < |cuts| - 1
    ensures cuts[i] < cuts[i+1] <= |payload| && f == Wire(headers[i], payload, cuts[i], cuts[i+1])
  {
    CutsInside(cuts, |payload|, i + 1, i + 1);
    WireReads(headers[i], payload, cuts[i], cuts[i+1]);
    Wire(headers[i], payload, cuts[i], cuts[i+1])
  }

  lemma PieceReads(headers: seq<seq<Byte>>, payload: seq<Byte>, cuts: seq<nat>, i: nat)
    requires AreCuts(cuts, |payload|) && AreHeaders(headers, |cuts| - 1, |payload|) && i < |cuts| - 1
    ensures var f := Pieces(headers, payload, cuts)[i];
      && cuts[i] < cuts[i+1] <= |payload|
      && Offset(f) == cuts[i] && PayloadLen(f) == cuts[i+1] - cuts[i] && Payload(f) == payload[cuts[i]..cuts[i+1]]
      && (IsLastFragment(f) <==> i == |cuts| - 2) && HeaderLen(f) == |headers[i]|
      && PacketId(f) == 256 * headers[i][4] as int + headers[i][5] as int
  {
    hide Wire, Offset, PayloadLen, Payload, IsLastFragment, HeaderLen, PacketId, PacketLen;
    CutsInside(cuts, |payload|, i + 1, i + 1);
    WireReads(headers[i], payload, cuts[i], cuts[i+1]);
    if i < |cuts| - 2 {
      CutsInside(cuts, |payload|, i + 2, |cuts| - 1);
      assert cuts[i+1] < cuts[i+2];
    }
  }

  /** From piece `i` on they follow one another and join to the rest of the payload. */
  lemma {:induction false} PiecesFollow(headers: seq<seq<Byte>>, payload: seq<Byte>, cuts: seq<nat>, i: nat)
    requires AreCuts(cuts, |payload|) && AreHeaders(headers, |cuts| - 1, |payload|) && i < |cuts|
    ensures cuts[i] <= |payload|
    ensures var rest := Pieces(headers, payload, cuts)[i..];
      Ip.ContiguousFrom(rest, cuts[i]) && Ip.JoinedPayload(rest) == payload[cuts[i]..]
    decreases |cuts| - i
  {
    hide Wire, Offset, PayloadLen, Payload, Pieces, AreHeaders;
    CutsInside(cuts, |payload|, i, |cuts| - 1);
    var pieces := Pieces(headers, payload, cuts);
    if i < |cuts| - 1 {
      PieceReads(headers, payload, cuts, i);
      PiecesFollow(headers, payload, cuts, i + 1);
      assert pieces[i..][0] == pieces[i] && pieces[i..][1..] == pieces[i+1..];
      assert payload[cuts[i]..] == payload[cuts[i]..cuts[i+1]] + payload[cuts[i+1]..];
    }
  }

  lemma PiecesAreCut(headers: seq<seq<Byte>>, payload: seq<Byte>, cuts: seq<nat>)
    requires AreCuts(cuts, |payload|) && AreHeaders(headers, |cuts| - 1, |payload|)
    ensures var pieces := Pieces(headers, payload, cuts);
      Ip.IsCut(pieces) && Ip.JoinedPayload(pieces) == payload && Ip.TotalPayload(pieces) == |payload|
  {
    hide Wire, Offset, PayloadLen, Payload, Pieces, IsLastFragment, HeaderLen;
    var pieces := Pieces(headers, payload, cuts);
    PiecesFollow(headers, payload, cuts, 0);
    assert pieces[0..] == pieces && payload[0..] == payload;
    forall i | 0 <= i < |pieces|
      ensures PayloadLen(pieces[i]) > 0 && (IsLastFragment(pieces[i]) <==> i == |pieces| - 1)
      ensures HeaderLen(pieces[i]) == |headers[i]|
    {
      PieceReads(headers, payload, cuts, i);
    }
    assert |Ip.JoinedPayload(pieces)| == Ip.TotalPayload(pieces);
  }

  /** What the pass makes of the first piece's header. */
  lemma WholeIsRestored(headers: seq<seq<Byte>>, payload: seq<Byte>, cuts: seq<nat>)
    requires AreCuts(cuts, |payload|) && AreHeaders(headers, |cuts| - 1, |payload|)
    ensures var pieces, h := Pieces(headers, payload, cuts), headers[0];
      SetPacketLen(Header(pieces[0]), HeaderLen(pieces[0]) + |payload|) + payload == Whole(h, payload, |cuts| > 2)
  {
    var first, h := Pieces(headers, payload, cuts)[0], headers[0];
    PieceReads(headers, payload, cuts, 0);
    WireHeader(h, payload, 0, cuts[1]);
    hide Wire, Pieces;
    if |cuts| > 2 {
      CutsInside(cuts, |payload|, 2, |cuts| - 1);
    }
    hide HeaderLen, AreCuts, AreHeaders;
    var fragmentBytes := [if |cuts| > 2 then 32 else 0, 0];
    assert [first[6], first[7]] == fragmentBytes;
    assert Header(first) == h[..2] + [first[2], first[3]] + (h[4..6] + fragmentBytes + h[8..]) by {
      Grouped(h[..2], [first[2], first[3]], h[4..6], fragmentBytes, h[8..]);
    }
    LengthReplaced(Header(first), h[..2], first[2], first[3], h[4..6] + fragmentBytes + h[8..], |h| + |payload|);
    Grouped(h[..2], [(|h| + |payload|) / 256, (|h| + |payload|) % 256], h[4..6], fragmentBytes, h[8..]);
  }

  lemma Grouped(a: seq<Byte>, b: seq<Byte>, c: seq<Byte>, d: seq<Byte>, e: seq<Byte>)
    ensures a + b + c + d + e == a + b + (c + d + e)
  {}

  lemma LengthReplaced(header: Packet, front: seq<Byte>, x: Byte, y: Byte, back: seq<Byte>, len: nat)
    requires |front| == 2 && header == front + [x, y] + back && len < 65536
    ensures SetPacketLen(header, len) == front + [len / 256, len % 256] + back
  {}

  ghost function Restored(pieces: seq<Fragment>): (p: Packet)
    requires pieces != []
  {
    SetPacketLen(Header(pieces[0]), HeaderLen(pieces[0]) + Ip.TotalPayload(pieces)) + Ip.JoinedPayload(pieces)
  }

  lemma PiecesRestored(headers: seq<seq<Byte>>, payload: seq<Byte>, cuts: seq<nat>)
    requires AreCuts(cuts, |payload|) && AreHeaders(headers, |cuts| - 1, |payload|)
    ensures Restored(Pieces(headers, payload, cuts)) == Whole(headers[0], payload, |cuts| > 2)
  {
    hide Wire, Whole, Pieces, AreCuts, AreHeaders, Ip.IsCut, Offset, HeaderLen, PayloadLen, Header, SetPacketLen;
    PiecesAreCut(headers, payload, cuts);
    WholeIsRestored(headers, payload, cuts);
  }

  lemma DatagramSurvives(t: Tb.Table, id: nat, pieces: seq<Fragment>, arrivals: seq<(Fragment, int)>, indices: seq<nat>)
    requires Ip.IsCut(pieces) && id !in t.entries && Tb.Kept(t, arrivals, id)
    requires Ip.Delivers(Tb.Only(arrivals, id), indices, pieces, {}) && indices != []
    requires Ip.AllIn(indices, |pieces|) && !Ip.AllIn(indices[..|indices|-1], |pieces|)
    ensures Tb.OnlyPackets(Tb.Run(t, arrivals).1, id) == [Restored(pieces)]
  {
    hide Tb.Run, Tb.OnlyPackets, Tb.Only, Tb.Kept, Ip.IsCut, Ip.Delivers, Ip.AllIn, Ip.JoinedPayload, Ip.TotalPayload, SetPacketLen, Header, HeaderLen;
    Tb.DatagramSurvivesTraffic(t, id, pieces, arrivals, indices);
  }

  // ---------------------------------------------------------------------------------------------
  // The payload comes back

  /** `arrivals` bring the pieces in the order of `indices`, repeats and all. */
  ghost predicate Brings(arrivals: seq<(Fragment, int)>, indices: seq<nat>, headers: seq<seq<Byte>>, payload: seq<Byte>, cuts: seq<nat>)
    requires AreCuts(cuts, |payload|) && AreHeaders(headers, |cuts| - 1, |payload|)
  {
    && |arrivals| == |indices|
    && forall k | 0 <= k < |indices| ::
         indices[k] < |cuts| - 1 && arrivals[k].0 == Pieces(headers, payload, cuts)[indices[k]]
  }

  lemma BringsDelivers(arrivals: seq<(Fragment, int)>, indices: seq<nat>, headers: seq<seq<Byte>>, payload: seq<Byte>, cuts: seq<nat>)
    requires AreCuts(cuts, |payload|) && AreHeaders(headers, |cuts| - 1, |payload|)
    requires Brings(arrivals, indices, headers, payload, cuts)
    ensures Ip.Delivers(arrivals, indices, Pieces(headers, payload, cuts), {})
  {
    hide Wire, Offset, Pieces, AreHeaders, AreCuts;
  }

  /** Pieces of a payload of at most 65535 bytes with its header, in any order, with any repeats: nothing
      is dropped, the datagram is complete exactly when every piece has come, and it is then the payload
      under the first header. */
  lemma PayloadComesBack(headers: seq<seq<Byte>>, payload: seq<Byte>, cuts: seq<nat>,
                         arrivals: seq<(Fragment, int)>, indices: seq<nat>)
    requires AreCuts(cuts, |payload|) && AreHeaders(headers, |cuts| - 1, |payload|)
    requires Brings(arrivals, indices, headers, payload, cuts)
    ensures var n := Ip.Feed(Ip.EMPTY, arrivals);
      && !n.drop
      && (n.complete <==> forall i | 0 <= i < |cuts| - 1 :: i in indices)
      && (n.complete ==> n.packetData == Some(Whole(headers[0], payload, |cuts| > 2)))
  {
    hide Wire, Whole, Pieces, AreCuts, AreHeaders, Ip.Feed, Ip.IsCut, Ip.Delivers, Brings, Offset, HeaderLen, PayloadLen;
    PiecesAreCut(headers, payload, cuts);
    BringsDelivers(arrivals, indices, headers, payload, cuts);
    Ip.ReassemblyIsOrderIndependent(Pieces(headers, payload, cuts), arrivals, indices);
    WholeIsRestored(headers, payload, cuts);
  }

  /** Arrivals whose bytes 4 and 5 are these. */
  function OfBytes(arrivals: seq<(Fragment, int)>, high: Byte, low: Byte): (r: seq<(Fragment, int)>) {
    if arrivals == [] then []
    else (if arrivals[0].0[4] == high && arrivals[0].0[5] == low then [arrivals[0]] else []) + OfBytes(arrivals[1..], high, low)
  }

  lemma {:induction false} OfBytesIsOnly(arrivals: seq<(Fragment, int)>, high: Byte, low: Byte)
    ensures OfBytes(arrivals, high, low) == Tb.Only(arrivals, 256 * high as int + low as int)
  {
    if arrivals == [] {
    } else {
      OfBytesIsOnly(arrivals[1..], high, low);
    }
  }

  lemma PiecesSurvive(t: Tb.Table, id: nat, headers: seq<seq<Byte>>, payload: seq<Byte>, cuts: seq<nat>,
                      arrivals: seq<(Fragment, int)>, indices: seq<nat>)
    requires AreCuts(cuts, |payload|) && AreHeaders(headers, |cuts| - 1, |payload|)
    requires id !in t.entries && Tb.Kept(t, arrivals, id) && Brings(Tb.Only(arrivals, id), indices, headers, payload, cuts)
    requires indices != [] && Ip.AllIn(indices, |cuts| - 1) && !Ip.AllIn(indices[..|indices|-1], |cuts| - 1)
    ensures Tb.OnlyPackets(Tb.Run(t, arrivals).1, id) == [Whole(headers[0], payload, |cuts| > 2)]
  {
    PiecesAreCut(headers, payload, cuts);
    BringsDelivers(Tb.Only(arrivals, id), indices, headers, payload, cuts);
    PiecesRestored(headers, payload, cuts);
    hide *;
    DatagramSurvives(t, id, Pieces(headers, payload, cuts), arrivals, indices);
  }

  /** Among any other traffic, with purges that spare it, the same datagram comes out of the table, once, with
      its last missing piece. `high` and `low` are the bytes of its id. */
  lemma PayloadSurvivesTraffic(t: Tb.Table, high: Byte, low: Byte, headers: seq<seq<Byte>>, payload: seq<Byte>,
                               cuts: seq<nat>, arrivals: seq<(Fragment, int)>, indices: seq<nat>)
    requires AreCuts(cuts, |payload|) && AreHeaders(headers, |cuts| - 1, |payload|)
    requires var id := 256 * high as int + low as int;
      id !in t.entries && Tb.Kept(t, arrivals, id) && Brings(OfBytes(arrivals, high, low), indices, headers, payload, cuts)
    requires indices != [] && Ip.AllIn(indices, |cuts| - 1) && !Ip.AllIn(indices[..|indices|-1], |cuts| - 1)
    ensures Tb.OnlyPackets(Tb.Run(t, arrivals).1, 256 * high as int + low as int) == [Whole(headers[0], payload, |cuts| > 2)]
  {
    hide *;
    OfBytesIsOnly(arrivals, high, low);
    PiecesSurvive(t, 256 * high as int + low as int, headers, payload, cuts, arrivals, indices);
  }
}
