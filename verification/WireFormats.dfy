/**
  The two binary framings of kernel messages on a websocket: the legacy one
  (32-bit offsets in network order) and protocol v1 (64-bit little-endian).
 */
module WireFormats {
  import opened Common
  import Utf8

  datatype WireError = Overflow | StructError | IndexError | UnicodeError

  function Pow256(k: nat): (p: nat)
    ensures p > 0
  {
    if k == 0 then 1 else 256 * Pow256(k - 1)
  }

  function ToLittle(n: nat, k: nat): (b: Bytes)
    ensures |b| == k
  {
    if k == 0 then [] else [(n % 256) as byte] + ToLittle(n / 256, k - 1)
  }

  function FromLittle(b: Bytes): nat {
    if b == [] then 0 else b[0] as nat + 256 * FromLittle(b[1..])
  }

  function ToBig(n: nat, k: nat): (b: Bytes)
    ensures |b| == k
  {
    if k == 0 then [] else ToBig(n / 256, k - 1) + [(n % 256) as byte]
  }

  function FromBig(b: Bytes): nat {
    if b == [] then 0 else 256 * FromBig(b[..|b| - 1]) + b[|b| - 1] as nat
  }

  /** Reads a big-endian two's complement number. */
  function FromBigSigned(b: Bytes): int {
    if b != [] && b[0] >= 128 then FromBig(b) - Pow256(|b|) else FromBig(b)
  }

  lemma {:induction false} LittleRoundTrip(n: nat, k: nat)
    requires n < Pow256(k)
    ensures FromLittle(ToLittle(n, k)) == n
  {
    if k > 0 {
      LittleRoundTrip(n / 256, k - 1);
    }
  }

  lemma {:induction false} BigRoundTrip(n: nat, k: nat)
    requires n < Pow256(k)
    ensures FromBig(ToBig(n, k)) == n
  {
    if k > 0 {
      BigRoundTrip(n / 256, k - 1);
      assert ToBig(n, k)[..k - 1] == ToBig(n / 256, k - 1);
    }
  }

  /** The `i`-th digit of a number to base 256. */
  function Digit(n: nat, i: nat): nat {
    n / Pow256(i) % 256
  }

  /** Byte `i` holds the `i`-th digit to base 256, the lowest first. */
  lemma {:induction false} LittleBytes(n: nat, k: nat, i: nat)
    requires i < k
    ensures ToLittle(n, k)[i] as int == Digit(n, i)
    decreases k
  {
    if i > 0 {
      LittleBytes(n / 256, k - 1, i - 1);
      DivideByProduct(n, Pow256(i - 1));
    }
  }

  /** Byte `i` holds the `i`-th digit to base 256, the highest first. */
  lemma {:induction false} BigBytes(n: nat, k: nat, i: nat)
    requires i < k
    ensures ToBig(n, k)[i] as int == Digit(n, k - 1 - i)
    decreases k
  {
    if i < k - 1 {
      BigBytes(n / 256, k - 1, i);
      DivideByProduct(n, Pow256(k - 2 - i));
    }
  }

  lemma DivideByProduct(n: nat, m: nat)
    requires m > 0
    ensures n / 256 / m == n / (256 * m)
  {
    var q, r := n / (256 * m), n % (256 * m);
    assert n == 256 * (m * q) + r;
    assert n / 256 == m * q + r / 256 && 0 <= r / 256 < m;
    DivideUnique(n / 256, m, q, r / 256);
  }

  lemma DivideUnique(x: nat, m: nat, q: nat, r: nat)
    requires x == m * q + r && r < m
    ensures x / m == q
  {
    var p, t := x / m, x % m;
    assert x == m * p + t;
    hide *;
    if p < q {
      NextMultiple(m, p, q);
    } else if q < p {
      NextMultiple(m, q, p);
    }
  }

  lemma NextMultiple(m: nat, p: nat, q: nat)
    requires p < q
    ensures m * p + m <= m * q
    decreases q - p
  {
    assert m * (p + 1) == m * p + m;
    if p + 1 < q {
      NextMultiple(m, p + 1, q);
    }
  }

  /** Any bytes are what their number is written as. */
  lemma {:induction false} LittleUnread(b: Bytes)
    ensures ToLittle(FromLittle(b), |b|) == b && FromLittle(b) < Pow256(|b|)
  {
    if b != [] {
      LittleUnread(b[1..]);
    }
  }

  lemma {:induction false} BigUnread(b: Bytes)
    ensures ToBig(FromBig(b), |b|) == b && FromBig(b) < Pow256(|b|)
  {
    if b != [] {
      BigUnread(b[..|b| - 1]);
    }
  }

  /** Reading with a sign: the same modulo the range, and in its lower half below zero. */
  lemma SignedIs(b: Bytes)
    requires b != []
    ensures 0 <= 2 * FromBigSigned(b) + Pow256(|b|) < 2 * Pow256(|b|)
    ensures FromBigSigned(b) == FromBig(b) || FromBigSigned(b) == FromBig(b) - Pow256(|b|)
  {
    BigUnread(b);
    BigSignBit(FromBig(b), |b|);
  }

  /** The bit that a signed reader takes for the sign is set from half the range on. */
  lemma {:induction false} BigSignBit(n: nat, k: nat)
    requires k > 0 && n < Pow256(k)
    ensures ToBig(n, k)[0] >= 128 <==> 2 * n >= Pow256(k)
  {
    if k > 1 {
      BigSignBit(n / 256, k - 1);
      var half := Pow256(k - 1);
      assert half == 256 * Pow256(k - 2) && Pow256(k) == 256 * half;
      assert ToBig(n, k)[0] == ToBig(n / 256, k - 1)[0];
      hide *;
      EvenHalf(n, half);
    }
  }

  /** The last digit does not matter to whether a number is in the upper half. */
  lemma EvenHalf(n: nat, half: nat)
    requires half % 2 == 0
    ensures 2 * (n / 256) >= half <==> 2 * n >= 256 * half
  {
    var m := half / 2;
    assert half == 2 * m && 256 * half == 2 * (256 * m);
    assert n == 256 * (n / 256) + n % 256;
  }

  function Join(parts: seq<Bytes>): (b: Bytes)
    ensures |b| == TotalLength(parts)
  {
    if parts == [] then [] else parts[0] + Join(parts[1..])
  }

  /** `b[start:stop]` of Python for offsets that are not negative. */
  function Slice(b: Bytes, start: nat, stop: nat): Bytes {
    var hi := if stop < |b| then stop else |b|;
    if start <= hi then b[start..hi] else []
  }

  /** Where each part begins when they are laid out from `start`, and where the last one ends. */
  function Offsets(start: nat, parts: seq<Bytes>): (r: seq<nat>)
    ensures |r| == |parts| + 1 && r[0] == start
    decreases |parts|
  {
    if parts == [] then [start] else [start] + Offsets(start + |parts[0]|, parts[1..])
  }

  lemma OffsetsStep(start: nat, parts: seq<Bytes>, i: nat)
    requires i < |parts|
    ensures Offsets(start, parts)[i + 1] == Offsets(start, parts)[i] + |parts[i]|
    decreases |parts|
  {
    if i > 0 {
      OffsetsStep(start + |parts[0]|, parts[1..], i - 1);
    }
  }

  /** Offsets never decrease, and the last is the total length. */
  lemma OffsetsOrdered(start: nat, parts: seq<Bytes>)
    ensures forall i, j :: 0 <= i <= j <= |parts| ==> Offsets(start, parts)[i] <= Offsets(start, parts)[j]
    ensures Offsets(start, parts)[|parts|] == start + TotalLength(parts)
    decreases |parts|
  {
    if parts != [] {
      OffsetsOrdered(start + |parts[0]|, parts[1..]);
    }
  }

  lemma OffsetsFront(start: nat, parts: seq<Bytes>)
    requires parts != []
    ensures Offsets(start, parts) == [start] + Offsets(start + |parts[0]|, parts[1..])
  {
  }

  lemma {:induction false} OffsetsAppend(start: nat, parts: seq<Bytes>, last: Bytes)
    ensures Offsets(start, parts + [last]) == Offsets(start, parts) + [Offsets(start, parts)[|parts|] + |last|]
    decreases |parts|
  {
    if parts == [] {
      assert [] + [last] == [last] && [last][1..] == [];
    } else {
      hide Offsets;
      assert (parts + [last])[1..] == parts[1..] + [last] && (parts + [last])[0] == parts[0];
      OffsetsFront(start, parts);
      OffsetsFront(start, parts + [last]);
      OffsetsAppend(start + |parts[0]|, parts[1..], last);
      assert [start] + (Offsets(start + |parts[0]|, parts[1..]) + [Offsets(start, parts)[|parts|] + |last|]) ==
        Offsets(start, parts) + [Offsets(start, parts)[|parts|] + |last|];
    }
  }

  /** Slicing at the offsets gives the parts back. */
  lemma {:induction false} SliceAtOffsets(header: Bytes, parts: seq<Bytes>, i: nat)
    requires i < |parts|
    ensures var o := Offsets(|header|, parts);
      Slice(header + Join(parts), o[i], o[i + 1]) == parts[i]
    decreases |parts|
  {
    var all := header + Join(parts);
    assert all == header + parts[0] + Join(parts[1..]);
    if i == 0 {
      assert Offsets(|header|, parts)[1] == |header| + |parts[0]|;
    } else {
      SliceAtOffsets(header + parts[0], parts[1..], i - 1);
    }
  }

  /** Parts of equal size begin at the multiples of that size. */
  lemma {:induction false} EqualParts(start: nat, parts: seq<Bytes>, size: nat, i: nat)
    requires i <= |parts| && forall j :: 0 <= j < |parts| ==> |parts[j]| == size
    ensures Offsets(start, parts)[i] == start + size * i
    decreases |parts|
  {
    if i > 0 {
      EqualParts(start + size, parts[1..], size, i - 1);
    }
  }

  lemma SliceEqualParts(parts: seq<Bytes>, rest: Bytes, size: nat, i: nat)
    requires i < |parts| && forall j :: 0 <= j < |parts| ==> |parts[j]| == size
    ensures Slice(Join(parts) + rest, size * i, size * (i + 1)) == parts[i]
  {
    hide Offsets, Slice, Join;
    var o := Offsets(0, parts);
    SliceAtOffsets([], parts, i);
    assert [] + Join(parts) == Join(parts);
    EqualParts(0, parts, size, i);
    EqualParts(0, parts, size, i + 1);
    OffsetsOrdered(0, parts);
    assert o[i] <= o[i + 1] <= o[|parts|] == |Join(parts)|;
    SlicePrefix(Join(parts), rest, o[i], o[i + 1]);
  }

  lemma SlicePrefix(b: Bytes, rest: Bytes, start: nat, stop: nat)
    requires start <= stop <= |b|
    ensures Slice(b + rest, start, stop) == Slice(b, start, stop)
  {
  }

  lemma JoinEqualLength(parts: seq<Bytes>, size: nat)
    requires forall j :: 0 <= j < |parts| ==> |parts[j]| == size
    ensures |Join(parts)| == size * |parts|
  {
    EqualParts(0, parts, size, |parts|);
    OffsetsOrdered(0, parts);
  }

  lemma JoinAppend(p: seq<Bytes>, q: seq<Bytes>)
    ensures Join(p + q) == Join(p) + Join(q)
  {
    if p == [] {
      assert p + q == q;
    } else {
      assert (p + q)[1..] == p[1..] + q;
      JoinAppend(p[1..], q);
    }
  }

  /** Where part `k` begins when the parts are laid out from `start`. */
  function Position(start: nat, parts: seq<Bytes>, k: nat): nat
    requires k <= |parts|
  {
    start + TotalLength(parts[..k])
  }

  /** A part begins after all the parts before it. */
  lemma {:induction false} OffsetIs(start: nat, parts: seq<Bytes>, i: nat)
    requires i <= |parts|
    ensures Offsets(start, parts)[i] == Position(start, parts, i)
    decreases |parts|
  {
    if i > 0 {
      OffsetIs(start + |parts[0]|, parts[1..], i - 1);
      assert parts[..i][1..] == parts[1..][..i - 1];
    }
  }

  // ---------------------------------------------------------------------
  // Protocol v1
  // ---------------------------------------------------------------------

  const LIMIT64 := 0x1_0000_0000_0000_0000

  /** The offset table of a v1 frame: the channel, then the parts of the message. */
  function OffsetsV1(channel: Bytes, msgList: seq<Bytes>): seq<nat> {
    Offsets(8 * (1 + 1 + |msgList| + 1), [channel] + msgList)
  }

  function HeaderV1(offsets: seq<nat>): seq<Bytes> {
    [ToLittle(|offsets|, 8)] + seq(|offsets|, i requires 0 <= i < |offsets| => ToLittle(offsets[i], 8))
  }

  method SerializeV1(channel: string, msgList: seq<Bytes>) returns (r: Result<Bytes, WireError>)
    ensures var c := Utf8.Encode(channel);
      var total := 8 * (|msgList| + 3) + |c| + TotalLength(msgList);
      r == if total < LIMIT64 then Ok(Join(HeaderV1(OffsetsV1(c, msgList))) + Join([c] + msgList)) else Err(Overflow)
  {
    var c := Utf8.Encode(channel);
    var offsets := [8 * (1 + 1 + |msgList| + 1)];
    offsets := offsets + [|c| + offsets[|offsets| - 1]];
    for i := 0 to |msgList|
      invariant offsets == Offsets(8 * (|msgList| + 3), [c] + msgList[..i])
    {
      OffsetsAppend(8 * (|msgList| + 3), [c] + msgList[..i], msgList[i]);
      assert [c] + msgList[..i] + [msgList[i]] == [c] + msgList[..i + 1];
      offsets := offsets + [|msgList[i]| + offsets[|offsets| - 1]];
    }
    assert msgList[..|msgList|] == msgList;
    assert offsets == OffsetsV1(c, msgList);
    assert ([c] + msgList)[1..] == msgList && TotalLength([c] + msgList) == |c| + TotalLength(msgList);
    assert offsets == Offsets(8 * (|msgList| + 3), [c] + msgList);
    hide *;
    OffsetsOrdered(8 * (|msgList| + 3), [c] + msgList);
    var table := OffsetTable(offsets);
    if table.Err? {
      return Err(table.error);
    }
    JoinAppend(table.value, [c] + msgList);
    return Ok(Join(table.value + ([c] + msgList)));
  }

  /** The number of offsets and the offsets, eight bytes each. */
  method OffsetTable(offsets: seq<nat>) returns (r: Result<seq<Bytes>, WireError>)
    ensures r == if forall j :: 0 <= j < |offsets| ==> offsets[j] < LIMIT64 then Ok(HeaderV1(offsets))
            else Err(Overflow)
  {
    hide ToLittle;
    var table: seq<Bytes> := [ToLittle(|offsets|, 8)];
    for i := 0 to |offsets|
      invariant table == HeaderV1(offsets)[..i + 1]
      invariant forall j :: 0 <= j < i ==> offsets[j] < LIMIT64
    {
      if offsets[i] >= LIMIT64 {
        return Err(Overflow);
      }
      table := table + [ToLittle(offsets[i], 8)];
    }
    assert table == HeaderV1(offsets);
    return Ok(table);
  }

  function DeserializeV1(frame: Bytes): Result<(string, seq<Bytes>), WireError> {
    var n := FromLittle(Slice(frame, 0, 8));
    var offsets := seq(n, i requires 0 <= i < n => FromLittle(Slice(frame, 8 * (i + 1), 8 * (i + 2))));
    if n < 2 then Err(IndexError)
    else
      var channel := Utf8.Decode(Slice(frame, offsets[0], offsets[1]));
      if channel.None? then Err(UnicodeError)
      else Ok((channel.value, seq(n - 2, i requires 0 <= i < n - 2 => Slice(frame, offsets[i + 1], offsets[i + 2]))))
  }

  /** The offset table can be read back. */
  lemma ReadTableV1(offsets: seq<nat>, rest: Bytes)
    requires |offsets| < LIMIT64 && forall i :: 0 <= i < |offsets| ==> offsets[i] < LIMIT64
    ensures var frame := Join(HeaderV1(offsets)) + rest;
      FromLittle(Slice(frame, 0, 8)) == |offsets| &&
      forall i :: 0 <= i < |offsets| ==> FromLittle(Slice(frame, 8 * (i + 1), 8 * (i + 2))) == offsets[i]
  {
    assert Pow256(8) == LIMIT64;
    var table := HeaderV1(offsets);
    SliceEqualParts(table, rest, 8, 0);
    LittleRoundTrip(|offsets|, 8);
    forall i | 0 <= i < |offsets|
      ensures FromLittle(Slice(Join(table) + rest, 8 * (i + 1), 8 * (i + 2))) == offsets[i]
    {
      SliceEqualParts(table, rest, 8, i + 1);
      LittleRoundTrip(offsets[i], 8);
    }
  }

  /**
    v1 round trip: every frame that can be written is read back to the same
    channel and the same parts, empty parts and an empty list included.
   */
  lemma RoundTripV1(channel: string, msgList: seq<Bytes>)
    requires 8 * (|msgList| + 3) + |Utf8.Encode(channel)| + TotalLength(msgList) < LIMIT64
    ensures var c := Utf8.Encode(channel);
      DeserializeV1(Join(HeaderV1(OffsetsV1(c, msgList))) + Join([c] + msgList)) == Ok((channel, msgList))
  {
    Utf8.DecodeEncode(channel);
    ReadFrameV1(Utf8.Encode(channel), channel, msgList);
  }

  lemma ReadFrameV1(c: Bytes, channel: string, msgList: seq<Bytes>)
    requires 8 * (|msgList| + 3) + |c| + TotalLength(msgList) < LIMIT64 && Utf8.Decode(c) == Some(channel)
    ensures DeserializeV1(Join(HeaderV1(OffsetsV1(c, msgList))) + Join([c] + msgList)) == Ok((channel, msgList))
  {
    var parts := [c] + msgList;
    var o := OffsetsV1(c, msgList);
    var header := Join(HeaderV1(o));
    assert parts[1..] == msgList && TotalLength(parts) == |c| + TotalLength(msgList);
    assert o == Offsets(8 * (|msgList| + 3), parts);
    hide *;
    HeaderLengthV1(o);
    OffsetsOrdered(|header|, parts);
    ReadTableV1(o, Join(parts));
    SliceAtOffsets(header, parts, 0);
    forall i | 0 <= i < |msgList| ensures Slice(header + Join(parts), o[i + 1], o[i + 2]) == msgList[i] {
      SliceAtOffsets(header, parts, i + 1);
    }
    ReadV1(header + Join(parts), o, channel, msgList);
  }

  lemma HeaderLengthV1(offsets: seq<nat>)
    ensures |Join(HeaderV1(offsets))| == 8 * (|offsets| + 1)
  {
    JoinEqualLength(HeaderV1(offsets), 8);
  }

  lemma ReadV1(frame: Bytes, o: seq<nat>, channel: string, msgList: seq<Bytes>)
    requires |o| == |msgList| + 2 && FromLittle(Slice(frame, 0, 8)) == |o|
    requires forall i :: 0 <= i < |o| ==> FromLittle(Slice(frame, 8 * (i + 1), 8 * (i + 2))) == o[i]
    requires Utf8.Decode(Slice(frame, o[0], o[1])) == Some(channel)
    requires forall i :: 0 <= i < |msgList| ==> Slice(frame, o[i + 1], o[i + 2]) == msgList[i]
    ensures DeserializeV1(frame) == Ok((channel, msgList))
  {
    hide FromLittle, Slice;
    var n := |o|;
    var offsets := seq(n, i requires 0 <= i < n => FromLittle(Slice(frame, 8 * (i + 1), 8 * (i + 2))));
    assert offsets == o;
    assert seq(n - 2, i requires 0 <= i < n - 2 => Slice(frame, offsets[i + 1], offsets[i + 2])) == msgList;
  }

  /**
    A v1 frame byte by byte: eight bytes for the number of offsets, eight for
    each offset, lowest byte first, then channel and parts where the offsets say.
   */
  lemma FrameV1Layout(c: Bytes, msgList: seq<Bytes>, j: nat, i: nat)
    requires j < |msgList| + 1 && i < 8
    ensures var n := |msgList|;
      var frame := Join(HeaderV1(OffsetsV1(c, msgList))) + Join([c] + msgList);
      var from, to := Position(8 * (n + 3), [c] + msgList, j), Position(8 * (n + 3), [c] + msgList, j + 1);
      && 8 * (n + 3) <= from <= to <= |frame|
      && frame[i] as int == Digit(n + 2, i)
      && frame[8 * (j + 1) + i] as int == Digit(from, i)
      && frame[from..to] == ([c] + msgList)[j]
  {
    var parts := [c] + msgList;
    var start := 8 * (|msgList| + 3);
    var o := OffsetsV1(c, msgList);
    var header := Join(HeaderV1(o));
    assert o == Offsets(start, parts);
    hide *;
    HeaderLengthV1(o);
    OffsetsOrdered(start, parts);
    OffsetIs(start, parts, j);
    OffsetIs(start, parts, j + 1);
    TableByteV1(o, Join(parts), j, i);
    PartInFrame(header, parts, j);
  }

  lemma EndOffsetV1(c: Bytes, msgList: seq<Bytes>)
    ensures var o := OffsetsV1(c, msgList);
      && |o| == |msgList| + 2
      && o[|msgList| + 1] == 8 * (|msgList| + 3) + |c| + TotalLength(msgList)
      && |Join(HeaderV1(o)) + Join([c] + msgList)| == o[|msgList| + 1]
  {
    var parts := [c] + msgList;
    var start := 8 * (|msgList| + 3);
    var o := OffsetsV1(c, msgList);
    assert o == Offsets(start, parts) && parts[1..] == msgList;
    assert TotalLength(parts) == |c| + TotalLength(msgList);
    hide *;
    HeaderLengthV1(o);
    OffsetsOrdered(start, parts);
  }

  /** The last offset is the length of the frame. */
  lemma FrameV1End(c: Bytes, msgList: seq<Bytes>, i: nat)
    requires i < 8
    ensures var frame := Join(HeaderV1(OffsetsV1(c, msgList))) + Join([c] + msgList);
      var at := 8 * (|msgList| + 2);
      && at + 8 <= |frame| == at + 8 + |c| + TotalLength(msgList)
      && frame[at + i] as int == Digit(|frame|, i)
  {
    hide *;
    EndOffsetV1(c, msgList);
    TableByteV1(OffsetsV1(c, msgList), Join([c] + msgList), |msgList| + 1, i);
  }

  lemma PartInFrame(header: Bytes, parts: seq<Bytes>, j: nat)
    requires j < |parts|
    ensures var o := Offsets(|header|, parts);
      o[j] <= o[j + 1] <= |header + Join(parts)| && (header + Join(parts))[o[j]..o[j + 1]] == parts[j]
  {
    hide *;
    OffsetsOrdered(|header|, parts);
    SliceAtOffsets(header, parts, j);
    var o := Offsets(|header|, parts);
    SliceInside(header + Join(parts), o[j], o[j + 1]);
  }

  lemma SliceInside(b: Bytes, start: nat, stop: nat)
    requires start <= stop <= |b|
    ensures Slice(b, start, stop) == b[start..stop]
  {
  }

  lemma ByteOfPart(table: seq<Bytes>, rest: Bytes, size: nat, j: nat, i: nat)
    requires j < |table| && i < size && forall k :: 0 <= k < |table| ==> |table[k]| == size
    ensures 0 <= size * j + i < size * |table| <= |Join(table) + rest|
    ensures (Join(table) + rest)[size * j + i] == table[j][i]
  {
    hide *;
    JoinEqualLength(table, size);
    SliceEqualParts(table, rest, size, j);
    NextMultiple(size, j, |table|);
    MultipleAfter(size, j);
    SliceInside(Join(table) + rest, size * j, size * (j + 1));
    InSlice(Join(table) + rest, size * j, size * (j + 1), i);
  }

  lemma MultipleAfter(m: nat, p: nat)
    ensures m * (p + 1) == m * p + m
  {
  }

  lemma InSlice(b: Bytes, start: nat, stop: nat, i: nat)
    requires start <= stop <= |b| && i < stop - start
    ensures b[start..stop][i] == b[start + i]
  {
  }

  lemma TableByteV1(offsets: seq<nat>, rest: Bytes, j: nat, i: nat)
    requires j < |offsets| && i < 8
    ensures var frame := Join(HeaderV1(offsets)) + rest;
      && |frame| >= 8 * (j + 2)
      && frame[i] as int == Digit(|offsets|, i) && frame[8 * (j + 1) + i] as int == Digit(offsets[j], i)
  {
    var table := HeaderV1(offsets);
    assert table[0] == ToLittle(|offsets|, 8) && table[j + 1] == ToLittle(offsets[j], 8);
    assert forall k :: 0 <= k < |table| ==> |table[k]| == 8;
    assert |table| == |offsets| + 1;
    hide *;
    ByteOfPart(table, rest, 8, 0, i);
    ByteOfPart(table, rest, 8, j + 1, i);
    LittleBytes(|offsets|, 8, i);
    LittleBytes(offsets[j], 8, i);
  }

  // ---------------------------------------------------------------------
  // The legacy format
  // ---------------------------------------------------------------------

  const LIMIT32 := 0x1_0000_0000

  /** The offsets that go into a legacy header: where each part begins. */
  function OffsetsLegacy(parts: seq<Bytes>): seq<nat>
    requires parts != []
  {
    Offsets(4 * (|parts| + 1), parts[..|parts| - 1])
  }

  function HeaderLegacy(offsets: seq<nat>): seq<Bytes> {
    [ToBig(|offsets|, 4)] + seq(|offsets|, i requires 0 <= i < |offsets| => ToBig(offsets[i], 4))
  }

  /** `struct.pack("!I...I", |offsets|, *offsets)` */
  method PackHeader(offsets: seq<nat>) returns (r: Result<Bytes, WireError>)
    ensures r == if |offsets| < LIMIT32 && forall i :: 0 <= i < |offsets| ==> offsets[i] < LIMIT32
                 then Ok(Join(HeaderLegacy(offsets))) else Err(StructError)
  {
    if |offsets| >= LIMIT32 {
      return Err(StructError);
    }
    var table: seq<Bytes> := [ToBig(|offsets|, 4)];
    for i := 0 to |offsets|
      invariant table == HeaderLegacy(offsets)[..i + 1]
      invariant forall j :: 0 <= j < i ==> offsets[j] < LIMIT32
    {
      if offsets[i] >= LIMIT32 {
        return Err(StructError);
      }
      table := table + [ToBig(offsets[i], 4)];
    }
    assert table == HeaderLegacy(offsets);
    return Ok(Join(table));
  }

  /** Where the last part of a legacy frame begins. */
  function LastOffset(parts: seq<Bytes>): nat
    requires parts != []
  {
    4 * (|parts| + 1) + TotalLength(parts[..|parts| - 1])
  }

  /** `json` is the message without its buffers, which follow it as separate parts. */
  method SerializeLegacy(json: Bytes, buffers: seq<Bytes>) returns (r: Result<Bytes, WireError>)
    ensures var parts := [json] + buffers;
      r == if LastOffset(parts) < LIMIT32 then Ok(Join(HeaderLegacy(OffsetsLegacy(parts))) + Join(parts))
        else Err(StructError)
  {
    var parts := [json] + buffers;
    var n := |parts|;
    var offsets := [4 * (n + 1)];
    for i := 0 to n - 1
      invariant offsets == Offsets(4 * (n + 1), parts[..i])
    {
      OffsetsAppend(4 * (n + 1), parts[..i], parts[i]);
      assert parts[..i] + [parts[i]] == parts[..i + 1];
      offsets := offsets + [offsets[|offsets| - 1] + |parts[i]|];
    }
    assert offsets == OffsetsLegacy(parts);
    OffsetsOrdered(4 * (n + 1), parts[..n - 1]);
    var header := PackHeader(offsets);
    match header {
      case Err(e) => return Err(e);
      case Ok(h) => return Ok(h + Join(parts));
    }
  }

  /** The parts of a frame with the given offsets, the last one up to the end. */
  function Cut(frame: Bytes, offsets: seq<nat>): seq<Bytes> {
    seq(|offsets|, i requires 0 <= i < |offsets| =>
      Slice(frame, offsets[i], if i + 1 < |offsets| then offsets[i + 1] else |frame|))
  }

  function ReadOffsets(frame: Bytes, n: nat): seq<nat> {
    seq(n, i requires 0 <= i < n => FromBig(Slice(frame, 4 * (i + 1), 4 * (i + 2))))
  }

  method CutParts(frame: Bytes, offsets: seq<nat>) returns (bufs: seq<Bytes>)
    ensures bufs == Cut(frame, offsets)
  {
    bufs := [];
    for i := 0 to |offsets|
      invariant bufs == Cut(frame, offsets)[..i]
    {
      bufs := bufs + [Slice(frame, offsets[i], if i + 1 < |offsets| then offsets[i + 1] else |frame|)];
    }
  }

  method DeserializeLegacy(frame: Bytes) returns (r: Result<(Bytes, seq<Bytes>), WireError>)
    ensures r == ParsedLegacy(frame)
  {
    if |frame| < 4 {
      return Err(StructError);
    }
    var n := FromBigSigned(frame[..4]);
    if n < 0 {
      // no offsets: either they do not fill the slice asked for, or there is no first part
      var stop := |frame| + 4 * (n + 1);
      return Err(if n + 1 < 0 && stop > 4 then StructError else IndexError);
    }
    if |frame| < 4 * (n + 1) {
      return Err(StructError);
    }
    var bufs := CutParts(frame, ReadOffsets(frame, n));
    if |bufs| == 0 {
      return Err(IndexError);
    }
    return Ok((bufs[0], bufs[1..]));
  }

  function ParsedLegacy(frame: Bytes): Result<(Bytes, seq<Bytes>), WireError> {
    if |frame| < 4 then Err(StructError)
    else
      var n := FromBigSigned(frame[..4]);
      if n < 0 then Err(if n + 1 < 0 && |frame| + 4 * (n + 1) > 4 then StructError else IndexError)
      else if |frame| < 4 * (n + 1) then Err(StructError)
      else if n == 0 then Err(IndexError)
      else var bufs := Cut(frame, ReadOffsets(frame, n)); Ok((bufs[0], bufs[1..]))
  }

  lemma ReadTableLegacy(offsets: seq<nat>, rest: Bytes)
    requires 2 * |offsets| < LIMIT32 && forall i :: 0 <= i < |offsets| ==> offsets[i] < LIMIT32
    ensures var frame := Join(HeaderLegacy(offsets)) + rest;
      |frame| >= 4 * (|offsets| + 1) &&
      FromBigSigned(frame[..4]) == |offsets| && ReadOffsets(frame, |offsets|) == offsets
  {
    assert Pow256(4) == LIMIT32;
    var table := HeaderLegacy(offsets);
    var frame := Join(table) + rest;
    JoinEqualLength(table, 4);
    SliceEqualParts(table, rest, 4, 0);
    BigRoundTrip(|offsets|, 4);
    BigSignBit(|offsets|, 4);
    assert Slice(frame, 0, 4) == frame[..4];
    ReadEntriesLegacy(offsets, rest);
  }

  lemma ReadEntryLegacy(offsets: seq<nat>, rest: Bytes, i: nat)
    requires i < |offsets| && offsets[i] < LIMIT32
    ensures FromBig(Slice(Join(HeaderLegacy(offsets)) + rest, 4 * (i + 1), 4 * (i + 2))) == offsets[i]
  {
    assert Pow256(4) == LIMIT32;
    var table := HeaderLegacy(offsets);
    assert table[i + 1] == ToBig(offsets[i], 4) && forall j :: 0 <= j < |table| ==> |table[j]| == 4;
    hide *;
    SliceEqualParts(table, rest, 4, i + 1);
    BigRoundTrip(offsets[i], 4);
  }

  lemma ReadEntriesLegacy(offsets: seq<nat>, rest: Bytes)
    requires forall i :: 0 <= i < |offsets| ==> offsets[i] < LIMIT32
    ensures ReadOffsets(Join(HeaderLegacy(offsets)) + rest, |offsets|) == offsets
  {
    hide Join, FromBig, Slice, HeaderLegacy;
    var read := ReadOffsets(Join(HeaderLegacy(offsets)) + rest, |offsets|);
    forall i | 0 <= i < |offsets| ensures read[i] == offsets[i] {
      ReadEntryLegacy(offsets, rest, i);
    }
  }

  /**
    Legacy round trip: every frame that can be written is read back to exactly
    its parts.  That the count is written unsigned and read signed never shows,
    because the offsets of so many parts would not fit either.
   */
  lemma RoundTripLegacy(json: Bytes, buffers: seq<Bytes>)
    requires LastOffset([json] + buffers) < LIMIT32
    ensures var parts := [json] + buffers;
      ParsedLegacy(Join(HeaderLegacy(OffsetsLegacy(parts))) + Join(parts)) == Ok((json, buffers))
  {
    var parts := [json] + buffers;
    var n := |parts|;
    var o := OffsetsLegacy(parts);
    OffsetsOrdered(4 * (n + 1), parts[..n - 1]);
    ReadTableLegacy(o, Join(parts));
    var header := Join(HeaderLegacy(o));
    JoinEqualLength(HeaderLegacy(o), 4);
    assert |header| == 4 * (n + 1);
    CutGivesParts(header, parts);
    assert parts[1..] == buffers;
  }

  lemma LegacyOffsetsAreAllButTheEnd(parts: seq<Bytes>)
    requires parts != []
    ensures var start := 4 * (|parts| + 1);
      Offsets(start, parts) == OffsetsLegacy(parts) + [start + TotalLength(parts)]
  {
    hide Offsets, TotalLength;
    var start, n := 4 * (|parts| + 1), |parts|;
    var front := parts[..n - 1];
    assert front + [parts[n - 1]] == parts;
    OffsetsAppend(start, front, parts[n - 1]);
    OffsetsOrdered(start, parts);
    assert Offsets(start, parts)[n] == start + TotalLength(parts);
  }

  lemma CutGivesParts(header: Bytes, parts: seq<Bytes>)
    requires parts != [] && |header| == 4 * (|parts| + 1)
    ensures Cut(header + Join(parts), OffsetsLegacy(parts)) == parts
  {
    hide Slice, Join, Offsets, Cut, OffsetsLegacy;
    var frame := header + Join(parts);
    var all := Offsets(|header|, parts);
    LegacyOffsetsAreAllButTheEnd(parts);
    forall i | 0 <= i < |parts| ensures Slice(frame, all[i], all[i + 1]) == parts[i] {
      SliceAtOffsets(header, parts, i);
    }
    CutAt(frame, OffsetsLegacy(parts), all, parts);
  }

  lemma CutAt(frame: Bytes, offsets: seq<nat>, all: seq<nat>, parts: seq<Bytes>)
    requires |parts| == |offsets| && all == offsets + [|frame|]
    requires forall i :: 0 <= i < |parts| ==> Slice(frame, all[i], all[i + 1]) == parts[i]
    ensures Cut(frame, offsets) == parts
  {
    hide Slice;
    forall i | 0 <= i < |parts| ensures Cut(frame, offsets)[i] == parts[i] {
      assert all[i] == offsets[i] && all[i + 1] == if i + 1 < |offsets| then offsets[i + 1] else |frame|;
    }
  }

  /** And a legacy frame: four bytes each, highest first, and no offset for the end. */
  lemma FrameLegacyLayout(parts: seq<Bytes>, j: nat, i: nat)
    requires j < |parts| && i < 4
    ensures var n := |parts|;
      var frame := Join(HeaderLegacy(OffsetsLegacy(parts))) + Join(parts);
      var from, to := Position(4 * (n + 1), parts, j), Position(4 * (n + 1), parts, j + 1);
      && 4 * (n + 1) <= from <= to <= |frame| == 4 * (n + 1) + TotalLength(parts)
      && frame[i] as int == Digit(n, 3 - i)
      && frame[4 * (j + 1) + i] as int == Digit(from, 3 - i)
      && frame[from..to] == parts[j]
  {
    var n := |parts|;
    var o := OffsetsLegacy(parts);
    var all := Offsets(4 * (n + 1), parts);
    var header := Join(HeaderLegacy(o));
    assert |HeaderLegacy(o)| == n + 1 && forall k :: 0 <= k <= n ==> |HeaderLegacy(o)[k]| == 4;
    hide *;
    LegacyOffsetsAreAllButTheEnd(parts);
    assert o == all[..n];
    JoinEqualLength(HeaderLegacy(o), 4);
    OffsetsOrdered(4 * (n + 1), parts);
    OffsetIs(4 * (n + 1), parts, j);
    OffsetIs(4 * (n + 1), parts, j + 1);
    TableByteLegacy(o, Join(parts), j, i);
    PartInFrame(header, parts, j);
  }

  lemma TableByteLegacy(offsets: seq<nat>, rest: Bytes, j: nat, i: nat)
    requires j < |offsets| && i < 4
    ensures var frame := Join(HeaderLegacy(offsets)) + rest;
      && |frame| >= 4 * (j + 2)
      && frame[i] as int == Digit(|offsets|, 3 - i) && frame[4 * (j + 1) + i] as int == Digit(offsets[j], 3 - i)
  {
    var table := HeaderLegacy(offsets);
    assert table[0] == ToBig(|offsets|, 4) && table[j + 1] == ToBig(offsets[j], 4);
    assert forall k :: 0 <= k < |table| ==> |table[k]| == 4;
    assert |table| == |offsets| + 1;
    hide *;
    ByteOfPart(table, rest, 4, 0, i);
    ByteOfPart(table, rest, 4, j + 1, i);
    BigBytes(|offsets|, 4, i);
    BigBytes(offsets[j], 4, i);
  }

  /**
    A legacy frame can be taken apart exactly if its count is neither zero nor
    negative when read with a sign, and it is long enough for that many offsets.
   */
  lemma ReadableLegacyIff(frame: Bytes)
    ensures ParsedLegacy(frame).Ok? <==>
      && |frame| >= 4
      && 0 < FromBig(frame[..4]) < 0x8000_0000
      && |frame| >= 4 * (FromBig(frame[..4]) + 1)
  {
    if |frame| >= 4 {
      var count, signed := FromBig(frame[..4]), FromBigSigned(frame[..4]);
      assert Pow256(4) == LIMIT32 && |frame[..4]| == 4;
      SignedIs(frame[..4]);
      BigUnread(frame[..4]);
      assert 0 < signed <==> 0 < count < 0x8000_0000;
      assert 0 < signed ==> signed == count;
      hide FromBig, FromBigSigned, Cut, ReadOffsets, Pow256;
    }
  }

  /**
    What is wrong with any other: too short for its count or for its offsets, or
    no first part. With a negative count no offsets are read, which does not fit
    if the slice they are read from, counted from the end, still holds something.
   */
  lemma LegacyErrors(frame: Bytes)
    ensures |frame| < 4 ==> ParsedLegacy(frame) == Err(StructError)
    ensures |frame| >= 4 ==>
      var count := FromBig(frame[..4]);
      && (count == 0 ==> ParsedLegacy(frame) == Err(IndexError))
      && (0 < count < 0x8000_0000 && |frame| < 4 * (count + 1) ==> ParsedLegacy(frame) == Err(StructError))
      && (0x8000_0000 <= count ==>
            var below := 0x1_0000_0000 - count;
            ParsedLegacy(frame) == Err(if below > 1 && |frame| > 4 * below then StructError else IndexError))
  {
    if |frame| >= 4 {
      var count, signed := FromBig(frame[..4]), FromBigSigned(frame[..4]);
      assert Pow256(4) == LIMIT32 && |frame[..4]| == 4;
      SignedIs(frame[..4]);
      BigUnread(frame[..4]);
      assert count < 0x8000_0000 ==> signed == count;
      assert count >= 0x8000_0000 ==> signed + 0x1_0000_0000 == count;
      hide FromBig, FromBigSigned, Cut, ReadOffsets, Pow256;
    }
  }

  /** Slicing is cut off at the end, and empty where the end comes before the start. */
  lemma SliceIs(b: Bytes, start: nat, stop: nat)
    ensures start <= stop <= |b| ==> Slice(b, start, stop) == b[start..stop]
    ensures start <= |b| <= stop ==> Slice(b, start, stop) == b[start..]
    ensures stop <= start || |b| <= start ==> Slice(b, start, stop) == []
  {
  }

  /** A v1 frame is read unless it has fewer than two offsets, or the channel between the first two is not UTF-8. */
  lemma ReadableV1Iff(frame: Bytes)
    requires |frame| >= 24
    ensures var count := FromLittle(frame[..8]);
      var channel := Slice(frame, FromLittle(frame[8..16]), FromLittle(frame[16..24]));
      && (DeserializeV1(frame).Ok? <==> count >= 2 && exists s :: Utf8.Encode(s) == channel)
      && (count < 2 ==> DeserializeV1(frame) == Err(IndexError))
      && (count >= 2 && DeserializeV1(frame).Err? ==> DeserializeV1(frame) == Err(UnicodeError))
  {
    var channel := Slice(frame, FromLittle(frame[8..16]), FromLittle(frame[16..24]));
    ReadsChannel(frame);
    hide *;
    DecodableIff(channel);
  }

  lemma ReadsChannel(frame: Bytes)
    requires |frame| >= 24
    ensures var count := FromLittle(frame[..8]);
      var channel := Utf8.Decode(Slice(frame, FromLittle(frame[8..16]), FromLittle(frame[16..24])));
      && (DeserializeV1(frame).Ok? <==> count >= 2 && channel.Some?)
      && (count < 2 ==> DeserializeV1(frame) == Err(IndexError))
      && (count >= 2 && DeserializeV1(frame).Err? ==> DeserializeV1(frame) == Err(UnicodeError))
  {
    SliceIs(frame, 0, 8);
    SliceIs(frame, 8, 16);
    SliceIs(frame, 16, 24);
    assert frame[0..8] == frame[..8];
    hide FromLittle, Slice, Utf8.Decode;
  }

  lemma DecodableIff(b: Bytes)
    ensures Utf8.Decode(b).Some? <==> exists s :: Utf8.Encode(s) == b
  {
    hide *;
    if Utf8.Decode(b).Some? {
      Utf8.DecodesIff(b, Utf8.Decode(b).value);
    }
    if s :| Utf8.Encode(s) == b {
      Utf8.DecodesIff(b, s);
    }
  }
}
