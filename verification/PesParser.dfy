/** Reassembly of a packetized elementary stream packet from the transport packets that carried it. */
module PesParser {
  import opened Sequences
  import opened Wrappers

  /** A byte of the header; masking a byte that is not there gives 0. */
  function At(bytes: seq<int>, k: nat): int { if k < |bytes| then bytes[k] else 0 }

  /** The five bytes of a timestamp: 3, 15 and 15 bits, each part followed by a marker bit (section 2.4.3.6 of ISO/IEC
      13818-1). */
  function Timestamp(b: seq<int>, k: nat): int {
    536870912 * (At(b, k) / 2 % 8 * 2) + 4194304 * At(b, k + 1) + 16384 * (At(b, k + 2) / 2 * 2) + 128 * At(b, k + 3)
    + At(b, k + 4) / 2 * 2 / 2
  }

  datatype Pes = Pes(data: seq<int>, pts: Option<int>, dts: Option<int>, len: int)

  /** `Thrown` is the range error of copying into an array of no length. */
  datatype Outcome = Nothing | Thrown | Parsed(pes: Pes)

  const MAX_DELTA := 5400000

  /** The presentation and decoding times; when they are more than a minute apart the first is given up. */
  function Times(b: seq<int>): (Option<int>, Option<int>) {
    var flags := At(b, 7);
    if flags / 64 % 4 == 0 then (None, None)
    else
      var pts := Timestamp(b, 9);
      if flags / 64 % 2 == 0 then (Some(pts), Some(pts))
      else
        var dts := Timestamp(b, 14);
        if pts - dts > MAX_DELTA then (Some(dts), Some(dts)) else (Some(pts), Some(dts))
  }

  /** The packet's declared length, 0 when it is open-ended or when there are not the bytes to tell. */
  function DeclaredLength(b: seq<int>): int { if |b| < 6 then 0 else b[4] * 256 + b[5] }

  predicate StartsPes(b: seq<int>) { At(b, 0) * 65536 + At(b, 1) * 256 + At(b, 2) == 1 }

  predicate IsBytes(b: seq<int>) { forall k :: 0 <= k < |b| ==> 0 <= b[k] < 256 }

  /** What the bytes of a packet mean, however they were cut. */
  function Meaning(b: seq<int>): Outcome
    requires IsBytes(b)
  {
    if b == [] || !StartsPes(b) then Nothing
    else if DeclaredLength(b) != 0 && DeclaredLength(b) > |b| - 6 then Nothing
    else if |b| < 9 then Thrown
    else if |b| <= b[8] + 9 then Nothing
    else
      var len := if DeclaredLength(b) != 0 then DeclaredLength(b) - (b[8] + 3) else 0;
      Parsed(Pes(b[b[8] + 9..], Times(b).0, Times(b).1, len))
  }

  // ---------- fragments ----------

  lemma ConcatNext(xs: seq<seq<int>>, c: nat)
    requires c < |xs|
    ensures Concat(xs[..c + 1]) == Concat(xs[..c]) + xs[c]
  {
    assert xs[..c + 1] == xs[..c] + [xs[c]];
    ConcatSnoc(xs[..c], xs[c]);
  }

  lemma ConcatUpTo(xs: seq<seq<int>>, c: nat)
    requires c <= |xs|
    ensures |Concat(xs[..c])| <= |Concat(xs)| && Concat(xs)[..|Concat(xs[..c])|] == Concat(xs[..c])
  {
    assert xs == xs[..c] + xs[c..];
    ConcatAppend(xs[..c], xs[c..]);
  }

  lemma ConcatMerged(xs: seq<seq<int>>)
    requires |xs| >= 2
    ensures Concat([xs[0] + xs[1]] + xs[2..]) == Concat(xs)
  {
    var ys := [xs[0] + xs[1]] + xs[2..];
    assert ys[1..] == xs[2..] && xs[1..][1..] == xs[2..];
    assert xs[0] + (xs[1] + Concat(xs[2..])) == xs[0] + xs[1] + Concat(xs[2..]);
  }

  /** The first fragment begins the packet. */
  lemma FirstBytes(xs: seq<seq<int>>)
    requires xs != []
    ensures |xs[0]| <= |Concat(xs)| && forall k :: 0 <= k < |xs[0]| ==> Concat(xs)[k] == xs[0][k]
  {
  }

  /** A packet being collected: its fragments and their total length. */
  class Packet {
    var data: seq<seq<int>>
    var size: int

    ghost predicate Valid()
      reads this
    {
      size == |Concat(data)| && IsBytes(Concat(data))
    }

    constructor (fragments: seq<seq<int>>)
      requires IsBytes(Concat(fragments))
      ensures Valid() && data == fragments
    {
      data, size := fragments, |Concat(fragments)|;
    }

    /** Joins leading fragments until the first holds a whole header with both timestamps, or is all there is. */
    method JoinHeader()
      requires data != []
      modifies this`data
      ensures Concat(data) == old(Concat(data)) && data != []
      ensures |data[0]| >= 19 || |data| == 1
    {
      while |data[0]| < 19 && |data| > 1
        invariant data != [] && Concat(data) == old(Concat(data))
        decreases |data|
      {
        ConcatMerged(data);
        data := [data[0] + data[1]] + data[2..];
      }
    }

    /** Copies the fragments without the first `header` bytes, which may end in any fragment. */
    method CopyPayload(header: nat, payload: array<int>)
      requires header <= |Concat(data)| && payload.Length == |Concat(data)| - header
      modifies payload
      ensures payload[..] == Concat(data)[header..]
    {
      var c, h, s := 0, header, 0;
      while c < |data|
        invariant 0 <= c <= |data|
        invariant 0 <= h && 0 <= s && |Concat(data[..c])| == header - h + s && (h > 0 ==> s == 0)
        invariant s <= payload.Length
        invariant h == 0 ==> payload[..s] == Concat(data[..c])[header..]
      {
        ConcatNext(data, c);
        ConcatUpTo(data, c + 1);
        var e, g := data[c], |data[c]|;
        if h > 0 && h > g {
          h := h - g;
        } else {
          e := e[h..];
          g := g - h;
          h := 0;
          ghost var before := payload[..s];
          forall k | 0 <= k < g {
            payload[s + k] := e[k];
          }
          assert payload[..s + g] == before + e;
          s := s + g;
        }
        c := c + 1;
      }
      assert data[..c] == data;
    }

    /** Reads the packet: what its bytes mean, and its size without the header once there is a payload. */
    method Parse() returns (r: Outcome)
      requires Valid()
      modifies this
      ensures r == Meaning(old(Concat(data))) && Concat(data) == old(Concat(data))
      ensures size == if r.Parsed? then |r.pes.data| else old(size)
    {
      if size == 0 {
        return Nothing;
      }
      JoinHeader();
      ghost var b := Concat(data);
      var e := data[0];
      FirstBytes(data);
      HeaderBytes(data);
      if !StartsPes(e) {
        return Nothing;
      }
      var len := DeclaredLength(e);
      if len != 0 && len > size - 6 {
        return Nothing;
      }
      var times := Times(e);
      if |e| < 9 {
        return Thrown;
      }
      var header := e[8] + 9;
      if size <= header {
        return Nothing;
      }
      size := size - header;
      var payload := new int[size];
      CopyPayload(header, payload);
      if len != 0 {
        len := len - (e[8] + 3);
      }
      return Parsed(Pes(payload[..], times.0, times.1, len));
    }
  }

  /** Once the header is joined, the first fragment alone tells what the whole packet's header says. */
  lemma HeaderBytes(xs: seq<seq<int>>)
    requires xs != [] && (|xs[0]| >= 19 || |xs| == 1)
    ensures forall k: nat :: k < 19 ==> At(xs[0], k) == At(Concat(xs), k)
    ensures |xs[0]| < 19 ==> xs[0] == Concat(xs)
    ensures StartsPes(xs[0]) == StartsPes(Concat(xs)) && Times(xs[0]) == Times(Concat(xs))
    ensures DeclaredLength(xs[0]) == DeclaredLength(Concat(xs))
  {
    FirstBytes(xs);
    if |xs| == 1 {
      assert xs[1..] == [];
    }
  }

  // ---------- what a multiplexer writes ----------

  /** A 33-bit time as five bytes, behind a four-bit prefix (section 2.4.3.6 of ISO/IEC 13818-1). */
  function TimeField(prefix: int, t: int): seq<int> {
    [prefix * 16 + t / 1073741824 % 8 * 2 + 1, t / 4194304 % 256, t / 32768 % 128 * 2 + 1, t / 128 % 256,
     t % 128 * 2 + 1]
  }

  lemma Shift128(t: int)
    requires 0 <= t
    ensures t / 32768 == t / 128 / 256
  {
  }

  lemma Shift32768(t: int)
    requires 0 <= t
    ensures t / 4194304 == t / 32768 / 128
  {
  }

  lemma Shift4194304(t: int)
    requires 0 <= t
    ensures t / 1073741824 == t / 4194304 / 256
  {
  }

  lemma TimeParts(t: int, a: int, b: int, c: int, d: int)
    requires 0 <= t && a == t / 128 && b == a / 256 && c == b / 128 && d == c / 256
    ensures 1073741824 * d + 4194304 * (c % 256) + 32768 * (b % 128) + 128 * (a % 256) + t % 128 == t
  {
    assert c == 256 * d + c % 256;
    assert b == 128 * c + b % 128;
    assert a == 256 * b + a % 256;
    assert t == 128 * a + t % 128;
  }

  lemma TopBits(prefix: int, t: int)
    requires 0 <= t < 8589934592
    ensures (prefix * 16 + t / 1073741824 % 8 * 2 + 1) / 2 % 8 * 2 == t / 1073741824 * 2
  {
    var d := t / 1073741824;
    assert 0 <= d < 8;
    assert (prefix * 16 + d * 2 + 1) / 2 == prefix * 8 + d;
  }

  lemma Marked(x: int)
    ensures (x * 2 + 1) / 2 == x
  {
  }

  lemma TimeOfField(prefix: int, t: int)
    requires 0 <= t < 8589934592
    ensures Timestamp(TimeField(prefix, t), 0) == t
  {
    TopBits(prefix, t);
    Marked(t / 32768 % 128);
    Marked(t % 128);
    Shift128(t);
    Shift32768(t);
    Shift4194304(t);
    TimeParts(t, t / 128, t / 32768, t / 4194304, t / 1073741824);
  }

  lemma TimeReadsBack(prefix: int, t: int, b: seq<int>, k: nat)
    requires 0 <= t < 8589934592 && k + 5 <= |b| && b[k..k + 5] == TimeField(prefix, t)
    ensures Timestamp(b, k) == t
  {
    hide TimeField;
    TimeOfField(prefix, t);
    var f := b[k..k + 5];
    assert f[0] == b[k] && f[1] == b[k + 1] && f[2] == b[k + 2] && f[3] == b[k + 3] && f[4] == b[k + 4];
  }

  datatype Stamps = Unstamped | Presented(pts: int) | PresentedDecoded(pts: int, dts: int)

  predicate InRange(s: Stamps) {
    match s
    case Unstamped => true
    case Presented(pts) => 0 <= pts < 8589934592
    case PresentedDecoded(pts, dts) => 0 <= pts < 8589934592 && 0 <= dts < 8589934592
  }

  function StampFlags(s: Stamps): int {
    match s
    case Unstamped => 0
    case Presented(_) => 128
    case PresentedDecoded(_, _) => 192
  }

  function StampFields(s: Stamps): seq<int> {
    match s
    case Unstamped => []
    case Presented(pts) => TimeField(2, pts)
    case PresentedDecoded(pts, dts) => TimeField(3, pts) + TimeField(1, dts)
  }

  /** A packet with its times, other header bytes `rest`, and its payload; open-ended packets declare length 0. */
  function Written(stream: int, s: Stamps, rest: seq<int>, payload: seq<int>, bounded: bool): seq<int> {
    var header := StampFields(s) + rest;
    var len := if bounded then 3 + |header| + |payload| else 0;
    [0, 0, 1, stream, len / 256, len % 256, 128, StampFlags(s), |header|] + header + payload
  }

  /** The times as read: a presentation time more than a minute after decoding is replaced. */
  function TimesRead(s: Stamps): (Option<int>, Option<int>) {
    match s
    case Unstamped => (None, None)
    case Presented(pts) => (Some(pts), Some(pts))
    case PresentedDecoded(pts, dts) => (Some(if pts - dts > MAX_DELTA then dts else pts), Some(dts))
  }

  lemma PlacedAt(head: seq<int>, f: seq<int>, tail: seq<int>)
    ensures (head + f + tail)[|head|..|head| + |f|] == f
  {
  }

  lemma TimesReadBack(s: Stamps, head: seq<int>, tail: seq<int>)
    requires InRange(s) && |head| == 9 && head[7] == StampFlags(s)
    ensures Times(head + StampFields(s) + tail) == TimesRead(s)
  {
    hide Timestamp, TimeField;
    var b := head + StampFields(s) + tail;
    assert At(b, 7) == StampFlags(s);
    match s
    case Unstamped =>
    case Presented(pts) => {
      FieldReadsBack(2, pts, head, tail);
    }
    case PresentedDecoded(pts, dts) => {
      FieldReadsBack(3, pts, head, TimeField(1, dts) + tail);
      FieldReadsBack(1, dts, head + TimeField(3, pts), tail);
      assert b == head + TimeField(3, pts) + (TimeField(1, dts) + tail) ==
        head + TimeField(3, pts) + TimeField(1, dts) + tail;
    }
  }

  lemma FieldReadsBack(prefix: int, t: int, head: seq<int>, tail: seq<int>)
    requires 0 <= t < 8589934592
    ensures |TimeField(prefix, t)| == 5 && Timestamp(head + TimeField(prefix, t) + tail, |head|) == t
  {
    hide Timestamp;
    PlacedAt(head, TimeField(prefix, t), tail);
    TimeReadsBack(prefix, t, head + TimeField(prefix, t) + tail, |head|);
  }

  /** Reading undoes writing: the payload, its length when declared, and the times come back. */
  lemma WrittenReadsBack(stream: int, s: Stamps, rest: seq<int>, payload: seq<int>, bounded: bool)
    requires InRange(s) && IsBytes(Written(stream, s, rest, payload, bounded)) && payload != []
    ensures Meaning(Written(stream, s, rest, payload, bounded)) ==
      Parsed(Pes(payload, TimesRead(s).0, TimesRead(s).1, if bounded then |payload| else 0))
  {
    hide Times, TimeField, TimesRead;
    var header := StampFields(s) + rest;
    var b := Written(stream, s, rest, payload, bounded);
    var head := b[..9];
    assert b == head + StampFields(s) + (rest + payload);
    TimesReadBack(s, head, rest + payload);
    assert b[8] == |header|;
    assert b[|header| + 9..] == payload;
  }

  // ---------- packets cut short, and bytes behind them ----------

  /** A packet with this header, however much of it is there: what a reader finds in its first bytes. */
  lemma HeaderRead(stream: int, s: Stamps, rest: seq<int>, payload: seq<int>, bounded: bool, b: seq<int>)
    requires InRange(s) && IsBytes(Written(stream, s, rest, payload, bounded)) && |StampFields(s) + rest| + 9 <= |b|
    requires b[..|StampFields(s) + rest| + 9] ==
      Written(stream, s, rest, payload, bounded)[..|StampFields(s) + rest| + 9]
    ensures Times(b) == TimesRead(s) && b[8] == |StampFields(s) + rest| && StartsPes(b)
  {
    hide Times, TimeField, TimesRead;
    var w, n := Written(stream, s, rest, payload, bounded), |StampFields(s) + rest| + 9;
    assert forall k :: 0 <= k < n ==> b[k] == b[..n][k] == w[..n][k] == w[k];
    var head := b[..9];
    assert w[..n] == w[..9] + StampFields(s) + rest;
    assert head == w[..9];
    assert b == head + StampFields(s) + (rest + b[n..]);
    TimesReadBack(s, head, rest + b[n..]);
  }

  lemma Length(stream: int, s: Stamps, rest: seq<int>, payload: seq<int>, b: seq<int>)
    requires IsBytes(Written(stream, s, rest, payload, true)) && |b| >= 6
    requires b[..6] == Written(stream, s, rest, payload, true)[..6]
    ensures DeclaredLength(b) == |Written(stream, s, rest, payload, true)| - 6 && StartsPes(b)
  {
    hide TimeField;
    var w := Written(stream, s, rest, payload, true);
    assert forall k :: 0 <= k < 6 ==> b[k] == b[..6][k] == w[..6][k] == w[k];
  }

  /** Every proper beginning of a packet that declares its length is refused, from six bytes on; shorter ones are
      refused too, unless they hold the start code and end in the range error. */
  lemma CutShortRefused(stream: int, s: Stamps, rest: seq<int>, payload: seq<int>, n: nat)
    requires IsBytes(Written(stream, s, rest, payload, true)) && n < |Written(stream, s, rest, payload, true)|
    ensures Meaning(Written(stream, s, rest, payload, true)[..n]) == if 3 <= n < 6 then Thrown else Nothing
  {
    hide TimeField, Times, StampFields;
    var w := Written(stream, s, rest, payload, true);
    var b := w[..n];
    if n >= 6 {
      assert b[..6] == w[..6];
      Length(stream, s, rest, payload, b);
    } else {
      assert forall k :: 0 <= k < n ==> b[k] == w[k];
    }
  }

  /** What bytes behind the declared end give: they are handed out with the payload, and the length does not count them.
      */
  lemma BytesBehind(stream: int, s: Stamps, rest: seq<int>, payload: seq<int>, more: seq<int>)
    requires InRange(s) && IsBytes(Written(stream, s, rest, payload, true) + more) && payload + more != []
    requires IsBytes(Written(stream, s, rest, payload, true))
    ensures Meaning(Written(stream, s, rest, payload, true) + more) ==
      Parsed(Pes(payload + more, TimesRead(s).0, TimesRead(s).1, |payload|))
  {
    hide Times, TimeField, TimesRead, StampFields, StampFlags;
    var w, n := Written(stream, s, rest, payload, true), |StampFields(s) + rest| + 9;
    var b := w + more;
    assert b[..n] == w[..n] && b[..6] == w[..6];
    HeaderRead(stream, s, rest, payload, true, b);
    Length(stream, s, rest, payload, b);
    assert b[n..] == payload + more;
  }

  /** An open-ended packet may end anywhere behind its header: what is there of the payload is handed out. Cut before
      that it is refused, or ends in the range error when the start code is there and the header's length is not. */
  lemma OpenEnded(stream: int, s: Stamps, rest: seq<int>, payload: seq<int>, n: nat)
    requires InRange(s) && IsBytes(Written(stream, s, rest, payload, false))
    requires n <= |Written(stream, s, rest, payload, false)|
    ensures var header := 9 + |StampFields(s) + rest|;
      Meaning(Written(stream, s, rest, payload, false)[..n]) ==
        if n > header then Parsed(Pes(payload[..n - header], TimesRead(s).0, TimesRead(s).1, 0))
        else if 3 <= n < 9 then Thrown
        else Nothing
  {
    hide Times, TimeField, TimesRead, StampFields, StampFlags;
    var w, header := Written(stream, s, rest, payload, false), |StampFields(s) + rest| + 9;
    var b := w[..n];
    assert forall k :: 0 <= k < n ==> b[k] == w[k];
    if n > header {
      assert b[..header] == w[..header];
      HeaderRead(stream, s, rest, payload, false, b);
      assert b[header..] == payload[..n - header];
    }
  }

  /** Without the start code prefix nothing is read. */
  lemma NoPrefix(b: seq<int>)
    requires IsBytes(b) && (|b| < 3 || b[..3] != [0, 0, 1])
    ensures Meaning(b) == Nothing
  {
    if |b| >= 3 {
      assert b[..3] == [b[0], b[1], b[2]];
    }
  }
}
