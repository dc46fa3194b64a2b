/** Trees of boxes: what the reader finds in the bytes of a tree is what stands in the tree. */
module Mp4Tree {
  import opened Mp4Boxes

  datatype Box = Leaf(name: Name, payload: Bytes) | Node(name: Name, kids: seq<Box>)

  function Payload(b: Box): Bytes
    decreases b, 0
  {
    match b
    case Leaf(_, payload) => payload
    case Node(_, kids) => WriteAll(kids)
  }

  function Write(b: Box): Bytes
    decreases b, 1
  {
    BoxBytes(b.name, Payload(b))
  }

  function WriteAll(bs: seq<Box>): Bytes
    decreases bs, 2
  {
    if bs == [] then [] else Write(bs[0]) + WriteAll(bs[1..])
  }

  /** Every box is short enough for a 32-bit size. */
  ghost predicate Fits(bs: seq<Box>) { forall i :: 0 <= i < |bs| ==> |Write(bs[i])| < TWO32 }

  /** The boxes that the path goes through hold only boxes. */
  ghost predicate Searchable(bs: seq<Box>, path: seq<Name>)
    requires path != []
    decreases |path|, |bs|
  {
    bs == [] ||
    (&& (bs[0].name == path[0] && |path| > 1 ==> bs[0].Node? && Searchable(bs[0].kids, path[1..]))
     && Searchable(bs[1..], path))
  }

  /** The payloads at a path of a forest, in document order. */
  ghost function At(bs: seq<Box>, path: seq<Name>): seq<Bytes>
    requires path != [] && Searchable(bs, path)
    decreases |path|, |bs|
  {
    if bs == [] then []
    else
      (if bs[0].name != path[0] then []
       else if |path| == 1 then [Payload(bs[0])]
       else At(bs[0].kids, path[1..]))
      + At(bs[1..], path)
  }

  /** Reading the box that starts where the prefix ends. */
  lemma ReadHere(before: Bytes, name: Name, payload: Bytes, after: Bytes)
    requires |payload| + 8 < TWO32
    ensures var t, n := before + BoxBytes(name, payload) + after, |before|;
            && BoxEnd(t, n) == n + 8 + |payload|
            && Sub(t, n + 4, n + 8) == name && Sub(t, n + 8, BoxEnd(t, n)) == payload
  {
    hide Be32, ReadU32;
    var size := Be32(8 + |payload|);
    var t := before + BoxBytes(name, payload) + after;
    assert t == before + size + (name + payload + after);
    ReadBack(before, 8 + |payload|, name + payload + after);
  }

  lemma {:induction false} KidFits(bs: seq<Box>, i: nat)
    requires i < |bs|
    ensures |Write(bs[i])| <= |WriteAll(bs)|
  {
    hide Write;
    if i == 0 {
    } else {
      KidFits(bs[1..], i - 1);
    }
  }

  lemma KidsFit(b: Box)
    requires b.Node? && |Write(b)| < TWO32
    ensures Fits(b.kids)
  {
    forall i | 0 <= i < |b.kids| ensures |Write(b.kids[i])| < TWO32 {
      KidFits(b.kids, i);
    }
  }

  lemma {:induction false} FindFromWritten(before: Bytes, bs: seq<Box>, path: seq<Name>)
    requires path != [] && Fits(bs) && Searchable(bs, path)
    ensures FindFrom(before + WriteAll(bs), path, |before|) == At(bs, path)
    decreases |path|, |bs|
  {
    hide Payload, BoxEnd, Sub, Fits, BoxBytes;
    var t := before + WriteAll(bs);
    if bs == [] {
    } else {
      var b, rest := bs[0], WriteAll(bs[1..]);
      FirstFits(bs);
      assert t == before + Write(b) + rest;
      ReadHere(before, b.name, Payload(b), rest);
      FindFromWritten(before + Write(b), bs[1..], path);
      if b.name == path[0] && |path| > 1 {
        KidsFit(b);
        FindFromWritten([], b.kids, path[1..]);
        PayloadOfNode(b);
      }
    }
  }

  lemma FirstFits(bs: seq<Box>)
    requires bs != [] && Fits(bs)
    ensures |Write(bs[0])| < TWO32 && |Write(bs[0])| == 8 + |Payload(bs[0])| && Fits(bs[1..])
  {
  }

  lemma PayloadOfNode(b: Box)
    requires b.Node?
    ensures [] + WriteAll(b.kids) == Payload(b)
  {
  }

  /** The reader finds, in the bytes of a forest, exactly the payloads at the path, in document order. */
  lemma FindWritten(bs: seq<Box>, path: seq<Name>)
    requires path != [] && Fits(bs) && Searchable(bs, path)
    ensures FindFrom(WriteAll(bs), path, 0) == At(bs, path)
  {
    FindFromWritten([], bs, path);
    assert [] + WriteAll(bs) == WriteAll(bs);
  }

  // ---------- a last box without a size ----------

  /** One written box, whatever is behind it. */
  lemma FindOneWritten(before: Bytes, b: Box, rest: Bytes, path: seq<Name>)
    requires path != [] && |Write(b)| < TWO32 && Searchable([b], path)
    ensures var t := before + Write(b) + rest;
      FindFrom(t, path, |before|) == At([b], path) + FindFrom(t, path, |before| + |Write(b)|)
  {
    hide Payload, BoxEnd, Sub, BoxBytes, FindFrom;
    var t := before + Write(b) + rest;
    assert [b][1..] == [] && [b][0] == b;
    assert Fits([b]);
    FirstFits([b]);
    ReadHere(before, b.name, Payload(b), rest);
    FindOnce(t, path, |before|);
    if b.name == path[0] && |path| > 1 {
      KidsFit(b);
      FindFromWritten([], b.kids, path[1..]);
      PayloadOfNode(b);
    }
  }

  lemma SearchCons(bs: seq<Box>, path: seq<Name>)
    requires path != [] && bs != [] && Searchable(bs, path)
    ensures Searchable([bs[0]], path) && Searchable(bs[1..], path)
    ensures At(bs, path) == At([bs[0]], path) + At(bs[1..], path)
  {
    hide Payload;
    assert [bs[0]][1..] == [] && [bs[0]][0] == bs[0];
  }

  /** Bytes behind the boxes of a forest are searched after them. */
  lemma {:induction false} FindFromTail(before: Bytes, bs: seq<Box>, path: seq<Name>, tail: Bytes)
    requires path != [] && Fits(bs) && Searchable(bs, path)
    ensures var t := before + WriteAll(bs) + tail;
      FindFrom(t, path, |before|) == At(bs, path) + FindFrom(t, path, |before| + |WriteAll(bs)|)
    decreases |bs|
  {
    hide Write, At, Searchable, Fits, FindFrom;
    if bs == [] {
      NothingAt(path);
    } else {
      var b, rest := bs[0], WriteAll(bs[1..]) + tail;
      FirstFits(bs);
      SearchCons(bs, path);
      assert before + WriteAll(bs) + tail == before + Write(b) + rest == (before + Write(b)) + WriteAll(bs[1..]) + tail;
      FindOneWritten(before, b, rest, path);
      FindFromTail(before + Write(b), bs[1..], path, tail);
    }
  }

  lemma NothingAt(path: seq<Name>)
    requires path != []
    ensures Searchable([], path) && At([], path) == []
  {
  }

  lemma FindOnce(t: Bytes, path: seq<Name>, n: nat)
    ensures FindFrom(t, path, n) ==
      if path == [] || n >= |t| then [] else FindHere(t, path, n) + FindFrom(t, path, BoxEnd(t, n))
  {
  }

  /** A size field that takes a box to the end of the data or past it: 0, 1, or at least what is there. */
  predicate ToTheEnd(size: nat, payload: Bytes) { size <= 1 || 8 + |payload| <= size < TWO32 }

  lemma OpenBox(before: Bytes, size: nat, name: Name, payload: Bytes, path: seq<Name>)
    requires ToTheEnd(size, payload) && path != []
    ensures FindFrom(before + (Be32(size) + name + payload), path, |before|) ==
      if name != path[0] then [] else if |path| == 1 then [payload] else FindFrom(payload, path[1..], 0)
  {
    hide Be32, ReadU32, FindFrom, Sub;
    var t, n := before + (Be32(size) + name + payload), |before|;
    assert t == before + Be32(size) + (name + payload);
    ReadBack(before, size, name + payload);
    FindOnce(t, path, n);
    FindOnce(t, path, BoxEnd(t, n));
    assert BoxEnd(t, n) >= |t|;
    Parts(before, Be32(size), name, payload, BoxEnd(t, n));
  }

  lemma Parts(before: Bytes, size: Bytes, name: Name, payload: Bytes, end: nat)
    requires |size| == 4 && end >= |before + (size + name + payload)|
    ensures var t, n := before + (size + name + payload), |before|;
      Sub(t, n + 4, n + 8) == name && Sub(t, n + 8, end) == payload
  {
  }

  /** A last box is found with all bytes to the end when its size is 0, which says so, and when it is cut short of its
      size. So it is with size 1, although that says that eight bytes of length come first: they are handed out as
      payload. */
  lemma LastBoxOpen(bs: seq<Box>, size: nat, name: Name, payload: Bytes, path: seq<Name>)
    requires ToTheEnd(size, payload) && path != [] && Fits(bs) && Searchable(bs, path)
    ensures FindFrom(WriteAll(bs) + (Be32(size) + name + payload), path, 0) ==
      At(bs, path) +
        if name != path[0] then [] else if |path| == 1 then [payload] else FindFrom(payload, path[1..], 0)
  {
    hide Be32, FindFrom, WriteAll, Fits, Searchable, At;
    var tail := Be32(size) + name + payload;
    FindFromTail([], bs, path, tail);
    assert [] + WriteAll(bs) + tail == WriteAll(bs) + tail;
    OpenBox(WriteAll(bs), size, name, payload, path);
  }
}
