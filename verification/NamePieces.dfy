/** Names put together from pieces, and how much of a name is left behind each piece. */
module NamePieces {
  import opened Common
  import opened DirectoryEntry
  import opened DirectoryScan
  import L = LongName

  // ----- text in two

  /** Whether a NUL unit starts at an even number of bytes behind an offset. */
  predicate HoldsNul(bytes: seq<byte>, offset: nat)
    decreases |bytes| - offset
  {
    offset + 2 <= |bytes| && ((bytes[offset] == 0 && bytes[offset + 1] == 0) || HoldsNul(bytes, offset + 2))
  }

  lemma {:induction false} NameEndInFirst(a: seq<byte>, b: seq<byte>, offset: nat)
    requires |a| % 2 == 0 && offset % 2 == 0 && offset <= |a|
    ensures NameEnd(a + b, offset) == if HoldsNul(a, offset) then NameEnd(a, offset) else NameEnd(a + b, |a|)
    decreases |a| - offset
  {
    if offset + 2 <= |a| {
      assert (a + b)[offset] == a[offset] && (a + b)[offset + 1] == a[offset + 1];
      NameEndInFirst(a, b, offset + 2);
    }
  }

  lemma {:induction false} NameEndInSecond(a: seq<byte>, b: seq<byte>, offset: nat)
    requires offset <= |b|
    ensures NameEnd(a + b, |a| + offset) == |a| + NameEnd(b, offset)
    decreases |b| - offset
  {
    if offset + 2 <= |b| {
      assert (a + b)[|a| + offset] == b[offset] && (a + b)[|a| + offset + 1] == b[offset + 1];
      NameEndInSecond(a, b, offset + 2);
    }
  }

  /** Text in two is cut in its first half if that holds a NUL unit, and otherwise in its second half. */
  lemma CutConcat(a: seq<byte>, b: seq<byte>)
    requires |a| % 2 == 0
    ensures CutAtNul(a + b) == if HoldsNul(a, 0) then CutAtNul(a) else a + CutAtNul(b)
  {
    var end := NameEnd(b, 0);
    NameEndInFirst(a, b, 0);
    NameEndInSecond(a, b, 0);
    if HoldsNul(a, 0) {
      TakeConcat(a, b, NameEnd(a, 0));
    } else {
      CutInSecond(a, b, end);
    }
  }

  lemma CutInSecond(a: seq<byte>, b: seq<byte>, end: nat)
    requires end <= |b|
    ensures (a + b)[..|a| + end] == a + b[..end]
  {
  }

  lemma {:induction false} HoldsNulInFirst(a: seq<byte>, b: seq<byte>, offset: nat)
    requires |a| % 2 == 0 && offset % 2 == 0 && offset <= |a|
    ensures HoldsNul(a + b, offset) == (HoldsNul(a, offset) || HoldsNul(a + b, |a|))
    decreases |a| - offset
  {
    if offset + 2 <= |a| {
      assert (a + b)[offset] == a[offset] && (a + b)[offset + 1] == a[offset + 1];
      HoldsNulInFirst(a, b, offset + 2);
    }
  }

  lemma {:induction false} HoldsNulInSecond(a: seq<byte>, b: seq<byte>, offset: nat)
    requires offset <= |b|
    ensures HoldsNul(a + b, |a| + offset) == HoldsNul(b, offset)
    decreases |b| - offset
  {
    if offset + 2 <= |b| {
      assert (a + b)[|a| + offset] == b[offset] && (a + b)[|a| + offset + 1] == b[offset + 1];
      HoldsNulInSecond(a, b, offset + 2);
    }
  }

  lemma HoldsNulConcat(a: seq<byte>, b: seq<byte>)
    requires |a| % 2 == 0
    ensures HoldsNul(a + b, 0) == (HoldsNul(a, 0) || HoldsNul(b, 0))
  {
    HoldsNulInFirst(a, b, 0);
    HoldsNulInSecond(a, b, 0);
  }

  // ----- reading a name piece by piece

  /** What is left of a name behind a piece, nothing if the piece ends the name or the name has ended before;
      none when the piece is not one of the name. */
  function Behind(piece: seq<byte>, left: seq<byte>): Option<seq<byte>> {
    if left == [] then Some([])
    else if HoldsNul(piece, 0) then if left == CutAtNul(piece) then Some([]) else None
    else if piece < left then Some(left[|piece|..]) else None
  }

  /** Nothing is left of a name but the NUL unit that the reader appends. */
  predicate IsEnd(left: seq<byte>) {
    left == [] || left == [0, 0]
  }

  /** The text is the beginning of a name, of which something is left; or it holds the whole name. */
  ghost predicate Begins(text: seq<byte>, name: seq<byte>, left: seq<byte>) {
    if left == [] then HoldsNul(text, 0) && CutAtNul(text) == name else !HoldsNul(text, 0) && name == text + left
  }

  lemma NothingRead(name: seq<byte>)
    requires name != []
    ensures Begins([], name, name)
  {
    assert [] + name == name;
  }

  /** A piece that fits brings the name forward. */
  lemma PieceFits(text: seq<byte>, name: seq<byte>, left: seq<byte>, piece: seq<byte>)
    requires |text| % 2 == 0 && |piece| % 2 == 0 && Begins(text, name, left) && Behind(piece, left).Some?
    ensures Begins(text + piece, name, Behind(piece, left).value)
  {
    HoldsNulConcat(text, piece);
    CutConcat(text, piece);
    if left != [] && !HoldsNul(piece, 0) {
      assert left == piece + left[|piece|..];
      Reassociate(text, piece, left[|piece|..]);
    }
  }

  /** After a piece that does not fit, no more text makes the name. */
  lemma PieceMisfits(text: seq<byte>, name: seq<byte>, left: seq<byte>, piece: seq<byte>, more: seq<byte>)
    requires |text| % 2 == 0 && |piece| % 2 == 0 && 2 <= |more|
    requires Begins(text, name, left) && Behind(piece, left).None?
    ensures CutAtNul(text + (piece + more)) != name
  {
    CutConcat(text, piece + more);
    CutConcat(piece, more);
    CutNotEmpty(more);
    if CutAtNul(text + (piece + more)) == name {
      SameBehind(text, CutAtNul(piece + more), left);
    }
  }

  lemma SameBehind(a: seq<byte>, b: seq<byte>, c: seq<byte>)
    requires a + b == a + c
    ensures b == c
  {
    assert (a + b)[|a|..] == b && (a + c)[|a|..] == c;
  }

  /** Text with the appended NUL unit is the name exactly when nothing else is left. */
  lemma TextEnds(text: seq<byte>, name: seq<byte>, left: seq<byte>)
    requires |text| % 2 == 0 && Begins(text, name, left)
    ensures CutAtNul(text + [0, 0]) == name <==> IsEnd(left)
  {
    CutConcat(text, [0, 0]);
    assert CutAtNul([0, 0]) == [0, 0];
    if left != [] && text + [0, 0] == text + left {
      SameBehind(text, [0, 0], left);
    }
  }

  // ----- the text of long-name records

  /** The text of records in stored order, of which the last one comes first. */
  function TextOf(parts: seq<LongPart>): seq<byte> {
    JoinedBackwards(Chunks(parts))
  }

  ghost predicate Sized(parts: seq<LongPart>) {
    forall i :: 0 <= i < |parts| ==> |parts[i].nameData| == 26
  }

  lemma TextOfFirst(parts: seq<LongPart>, first: LongPart, rest: seq<LongPart>)
    requires parts == [first] + rest
    ensures TextOf(parts) == TextOf(rest) + first.nameData
  {
    L.ChunksCons(first, rest);
  }

  lemma {:induction false} TextOfConcat(a: seq<LongPart>, b: seq<LongPart>)
    ensures TextOf(a + b) == TextOf(b) + TextOf(a)
    decreases |a|
  {
    if a == [] {
      assert a + b == b;
    } else {
      var first, rest := a[0], a[1..];
      TextOfConcat(rest, b);
      TextOfFirst(a, first, rest);
      Reassociate([first], rest, b);
      TextOfFirst(a + b, first, rest + b);
      Reassociate(TextOf(b), TextOf(rest), first.nameData);
    }
  }

  lemma {:induction false} TextSize(parts: seq<LongPart>)
    requires Sized(parts)
    ensures |TextOf(parts)| == 26 * |parts|
    decreases |parts|
  {
    if parts != [] {
      TextSize(parts[1..]);
      TextOfFirst(parts, parts[0], parts[1..]);
    }
  }

  /** The name that records spell, if there are records. */
  function NameText(parts: seq<LongPart>): Option<seq<byte>> {
    if parts == [] then None else Some(CutAtNul(TextOf(parts) + [0, 0]))
  }

  /** What is left of the name of a run when its last records have been read. */
  function LeftOf(front: seq<LongPart>, tail: seq<LongPart>): seq<byte> {
    if HoldsNul(TextOf(tail), 0) then [] else CutAtNul(TextOf(front) + [0, 0])
  }

  lemma TailBegins(front: seq<LongPart>, tail: seq<LongPart>)
    requires Sized(tail)
    ensures Begins(TextOf(tail), CutAtNul(TextOf(front + tail) + [0, 0]), LeftOf(front, tail))
  {
    TextSize(tail);
    TextOfConcat(front, tail);
    Reassociate(TextOf(tail), TextOf(front), [0, 0]);
    FirstBegins(TextOf(tail), TextOf(front) + [0, 0], |tail|);
  }

  lemma FirstBegins(first: seq<byte>, second: seq<byte>, count: nat)
    requires |first| == 26 * count && 2 <= |second|
    ensures Begins(first, CutAtNul(first + second), if HoldsNul(first, 0) then [] else CutAtNul(second))
  {
    CutConcat(first, second);
    CutNotEmpty(second);
  }

  lemma CutNotEmpty(text: seq<byte>)
    requires 2 <= |text|
    ensures CutAtNul(text) != []
  {
  }

  predicate StartsWithNul(bytes: seq<byte>) {
    2 <= |bytes| && bytes[0] == 0 && bytes[1] == 0
  }

  /** The last records of a run spell the whole name exactly when they hold its NUL unit, or the record in front
      of them, if there is one, starts with it. */
  lemma TailIsNameIff(front: seq<LongPart>, tail: seq<LongPart>)
    requires Sized(front) && Sized(tail)
    ensures IsEnd(LeftOf(front, tail)) <==>
              front == [] || HoldsNul(TextOf(tail), 0) || StartsWithNul(front[|front| - 1].nameData)
  {
    if front == [] {
      assert TextOf(front) + [0, 0] == [0, 0];
    } else {
      var rest, piece := front[..|front| - 1], front[|front| - 1];
      assert front == rest + [piece];
      TextOfConcat(rest, [piece]);
      TextOfFirst([piece], piece, []);
      assert TextOf([]) + piece.nameData == piece.nameData;
      Reassociate(piece.nameData, TextOf(rest), [0, 0]);
      FirstUnitCuts(piece.nameData, TextOf(rest) + [0, 0]);
      CutNotEmpty(TextOf(front) + [0, 0]);
    }
  }

  lemma FirstUnitCuts(piece: seq<byte>, rest: seq<byte>)
    requires 4 <= |piece|
    ensures CutAtNul(piece + rest) == [0, 0] <==> StartsWithNul(piece)
  {
    var text := piece + rest;
    assert text[0] == piece[0] && text[1] == piece[1];
    if StartsWithNul(piece) {
      assert text[..2] == [0, 0];
    } else {
      assert NameEnd(text, 0) >= 4;
    }
  }
}
