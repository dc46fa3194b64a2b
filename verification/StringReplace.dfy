/** The replacement loop the web server falls back to when GLib is too old to have one. */
module StringReplace {
  import opened Wrappers

  // ---------- what replacing means ----------

  /** Whether `find` is at the front of `s`. */
  predicate AtFront(s: string, find: string) { |find| <= |s| && s[..|find|] == find }

  /** One match fewer to make, when matches are limited. */
  function Fewer(left: Option<nat>): Option<nat> {
    if left.Some? && left.value > 0 then Some(left.value - 1) else left
  }

  /** Reads a string once, from left to right, and replaces every match it meets until none is left to make.
      The empty pattern matches once before each character and once at the end. */
  function Replaced(s: string, find: string, replace: string, left: Option<nat>): string {
    if left == Some(0) then s
    else if find == "" then
      if s == "" then replace else replace + [s[0]] + Replaced(s[1..], find, replace, Fewer(left))
    else if s == "" then s
    else if AtFront(s, find) then replace + Replaced(s[|find|..], find, replace, Fewer(left))
    else [s[0]] + Replaced(s[1..], find, replace, left)
  }

  /** How many matches that makes. */
  function Matches(s: string, find: string, left: Option<nat>): nat {
    if left == Some(0) then 0
    else if find == "" then 1 + if s == "" then 0 else Matches(s[1..], find, Fewer(left))
    else if s == "" then 0
    else if AtFront(s, find) then 1 + Matches(s[|find|..], find, Fewer(left))
    else Matches(s[1..], find, left)
  }

  predicate OccursAt(s: string, find: string, i: nat) { i + |find| <= |s| && s[i..i + |find|] == find }

  lemma OccursShift(s: string, find: string, i: nat, k: nat)
    requires i <= |s|
    ensures OccursAt(s[i..], find, k) <==> OccursAt(s, find, i + k)
  {
    if i + k + |find| <= |s| {
      assert s[i..][k..k + |find|] == s[i + k..i + k + |find|];
    }
  }

  // ---------- finding ----------

  /** The first occurrence from a position on, as strstr finds it. */
  method StrStr(s: string, find: string, from: nat) returns (next: Option<nat>)
    requires from <= |s|
    ensures next.Some? ==>
      from <= next.value && OccursAt(s, find, next.value) &&
      forall k: nat :: from <= k < next.value ==> !OccursAt(s, find, k)
    ensures next.None? ==> forall k: nat :: from <= k ==> !OccursAt(s, find, k)
  {
    var i := from;
    while i <= |s|
      invariant from <= i <= |s| + 1
      invariant forall k: nat :: from <= k < i ==> !OccursAt(s, find, k)
    {
      if i + |find| <= |s| && s[i..i + |find|] == find {
        return Some(i);
      }
      i := i + 1;
    }
    return None;
  }

  lemma StepOver(s: string, find: string, replace: string, left: Option<nat>)
    requires find != "" && left != Some(0) && s != "" && !OccursAt(s, find, 0)
    ensures Replaced(s, find, replace, left) == [s[0]] + Replaced(s[1..], find, replace, left)
    ensures Matches(s, find, left) == Matches(s[1..], find, left)
  {
    if |find| <= |s| {
      assert s[0..0 + |find|] == s[..|find|];
    }
  }

  lemma StepAt(s: string, find: string, replace: string, left: Option<nat>)
    requires find != "" && left != Some(0) && OccursAt(s, find, 0)
    ensures Replaced(s, find, replace, left) == replace + Replaced(s[|find|..], find, replace, Fewer(left))
    ensures Matches(s, find, left) == 1 + Matches(s[|find|..], find, Fewer(left))
  {
    assert s[0..0 + |find|] == s[..|find|];
  }

  lemma FirstShifts(s: string, find: string, j: nat)
    requires 0 < j && OccursAt(s, find, j) && forall k: nat :: k < j ==> !OccursAt(s, find, k)
    ensures OccursAt(s[1..], find, j - 1) && forall k: nat :: k < j - 1 ==> !OccursAt(s[1..], find, k)
  {
    forall k: nat ensures OccursAt(s[1..], find, k) <==> OccursAt(s, find, 1 + k) {
      OccursShift(s, find, 1, k);
    }
  }

  /** Reading runs up to the first match without change. */
  lemma {:induction false} SkipTo(s: string, find: string, replace: string, left: Option<nat>, j: nat)
    requires find != "" && left != Some(0) && OccursAt(s, find, j) && forall k: nat :: k < j ==> !OccursAt(s, find, k)
    ensures Replaced(s, find, replace, left) == s[..j] + replace + Replaced(s[j + |find|..], find, replace, Fewer(left))
    ensures Matches(s, find, left) == 1 + Matches(s[j + |find|..], find, Fewer(left))
  {
    hide Replaced, Matches;
    if j == 0 {
      StepAt(s, find, replace, left);
      assert s[..0] == "";
    } else {
      assert !OccursAt(s, find, 0);
      StepOver(s, find, replace, left);
      FirstShifts(s, find, j);
      SkipTo(s[1..], find, replace, left, j - 1);
      assert s[1..][j - 1 + |find|..] == s[j + |find|..];
      assert [s[0]] + s[1..][..j - 1] == s[..j];
    }
  }

  lemma {:induction false} NoMatch(s: string, find: string, replace: string, left: Option<nat>)
    requires find != "" && forall k: nat :: !OccursAt(s, find, k)
    ensures Replaced(s, find, replace, left) == s && Matches(s, find, left) == 0
  {
    if s != "" {
      assert !OccursAt(s, find, 0);
      forall k: nat ensures !OccursAt(s[1..], find, k) {
        OccursShift(s, find, 1, k);
      }
      NoMatch(s[1..], find, replace, left);
    }
  }

  // ---------- the same, by cutting the string into pieces ----------

  /** Puts a character in front of the first piece. */
  function OntoFirst(c: char, pieces: seq<string>): seq<string>
    requires pieces != []
  {
    [[c] + pieces[0]] + pieces[1..]
  }

  /** What lies between the matches. */
  function Pieces(s: string, find: string, left: Option<nat>): (pieces: seq<string>)
    ensures pieces != []
  {
    if left == Some(0) then [s]
    else if find == "" then
      if s == "" then ["", ""] else [""] + OntoFirst(s[0], Pieces(s[1..], find, Fewer(left)))
    else if s == "" then [s]
    else if AtFront(s, find) then [""] + Pieces(s[|find|..], find, Fewer(left))
    else OntoFirst(s[0], Pieces(s[1..], find, left))
  }

  function Join(pieces: seq<string>, between: string): string {
    if pieces == [] then "" else if |pieces| == 1 then pieces[0] else pieces[0] + between + Join(pieces[1..], between)
  }

  lemma JoinOntoFirst(c: char, pieces: seq<string>, between: string)
    requires pieces != []
    ensures Join(OntoFirst(c, pieces), between) == [c] + Join(pieces, between)
  {
    assert OntoFirst(c, pieces)[1..] == pieces[1..];
    if |pieces| > 1 {
      assert [c] + (pieces[0] + between + Join(pieces[1..], between)) ==
        [c] + pieces[0] + between + Join(pieces[1..], between);
    }
  }

  lemma JoinEmptyFirst(pieces: seq<string>, between: string)
    requires pieces != []
    ensures Join([""] + pieces, between) == between + Join(pieces, between)
  {
    assert ([""] + pieces)[1..] == pieces;
    assert "" + between == between;
  }

  ghost predicate Joined(s: string, find: string, replace: string, left: Option<nat>) {
    && Join(Pieces(s, find, left), find) == s
    && Join(Pieces(s, find, left), replace) == Replaced(s, find, replace, left)
    && |Pieces(s, find, left)| == Matches(s, find, left) + 1
    && (left.Some? ==> Matches(s, find, left) <= left.value)
  }

  lemma JoinedAtEnd(s: string, find: string, replace: string, left: Option<nat>)
    requires left == Some(0) || s == ""
    ensures Joined(s, find, replace, left)
  {
    hide Join;
    JoinOne(s, find);
    JoinOne(s, replace);
  }

  /** One match of the empty pattern, before a character. */
  lemma BetweenOnce(s: string, replace: string, left: Option<nat>)
    requires s != "" && left != Some(0)
    ensures var pieces := Pieces(s[1..], "", Fewer(left));
      && Pieces(s, "", left) == [""] + OntoFirst(s[0], pieces) && |OntoFirst(s[0], pieces)| == |pieces|
      && Replaced(s, "", replace, left) == replace + ([s[0]] + Replaced(s[1..], "", replace, Fewer(left)))
      && Matches(s, "", left) == 1 + Matches(s[1..], "", Fewer(left))
  {
  }

  lemma FrontBack(s: string)
    requires s != ""
    ensures "" + ([s[0]] + s[1..]) == s
  {
  }

  lemma JoinedBetween(s: string, replace: string, left: Option<nat>)
    requires s != "" && left != Some(0) && Joined(s[1..], "", replace, Fewer(left))
    ensures Joined(s, "", replace, left)
  {
    hide Join, Pieces, Replaced, Matches, OntoFirst;
    var pieces := Pieces(s[1..], "", Fewer(left));
    BetweenOnce(s, replace, left);
    JoinOntoFirst(s[0], pieces, "");
    JoinOntoFirst(s[0], pieces, replace);
    JoinEmptyFirst(OntoFirst(s[0], pieces), "");
    JoinEmptyFirst(OntoFirst(s[0], pieces), replace);
    FrontBack(s);
  }

  lemma JoinedOver(s: string, find: string, replace: string, left: Option<nat>)
    requires s != "" && find != "" && left != Some(0) && !AtFront(s, find) && Joined(s[1..], find, replace, left)
    ensures Joined(s, find, replace, left)
  {
    hide Join, AtFront;
    var pieces := Pieces(s[1..], find, left);
    JoinOntoFirst(s[0], pieces, find);
    JoinOntoFirst(s[0], pieces, replace);
  }

  lemma JoinedAt(s: string, find: string, replace: string, left: Option<nat>)
    requires find != "" && left != Some(0) && AtFront(s, find) && Joined(s[|find|..], find, replace, Fewer(left))
    ensures Joined(s, find, replace, left)
  {
    hide Join;
    JoinEmptyFirst(Pieces(s[|find|..], find, Fewer(left)), find);
    JoinEmptyFirst(Pieces(s[|find|..], find, Fewer(left)), replace);
  }

  lemma {:induction false} AllJoined(s: string, find: string, replace: string, left: Option<nat>)
    ensures Joined(s, find, replace, left)
  {
    hide Joined;
    if left == Some(0) || s == "" {
      JoinedAtEnd(s, find, replace, left);
    } else if find == "" {
      AllJoined(s[1..], find, replace, Fewer(left));
      JoinedBetween(s, replace, left);
    } else if AtFront(s, find) {
      AllJoined(s[|find|..], find, replace, Fewer(left));
      JoinedAt(s, find, replace, left);
    } else {
      AllJoined(s[1..], find, replace, left);
      JoinedOver(s, find, replace, left);
    }
  }

  /** The pieces joined with the pattern are the string; joined with the replacement they are the result. */
  lemma ReplacedIsJoined(s: string, find: string, replace: string, left: Option<nat>)
    ensures Join(Pieces(s, find, left), find) == s
    ensures Join(Pieces(s, find, left), replace) == Replaced(s, find, replace, left)
    ensures |Pieces(s, find, left)| == Matches(s, find, left) + 1
    ensures left.Some? ==> Matches(s, find, left) <= left.value
  {
    AllJoined(s, find, replace, left);
  }

  lemma JoinOne(s: string, between: string)
    ensures Join([s], between) == s && Join(["", ""], between) == between
  {
    assert ["", ""][1..] == [""];
  }

  /** No match begins inside a piece that a match follows. */
  ghost predicate Leftmost(piece: string, find: string) {
    forall k: nat :: k < |piece| ==> !OccursAt(piece + find, find, k)
  }

  ghost predicate Free(piece: string, find: string) { forall k: nat :: !OccursAt(piece, find, k) }

  /** Whether the limit, if any, was not what ended the replacing. */
  predicate RanOut(left: Option<nat>, matches: nat) { left.Some? && matches == left.value }

  lemma JoinBegins(pieces: seq<string>, between: string)
    requires pieces != []
    ensures |pieces| == 1 ==> Join(pieces, between) == pieces[0]
    ensures |pieces| > 1 ==>
      |pieces[0] + between| <= |Join(pieces, between)| &&
      Join(pieces, between)[..|pieces[0] + between|] == pieces[0] + between
  {
  }

  lemma LeftmostOnto(c: char, piece: string, find: string, s: string)
    requires Leftmost(piece, find) && find != "" && !AtFront(s, find)
    requires |piece + find| + 1 <= |s| && s[..|piece + find| + 1] == [c] + piece + find
    ensures Leftmost([c] + piece, find)
  {
    var whole := [c] + piece + find;
    forall k: nat | k < |[c] + piece| ensures !OccursAt(whole, find, k) {
      assert whole[1..] == piece + find;
      if k == 0 {
        assert whole[0..0 + |find|] == s[..|find|];
      } else {
        OccursShift(whole, find, 1, k - 1);
      }
    }
  }

  lemma FreeOnto(s: string, find: string)
    requires s != "" && find != "" && !AtFront(s, find) && Free(s[1..], find)
    ensures Free(s, find)
  {
    forall k: nat ensures !OccursAt(s, find, k) {
      if k == 0 {
        if |find| <= |s| {
          assert s[0..0 + |find|] == s[..|find|];
        }
      } else {
        OccursShift(s, find, 1, k - 1);
      }
    }
  }

  ghost predicate Clean(pieces: seq<string>, find: string, ranOut: bool) {
    && (forall i :: 0 <= i < |pieces| - 1 ==> Leftmost(pieces[i], find))
    && (pieces != [] && !ranOut ==> Free(pieces[|pieces| - 1], find))
  }

  lemma CleanBefore(pieces: seq<string>, find: string, ranOut: bool)
    requires pieces != [] && Clean(pieces, find, ranOut)
    ensures Clean([""] + pieces, find, ranOut)
  {
    hide Free;
  }

  lemma CleanOnto(c: char, pieces: seq<string>, find: string, s: string, ranOut: bool)
    requires pieces != [] && Clean(pieces, find, ranOut) && find != "" && !AtFront(s, find)
    requires s == [c] + Join(pieces, find)
    ensures Clean(OntoFirst(c, pieces), find, ranOut)
  {
    hide Leftmost, Free, AtFront, Join;
    JoinBegins(pieces, find);
    if |pieces| == 1 {
      assert s[1..] == pieces[0];
      if !ranOut {
        FreeOnto(s, find);
      }
    } else {
      assert s[..|pieces[0] + find| + 1] == [c] + pieces[0] + find by {
        assert s[1..] == Join(pieces, find);
        assert s[1..][..|pieces[0] + find|] == pieces[0] + find;
      }
      LeftmostOnto(c, pieces[0], find, s);
    }
  }

  /** The matches are the leftmost ones, and unless the limit ran out none is left. */
  lemma {:induction false} PiecesAreClean(s: string, find: string, left: Option<nat>)
    requires find != ""
    ensures Clean(Pieces(s, find, left), find, RanOut(left, Matches(s, find, left)))
  {
    hide Join, Clean, Replaced;
    if left == Some(0) || s == "" {
      CleanOne(s, find, left);
    } else if AtFront(s, find) {
      PiecesAreClean(s[|find|..], find, Fewer(left));
      CleanBefore(Pieces(s[|find|..], find, Fewer(left)), find, RanOut(left, Matches(s, find, left)));
    } else {
      PiecesAreClean(s[1..], find, left);
      ReplacedIsJoined(s[1..], find, find, left);
      CleanOnto(s[0], Pieces(s[1..], find, left), find, s, RanOut(left, Matches(s, find, left)));
    }
  }

  lemma CleanOne(s: string, find: string, left: Option<nat>)
    requires find != "" && (left == Some(0) || s == "")
    ensures Clean([s], find, RanOut(left, 0))
  {
    NothingInEmpty(find);
  }

  lemma NothingInEmpty(find: string)
    requires find != ""
    ensures Free("", find)
  {
  }

  /** The empty pattern matches before each character, and at the end when the limit lets it get there. */
  lemma {:induction false} EmptyPatternPieces(s: string, left: Option<nat>)
    requires left != Some(0)
    ensures Matches(s, "", left) == if left.Some? && left.value <= |s| then left.value else |s| + 1
    ensures forall i :: 0 < i < |Pieces(s, "", left)| - 1 ==> |Pieces(s, "", left)[i]| == 1
    ensures Pieces(s, "", left)[0] == ""
  {
    ReplacedIsJoined(s, "", "", left);
    if s != "" && Fewer(left) != Some(0) {
      EmptyPatternPieces(s[1..], Fewer(left));
      ReplacedIsJoined(s[1..], "", "", Fewer(left));
    }
  }

  function LeftOf(limit: nat): Option<nat> { if limit == 0 then None else Some(limit) }

  /** One turn of the loop: what is replaced up to and with the match at `j` of the rest. */
  lemma Turn(rest: string, find: string, replace: string, left: Option<nat>, j: nat)
    requires left != Some(0) && OccursAt(rest, find, j) && forall k: nat :: k < j ==> !OccursAt(rest, find, k)
    ensures find != "" ==>
      Replaced(rest, find, replace, left) ==
        rest[..j] + replace + Replaced(rest[j + |find|..], find, replace, Fewer(left))
    ensures find != "" ==> Matches(rest, find, left) == 1 + Matches(rest[j + |find|..], find, Fewer(left))
    ensures find == "" ==> j == 0
    ensures find == "" && rest == "" ==>
      Replaced(rest, find, replace, left) == replace && Matches(rest, find, left) == 1
    ensures find == "" && rest != "" ==>
      Replaced(rest, find, replace, left) == replace + [rest[0]] + Replaced(rest[1..], find, replace, Fewer(left))
    ensures find == "" && rest != "" ==> Matches(rest, find, left) == 1 + Matches(rest[1..], find, Fewer(left))
  {
    if find == "" {
      assert OccursAt(rest, find, 0);
    } else {
      SkipTo(rest, find, replace, left, j);
    }
  }

  // ---------- the string and its loop ----------

  /** A GString: the characters before the terminating NUL. */
  class GString {
    var str: string

    constructor (s: string)
      ensures str == s
    {
      str := s;
    }

    method Erase(pos: nat, len: nat)
      requires pos + len <= |str|
      modifies this
      ensures str == old(str)[..pos] + old(str)[pos + len..]
    {
      str := str[..pos] + str[pos + len..];
    }

    method Insert(pos: nat, val: string)
      requires pos <= |str|
      modifies this
      ensures str == old(str)[..pos] + val + old(str)[pos..]
    {
      str := str[..pos] + val + str[pos..];
    }

    /** Replaces in place, erasing and inserting as it goes; a limit of 0 means no limit. */
    method Replace(find: string, replace: string, limit: nat) returns (n: nat)
      modifies this
      ensures str == Replaced(old(str), find, replace, LeftOf(limit))
      ensures n == Matches(old(str), find, LeftOf(limit))
    {
      hide Replaced, Matches, OccursAt, Goes;
      ghost var result, matches := Replaced(str, find, replace, LeftOf(limit)), Matches(str, find, LeftOf(limit));
      ghost var left := LeftOf(limit);
      var cur := 0;
      n := 0;
      GoesFrom(str, find, replace, left);
      while true
        invariant 0 <= cur <= |str| && left == if limit == 0 then None else Some(limit - n)
        invariant limit == 0 || n < limit
        invariant Goes(result, matches, str, cur, n, find, replace, left)
        decreases |str| - cur
      {
        var next := StrStr(str, find, cur);
        if next.None? {
          GoesNoMore(result, matches, str, cur, n, find, replace, left);
          break;
        }
        var pos := next.value;
        GoesOn(result, matches, str, cur, n, find, replace, left, pos);
        Erase(pos, |find|);
        Insert(pos, replace);
        cur := pos + |replace|;
        n := n + 1;
        left := Fewer(left);
        if |find| == 0 {
          if cur == |str| {
            break;
          } else {
            cur := cur + 1;
          }
        }
        if n == limit {
          GoesNoFurther(result, matches, str, cur, n, find, replace);
          break;
        }
      }
    }
  }

  function EditedAt(s: string, pos: nat, len: nat, replace: string): string
    requires pos + len <= |s|
  {
    var t := s[..pos] + s[pos + len..];
    t[..pos] + replace + t[pos..]
  }

  /** The loop's progress: up to `cur` the string is finished, and from there it is still to be replaced. */
  ghost predicate Goes(result: string, matches: nat, s: string, cur: nat, n: nat, find: string, replace: string,
    left: Option<nat>) {
    cur <= |s| && result == s[..cur] + Replaced(s[cur..], find, replace, left) &&
      matches == n + Matches(s[cur..], find, left)
  }

  lemma GoesFrom(s: string, find: string, replace: string, left: Option<nat>)
    ensures Goes(Replaced(s, find, replace, left), Matches(s, find, left), s, 0, 0, find, replace, left)
  {
    hide Replaced, Matches;
    assert s[0..] == s;
  }

  lemma GoesNoMore(result: string, matches: nat, s: string, cur: nat, n: nat, find: string, replace: string,
    left: Option<nat>)
    requires Goes(result, matches, s, cur, n, find, replace, left) && 
      forall k: nat :: cur <= k ==> !OccursAt(s, find, k)
    ensures result == s && matches == n
  {
    hide OccursAt, Replaced, Matches;
    FirstInRest(s, find, cur, s[cur..], None);
    AllDone(s[cur..], find, replace, left);
  }

  lemma GoesNoFurther(result: string, matches: nat, s: string, cur: nat, n: nat, find: string, replace: string)
    requires Goes(result, matches, s, cur, n, find, replace, Some(0))
    ensures result == s && matches == n
  {
    NoneLeft(s[cur..], find, replace);
  }

  /** One turn: erase the match, insert the replacement, go behind it, and past one character when the pattern is
      empty. */
  lemma GoesOn(result: string, matches: nat, s: string, cur: nat, n: nat, find: string, replace: string,
    left: Option<nat>, pos: nat)
    requires Goes(result, matches, s, cur, n, find, replace, left) && left != Some(0) && cur <= pos
    requires OccursAt(s, find, pos) && forall k: nat :: cur <= k < pos ==> !OccursAt(s, find, k)
    ensures pos + |find| <= |s|
    ensures var t, end := EditedAt(s, pos, |find|, replace), pos + |replace|;
      && end <= |t| && |t| - end == |s| - pos - |find|
      && (find != "" ==> Goes(result, matches, t, end, n + 1, find, replace, Fewer(left)))
      && (find == "" && end == |t| ==> result == t && matches == n + 1)
      && (find == "" && end < |t| ==>
            pos == cur && Goes(result, matches, t, end + 1, n + 1, find, replace, Fewer(left)))
  {
    hide OccursAt, Replaced, Matches;
    var done, rest, j := s[..cur], s[cur..], pos - cur;
    assert s == done + rest;
    FirstInRest(s, find, cur, rest, Some(pos));
    Turn(rest, find, replace, left, j);
    Edited(done, rest, j, |find|, replace);
    var t, end := EditedAt(s, pos, |find|, replace), pos + |replace|;
    var front, back := done + rest[..j] + replace, rest[j + |find|..];
    assert t == front + back && t[..end] == front && t[end..] == back;
    if find != "" {
      Regrouped(done, rest[..j], replace, Replaced(back, find, replace, Fewer(left)));
    } else if end == |t| {
      assert rest == "";
    } else {
      Passed(done, rest, replace, Replaced(rest[1..], find, replace, Fewer(left)));
      assert t[end + 1..] == rest[1..] && t[..end + 1] == front + [rest[0]];
    }
  }

  /** What strstr finds in the whole string, told of the part not yet read. */
  lemma FirstInRest(str: string, find: string, cur: nat, rest: string, next: Option<nat>)
    requires cur <= |str| && str[cur..] == rest
    requires next.Some? ==>
      cur <= next.value && OccursAt(str, find, next.value) &&
      forall k: nat :: cur <= k < next.value ==> !OccursAt(str, find, k)
    requires next.None? ==> forall k: nat :: cur <= k ==> !OccursAt(str, find, k)
    ensures next.None? ==> forall k: nat :: !OccursAt(rest, find, k)
    ensures next.Some? ==>
      next.value - cur + |find| <= |rest| && OccursAt(rest, find, next.value - cur) &&
      forall k: nat :: k < next.value - cur ==> !OccursAt(rest, find, k)
  {
    forall k: nat ensures OccursAt(rest, find, k) <==> OccursAt(str, find, cur + k) {
      OccursShift(str, find, cur, k);
    }
  }

  /** Erasing and inserting behind `done`. */
  lemma Edited(done: string, rest: string, j: nat, len: nat, replace: string)
    requires j + len <= |rest|
    ensures EditedAt(done + rest, |done| + j, len, replace) == done + rest[..j] + replace + rest[j + len..]
  {
    var s, pos := done + rest, |done| + j;
    assert s[..pos] == done + rest[..j];
    assert s[pos + len..] == rest[j + len..];
  }

  lemma Regrouped(done: string, before: string, replace: string, x: string)
    ensures done + (before + replace + x) == done + before + replace + x
  {
  }

  lemma Passed(done: string, rest: string, replace: string, x: string)
    requires rest != ""
    ensures done + rest[..0] + replace + [rest[0]] + x == done + (replace + [rest[0]] + x)
  {
    assert done + rest[..0] == done;
  }

  lemma AllDone(s: string, find: string, replace: string, left: Option<nat>)
    requires forall k: nat :: !OccursAt(s, find, k)
    ensures Replaced(s, find, replace, left) == s && Matches(s, find, left) == 0
  {
    if find == "" {
      assert OccursAt(s, find, 0);
    }
    NoMatch(s, find, replace, left);
  }

  lemma NoneLeft(s: string, find: string, replace: string)
    ensures Replaced(s, find, replace, Some(0)) == s && Matches(s, find, Some(0)) == 0
  {
  }
}
