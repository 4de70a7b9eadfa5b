/** Splitting text at separators and joining it again. */
module Splitting {

  /** The pieces between separators; there is always one more than there are separators. */
  function Split(s: string, separator: char -> bool): (r: seq<string>)
    ensures r != []
  {
    if s == [] then [""]
    else if separator(s[0]) then [""] + Split(s[1..], separator)
    else var rest := Split(s[1..], separator); [[s[0]] + rest[0]] + rest[1..]
  }

  function Join(pieces: seq<string>, c: char): string {
    if pieces == [] then ""
    else if |pieces| == 1 then pieces[0]
    else pieces[0] + [c] + Join(pieces[1..], c)
  }

  predicate Free(piece: string, separator: char -> bool) {
    forall i :: 0 <= i < |piece| ==> !separator(piece[i])
  }

  lemma {:induction false} SplitFree(piece: string, separator: char -> bool)
    requires Free(piece, separator)
    ensures Split(piece, separator) == [piece]
  {
    if piece != [] {
      SplitFree(piece[1..], separator);
      assert [piece[0]] + piece[1..] == piece;
    }
  }

  lemma {:induction false} SplitFirst(piece: string, c: char, rest: string, separator: char -> bool)
    requires Free(piece, separator) && separator(c)
    ensures Split(piece + [c] + rest, separator) == [piece] + Split(rest, separator)
  {
    var s := piece + [c] + rest;
    if piece == [] {
      assert s == [c] + rest;
      assert s[1..] == rest;
    } else {
      SplitFirst(piece[1..], c, rest, separator);
      assert s[0] == piece[0] && s[1..] == piece[1..] + [c] + rest;
      assert [piece[0]] + piece[1..] == piece;
    }
  }

  lemma {:induction false} SplitJoin(pieces: seq<string>, c: char, separator: char -> bool)
    requires pieces != [] && separator(c) && forall i :: 0 <= i < |pieces| ==> Free(pieces[i], separator)
    ensures Split(Join(pieces, c), separator) == pieces
  {
    if |pieces| == 1 {
      SplitFree(pieces[0], separator);
    } else {
      SplitJoin(pieces[1..], c, separator);
      SplitFirst(pieces[0], c, Join(pieces[1..], c), separator);
      assert [pieces[0]] + pieces[1..] == pieces;
    }
  }

  lemma {:induction false} SplitPieces(s: string, separator: char -> bool)
    ensures forall i :: 0 <= i < |Split(s, separator)| ==> Free(Split(s, separator)[i], separator)
  {
    if s != [] {
      SplitPieces(s[1..], separator);
      var rest := Split(s[1..], separator);
      assert Free(rest[0], separator);
      if !separator(s[0]) { assert Free([s[0]] + rest[0], separator); }
    }
  }

  lemma {:induction false} JoinLast(pieces: seq<string>, last: string, c: char)
    requires pieces != []
    ensures Join(pieces + [last], c) == Join(pieces, c) + [c] + last
  {
    if |pieces| == 1 {
      assert (pieces + [last])[1..] == [last];
    } else {
      JoinLast(pieces[1..], last, c);
      assert (pieces + [last])[1..] == pieces[1..] + [last];
    }
  }

  /** Reading one piece off the front. */
  lemma SplitStep(s: string, from: nat, end: nat, separator: char -> bool)
    requires from <= end <= |s| && Free(s[from..end], separator)
    requires end < |s| ==> separator(s[end])
    ensures Split(s[from..], separator) == [s[from..end]] + if end < |s| then Split(s[end + 1..], separator) else []
  {
    if end < |s| {
      assert s[from..] == s[from..end] + [s[end]] + s[end + 1..];
      SplitFirst(s[from..end], s[end], s[end + 1..], separator);
    } else {
      assert s[from..] == s[from..end];
      SplitFree(s[from..], separator);
    }
  }
}
