/** Splitting a sequence at a separator, as Python's `split` does, and writing
    pieces that are each followed by one. */
module Splitting {

  function Split<T(==)>(s: seq<T>, sep: T): (pieces: seq<seq<T>>)
    ensures pieces != []
  {
    if s == [] then
      [[]]
    else
      var rest := Split(s[1..], sep);
      if s[0] == sep then [[]] + rest else [[s[0]] + rest[0]] + rest[1..]
  }

  /** Every piece followed by the separator. */
  function Terminated<T>(pieces: seq<seq<T>>, sep: T): seq<T> {
    if pieces == [] then [] else pieces[0] + [sep] + Terminated(pieces[1..], sep)
  }

  lemma {:induction false} TerminatedSplit<T>(s: seq<T>, sep: T)
    ensures Terminated(Split(s, sep), sep) == s + [sep]
  {
    if s == [] {
      assert Split(s, sep) == [[]];
    } else {
      TerminatedSplit(s[1..], sep);
      var rest := Split(s[1..], sep);
      if s[0] == sep {
        assert ([[]] + rest)[1..] == rest;
        assert s + [sep] == [sep] + (s[1..] + [sep]);
      } else {
        var pieces := [[s[0]] + rest[0]] + rest[1..];
        assert pieces[1..] == rest[1..];
        calc {
          Terminated(pieces, sep);
          ([s[0]] + rest[0]) + [sep] + Terminated(rest[1..], sep);
          [s[0]] + (rest[0] + [sep] + Terminated(rest[1..], sep));
          [s[0]] + Terminated(rest, sep);
          [s[0]] + (s[1..] + [sep]);
          s + [sep];
        }
      }
    }
  }

  lemma {:induction false} SplitOnePiece<T>(piece: seq<T>, sep: T)
    requires sep !in piece
    ensures Split(piece, sep) == [piece]
  {
    if piece != [] {
      SplitOnePiece(piece[1..], sep);
      assert [piece[0]] + piece[1..] == piece;
    }
  }

  lemma {:induction false} SplitAtSeparator<T>(piece: seq<T>, rest: seq<T>, sep: T)
    requires sep !in piece
    ensures Split(piece + [sep] + rest, sep) == [piece] + Split(rest, sep)
  {
    var s := piece + [sep] + rest;
    if piece == [] {
      assert s[1..] == rest;
    } else {
      SplitAtSeparator(piece[1..], rest, sep);
      assert s[1..] == piece[1..] + [sep] + rest;
      assert [piece[0]] + piece[1..] == piece;
    }
  }

  /** Splitting what was written, without its last separator, gives back the
      pieces. */
  lemma {:induction false} SplitTerminated<T>(pieces: seq<seq<T>>, sep: T)
    requires pieces != [] && forall i :: 0 <= i < |pieces| ==> sep !in pieces[i]
    ensures var raw := Terminated(pieces, sep);
      raw != [] && raw[|raw| - 1] == sep && Split(raw[..|raw| - 1], sep) == pieces
  {
    var raw := Terminated(pieces, sep);
    if |pieces| == 1 {
      assert Terminated(pieces[1..], sep) == [];
      assert raw[..|raw| - 1] == pieces[0];
      SplitOnePiece(pieces[0], sep);
    } else {
      var tail := Terminated(pieces[1..], sep);
      SplitTerminated(pieces[1..], sep);
      assert raw[..|raw| - 1] == pieces[0] + [sep] + tail[..|tail| - 1];
      SplitAtSeparator(pieces[0], tail[..|tail| - 1], sep);
      assert [pieces[0]] + pieces[1..] == pieces;
    }
  }

  lemma {:induction false} TerminatedAppend<T>(pieces: seq<seq<T>>, piece: seq<T>, sep: T)
    ensures Terminated(pieces + [piece], sep) == Terminated(pieces, sep) + (piece + [sep])
  {
    if pieces == [] {
      assert (pieces + [piece])[1..] == [];
    } else {
      TerminatedAppend(pieces[1..], piece, sep);
      assert (pieces + [piece])[1..] == pieces[1..] + [piece];
    }
  }

  lemma {:induction false} TerminatedKeepsOut<T>(pieces: seq<seq<T>>, sep: T, x: T)
    requires x != sep && forall i :: 0 <= i < |pieces| ==> x !in pieces[i]
    ensures x !in Terminated(pieces, sep)
  {
    if pieces != [] {
      TerminatedKeepsOut(pieces[1..], sep, x);
    }
  }
}
