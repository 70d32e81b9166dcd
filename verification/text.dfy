/** Splitting text at a separator character and joining pieces with one,
    used to read the auditors' report lines back into findings. */
module Text {

  /** The pieces of `s` between occurrences of `sep`, empty pieces kept;
      `cur` is the part of the current piece read so far. */
  function Split(s: string, sep: char, cur: string): (r: seq<string>)
    ensures |r| >= 1
    decreases |s|
  {
    if s == [] then [cur]
    else if s[0] == sep then [cur] + Split(s[1..], sep, [])
    else Split(s[1..], sep, cur + [s[0]])
  }

  lemma {:induction false} SplitStep(piece: string, rest: string, sep: char, cur: string)
    requires sep !in piece
    ensures Split(piece + [sep] + rest, sep, cur) == [cur + piece] + Split(rest, sep, [])
    decreases |piece|
  {
    if piece == [] {
      assert piece + [sep] + rest == [sep] + rest;
      assert cur + piece == cur;
    } else {
      assert (piece + [sep] + rest)[0] == piece[0];
      assert (piece + [sep] + rest)[1..] == piece[1..] + [sep] + rest;
      SplitStep(piece[1..], rest, sep, cur + [piece[0]]);
      assert cur + [piece[0]] + piece[1..] == cur + piece;
    }
  }

  lemma {:induction false} SplitLast(piece: string, sep: char, cur: string)
    requires sep !in piece
    ensures Split(piece, sep, cur) == [cur + piece]
    decreases |piece|
  {
    if piece == [] {
      assert cur + piece == cur;
    } else {
      SplitLast(piece[1..], sep, cur + [piece[0]]);
      assert cur + [piece[0]] + piece[1..] == cur + piece;
    }
  }

  /** The pieces with `sep` between consecutive ones. */
  function Join(ws: seq<string>, sep: char): string
    requires |ws| >= 1
    decreases |ws|
  {
    if |ws| == 1 then ws[0] else ws[0] + [sep] + Join(ws[1..], sep)
  }

  /** Splitting undoes joining when no piece contains the separator. */
  lemma {:induction false} SplitJoin(ws: seq<string>, sep: char)
    requires |ws| >= 1
    requires forall i :: 0 <= i < |ws| ==> sep !in ws[i]
    ensures Split(Join(ws, sep), sep, []) == ws
    decreases |ws|
  {
    if |ws| == 1 {
      SplitLast(ws[0], sep, []);
      assert [] + ws[0] == ws[0];
    } else {
      SplitStep(ws[0], Join(ws[1..], sep), sep, []);
      assert [] + ws[0] == ws[0];
      SplitJoin(ws[1..], sep);
      assert ws == [ws[0]] + ws[1..];
    }
  }
}
