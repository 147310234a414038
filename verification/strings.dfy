/** The two JavaScript string built-ins the adapter leans on, over `seq<char>`:
    `Array.prototype.join` and `String.prototype.split` with a one-character
    separator, and the facts that make them inverses of each other. */
module Strings {

  /** The pieces in order with `sep` between each neighbouring pair; no pieces
      join to the empty string (`Array.prototype.join`). */
  function Join(pieces: seq<string>, sep: string): string
  {
    if |pieces| == 0 then ""
    else if |pieces| == 1 then pieces[0]
    else pieces[0] + sep + Join(pieces[1..], sep)
  }

  /** The summed lengths of the pieces. */
  function TotalLength(pieces: seq<string>): nat
  {
    if |pieces| == 0 then 0 else |pieces[0]| + TotalLength(pieces[1..])
  }

  /** Number of occurrences of `c` in `s`. */
  function Count(s: string, c: char): nat
  {
    if |s| == 0 then 0 else (if s[0] == c then 1 else 0) + Count(s[1..], c)
  }

  /** `s.split(c)`: the maximal runs of `s` free of `c`, in order. There is one
      more piece than there are separators, so the empty string splits into
      one empty piece, and adjacent separators produce empty pieces. */
  function Split(s: string, c: char): (pieces: seq<string>)
    ensures |pieces| == Count(s, c) + 1
    ensures forall i :: 0 <= i < |pieces| ==> c !in pieces[i]
  {
    if |s| == 0 then [""]
    else
      var rest := Split(s[1..], c);
      if s[0] == c then [""] + rest
      else [[s[0]] + rest[0]] + rest[1..]
  }

  /** The shape of a join: it opens with the first piece, closes with the
      last, and is as long as all pieces plus one separator per neighbouring
      pair. */
  lemma {:induction false} JoinShape(pieces: seq<string>, sep: string)
    requires |pieces| >= 1
    ensures var r := Join(pieces, sep);
      && |r| == TotalLength(pieces) + (|pieces| - 1) * |sep|
      && |pieces[0]| <= |r| && r[..|pieces[0]|] == pieces[0]
      && |pieces[|pieces| - 1]| <= |r| && r[|r| - |pieces[|pieces| - 1]|..] == pieces[|pieces| - 1]
    decreases |pieces|
  {
    if |pieces| > 1 {
      var rest := Join(pieces[1..], sep);
      JoinShape(pieces[1..], sep);
      assert (|pieces| - 1) * |sep| == |sep| + (|pieces| - 2) * |sep|;
      var r := pieces[0] + sep + rest;
      assert r[..|pieces[0]|] == pieces[0];
      assert r[|r| - |rest|..] == rest;
    }
  }

  /** Prepending to the first piece prepends to the joined string. */
  lemma JoinConsHead(x: string, pieces: seq<string>, sep: string)
    requires |pieces| >= 1
    ensures Join([x + pieces[0]] + pieces[1..], sep) == x + Join(pieces, sep)
  {
    var qs := [x + pieces[0]] + pieces[1..];
    if |pieces| == 1 {
      assert qs == [x + pieces[0]];
    } else {
      assert qs[1..] == pieces[1..];
    }
  }

  /** Joining one more piece appends the separator and that piece. */
  lemma {:induction false} JoinSnoc(pieces: seq<string>, last: string, sep: string)
    requires |pieces| >= 1
    ensures Join(pieces + [last], sep) == Join(pieces, sep) + sep + last
    decreases |pieces|
  {
    if |pieces| == 1 {
      assert (pieces + [last])[1..] == [last];
    } else {
      assert (pieces + [last])[1..] == pieces[1..] + [last];
      JoinSnoc(pieces[1..], last, sep);
    }
  }

  /** A character found in no piece and not in the separator is not in the
      joined string either. */
  lemma {:induction false} JoinAvoids(pieces: seq<string>, sep: string, c: char)
    requires forall i :: 0 <= i < |pieces| ==> c !in pieces[i]
    requires c !in sep
    ensures c !in Join(pieces, sep)
    decreases |pieces|
  {
    if |pieces| > 1 {
      JoinAvoids(pieces[1..], sep, c);
    }
  }

  /** Splitting a string free of the separator yields that string alone. */
  lemma {:induction false} SplitWithoutSeparator(s: string, c: char)
    requires c !in s
    ensures Split(s, c) == [s]
    decreases |s|
  {
    if |s| > 0 {
      SplitWithoutSeparator(s[1..], c);
      assert [s[0]] + s[1..] == s;
    }
  }

  /** Splitting at the first separator peels off the text before it. */
  lemma {:induction false} SplitAtFirst(x: string, c: char, y: string)
    requires c !in x
    ensures Split(x + [c] + y, c) == [x] + Split(y, c)
    decreases |x|
  {
    var s := x + [c] + y;
    if |x| == 0 {
      assert s[1..] == y;
    } else {
      assert s[1..] == x[1..] + [c] + y;
      SplitAtFirst(x[1..], c, y);
      assert [x[0]] + x[1..] == x;
    }
  }

  /** Joining the pieces of a split restores the original string exactly. */
  lemma {:induction false} JoinSplit(s: string, c: char)
    ensures Join(Split(s, c), [c]) == s
    decreases |s|
  {
    if |s| > 0 {
      var rest := Split(s[1..], c);
      JoinSplit(s[1..], c);
      if s[0] == c {
        assert ([""] + rest)[1..] == rest;
        assert s == [c] + s[1..];
      } else {
        JoinConsHead([s[0]], rest, [c]);
        assert s == [s[0]] + s[1..];
      }
    }
  }

  /** Splitting a join of separator-free pieces gives the pieces back. */
  lemma {:induction false} SplitJoin(pieces: seq<string>, c: char)
    requires |pieces| >= 1
    requires forall i :: 0 <= i < |pieces| ==> c !in pieces[i]
    ensures Split(Join(pieces, [c]), c) == pieces
    decreases |pieces|
  {
    if |pieces| == 1 {
      SplitWithoutSeparator(pieces[0], c);
    } else {
      SplitJoin(pieces[1..], c);
      SplitAtFirst(pieces[0], c, Join(pieces[1..], [c]));
      assert pieces == [pieces[0]] + pieces[1..];
    }
  }
}
