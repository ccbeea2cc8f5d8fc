/** The JavaScript string primitives the watchdog relies on, over `seq<char>`:
    `split`/`join` on a one-character separator, `indexOf`, `includes`,
    `endsWith`, `replace` with a string pattern (first occurrence only) and
    `replaceAll` of one character by another. */
module Text {

  datatype Option<T> = None | Some(value: T)

  /** `p` occurs in `s` starting at index `k`. */
  predicate OccursAt(s: string, p: string, k: int)
  {
    0 <= k && k + |p| <= |s| && s[k..k + |p|] == p
  }

  /** `s.includes(p)` */
  predicate Contains(s: string, p: string)
  {
    exists k | 0 <= k <= |s| - |p| :: OccursAt(s, p, k)
  }

  /** `s.endsWith(suffix)` */
  predicate EndsWith(s: string, suffix: string)
  {
    |suffix| <= |s| && s[|s| - |suffix|..] == suffix
  }

  predicate IsPrefix<T(==)>(p: seq<T>, s: seq<T>)
  {
    |p| <= |s| && s[..|p|] == p
  }

  /** The first occurrence of `p` in `s` at or after `from`, or -1. */
  function IndexFrom(s: string, p: string, from: nat): (r: int)
    decreases |s| - from
    ensures r == -1 || (from <= r && OccursAt(s, p, r))
    ensures r == -1 ==> forall k :: from <= k ==> !OccursAt(s, p, k)
    ensures r >= 0 ==> forall k :: from <= k < r ==> !OccursAt(s, p, k)
  {
    if from + |p| > |s| then -1
    else if s[from..from + |p|] == p then from
    else IndexFrom(s, p, from + 1)
  }

  /** `s.indexOf(p)`: the first index at which `p` occurs, or -1. */
  function IndexOf(s: string, p: string): (r: int)
    ensures r == -1 <==> !Contains(s, p)
    ensures r >= 0 ==> OccursAt(s, p, r) && forall k :: 0 <= k < r ==> !OccursAt(s, p, k)
  {
    IndexFrom(s, p, 0)
  }

  /** `s.split(sep)` for a one-character separator: never empty, and no piece
      holds the separator. */
  function Split(s: string, sep: char): (r: seq<string>)
    ensures |r| >= 1
    ensures forall k :: 0 <= k < |r| ==> sep !in r[k]
  {
    if s == [] then [[]]
    else
      var rest := Split(s[1..], sep);
      if s[0] == sep then [[]] + rest
      else [[s[0]] + rest[0]] + rest[1..]
  }

  /** `pieces.join(sep)` */
  function Join(pieces: seq<string>, sep: char): string
  {
    if |pieces| == 0 then []
    else if |pieces| == 1 then pieces[0]
    else pieces[0] + [sep] + Join(pieces[1..], sep)
  }

  /** Joining starts with the first piece and ends with the last. */
  lemma {:induction false} JoinEnds(pieces: seq<string>, sep: char)
    requires pieces != []
    ensures IsPrefix(pieces[0], Join(pieces, sep)) && EndsWith(Join(pieces, sep), pieces[|pieces| - 1])
    decreases |pieces|
  {
    if |pieces| > 1 {
      JoinEnds(pieces[1..], sep);
      var rest := Join(pieces[1..], sep);
      var r := pieces[0] + [sep] + rest;
      assert r[..|pieces[0]|] == pieces[0];
      assert r[|r| - |rest|..] == rest;
      assert pieces[1..][|pieces[1..]| - 1] == pieces[|pieces| - 1];
    }
  }

  /** Joining separator-free pieces puts exactly one separator between each
      two neighbours. */
  lemma {:induction false} JoinSeparators(pieces: seq<string>, sep: char)
    requires forall k :: 0 <= k < |pieces| ==> sep !in pieces[k]
    ensures multiset(Join(pieces, sep))[sep] == if pieces == [] then 0 else |pieces| - 1
    decreases |pieces|
  {
    if |pieces| > 1 {
      JoinSeparators(pieces[1..], sep);
      var rest := Join(pieces[1..], sep);
      assert multiset(pieces[0] + [sep] + rest) == multiset(pieces[0]) + multiset([sep]) + multiset(rest);
    }
  }

  lemma {:induction false} SplitPiece(piece: string, sep: char)
    requires sep !in piece
    ensures Split(piece, sep) == [piece]
    decreases |piece|
  {
    if piece != [] {
      SplitPiece(piece[1..], sep);
      assert [piece[0]] + piece[1..] == piece;
    }
  }

  lemma {:induction false} SplitAfterPiece(piece: string, sep: char, tail: string)
    requires sep !in piece
    ensures Split(piece + [sep] + tail, sep) == [piece] + Split(tail, sep)
    decreases |piece|
  {
    var s := piece + [sep] + tail;
    if piece == [] {
      assert s[1..] == tail;
    } else {
      assert s[1..] == piece[1..] + [sep] + tail;
      SplitAfterPiece(piece[1..], sep, tail);
      assert [piece[0]] + piece[1..] == piece;
    }
  }

  /** Splitting undoes joining, as long as no piece holds the separator. */
  lemma {:induction false} SplitJoin(pieces: seq<string>, sep: char)
    requires |pieces| >= 1
    requires forall k :: 0 <= k < |pieces| ==> sep !in pieces[k]
    ensures Split(Join(pieces, sep), sep) == pieces
    decreases |pieces|
  {
    if |pieces| == 1 {
      SplitPiece(pieces[0], sep);
    } else {
      SplitJoin(pieces[1..], sep);
      SplitAfterPiece(pieces[0], sep, Join(pieces[1..], sep));
      assert [pieces[0]] + pieces[1..] == pieces;
    }
  }

  /** Joining undoes splitting. */
  lemma {:induction false} JoinSplit(s: string, sep: char)
    ensures Join(Split(s, sep), sep) == s
    decreases |s|
  {
    if s != [] {
      JoinSplit(s[1..], sep);
      var rest := Split(s[1..], sep);
      if s[0] != sep {
        if |rest| > 1 {
          assert ([[s[0]] + rest[0]] + rest[1..])[1..] == rest[1..];
        }
      }
      assert [s[0]] + s[1..] == s;
    }
  }

  /** `s.replace(p, t)` with a string pattern: only the first occurrence is
      replaced. */
  function ReplaceFirst(s: string, p: string, t: string): (r: string)
    ensures !Contains(s, p) ==> r == s
    ensures forall k :: OccursAt(s, p, k) && (forall j :: 0 <= j < k ==> !OccursAt(s, p, j)) ==>
              r == s[..k] + t + s[k + |p|..]
  {
    var k := IndexOf(s, p);
    if k < 0 then s else s[..k] + t + s[k + |p|..]
  }

  /** `s.replaceAll(a, b)` for single characters (also `s.replace(/a/g, b)`). */
  function ReplaceChar(s: string, a: char, b: char): (r: string)
    ensures |r| == |s|
    ensures forall k :: 0 <= k < |s| ==> r[k] == if s[k] == a then b else s[k]
  {
    if s == [] then []
    else [if s[0] == a then b else s[0]] + ReplaceChar(s[1..], a, b)
  }
}
