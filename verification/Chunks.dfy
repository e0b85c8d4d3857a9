// Sequences cut into pieces of equal width.
module Chunks {
  lemma {:induction false} MulMonotone(a: nat, b: nat, w: nat)
    requires a <= b
    ensures 0 <= a * w <= b * w
    decreases b - a
  {
    if a < b {
      MulMonotone(a, b - 1, w);
      assert b * w == (b - 1) * w + w;
    }
  }

  lemma Product(k: nat, n: nat, w: nat)
    requires k < n
    ensures 0 <= k * w <= (k + 1) * w <= n * w && (k + 1) * w == k * w + w
  {
    MulMonotone(k + 1, n, w);
    assert (k + 1) * w == k * w + w;
  }

  // Piece k of b, w wide.
  function Piece<T>(b: seq<T>, w: nat, k: nat): seq<T>
    requires (k + 1) * w <= |b|
  {
    Product(k, k + 1, w);
    b[k * w..(k + 1) * w]
  }

  lemma PieceOfRest<T>(b: seq<T>, start: nat, w: nat, k: nat)
    requires start + (k + 1) * w <= |b|
    ensures var pos := start + k * w;
      pos + w <= |b| && Piece(b[start..], w, k) == b[pos..pos + w]
  {
    Product(k, k + 1, w);
  }

  function Join<T>(pieces: seq<seq<T>>): seq<T> {
    if pieces == [] then [] else pieces[0] + Join(pieces[1..])
  }

  lemma {:induction false} JoinSnoc<T>(pieces: seq<seq<T>>, last: seq<T>)
    ensures Join(pieces + [last]) == Join(pieces) + last
    decreases |pieces|
  {
    if pieces == [] {
      assert Join([last]) == last + Join([last][1..]);
    } else {
      assert (pieces + [last])[1..] == pieces[1..] + [last];
      JoinSnoc(pieces[1..], last);
      assert pieces[0] + (Join(pieces[1..]) + last) == (pieces[0] + Join(pieces[1..])) + last;
    }
  }

  lemma NextPiece<T>(header: seq<T>, pieces: seq<seq<T>>, i: nat)
    requires i < |pieces|
    ensures header + Join(pieces[..i + 1]) == header + Join(pieces[..i]) + pieces[i]
  {
    assert pieces[..i + 1] == pieces[..i] + [pieces[i]];
    JoinSnoc(pieces[..i], pieces[i]);
  }

  lemma {:induction false} JoinLength<T>(pieces: seq<seq<T>>, w: nat)
    requires forall p :: p in pieces ==> |p| == w
    ensures |Join(pieces)| == |pieces| * w
    decreases |pieces|
  {
    if pieces != [] {
      assert pieces[0] in pieces;
      JoinLength(pieces[1..], w);
      Product(0, |pieces|, w);
      assert |pieces| * w == w + (|pieces| - 1) * w;
    }
  }

  // Joined pieces come apart again, whatever follows them.
  lemma {:induction false} PieceOfJoin<T>(pieces: seq<seq<T>>, w: nat, k: nat, rest: seq<T>)
    requires forall p :: p in pieces ==> |p| == w
    requires k < |pieces|
    ensures (k + 1) * w <= |Join(pieces) + rest| && Piece(Join(pieces) + rest, w, k) == pieces[k]
    decreases |pieces|
  {
    JoinLength(pieces, w);
    Product(k, |pieces|, w);
    assert pieces[0] in pieces;
    var later := Join(pieces[1..]) + rest;
    assert Join(pieces) + rest == pieces[0] + later;
    if k > 0 {
      PieceOfJoin(pieces[1..], w, k - 1, rest);
      Product(k - 1, k, w);
      assert Piece(pieces[0] + later, w, k) == Piece(later, w, k - 1);
    }
  }
}
