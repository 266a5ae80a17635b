/** Sequences cut at a separator and put together again, and sequences without repetition. */
module Pieces {
  ghost predicate Lacks<T>(s: seq<T>, x: T) {
    forall i :: 0 <= i < |s| ==> s[i] != x
  }

  /** Cuts at every separator; there is always a last piece, which may be empty. */
  function Split<T(==)>(s: seq<T>, separator: T): (r: seq<seq<T>>)
    ensures r != []
  {
    if s == [] then [[]]
    else
      var rest := Split(s[1..], separator);
      if s[0] == separator then [[]] + rest
      else [[s[0]] + rest[0]] + rest[1..]
  }

  function Join<T>(pieces: seq<seq<T>>, separator: T): seq<T> {
    if pieces == [] then []
    else if |pieces| == 1 then pieces[0]
    else pieces[0] + [separator] + Join(pieces[1..], separator)
  }

  lemma {:induction false} PiecesLack<T>(s: seq<T>, separator: T)
    ensures forall piece :: piece in Split(s, separator) ==> Lacks(piece, separator)
  {
    if s != [] {
      PiecesLack(s[1..], separator);
      var rest := Split(s[1..], separator);
      assert rest[0] in rest;
    }
  }

  lemma JoinCons<T>(x: T, pieces: seq<seq<T>>, separator: T)
    requires pieces != []
    ensures Join([[x] + pieces[0]] + pieces[1..], separator) == [x] + Join(pieces, separator)
    ensures Join([[]] + pieces, separator) == [separator] + Join(pieces, separator)
  {
    var all := [[x] + pieces[0]] + pieces[1..];
    assert all[1..] == pieces[1..] && ([[]] + pieces)[1..] == pieces;
  }

  /** Cutting loses nothing: joining the pieces gives the sequence back. */
  lemma {:induction false} JoinOfSplit<T>(s: seq<T>, separator: T)
    ensures Join(Split(s, separator), separator) == s
    ensures forall piece :: piece in Split(s, separator) ==> Lacks(piece, separator)
  {
    PiecesLack(s, separator);
    if s != [] {
      JoinOfSplit(s[1..], separator);
      JoinCons(s[0], Split(s[1..], separator), separator);
      assert s == [s[0]] + s[1..];
    }
  }

  /** And it is the only way to cut into pieces without separators. */
  lemma {:induction false} SplitOfJoin<T>(pieces: seq<seq<T>>, separator: T)
    requires pieces != [] && forall i :: 0 <= i < |pieces| ==> Lacks(pieces[i], separator)
    ensures Split(Join(pieces, separator), separator) == pieces
    decreases |pieces|
  {
    if |pieces| == 1 {
      SplitOne(pieces[0], separator);
    } else {
      SplitOfJoin(pieces[1..], separator);
      SplitFirst(pieces[0], separator, Join(pieces[1..], separator));
    }
  }

  lemma {:induction false} SplitOne<T>(s: seq<T>, separator: T)
    requires Lacks(s, separator)
    ensures Split(s, separator) == [s]
  {
    if s != [] {
      SplitOne(s[1..], separator);
      assert s == [s[0]] + s[1..];
    }
  }

  lemma {:induction false} SplitFirst<T>(piece: seq<T>, separator: T, rest: seq<T>)
    requires Lacks(piece, separator)
    ensures Split(piece + [separator] + rest, separator) == [piece] + Split(rest, separator)
  {
    var s := piece + [separator] + rest;
    if piece == [] {
      assert s[1..] == rest;
    } else {
      assert s[1..] == piece[1..] + [separator] + rest;
      SplitFirst(piece[1..], separator, rest);
      assert piece == [piece[0]] + piece[1..];
    }
  }

  function Without<T(==)>(s: seq<T>, x: T): seq<T> {
    if s == [] then [] else (if s[0] == x then [] else [s[0]]) + Without(s[1..], x)
  }

  lemma {:induction false} WithoutNone<T>(s: seq<T>, x: T)
    requires Lacks(s, x)
    ensures Without(s, x) == s
  {
    if s != [] {
      WithoutNone(s[1..], x);
      assert s == [s[0]] + s[1..];
    }
  }

  lemma {:induction false} WithoutSeparator<T>(a: seq<T>, x: T, b: seq<T>)
    ensures Without(a + [x] + b, x) == Without(a, x) + Without(b, x)
  {
    var s := a + [x] + b;
    if a == [] {
      assert s[0] == x && s[1..] == b;
    } else {
      assert s[0] == a[0] && s[1..] == a[1..] + [x] + b;
      WithoutSeparator(a[1..], x, b);
    }
  }

  lemma {:induction false} WithoutAppended<T>(s: seq<T>, x: T)
    ensures Without(s + [x], x) == Without(s, x)
  {
    if s == [] {
      assert (s + [x])[1..] == [];
    } else {
      assert (s + [x])[1..] == s[1..] + [x];
      WithoutAppended(s[1..], x);
    }
  }

  lemma {:induction false} WithoutKept<T>(s: seq<T>, y: T, x: T)
    requires y != x
    ensures Without(s + [y], x) == Without(s, x) + [y]
  {
    if s == [] {
      assert (s + [y])[1..] == [];
    } else {
      assert (s + [y])[1..] == s[1..] + [y];
      WithoutKept(s[1..], y, x);
    }
  }

  ghost predicate Distinct<T>(s: seq<T>) {
    forall i, j :: 0 <= i < j < |s| ==> s[i] != s[j]
  }

  lemma {:induction false} DistinctCounts<T>(s: seq<T>, x: T)
    requires Distinct(s)
    ensures multiset(s)[x] == if x in s then 1 else 0
  {
    if s != [] {
      var last := |s| - 1;
      assert s == s[..last] + [s[last]];
      DistinctCounts(s[..last], x);
    }
  }

  lemma TakeOut<T>(s: seq<T>, i: nat)
    requires i < |s|
    ensures multiset(s) == multiset(s[..i] + s[i + 1..]) + multiset{s[i]}
  {
    assert s == s[..i] + [s[i]] + s[i + 1..];
  }

  /** Without one element each, sequences of the same elements still have the same elements. */
  lemma TakeOutBoth<T>(a: seq<T>, i: nat, b: seq<T>, k: nat)
    requires i < |a| && k < |b| && a[i] == b[k] && multiset(a) == multiset(b)
    ensures multiset(a[..i] + a[i + 1..]) == multiset(b[..k] + b[k + 1..])
  {
    TakeOut(a, i);
    TakeOut(b, k);
    var x, y := multiset(a[..i] + a[i + 1..]), multiset(b[..k] + b[k + 1..]);
    assert x == multiset(a) - multiset{a[i]} && y == multiset(b) - multiset{b[k]};
  }
}
