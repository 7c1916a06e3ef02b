/**
 * lazy_string_concat_helper: a concatenation that is only carried out when converted to
 * a string. Each `+` puts the new piece in front of the helper built so far; the
 * conversion allocates the final length once and copies the pieces in from the end,
 * newest piece last.
 */
module LazyStrings {
  import opened Text

  /** The helper: no pieces, or the newest piece in front of the older ones. */
  datatype LazyConcat = Empty | Cons(data: Str, tail: LazyConcat)

  /** The text the helper stands for: the pieces in the order they were added. */
  function Contents(h: LazyConcat): Str
  {
    match h
    case Empty => []
    case Cons(data, tail) => Contents(tail) + data
  }

  /** size: the lengths of all pieces added up. */
  function Size(h: LazyConcat): nat
  {
    match h
    case Empty => 0
    case Cons(data, tail) => |data| + Size(tail)
  }

  /** size() is the length of the text the helper stands for. */
  lemma {:induction false} SizeIsLength(h: LazyConcat)
    ensures Size(h) == |Contents(h)|
  {
    match h
    case Empty =>
    case Cons(data, tail) => SizeIsLength(tail);
  }

  /** operator+: the new piece goes in front; the helper it was added to becomes the tail unchanged. */
  function Plus(h: LazyConcat, other: Str): (r: LazyConcat)
    ensures r.Cons? && r.data == other && r.tail == h
  {
    Cons(other, h)
  }

  /** Adding a piece appends it to the text and its length to the size. */
  lemma PlusAppends(h: LazyConcat, other: Str)
    ensures Contents(Plus(h, other)) == Contents(h) + other
    ensures Size(Plus(h, other)) == Size(h) + |other|
  {
  }

  /** Pieces added one after another, as a chain of `+` starting from the empty helper. */
  function Chain(pieces: seq<Str>): (h: LazyConcat)
  {
    if pieces == [] then Empty else Plus(Chain(pieces[..|pieces| - 1]), pieces[|pieces| - 1])
  }

  /** The concatenation of some pieces, oldest first. */
  function Concat(pieces: seq<Str>): Str
  {
    if pieces == [] then [] else Concat(pieces[..|pieces| - 1]) + pieces[|pieces| - 1]
  }

  /** A chain of `+` stands for the plain concatenation of its pieces. */
  lemma {:induction false} ChainContents(pieces: seq<Str>)
    ensures Contents(Chain(pieces)) == Concat(pieces)
    decreases |pieces|
  {
    if pieces != [] {
      ChainContents(pieces[..|pieces| - 1]);
    }
  }

  /** std::copy of `data` into `a` starting at `begin`. */
  method CopyInto(data: Str, a: array<char>, begin: nat)
    requires begin + |data| <= a.Length
    modifies a
    ensures a[begin..begin + |data|] == data
    ensures forall i :: 0 <= i < a.Length && !(begin <= i < begin + |data|) ==> a[i] == old(a[i])
  {
    var k := 0;
    while k < |data|
      invariant 0 <= k <= |data|
      invariant a[begin..begin + k] == data[..k]
      invariant forall i :: 0 <= i < a.Length && !(begin <= i < begin + k) ==> a[i] == old(a[i])
    {
      a[begin + k] := data[k];
      k := k + 1;
    }
  }

  /**
   * save: writes the text into the Size(h) cells that end at `end`, the newest piece
   * last, and touches no other cell.
   */
  method Save(h: LazyConcat, a: array<char>, end: nat)
    requires Size(h) <= end <= a.Length
    modifies a
    ensures a[end - Size(h)..end] == Contents(h)
    ensures forall i :: 0 <= i < a.Length && !(end - Size(h) <= i < end) ==> a[i] == old(a[i])
    decreases h
  {
    match h
    case Empty =>
    case Cons(data, tail) =>
      var begin := end - |data|;
      CopyInto(data, a, begin);
      ghost var copied := a[begin..end];
      Save(tail, a, begin);
      assert a[begin..end] == copied == data;
      assert a[end - Size(h)..end] == a[end - Size(h)..begin] + a[begin..end];
  }

  /** The conversion to std::string: a buffer of the final length, filled by save from its end. */
  method ToString(h: LazyConcat) returns (s: Str)
    ensures s == Contents(h)
    ensures |s| == Size(h)
  {
    var a := new char[Size(h)](_ => '\0');
    Save(h, a, a.Length);
    s := a[..];
    assert a[..] == a[0..a.Length];
  }
}
