/** Byte and word order of 16-bit words, changed in place. */
module WordOperations {

  /** quint16 */
  type Word = x: int | 0 <= x < 0x1_0000

  datatype Order = BigEndian | LittleEndian

  /** Settings::PackingMode: the order of words in a value and of bytes in a word. */
  datatype PackingMode = PackingMode(words: Order, bytes: Order)

  function FlipBytes(w: Word): Word { (w % 0x100) * 0x100 + w / 0x100 }

  /** The bytes of a word in the memory of a host. */
  function BytesOf(host: Order, w: Word): seq<int> {
    if host == BigEndian then [w / 0x100, w % 0x100] else [w % 0x100, w / 0x100]
  }

  /** Flipping exchanges the high byte and the low byte, so that the word has in the memory of one host
      the bytes it had in that of the other. */
  lemma FlippedBytes(w: Word)
    ensures FlipBytes(w) % 0x100 == w / 0x100 && FlipBytes(w) / 0x100 == w % 0x100
    ensures BytesOf(BigEndian, FlipBytes(w)) == BytesOf(LittleEndian, w)
    ensures BytesOf(LittleEndian, FlipBytes(w)) == BytesOf(BigEndian, w)
  {}

  function FlipAll(ws: seq<Word>): (r: seq<Word>)
    ensures |r| == |ws|
    ensures forall i :: 0 <= i < |ws| ==> r[i] == FlipBytes(ws[i])
  {
    seq(|ws|, i requires 0 <= i < |ws| => FlipBytes(ws[i]))
  }

  function Reversed(ws: seq<Word>): (r: seq<Word>)
    ensures |r| == |ws|
    ensures forall i :: 0 <= i < |ws| ==> r[i] == ws[|ws| - 1 - i]
  {
    seq(|ws|, i requires 0 <= i < |ws| => ws[|ws| - 1 - i])
  }

  /** What applyEndianess does to the words it is given. */
  function Repacked(ws: seq<Word>, was: PackingMode, target: PackingMode): (r: seq<Word>)
    ensures |r| == |ws|
  {
    var flipped := if was.bytes != target.bytes then FlipAll(ws) else ws;
    if was.words != target.words then Reversed(flipped) else flipped
  }

  /** Repacking is undone by repacking the other way, whatever the length and the modes. */
  lemma RepackedBack(ws: seq<Word>, was: PackingMode, target: PackingMode)
    ensures Repacked(Repacked(ws, was, target), target, was) == ws
  {
    var there := Repacked(ws, was, target);
    var back := Repacked(there, target, was);
    forall i | 0 <= i < |ws| ensures back[i] == ws[i] {
      assert FlipBytes(FlipBytes(ws[i])) == ws[i];
      assert |there| == |ws| && |FlipAll(there)| == |ws|;
    }
    assert back == ws;
  }

  /** The words of a with the n words from off on replaced. */
  ghost predicate Replaced(now: seq<Word>, before: seq<Word>, off: nat, part: seq<Word>) {
    && off + |part| <= |before|
    && now == before[..off] + part + before[off + |part|..]
  }

  lemma ReplacedFrom(now: seq<Word>, before: seq<Word>, off: nat, part: seq<Word>)
    requires |now| == |before| && off + |part| <= |before|
    requires forall k :: 0 <= k < |now| ==> now[k] == if off <= k < off + |part| then part[k - off] else before[k]
    ensures Replaced(now, before, off, part)
  {}

  method FlipBytesInWords(a: array<Word>, off: nat, sizeWords: nat)
    requires off + sizeWords <= a.Length
    modifies a
    ensures Replaced(a[..], old(a[..]), off, FlipAll(old(a[..])[off..off + sizeWords]))
  {
    for i := 0 to sizeWords
      invariant forall k :: 0 <= k < a.Length ==>
        a[k] == if off <= k < off + i then FlipBytes(old(a[k])) else old(a[k])
    {
      a[off + i] := FlipBytes(a[off + i]);
    }
  }

  /** std::reverse on a range of the array. */
  method ReverseWords(a: array<Word>, off: nat, sizeWords: nat)
    requires off + sizeWords <= a.Length
    modifies a
    ensures Replaced(a[..], old(a[..]), off, Reversed(old(a[..])[off..off + sizeWords]))
  {
    var first, last := off, off + sizeWords;
    while first + 1 < last
      invariant off <= first && first - off == off + sizeWords - last
      invariant first <= last + 1
      invariant forall k :: 0 <= k < a.Length ==>
        a[k] == if off <= k < first || last <= k < off + sizeWords then old(a[off + sizeWords - 1 - (k - off)])
                else old(a[k])
      decreases last - first
    {
      last := last - 1;
      a[first], a[last] := a[last], a[first];
      first := first + 1;
    }
    hide Replaced;
    ReplacedFrom(a[..], old(a[..]), off, Reversed(old(a[..])[off..off + sizeWords]));
  }

  method ApplyEndianess(a: array<Word>, off: nat, sizeWords: nat, was: PackingMode, target: PackingMode)
    requires off + sizeWords <= a.Length
    modifies a
    ensures Replaced(a[..], old(a[..]), off, Repacked(old(a[..])[off..off + sizeWords], was, target))
  {
    hide FlipBytes;
    ghost var before := a[..];
    ghost var part := before[off..off + sizeWords];
    ghost var flipped := if was.bytes != target.bytes then FlipAll(part) else part;
    if was.bytes != target.bytes {
      FlipBytesInWords(a, off, sizeWords);
    }
    ghost var mid := a[..];
    assert Replaced(mid, before, off, flipped);
    if was.words != target.words {
      ReverseWords(a, off, sizeWords);
      ReplacedTwice(a[..], mid, before, off, flipped, Reversed(mid[off..off + sizeWords]));
    }
  }

  lemma ReplacedTwice(now: seq<Word>, mid: seq<Word>, before: seq<Word>, off: nat, p: seq<Word>, q: seq<Word>)
    requires Replaced(mid, before, off, p) && Replaced(now, mid, off, q) && |p| == |q|
    ensures Replaced(now, before, off, q) && mid[off..off + |p|] == p
  {}
}
