/**
  The disk as a plain byte array, addressed by sector: what a transfer of a stream of
  words starting at a sector does to it and reads from it.  This is the meaning the
  device's tick machine is proved against.
 */
module SectorStore {
  import opened Arithmetic
  import opened IdeModel
  import opened IdeAddress

  /** The byte array after the words `ws` went to consecutive sectors from `first` on. */
  function Written(image: seq<int>, first: int, span: int, ws: seq<int>): (r: seq<int>)
    requires span > 0
    ensures |r| == |image|
  {
    if ws == [] then image
    else
      var k := |ws| - 1;
      var before := Written(image, first, span, ws[..k]);
      StoreWord(before, SectorPointer(before, NthSector(first, span, k / 256)), k % 256, ws[k])
  }

  /** Word k of the transfer that reads from `first` on; sectors outside read as zero. */
  function WordAt(image: seq<int>, first: int, span: int, k: nat): int
    requires span > 0
  {
    LoadWord(image, SectorPointer(image, NthSector(first, span, k / 256)), k % 256)
  }

  /** Which word of the transfer lands on byte p, counting from 0. */
  function WordOf(first: int, span: int, p: nat): int
    requires span > 0
  {
    (p / SECTOR - first) % span * 256 + p % SECTOR / 2
  }

  function ByteOf(w: int, p: nat): int {
    if p % 2 == 0 then w % 0x100 else w / 0x100 % 0x100
  }

  predicate Covered(image: seq<int>, first: int, span: int, n: int, p: nat)
    requires span > 0
  {
    p / SECTOR < span && SectorInImage(image, p / SECTOR) && WordOf(first, span, p) < n
  }

  /** The i-th sector of a transfer is s exactly when s lies i places after the first. */
  lemma SectorIndex(first: int, span: int, i: int, s: int)
    requires span > 0 && 0 <= i < span && 0 <= s < span
    ensures NthSector(first, span, i) == s <==> (s - first) % span == i
  {
    var q, q' := (first + i) / span, (s - first) / span;
    DivMod(first + i, span);
    DivMod(s - first, span);
    if NthSector(first, span, i) == s {
      assert s - first == span * (-q) + i;
      DivUnique(s - first, span, -q, i);
    }
    if (s - first) % span == i {
      assert first + i == span * (-q') + s;
      DivUnique(first + i, span, -q', s);
    }
  }

  lemma StoreWordAt(image: seq<int>, s: int, k: int, v: int, p: nat)
    requires 0 <= s && 0 <= k < 256 && p < |image|
    ensures var r := StoreWord(image, SectorPointer(image, s), k, v);
            r[p] == if SectorInImage(image, s) && p / SECTOR == s && p % SECTOR / 2 == k then ByteOf(v, p) else image[p]
  {
  }

  /** The transfer sets exactly the words of its in-range sectors and no other byte. */
  lemma {:induction false} WrittenBytes(image: seq<int>, first: int, span: int, ws: seq<int>, p: nat)
    requires span > 0 && |ws| <= 256 * span && p < |image|
    ensures Covered(image, first, span, |ws|, p) ==>
              Written(image, first, span, ws)[p] == ByteOf(ws[WordOf(first, span, p)], p)
    ensures !Covered(image, first, span, |ws|, p) ==> Written(image, first, span, ws)[p] == image[p]
  {
    if ws != [] {
      var k := |ws| - 1;
      var before := Written(image, first, span, ws[..k]);
      var s := NthSector(first, span, k / 256);
      WrittenBytes(image, first, span, ws[..k], p);
      assert 0 <= s < span by { DivMod(first + k / 256, span); }
      StoreWordAt(before, s, k % 256, ws[k], p);
      if p / SECTOR < span { SectorIndex(first, span, k / 256, p / SECTOR); }
      hide StoreWord, SectorPointer, NthSector;
    }
  }
}
