/** The bitmap of physical frames in kernel/src/memory_managment/paging.c: one bit a frame, 32 to a word. */
module FrameBitmap {
  import opened Machine

  const FULL: bv32 := 0xFFFF_FFFF

  /** 0x1 << j */
  function Mask(j: nat): bv32
    requires j < 32
  {
    (1 as bv32) << j
  }

  predicate Has(w: bv32, m: bv32) {
    w & m != 0
  }

  /** w |= m */
  function With(w: bv32, m: bv32): bv32 {
    w | m
  }

  /** w &= ~m */
  function Without(w: bv32, m: bv32): bv32 {
    w & !m
  }

  predicate Bit(w: bv32, j: nat)
    requires j < 32
  {
    Has(w, Mask(j))
  }

  predicate Taken(words: seq<bv32>, f: int) {
    0 <= f < 32 * |words| && Bit(words[f / 32], f % 32)
  }

  /** The frames in use. */
  ghost function Busy(words: seq<bv32>): set<int> {
    set f | 0 <= f < 32 * |words| && Taken(words, f)
  }

  // ---------------------------------------------------------------- single words

  lemma MaskNonzero(j: nat)
    requires j < 32
    ensures Mask(j) != 0
  {
  }

  lemma MasksApart(j: nat, k: nat)
    requires j < 32 && k < 32 && j != k
    ensures Mask(j) & Mask(k) == 0
  {
  }

  lemma WithKeeps(w: bv32, m: bv32, n: bv32)
    requires m & n == 0
    ensures Has(With(w, m), n) <==> Has(w, n)
  {
  }

  lemma WithSets(w: bv32, m: bv32)
    requires m != 0
    ensures Has(With(w, m), m)
  {
  }

  lemma WithoutKeeps(w: bv32, m: bv32, n: bv32)
    requires m & n == 0
    ensures Has(Without(w, m), n) <==> Has(w, n)
  {
  }

  lemma WithoutClears(w: bv32, m: bv32)
    ensures !Has(Without(w, m), m)
  {
  }

  lemma FullHas(m: bv32)
    requires m != 0
    ensures Has(FULL, m)
  {
  }

  /** `|= 0x1 << j` sets bit j and no other. */
  lemma SetBit(w: bv32, j: nat, k: nat)
    requires j < 32 && k < 32
    ensures Bit(With(w, Mask(j)), k) <==> k == j || Bit(w, k)
  {
    hide Mask, Has, With;
    if k == j {
      MaskNonzero(j);
      WithSets(w, Mask(j));
    } else {
      MasksApart(j, k);
      WithKeeps(w, Mask(j), Mask(k));
    }
  }

  /** `&= ~(0x1 << j)` clears bit j and no other. */
  lemma ClearBit(w: bv32, j: nat, k: nat)
    requires j < 32 && k < 32
    ensures Bit(Without(w, Mask(j)), k) <==> k != j && Bit(w, k)
  {
    hide Mask, Has, Without;
    if k == j {
      WithoutClears(w, Mask(j));
    } else {
      MasksApart(j, k);
      WithoutKeeps(w, Mask(j), Mask(k));
    }
  }

  lemma FullBit(k: nat)
    requires k < 32
    ensures Bit(FULL, k)
  {
    hide Mask, Has;
    MaskNonzero(k);
    FullHas(Mask(k));
  }

  /** Bit 0 has the value 1, and each bit twice the value of the one before. */
  lemma MaskDoubles(j: nat)
    requires j < 31
    ensures Mask(0) == 1 && Mask(j + 1) == Mask(j) + Mask(j)
  {
  }

  /** Frame 32 * i + j is bit j of word i. */
  lemma TakenIs(words: seq<bv32>, i: nat, j: nat)
    requires i < |words| && j < 32
    ensures Taken(words, 32 * i + j) <==> words[i] & Mask(j) != 0
  {
    hide Taken, Mask;
    BitAt(words, i, j);
  }

  // ---------------------------------------------------------------- the whole bitmap

  lemma SetTaken(words: seq<bv32>, f: int)
    requires 0 <= f < 32 * |words|
    ensures Busy(words[f / 32 := With(words[f / 32], Mask(f % 32))]) == Busy(words) + {f}
  {
    var after := words[f / 32 := With(words[f / 32], Mask(f % 32))];
    hide Bit, Mask, With, Without;
    forall g | 0 <= g < 32 * |words| ensures Taken(after, g) <==> g == f || Taken(words, g) {
      SetBit(words[f / 32], f % 32, g % 32);
    }
  }

  lemma ClearTaken(words: seq<bv32>, f: int)
    requires 0 <= f < 32 * |words|
    ensures Busy(words[f / 32 := Without(words[f / 32], Mask(f % 32))]) == Busy(words) - {f}
  {
    var after := words[f / 32 := Without(words[f / 32], Mask(f % 32))];
    hide Bit, Mask, With, Without;
    forall g | 0 <= g < 32 * |words| ensures Taken(after, g) <==> g != f && Taken(words, g) {
      ClearBit(words[f / 32], f % 32, g % 32);
    }
  }

  /** Position of a bit, from its word and its place in the word. */
  lemma BitAt(words: seq<bv32>, i: int, j: int)
    requires 0 <= i < |words| && 0 <= j < 32
    ensures 0 <= 32 * i + j < 32 * |words| && (Taken(words, 32 * i + j) <==> Bit(words[i], j))
  {
  }

  lemma FullWord(words: seq<bv32>, i: int)
    requires 0 <= i < |words| && words[i] == FULL
    ensures forall f :: 32 * i <= f < 32 * i + 32 ==> Taken(words, f)
  {
    hide Bit;
    forall f | 32 * i <= f < 32 * i + 32 ensures Taken(words, f) {
      FullBit(f - 32 * i);
      BitAt(words, i, f - 32 * i);
    }
  }

  class FrameMap {
    const frames: array<bv32>

    /** kmalloc and memset of nframes / 32 words. Repair of line 184: the size is in words. */
    constructor (nframes: nat)
      ensures fresh(frames) && frames.Length == nframes / 32 && Busy(frames[..]) == {}
    {
      frames := new bv32[nframes / 32](_ => 0);
      new;
      forall f | 0 <= f < 32 * frames.Length ensures !Taken(frames[..], f) {
        assert frames[..][f / 32] == 0;
      }
    }

    /** firstFrame: the lowest free frame. Repair of lines 37-46: -1 when there is none. */
    method FirstFrame() returns (frame: int)
      ensures frame == -1 <==> forall f :: 0 <= f < 32 * frames.Length ==> Taken(frames[..], f)
      ensures frame != -1 ==> 0 <= frame < 32 * frames.Length && !Taken(frames[..], frame)
                              && forall f :: 0 <= f < frame ==> Taken(frames[..], f)
    {
      hide Bit, Mask, Taken;
      ghost var words := frames[..];
      var i := 0;
      while i < frames.Length
        invariant 0 <= i <= frames.Length && forall f :: 0 <= f < 32 * i ==> Taken(words, f)
      {
        if frames[i] != FULL {
          var j := 0;
          while j < 32
            invariant 0 <= j <= 32 && forall f :: 0 <= f < 32 * i + j ==> Taken(words, f)
          {
            BitAt(words, i, j);
            if !Bit(frames[i], j) {
              frame := i * 32 + j;
              assert !Taken(frames[..], frame);
              return;
            }
            j := j + 1;
          }
        } else {
          FullWord(words, i);
        }
        i := i + 1;
      }
      frame := -1;
    }

    method SetWord(i: int, w: bv32)
      requires 0 <= i < frames.Length
      modifies frames
      ensures frames[..] == old(frames[..])[i := w]
    {
      frames[i] := w;
    }

    /** SET_FRAME */
    method SetFrame(address: int)
      requires 0 <= address / PAGE_SIZE < 32 * frames.Length
      modifies frames
      ensures Busy(frames[..]) == Busy(old(frames[..])) + {address / PAGE_SIZE}
    {
      hide Mask, Bit, Busy, Taken, With, Without;
      var f := address / PAGE_SIZE;
      SetTaken(frames[..], f);
      SetWord(f / 32, With(frames[f / 32], Mask(f % 32)));
    }

    /** CLEAR_FRAME */
    method ClearFrame(address: int)
      requires 0 <= address / PAGE_SIZE < 32 * frames.Length
      modifies frames
      ensures Busy(frames[..]) == Busy(old(frames[..])) - {address / PAGE_SIZE}
    {
      hide Mask, Bit, Busy, Taken, With, Without;
      var f := address / PAGE_SIZE;
      ClearTaken(frames[..], f);
      SetWord(f / 32, Without(frames[f / 32], Mask(f % 32)));
    }
  }
}
