/**
 Where on a word the data sections begin. Sections of byte-aligned items may end anywhere, and the next
 section of word-aligned items is begun there, before its first item is aligned.
 */
module Placement {
  import opened Leb128
  import opened Streams
  import opened Sections
  import opened CodeItems
  import opened DexIr
  import opened FileLayout

  function Total(items: seq<seq<byte>>): nat {
    if items == [] then 0 else Total(items[..|items| - 1]) + |items[|items| - 1]|
  }

  /** The bytes of a section's items, which do not depend on any offset where this is used. */
  function SizeOf(ir: Ir, k: Section): nat
    requires Valid(ir)
  {
    Total(Items(ir, map[], k))
  }

  function LastCodeSize(ir: Ir): nat
    requires Valid(ir)
  {
    if ir.codeItems == [] then 0 else |Items(ir, map[], CodeSection)[|ir.codeItems| - 1]|
  }

  /** The bytes since the last word-aligned item before the annotation sets. */
  function LooseBytes(ir: Ir): nat
    requires Valid(ir)
  {
    LastCodeSize(ir) + SizeOf(ir, DebugInfos) + SizeOf(ir, EncodedArrays) + SizeOf(ir, Annotations)
  }

  /** No word-aligned item is written between the annotations and section k. */
  predicate ComesFirst(ir: Ir, k: Section) {
    match k
    case AnnotationSets => true
    case SetRefLists => ir.annotationSets == []
    case Directories => ir.annotationSets == [] && ir.setRefLists == []
    case TypeLists => ir.annotationSets == [] && ir.setRefLists == [] && ir.directories == []
    case _ => false
  }

  /** Section k is begun before the alignment of its first item. */
  predicate Misplaced(ir: Ir, k: Section)
    requires Valid(ir)
  {
    ComesFirst(ir, k) && LooseBytes(ir) % 4 != 0
  }

  /** Where on a word section k is begun. */
  function Phase(ir: Ir, k: Section): nat
    requires Valid(ir)
  {
    if k == DebugInfos then LastCodeSize(ir) % 4
    else if k == EncodedArrays then (LastCodeSize(ir) + SizeOf(ir, DebugInfos)) % 4
    else if k == Annotations then (LastCodeSize(ir) + SizeOf(ir, DebugInfos) + SizeOf(ir, EncodedArrays)) % 4
    else if ComesFirst(ir, k) then LooseBytes(ir) % 4
    else 0
  }

  function Following(k: Section): Section {
    match k
    case CodeSection => DebugInfos
    case DebugInfos => EncodedArrays
    case EncodedArrays => Annotations
    case Annotations => AnnotationSets
    case AnnotationSets => SetRefLists
    case SetRefLists => Directories
    case _ => TypeLists
  }

  lemma {:induction false} LooseImage(pos: nat, items: seq<seq<byte>>)
    ensures |Image(pos, 1, items)| == Total(items)
  {
    if items != [] {
      LooseImage(pos, items[..|items| - 1]);
    }
  }

  lemma {:induction false} SameItems(ir: Ir, off: Offsets, k: Section)
    requires Valid(ir) && Mentions(k) == {}
    ensures Items(ir, off, k) == Items(ir, map[], k)
  {
    hide Valid, Serialize;
    OrderIsPermutation(ir, k);
    forall i | 0 <= i < Count(ir, k)
      ensures Items(ir, off, k)[i] == Items(ir, map[], k)[i]
    {
      SerializeAgrees(ir, off, map[], Ref(k, Order(ir, k)[i]));
    }
  }

  lemma {:induction false} LastItemEnds(pos: nat, items: seq<seq<byte>>)
    requires items != []
    ensures (pos + |Image(pos, 4, items)|) % 4 == |items[|items| - 1]| % 4
  {
    hide Image;
    var n := |items| - 1;
    ImageStep(pos, 4, items, n);
    assert items[..n + 1] == items;
  }

  lemma {:induction false} CodeEnds(ir: Ir, off: Offsets, pos: nat)
    requires Valid(ir) && pos % 4 == 0
    ensures (pos + |Image(pos, 4, Items(ir, off, CodeSection))|) % 4 == LastCodeSize(ir) % 4
  {
    hide Valid, Serialize;
    if ir.codeItems != [] {
      hide Image;
      OrderIsPermutation(ir, CodeSection);
      var n := |ir.codeItems| - 1;
      LastItemEnds(pos, Items(ir, off, CodeSection));
      ReservedSize(ir, off, map[], Ref(CodeSection, Order(ir, CodeSection)[n]));
    }
  }

  lemma {:induction false} WordItem(ir: Ir, off: Offsets, r: Ref)
    requires Valid(ir) && r.index < Count(ir, r.section) && r.section in {AnnotationSets, SetRefLists, Directories}
    ensures |Serialize(ir, off, r)| % 4 == 0
  {
    hide Valid, SetWords, SetRefWords, EntryWords;
  }

  lemma {:induction false} WordsEnd(ir: Ir, off: Offsets, k: Section, pos: nat)
    requires Valid(ir) && k in {AnnotationSets, SetRefLists, Directories} && Count(ir, k) != 0
    ensures (pos + |Image(pos, 4, Items(ir, off, k))|) % 4 == 0
  {
    hide Valid, Serialize, Image;
    OrderIsPermutation(ir, k);
    LastItemEnds(pos, Items(ir, off, k));
    WordItem(ir, off, Ref(k, Order(ir, k)[Count(ir, k) - 1]));
  }

  lemma {:induction false} SamePhase(a: nat, b: nat, n: nat)
    requires a % 4 == b % 4
    ensures (a + n) % 4 == (b + n) % 4
  {
  }

  lemma {:induction false} LooseOnward(ir: Ir, off: Offsets, k: Section, pos: nat)
    requires Valid(ir) && pos % 4 == Phase(ir, k) && k in {DebugInfos, EncodedArrays, Annotations}
    ensures (pos + |Image(pos, Alignment(k), Items(ir, off, k))|) % 4 == Phase(ir, Following(k))
  {
    hide Valid, Items, Image, LastCodeSize, SizeOf;
    LooseEnds(ir, off, k, pos);
    var before := LastCodeSize(ir);
    if k != DebugInfos { before := before + SizeOf(ir, DebugInfos); }
    if k == Annotations { before := before + SizeOf(ir, EncodedArrays); }
    SamePhase(pos, before, SizeOf(ir, k));
  }

  /** From one section to the next. */
  lemma {:induction false} Onward(ir: Ir, off: Offsets, k: Section, pos: nat)
    requires Valid(ir) && pos % 4 == Phase(ir, k)
    requires k in {CodeSection, DebugInfos, EncodedArrays, Annotations, AnnotationSets, SetRefLists, Directories}
    ensures (pos + |Image(pos, Alignment(k), Items(ir, off, k))|) % 4 == Phase(ir, Following(k))
  {
    hide Valid, Items, Image, LastCodeSize, LooseBytes, SizeOf;
    if k == CodeSection {
      CodeEnds(ir, off, pos);
    } else if k in {DebugInfos, EncodedArrays, Annotations} {
      LooseOnward(ir, off, k, pos);
    } else if Count(ir, k) == 0 {
      NoneToWrite(pos, Items(ir, off, k));
    } else {
      WordsEnd(ir, off, k, pos);
    }
  }

  lemma {:induction false} LooseEnds(ir: Ir, off: Offsets, k: Section, pos: nat)
    requires Valid(ir) && k in {DebugInfos, EncodedArrays, Annotations}
    ensures |Image(pos, Alignment(k), Items(ir, off, k))| == SizeOf(ir, k)
  {
    hide Valid, Items, Image, Total;
    SameItems(ir, off, k);
    LooseImage(pos, Items(ir, map[], k));
  }

  lemma {:induction false} NoneToWrite(pos: nat, items: seq<seq<byte>>)
    requires |items| == 0
    ensures Image(pos, 4, items) == []
  {
  }
}
