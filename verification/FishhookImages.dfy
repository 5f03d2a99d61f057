/** fishhook over the arrays of symbol pointers of the loaded images; see Fishhook for what it comes to. */
module FishhookImages {
  import opened Basics
  import opened Fishhook

  datatype SectionKind = LazySymbolPointers | NonLazySymbolPointers | OtherKind

  function Flatten(ls: seq<seq<Slot>>): seq<Slot> {
    if ls == [] then [] else ls[0] + Flatten(ls[1..])
  }

  function ReboundLists(bs: seq<Batch>, ls: seq<seq<Slot>>): seq<seq<Slot>> {
    seq(|ls|, i requires 0 <= i < |ls| => ReboundAll(bs, ls[i]))
  }

  lemma {:induction false} ReboundFlatten(bs: seq<Batch>, ls: seq<seq<Slot>>)
    ensures Flatten(ReboundLists(bs, ls)) == ReboundAll(bs, Flatten(ls))
    decreases |ls|
  {
    if ls != [] {
      ReboundFlatten(bs, ls[1..]);
      assert ReboundLists(bs, ls)[1..] == ReboundLists(bs, ls[1..]);
    }
  }

  lemma {:induction false} FlattenEnd(ls: seq<seq<Slot>>, l: seq<Slot>)
    ensures Flatten(ls + [l]) == Flatten(ls) + l
    decreases |ls|
  {
    if ls == [] {
      assert [l][1..] == [] && [] + [l] == [l];
    } else {
      FlattenEnd(ls[1..], l);
      assert (ls + [l])[1..] == ls[1..] + [l];
    }
  }

  /** The saved pointers after one more list. */
  lemma SavedEnd(bs: seq<Batch>, ls: seq<seq<Slot>>, k: nat, saved: Saved)
    requires k < |ls|
    ensures SavedByAll(bs, Flatten(ls[..k + 1]), saved) == SavedByAll(bs, ls[k], SavedByAll(bs, Flatten(ls[..k]), saved))
  {
    assert ls[..k + 1] == ls[..k] + [ls[k]];
    FlattenEnd(ls[..k], ls[k]);
    SavedConcat(bs, Flatten(ls[..k]), ls[k], saved);
  }

  lemma {:induction false} IneligibleIsIdle(bs: seq<Batch>, slots: seq<Slot>, saved: Saved)
    requires forall s | s in slots :: !s.eligible
    ensures ReboundAll(bs, slots) == slots && SavedByAll(bs, slots, saved) == saved
    decreases |slots|
  {
    if slots != [] {
      assert slots[0] in slots;
      IneligibleIsIdle(bs, slots[1..], saved);
      assert forall i | 0 <= i < |slots| :: slots[i] in slots;
    }
  }

  /** The first k lists rebound, the others as they were. */
  function Upto(bs: seq<Batch>, ls: seq<seq<Slot>>, k: nat): (r: seq<seq<Slot>>)
    requires k <= |ls|
    ensures |r| == |ls|
  {
    ReboundLists(bs, ls[..k]) + ls[k..]
  }

  lemma UptoEnds(bs: seq<Batch>, ls: seq<seq<Slot>>)
    ensures Upto(bs, ls, 0) == ls && Upto(bs, ls, |ls|) == ReboundLists(bs, ls)
    ensures ls[..0] == [] && ls[..|ls|] == ls
    ensures forall saved :: SavedByAll(bs, Flatten([]), saved) == saved
  {
  }

  lemma OneMore(bs: seq<Batch>, ls: seq<seq<Slot>>, k: nat)
    requires k < |ls|
    ensures Upto(bs, ls, k)[k] == ls[k]
    ensures Upto(bs, ls, k + 1) == Upto(bs, ls, k)[k := ReboundAll(bs, ls[k])]
  {
  }

  class Section {
    const segname: string
    const kind: SectionKind
    const symbols: seq<Symbol>
    const protectOk: bool
    const bindings: array<Pointer>

    constructor (segname: string, kind: SectionKind, symbols: seq<Symbol>, protectOk: bool, bindings: array<Pointer>)
      ensures this.segname == segname && this.kind == kind && this.symbols == symbols
      ensures this.protectOk == protectOk && this.bindings == bindings
    {
      this.segname, this.kind, this.symbols, this.protectOk, this.bindings := segname, kind, symbols, protectOk, bindings;
    }

    predicate InDataSegment() {
      segname == "__DATA" || segname == "__DATA_CONST"
    }

    predicate IsRebindable(linkable: bool) {
      linkable && InDataSegment() && kind != OtherKind
    }

    ghost function Slots(linkable: bool): seq<Slot>
      reads bindings
      requires bindings.Length == |symbols|
    {
      seq(|symbols|, i requires 0 <= i < |symbols| && bindings.Length == |symbols| reads bindings =>
        Slot(symbols[i], IsRebindable(linkable), protectOk, bindings[i]))
    }

    /** A section's slots are eligible in both kinds of pointer sections of the two data segments of an image with tables. */
    lemma SlotIs(linkable: bool, i: nat)
      requires bindings.Length == |symbols| && i < |symbols|
      ensures var s := Slots(linkable)[i];
        && s.symbol == symbols[i] && s.protectOk == protectOk && s.value == bindings[i]
        && (s.eligible <==> linkable && (segname == "__DATA" || segname == "__DATA_CONST")
                            && (kind == LazySymbolPointers || kind == NonLazySymbolPointers))
    {
      assert kind == LazySymbolPointers || kind == NonLazySymbolPointers || kind == OtherKind;
      assert Slots(linkable)[i] == Slot(symbols[i], IsRebindable(linkable), protectOk, bindings[i]);
    }

    lemma NotRebindable(linkable: bool)
      requires bindings.Length == |symbols| && !IsRebindable(linkable)
      ensures forall s | s in Slots(linkable) :: !s.eligible
    {
    }
  }

  /** An image; `linkable` when `dladdr` knows it and it has its symbol tables and indirect symbols. */
  class Image {
    const linkable: bool
    const sections: seq<Section>

    constructor (linkable: bool, sections: seq<Section>)
      ensures this.linkable == linkable && this.sections == sections
    {
      this.linkable, this.sections := linkable, sections;
    }

    ghost predicate Valid() {
      && (forall k | 0 <= k < |sections| :: sections[k].bindings.Length == |sections[k].symbols|)
      && (forall k, m | 0 <= k < m < |sections| :: sections[k].bindings != sections[m].bindings)
    }

    ghost function Arrays(): set<object> {
      set k | 0 <= k < |sections| :: sections[k].bindings
    }

    ghost function Lists(): (ls: seq<seq<Slot>>)
      reads Arrays()
      requires Valid()
      ensures |ls| == |sections|
    {
      seq(|sections|, k requires 0 <= k < |sections| && Valid() reads Arrays() => sections[k].Slots(linkable))
    }

    ghost function Slots(): seq<Slot>
      reads Arrays()
      requires Valid()
    {
      Flatten(Lists())
    }
  }

  /** The two inner loops: batches, and rebindings of a batch. */
  method FirstMatch(bs: seq<Batch>, name: string) returns (r: Option<Rebinding>)
    ensures r == Find(bs, name)
  {
    for c := 0 to |bs|
      invariant Find(bs, name) == Find(bs[c..], name)
    {
      var cur := bs[c];
      for j := 0 to |cur|
        invariant FindInBatch(cur, name) == FindInBatch(cur[j..], name)
      {
        if cur[j].name == name {
          return Some(cur[j]);
        }
      }
      assert bs[c..][1..] == bs[c + 1..];
    }
    return None;
  }

  method PerformRebindingWithSection(bs: seq<Batch>, section: Section, saved: Saved) returns (saved': Saved)
    requires section.bindings.Length == |section.symbols| && section.IsRebindable(true)
    modifies section.bindings
    ensures section.Slots(true) == ReboundAll(bs, old(section.Slots(true)))
    ensures saved' == SavedByAll(bs, old(section.Slots(true)), saved)
  {
    saved' := saved;
    ghost var before := section.Slots(true);
    for i := 0 to |section.symbols|
      invariant forall k | 0 <= k < i :: section.bindings[k] == Rebound(bs, before[k]).value
      invariant forall k | i <= k < |section.symbols| :: section.bindings[k] == before[k].value
      invariant SavedByAll(bs, before, saved) == SavedByAll(bs, before[i..], saved')
    {
      assert before[i..][0] == before[i] && before[i..][1..] == before[i + 1..];
      var symbol := section.symbols[i];
      if symbol.AbsoluteOrLocal? {
        continue;
      }
      if |symbol.name| > 1 {
        var r := FirstMatch(bs, symbol.name[1..]);
        if r.Some? {
          if r.value.replaced.Some? && section.bindings[i] != r.value.replacement {
            saved' := saved'[r.value.replaced.value := section.bindings[i]];
          }
          if section.protectOk {
            section.bindings[i] := r.value.replacement;
          }
        }
      }
    }
  }

  /** An image that cannot be linked has nothing to rebind. */
  lemma UnlinkedIsIdle(bs: seq<Batch>, image: Image, saved: Saved)
    requires image.Valid() && !image.linkable
    ensures image.Slots() == ReboundAll(bs, image.Slots()) && saved == SavedByAll(bs, image.Slots(), saved)
  {
    hide ReboundAll, SavedByAll, Flatten;
    var lists := image.Lists();
    forall k | 0 <= k < |lists| ensures forall s: Slot | s in lists[k] :: !s.eligible {
      image.sections[k].NotRebindable(false);
    }
    AllIneligible(lists);
    IneligibleIsIdle(bs, Flatten(lists), saved);
  }

  /** One section of an image. */
  method RebindSection(bs: seq<Batch>, image: Image, k: nat, saved: Saved) returns (saved': Saved)
    requires image.Valid() && image.linkable && k < |image.sections|
    modifies image.sections[k].bindings
    ensures image.Lists() == old(image.Lists())[k := ReboundAll(bs, old(image.Lists())[k])]
    ensures saved' == SavedByAll(bs, old(image.Lists())[k], saved)
  {
    hide ReboundAll, SavedByAll;
    var section := image.sections[k];
    ghost var before := image.Lists();
    assert before[k] == section.Slots(true);
    if section.InDataSegment() && (section.kind == LazySymbolPointers || section.kind == NonLazySymbolPointers) {
      saved' := PerformRebindingWithSection(bs, section, saved);
      assert forall m | 0 <= m < |image.sections| && m != k :: image.sections[m].Slots(true) == before[m];
    } else {
      saved' := saved;
      section.NotRebindable(true);
      IneligibleIsIdle(bs, before[k], saved);
    }
  }

  method RebindSymbolsForImage(bs: seq<Batch>, image: Image, saved: Saved) returns (saved': Saved)
    requires image.Valid()
    modifies image.Arrays()
    ensures image.Slots() == ReboundAll(bs, old(image.Slots()))
    ensures saved' == SavedByAll(bs, old(image.Slots()), saved)
  {
    hide Flatten, ReboundAll, SavedByAll, Upto, ReboundLists;
    saved' := saved;
    if !image.linkable {
      UnlinkedIsIdle(bs, image, saved);
      return;
    }
    ghost var before := image.Lists();
    UptoEnds(bs, before);
    for k := 0 to |image.sections|
      invariant image.Lists() == Upto(bs, before, k)
      invariant saved' == SavedByAll(bs, Flatten(before[..k]), saved)
    {
      SavedEnd(bs, before, k, saved);
      OneMore(bs, before, k);
      assert image.sections[k].bindings in image.Arrays();
      saved' := RebindSection(bs, image, k, saved');
    }
    ReboundFlatten(bs, before);
  }

  lemma {:induction false} AllIneligible(ls: seq<seq<Slot>>)
    requires forall k | 0 <= k < |ls| :: forall s: Slot | s in ls[k] :: !s.eligible
    ensures forall s | s in Flatten(ls) :: !s.eligible
    decreases |ls|
  {
    if ls != [] {
      AllIneligible(ls[1..]);
    }
  }

  /** The process-wide state of fishhook and of the image list of dyld. */
  class Dyld {
    var rebindings: seq<Batch>
    var images: seq<Image>
    var saved: Saved

    ghost predicate Valid()
      reads this
    {
      && (forall k | 0 <= k < |images| :: images[k].Valid())
      && (forall k, m | 0 <= k < m < |images| :: images[k].Arrays() !! images[m].Arrays())
    }

    ghost function Arrays(): set<object>
      reads this
    {
      set k, a | 0 <= k < |images| && a in images[k].Arrays() :: a
    }

    ghost function Lists(): (ls: seq<seq<Slot>>)
      reads this, Arrays()
      requires Valid()
      ensures |ls| == |images|
    {
      seq(|images|, k requires 0 <= k < |images| && Valid() reads this, Arrays() => images[k].Slots())
    }

    ghost function State(): Process
      reads this, Arrays()
      requires Valid()
    {
      Process(rebindings, Flatten(Lists()), saved)
    }

    constructor ()
      ensures Valid() && State() == Process([], [], map[])
    {
      rebindings, images, saved := [], [], map[];
    }

    /** The callback on one image. */
    method RebindImage(k: nat)
      requires Valid() && k < |images|
      modifies this`saved, images[k].Arrays()
      ensures Valid() && Lists() == old(Lists())[k := ReboundAll(rebindings, old(Lists())[k])]
      ensures saved == SavedByAll(rebindings, old(Lists())[k], old(saved))
    {
      ghost var before := Lists();
      saved := RebindSymbolsForImage(rebindings, images[k], saved);
      forall m | 0 <= m < |images| && m != k ensures images[m].Slots() == before[m] {
        assert images[m].Arrays() !! images[k].Arrays();
      }
    }

    /** The callback on every image: by registration the first time, by a loop later. */
    method RebindAllImages()
      requires Valid()
      modifies this`saved, Arrays()
      ensures Valid()
      ensures var p := old(State());
              State() == Process(p.batches, ReboundAll(p.batches, p.slots), SavedByAll(p.batches, p.slots, p.saved))
    {
      hide Flatten, ReboundAll, SavedByAll, Upto, ReboundLists;
      ghost var before := Lists();
      UptoEnds(rebindings, before);
      for k := 0 to |images|
        invariant Valid()
        invariant Lists() == Upto(rebindings, before, k)
        invariant saved == SavedByAll(rebindings, Flatten(before[..k]), old(saved))
      {
        SavedEnd(rebindings, before, k, old(saved));
        OneMore(rebindings, before, k);
        InArrays(k);
        RebindImage(k);
      }
      assert before[..|before|] == before;
      ReboundFlatten(rebindings, before);
    }

    lemma InArrays(k: nat)
      requires k < |images|
      ensures images[k].Arrays() <= Arrays()
    {
    }

    method RebindSymbols(batch: Batch)
      requires Valid()
      modifies this`rebindings, this`saved, Arrays()
      ensures Valid() && State() == Step(old(State()), Rebind(batch))
    {
      rebindings := [batch] + rebindings;
      assert Lists() == old(Lists());
      RebindAllImages();
    }

    /** dyld adds an image to its list. */
    method Append(image: Image)
      requires Valid() && image.Valid() && forall k | 0 <= k < |images| :: images[k].Arrays() !! image.Arrays()
      modifies this`images
      ensures Valid() && images == old(images) + [image]
      ensures Lists() == old(Lists()) + [image.Slots()]
    {
      images := images + [image];
    }

    method AddImage(image: Image)
      requires Valid() && image.Valid() && forall k | 0 <= k < |images| :: images[k].Arrays() !! image.Arrays()
      modifies this`images, this`saved, image.Arrays()
      ensures Valid() && State() == Step(old(State()), Load(old(image.Slots())))
    {
      ghost var before, slots := Lists(), image.Slots();
      Append(image);
      FlattenEnd(before, slots);
      if rebindings != [] {
        RebindImage(|images| - 1);
        FlattenEnd(before, ReboundAll(rebindings, slots));
        assert Lists() == before + [ReboundAll(rebindings, slots)];
      }
    }
  }
}
