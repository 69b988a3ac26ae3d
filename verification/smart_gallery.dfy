/**
 * The public gallery (src/components/SmartGalleryClient.tsx): filter tabs over
 * the photos the gallery pipeline returns, the placeholder for an empty list,
 * and the image labels. The selected tab is an input.
 */
module SmartGallery {
  import opened Wrappers
  import opened Seqs
  import opened Categories
  import opened Gallery

  const AllTab: string := "all"

  /** The tab values as written (SmartGalleryClient.tsx:9-14). */
  const TabsAsWritten: seq<string> := [AllTab, "CCTV/Security", "Network/Infrastructure", "Software/Development"]

  /** The tab values the tab labels evidently stand for: labels of the enumeration. */
  const Tabs: seq<string> := [AllTab, Label(CctvSecurity), Label(NetworkFiber), Label(SoftwareAi)]

  /**
   * `filtered` (SmartGalleryClient.tsx:24-27): with "all" the photos as they
   * are; otherwise exactly the photos of the chosen category, each as often as
   * in the input, in order.
   */
  function Filtered(photos: seq<GalleryImage>, active: string): (r: seq<GalleryImage>)
    ensures active == AllTab ==> r == photos
    ensures active != AllTab ==>
      IsSubsequence(r, photos) &&
      forall p :: Count(r, p) == (if Label(p.category) == active then Count(photos, p) else 0)
    ensures forall p :: p in r <==> p in photos && (active == AllTab || Label(p.category) == active)
  {
    if active == AllTab then photos else Filter(photos, (p: GalleryImage) => Label(p.category) == active)
  }

  /** A tab whose value is a label selects the photos of that category and no others. */
  lemma LabelTabSelectsCategory(photos: seq<GalleryImage>, c: Category)
    ensures forall p :: p in Filtered(photos, Label(c)) <==> p in photos && p.category == c
  {
    assert Label(c) != AllTab;
    forall p | p in photos ensures Label(p.category) == Label(c) <==> p.category == c {
      LabelInjective(p.category, c);
    }
  }

  /** Every tab but "all", as written, shows nothing, whatever the photos. */
  lemma TabsAsWrittenShowNothing(photos: seq<GalleryImage>, k: nat)
    requires 1 <= k < |TabsAsWritten|
    ensures Filtered(photos, TabsAsWritten[k]) == []
  {
    var tab := TabsAsWritten[k];
    assert FromLabel(tab).None?;
    FilterNone(photos, (p: GalleryImage) => Label(p.category) == tab);
  }

  /** With the label values, every tab but "all" finds some of the fallback photos. */
  lemma TabsShowMockPhotos(k: nat)
    requires 1 <= k < |Tabs|
    ensures Filtered(MockData(), Tabs[k]) != []
  {
    if k == 1 {
      MockShowsCategory(1, CctvSecurity);
    } else if k == 2 {
      MockShowsCategory(0, NetworkFiber);
    } else {
      MockShowsCategory(2, SoftwareAi);
    }
  }

  /** The tab of a category that fallback entry `i` has finds that entry. */
  lemma MockShowsCategory(i: nat, c: Category)
    requires i < 12 && MockCategory(i) == c
    ensures Filtered(MockData(), Label(c)) != []
  {
    var m := MockData();
    assert m[i].category == c;
    assert Label(c) != AllTab by {
      LabelRoundTrip(c);
      assert FromLabel(AllTab).None?;
    }
    LabelTabKeeps(m, i, Label(c));
  }

  /** A photo whose label is the selected tab survives the filter. */
  lemma LabelTabKeeps(photos: seq<GalleryImage>, i: nat, active: string)
    requires i < |photos| && active != AllTab && Label(photos[i].category) == active
    ensures Filtered(photos, active) != []
  {
    assert photos[i] in Filtered(photos, active);
  }

  /** What the component renders. */
  datatype View = Placeholder | Grid(items: seq<GalleryImage>)

  /**
   * What the gallery shows: the placeholder exactly when there are no photos,
   * whatever tab is active; otherwise the grid of the filtered photos, which
   * may be empty when a tab matches nothing.
   */
  function Render(photos: seq<GalleryImage>, active: string): (v: View)
    ensures v.Placeholder? <==> photos == []
    ensures v.Grid? ==> |v.items| <= |photos| && forall p :: p in v.items ==> p in photos
  {
    if |photos| == 0 then Placeholder else Grid(Filtered(photos, active))
  }

  /** `photo.description || photo.category`. */
  function AltText(p: GalleryImage): string {
    if p.description.Some? && p.description.value != "" then p.description.value else Label(p.category)
  }

  /** The label is the description when there is one, otherwise the category, and never empty. */
  lemma AltTextSpec(p: GalleryImage)
    ensures AltText(p) != ""
    ensures p.description.Some? && p.description.value != "" ==> AltText(p) == p.description.value
    ensures (p.description.None? || p.description.value == "") ==> IsLabel(AltText(p))
  {
    LabelRoundTrip(p.category);
  }
}
